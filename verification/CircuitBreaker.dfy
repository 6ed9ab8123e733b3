/** The circuit breaker link: three states, a sliding window of outcomes, and
    calls that may outlive the state they were admitted in.

    Each function on `Breaker` is what one lock-protected method body does; the
    bodies contain no suspension, so each is one step of the system. */
module CircuitBreaker {
  import opened Sequences
  import opened Wrappers

  datatype State = Closed | Open | HalfOpen

  datatype Settings = Settings(window: nat, failureThreshold: nat, resetTimeout: real)

  ghost predicate ValidSettings(t: Settings) {
    1 <= t.failureThreshold <= t.window && t.resetTimeout > 0.0
  }

  /** The link's fields; `window` holds true for a transient failure. */
  datatype Breaker = Breaker(state: State, window: seq<bool>, openedAt: real, probe: bool)

  datatype Verdict = Admitted | Rejected(retryAfter: Option<real>)

  /** How an admitted call ended. Permanent errors and cancellation are alike. */
  datatype Ending = Success | Transient | Permanent

  function Failures(window: seq<bool>): nat {
    if window == [] then 0
    else Failures(window[..|window| - 1]) + if window[|window| - 1] then 1 else 0
  }

  function Opened(b: Breaker, now: real): Breaker {
    Breaker(Open, [], now, false)
  }

  function ClosedAgain(b: Breaker): Breaker {
    b.(state := Closed, window := [], probe := false)
  }

  function Admission(t: Settings, b: Breaker, now: real): (Breaker, Verdict) {
    match b.state
    case Closed => (b, Admitted)
    case Open =>
      if now - b.openedAt >= t.resetTimeout then (b.(state := HalfOpen, probe := true), Admitted)
      else (b, Rejected(Some(t.resetTimeout - (now - b.openedAt))))
    case HalfOpen =>
      if b.probe then (b, Rejected(None)) else (b.(probe := true), Admitted)
  }

  function Completion(t: Settings, b: Breaker, ending: Ending, now: real): Breaker {
    match (ending, b.state)
    case (Success, HalfOpen) => ClosedAgain(b)
    case (Success, Closed) => b.(window := LastN(b.window + [false], t.window))
    case (Transient, HalfOpen) => Opened(b, now)
    case (Transient, Closed) =>
      var window := LastN(b.window + [true], t.window);
      if Failures(window) >= t.failureThreshold then Opened(b, now) else b.(window := window)
    case (Permanent, HalfOpen) => b.(probe := false)
    case _ => b
  }

  // ---------------------------------------------------------------- mutable

  /** The link with its fields updated in place. */
  class CircuitBreakerInterceptor {
    const settings: Settings
    var state: State
    var window: seq<bool>
    var openedAt: real
    var probe: bool

    ghost function Contents(): Breaker
      reads this
    {
      Breaker(state, window, openedAt, probe)
    }

    constructor (settings: Settings)
      ensures this.settings == settings && Contents() == Breaker(Closed, [], 0.0, false)
    {
      this.settings := settings;
      state, window, openedAt, probe := Closed, [], 0.0, false;
    }

    method Admit(now: real) returns (verdict: Verdict)
      modifies this
      ensures (Contents(), verdict) == Admission(settings, old(Contents()), now)
    {
      if state == Open {
        var elapsed := now - openedAt;
        if elapsed >= settings.resetTimeout {
          state := HalfOpen;
          probe := true;
          return Admitted;
        }
        return Rejected(Some(settings.resetTimeout - elapsed));
      }
      if state == HalfOpen {
        if probe {
          return Rejected(None);
        }
        probe := true;
      }
      verdict := Admitted;
    }

    method OnSuccess(now: real)
      modifies this
      ensures Contents() == Completion(settings, old(Contents()), Success, now)
    {
      if state == HalfOpen {
        Close();
      } else if state == Closed {
        Append(false);
      }
    }

    method OnError(transient: bool, now: real)
      modifies this
      ensures Contents() == Completion(settings, old(Contents()), if transient then Transient else Permanent, now)
    {
      if !transient {
        if state == HalfOpen {
          probe := false;
        }
        return;
      }
      if state == HalfOpen {
        Trip(now);
      } else if state == Closed {
        Append(true);
        if Failures(window) >= settings.failureThreshold {
          Trip(now);
        }
      }
    }

    method ForceOpen(now: real)
      modifies this
      ensures Contents() == Opened(old(Contents()), now)
    {
      Trip(now);
    }

    method Reset()
      modifies this
      ensures Contents() == ClosedAgain(old(Contents()))
    {
      if state == Closed {
        window, probe := [], false;
        return;
      }
      Close();
    }

    method Append(failure: bool)
      modifies this`window
      ensures window == LastN(old(window) + [failure], settings.window)
    {
      window := window + [failure];
      if |window| > settings.window {
        window := window[|window| - settings.window..];
      }
    }

    method Trip(now: real)
      modifies this
      ensures Contents() == Opened(old(Contents()), now) == Breaker(Open, [], now, false)
    {
      state, openedAt, window, probe := Open, now, [], false;
    }

    method Close()
      modifies this
      ensures Contents() == ClosedAgain(old(Contents())) == Breaker(Closed, [], old(openedAt), false)
    {
      state, window, probe := Closed, [], false;
    }
  }

  // ----------------------------------------------------------- interleaving

  type CallId = nat

  /** The breaker among its running calls. A call remembers the half-open
      episode that admitted it, if one did. `episode` counts the half-open
      episodes, `strangers` the calls admitted before the current one that ended
      permanently during it, `recorded` the outcomes since the window was last
      cleared. */
  datatype System = System(
    breaker: Breaker,
    now: real,
    calls: map<CallId, Option<nat>>,
    episode: nat,
    strangers: nat,
    recorded: seq<bool>)

  datatype Event =
    | Tick(seconds: real)
    | Arrive(call: CallId)
    | End(call: CallId, ending: Ending)
    | ForceOpen
    | Reset

  ghost predicate Init(s: System) {
    s == System(Breaker(Closed, [], 0.0, false), s.now, map[], 0, 0, []) && s.now >= 0.0
  }

  ghost function AfterArrive(t: Settings, s: System, c: CallId): System {
    var (breaker, verdict) := Admission(t, s.breaker, s.now);
    if verdict.Rejected? then s
    else if s.breaker.state == Open then
      s.(breaker := breaker, calls := s.calls[c := Some(s.episode + 1)], episode := s.episode + 1, strangers := 0)
    else if s.breaker.state == HalfOpen then
      s.(breaker := breaker, calls := s.calls[c := Some(s.episode)])
    else s.(breaker := breaker, calls := s.calls[c := None])
  }

  ghost function AfterEnd(t: Settings, s: System, c: CallId, ending: Ending): System
    requires c in s.calls
  {
    var breaker := Completion(t, s.breaker, ending, s.now);
    var stranger := s.breaker.state == HalfOpen && ending == Permanent && s.calls[c] != Some(s.episode);
    var recorded :=
      if s.breaker.state != Closed || breaker.state != Closed then []
      else if ending == Permanent then s.recorded
      else s.recorded + [ending == Transient];
    s.(breaker := breaker, calls := s.calls - {c}, recorded := recorded,
       strangers := if stranger then s.strangers + 1 else s.strangers)
  }

  ghost predicate Step(t: Settings, s: System, e: Event, s': System) {
    match e
    case Tick(seconds) => seconds >= 0.0 && s' == s.(now := s.now + seconds)
    case Arrive(c) => c !in s.calls && s' == AfterArrive(t, s, c)
    case End(c, ending) => c in s.calls && s' == AfterEnd(t, s, c, ending)
    case ForceOpen => s' == s.(breaker := Opened(s.breaker, s.now), recorded := [])
    case Reset => s' == s.(breaker := ClosedAgain(s.breaker), recorded := [])
  }

  /** The running calls that the current half-open episode admitted. */
  ghost function Probes(s: System): set<CallId> {
    set c | c in s.calls && s.calls[c] == Some(s.episode)
  }

  ghost predicate ProbeBound(s: System) {
    s.breaker.state == HalfOpen ==>
      var flag := if s.breaker.probe then 1 else 0;
      flag <= |Probes(s)| <= flag + s.strangers
  }

  ghost predicate Inv(t: Settings, s: System) {
    var b := s.breaker;
    && ProbeBound(s)
    && (forall c :: c in s.calls && s.calls[c].Some? ==> s.calls[c].value <= s.episode)
    && (b.probe ==> b.state == HalfOpen)
    && (b.state == Open ==> b.openedAt <= s.now)
    && b.window == LastN(s.recorded, t.window)
    && (b.state != Closed ==> s.recorded == [])
    && Failures(b.window) < t.failureThreshold
  }

  ghost predicate Run(t: Settings, states: seq<System>, events: seq<Event>) {
    && ValidSettings(t)
    && |states| == |events| + 1
    && Init(states[0])
    && forall n :: 0 <= n < |events| ==> Step(t, states[n], events[n], states[n + 1])
  }

  lemma {:induction false} FailuresOfConcat(a: seq<bool>, b: seq<bool>)
    ensures Failures(a + b) == Failures(a) + Failures(b)
  {
    if b == [] {
      assert a + b == a;
    } else {
      assert (a + b)[..|a + b| - 1] == a + b[..|b| - 1];
      FailuresOfConcat(a, b[..|b| - 1]);
    }
  }

  /** Appending one outcome to the bounded window: it is again the recent part
      of everything recorded, and the failures grow by at most that outcome. */
  lemma WindowAppend(recorded: seq<bool>, n: nat, x: bool)
    requires n >= 1
    ensures LastN(LastN(recorded, n) + [x], n) == LastN(recorded + [x], n)
    ensures Failures(LastN(recorded + [x], n)) <= Failures(LastN(recorded, n)) + if x then 1 else 0
  {
    var window := LastN(recorded, n);
    FailuresOfConcat(window, [x]);
    assert Failures([x]) == if x then 1 else 0 by { assert [x][..0] == []; }
    if |recorded| >= n {
      assert window + [x] == [window[0]] + LastN(recorded + [x], n);
      FailuresOfConcat([window[0]], LastN(recorded + [x], n));
    }
  }

  lemma ArriveKeepsInv(t: Settings, s: System, c: CallId)
    requires ValidSettings(t) && Inv(t, s) && c !in s.calls
    ensures Inv(t, AfterArrive(t, s, c))
  {
    var s' := AfterArrive(t, s, c);
    if s.breaker.state == Open && s'.breaker.state == HalfOpen {
      assert Probes(s') == {c};
    } else if s'.calls != s.calls && s.breaker.state == HalfOpen {
      assert Probes(s') == Probes(s) + {c};
    }
  }

  lemma EndKeepsBound(t: Settings, s: System, c: CallId, ending: Ending)
    requires Inv(t, s) && c in s.calls
    ensures ProbeBound(AfterEnd(t, s, c, ending))
  {
    var s' := AfterEnd(t, s, c, ending);
    if s'.breaker.state == HalfOpen {
      assert s.breaker.state == HalfOpen && ending == Permanent;
      assert Probes(s') == Probes(s) - {c};
      OneLess(Probes(s), c);
    }
  }

  lemma OneLess(a: set<CallId>, c: CallId)
    ensures |a - {c}| == |a| - if c in a then 1 else 0
  {
    if c !in a {
      assert a - {c} == a;
    }
  }

  lemma EndKeepsInv(t: Settings, s: System, c: CallId, ending: Ending)
    requires ValidSettings(t) && Inv(t, s) && c in s.calls
    ensures Inv(t, AfterEnd(t, s, c, ending))
  {
    EndKeepsBound(t, s, c, ending);
    if s.breaker.state == Closed && ending != Permanent {
      WindowAppend(s.recorded, t.window, ending == Transient);
    }
  }

  lemma StepKeepsInv(t: Settings, s: System, e: Event, s': System)
    requires ValidSettings(t) && Inv(t, s) && Step(t, s, e, s')
    ensures Inv(t, s')
  {
    match e
    case Tick(_) => assert Probes(s') == Probes(s);
    case Arrive(c) => ArriveKeepsInv(t, s, c);
    case End(c, ending) => EndKeepsInv(t, s, c, ending);
    case _ =>
  }

  lemma {:induction false} RunKeepsInv(t: Settings, states: seq<System>, events: seq<Event>, n: nat)
    requires Run(t, states, events) && n < |states|
    ensures Inv(t, states[n])
  {
    if n > 0 {
      RunKeepsInv(t, states, events, n - 1);
      StepKeepsInv(t, states[n - 1], events[n - 1], states[n]);
    }
  }

  // ---------------------------------------------------------------- theorems

  /** The half-open guarantee. A set flag means a probe is running; the probes
      running at once exceed the flag, counted as zero or one, only by calls
      that were admitted earlier and ended permanently meanwhile; and if there
      was no such call, everyone is turned away while a probe runs. */
  lemma HalfOpenBound(t: Settings, states: seq<System>, events: seq<Event>, n: nat)
    requires Run(t, states, events) && n < |states| && states[n].breaker.state == HalfOpen
    ensures var s := states[n];
      var flag := if s.breaker.probe then 1 else 0;
      && flag <= |Probes(s)| <= flag + s.strangers
      && (s.strangers == 0 && Probes(s) != {} ==> Admission(t, s.breaker, s.now).1 == Rejected(None))
  {
    RunKeepsInv(t, states, events, n);
  }

  /** The documented promise of exactly one probe, and exactly when a call's end
      breaks it: let a probe be running and the flag be set, and let some call
      end and leave the breaker half-open. The next arrival is admitted; it runs
      beside another probe if and only if the call that ended was not the only
      probe. */
  lemma SecondProbeIff(t: Settings, s: System, c: CallId, ending: Ending, s': System, d: CallId, s'': System)
    requires ValidSettings(t) && Inv(t, s) && s.breaker.state == HalfOpen && s.breaker.probe
    requires Step(t, s, End(c, ending), s') && s'.breaker.state == HalfOpen
    requires Step(t, s', Arrive(d), s'')
    ensures d in Probes(s'')
    ensures |Probes(s'')| >= 2 <==> Probes(s) != {c}
  {
    ProbesAfterEnd(t, s, c);
    ProbesAfterArrive(t, s', d);
  }

  lemma ProbesAfterEnd(t: Settings, s: System, c: CallId)
    requires Inv(t, s) && s.breaker.state == HalfOpen && s.breaker.probe && c in s.calls
    ensures Probes(AfterEnd(t, s, c, Permanent)) == {} <==> Probes(s) == {c}
  {
    assert Probes(AfterEnd(t, s, c, Permanent)) == Probes(s) - {c};
    assert |Probes(s)| >= 1;
    if Probes(s) - {c} == {} {
      assert forall x :: x in Probes(s) ==> x == c || x in Probes(s) - {c};
      var x :| x in Probes(s);
      assert Probes(s) == {c};
    }
  }

  lemma ProbesAfterArrive(t: Settings, s: System, d: CallId)
    requires s.breaker.state == HalfOpen && !s.breaker.probe && d !in s.calls
    ensures d in Probes(AfterArrive(t, s, d))
    ensures |Probes(AfterArrive(t, s, d))| == |Probes(s)| + 1
  {
    assert Probes(AfterArrive(t, s, d)) == Probes(s) + {d};
  }

  /** Such a run exists: a call admitted while the breaker was closed ends
      permanently during the probe, and the next arrival becomes a second one. */
  lemma TwoProbesAtOnce() returns (t: Settings, states: seq<System>, events: seq<Event>)
    ensures Run(t, states, events)
    ensures var s := states[|states| - 1]; s.breaker.state == HalfOpen && |Probes(s)| == 2
  {
    t := Settings(1, 1, 1.0);
    var s0 := System(Breaker(Closed, [], 0.0, false), 0.0, map[], 0, 0, []);
    var s1 := AfterArrive(t, s0, 1);
    var s2 := AfterArrive(t, s1, 2);
    var s3 := AfterEnd(t, s2, 1, Transient);
    assert s3.breaker.state == Open by {
      assert LastN([] + [true], 1) == [true];
      FailuresOfConcat([], [true]);
    }
    var s4 := s3.(now := 1.0);
    var s5 := AfterArrive(t, s4, 3);
    var s6 := AfterEnd(t, s5, 2, Permanent);
    assert Probes(s6) == {3};
    var s7 := AfterArrive(t, s6, 4);
    ProbesAfterArrive(t, s6, 4);
    states := [s0, s1, s2, s3, s4, s5, s6, s7];
    events := [Arrive(1), Arrive(2), End(1, Transient), Tick(1.0), Arrive(3), End(2, Permanent), Arrive(4)];
  }

  /** The trip rule. In every reachable state the window is the recent part of
      what was recorded since it was last cleared, is empty unless the breaker
      is closed, and holds fewer failures than the threshold. A call's end opens
      a closed breaker exactly when it is a transient failure that brings the
      recent part to the threshold; a permanent error changes nothing there. */
  lemma TripRule(t: Settings, states: seq<System>, events: seq<Event>, n: nat)
    requires Run(t, states, events) && n < |states|
    ensures var s := states[n];
      && s.breaker.window == LastN(s.recorded, t.window)
      && (s.breaker.window != [] ==> s.breaker.state == Closed)
      && Failures(s.breaker.window) < t.failureThreshold
    ensures (n < |events| && events[n].End? && states[n].breaker.state == Closed) ==>
      var s, s', ending := states[n], states[n + 1], events[n].ending;
      && (s'.breaker.state == Open <==>
            ending == Transient && Failures(LastN(s.recorded + [true], t.window)) == t.failureThreshold)
      && s'.breaker.state != HalfOpen
      && (ending == Permanent ==> s'.breaker == s.breaker)
  {
    RunKeepsInv(t, states, events, n);
    if n < |events| {
      assert Step(t, states[n], events[n], states[n + 1]);
    }
    WindowAppend(states[n].recorded, t.window, true);
    WindowAppend(states[n].recorded, t.window, false);
  }

  /** While open, a call is admitted exactly from `reset_timeout` after the
      opening on; before that it is told how long is left, and is told the truth:
      waiting exactly that long gets it admitted. */
  lemma OpenMeans(t: Settings, states: seq<System>, events: seq<Event>, n: nat)
    requires Run(t, states, events) && n < |states| && states[n].breaker.state == Open
    ensures var s := states[n];
      var verdict := Admission(t, s.breaker, s.now).1;
      && (verdict.Admitted? <==> s.now >= s.breaker.openedAt + t.resetTimeout)
      && (verdict.Rejected? ==>
            && verdict.retryAfter.Some? && 0.0 < verdict.retryAfter.value <= t.resetTimeout
            && s.now + verdict.retryAfter.value == s.breaker.openedAt + t.resetTimeout
            && Admission(t, s.breaker, s.now + verdict.retryAfter.value).1 == Admitted)
  {
    RunKeepsInv(t, states, events, n);
  }

  /** An open breaker was opened by a step of the run, at the time it says, and
      has been open since. */
  lemma {:induction false} OpenedBy(t: Settings, states: seq<System>, events: seq<Event>, n: nat) returns (m: nat)
    requires Run(t, states, events) && n < |states| && states[n].breaker.state == Open
    ensures m < n && Opens(states, events, m) && states[n].breaker.openedAt == states[m].now
    ensures forall k :: m < k <= n ==> states[k].breaker.state == Open
    ensures forall k :: m < k < n ==> events[k] != ForceOpen
  {
    assert Step(t, states[n - 1], events[n - 1], states[n]);
    if Opens(states, events, n - 1) {
      OpeningStamps(t, states, events, n - 1);
      m := n - 1;
    } else {
      m := OpenedBy(t, states, events, n - 1);
      StaysOpen(t, states[n - 1], events[n - 1], states[n]);
    }
  }

  /** Step `m` opens the breaker, or opens it anew by hand. */
  ghost predicate Opens(states: seq<System>, events: seq<Event>, m: nat)
    requires m < |events| < |states|
  {
    states[m + 1].breaker.state == Open && (states[m].breaker.state != Open || events[m] == ForceOpen)
  }

  lemma OpeningStamps(t: Settings, states: seq<System>, events: seq<Event>, m: nat)
    requires Run(t, states, events) && m < |events| && Opens(states, events, m)
    ensures states[m + 1].breaker == Breaker(Open, [], states[m].now, false)
  {
    assert Step(t, states[m], events[m], states[m + 1]);
    RunKeepsInv(t, states, events, m);
  }

  lemma StaysOpen(t: Settings, s: System, e: Event, s': System)
    requires Step(t, s, e, s') && e != ForceOpen && s.breaker.state == Open && s'.breaker.state == Open
    ensures s'.breaker == s.breaker
  {
  }

  /** Over a whole run: from the step that opens the breaker until something is
      admitted again, at least `reset_timeout` passes, unless the breaker is
      reset by hand. */
  lemma {:induction false} QuietAfterOpening(t: Settings, states: seq<System>, events: seq<Event>, m: nat, n: nat)
    requires Run(t, states, events) && m < n < |events| && Opens(states, events, m)
    requires forall k :: m < k < n ==> events[k] != Reset && states[k + 1].calls.Keys <= states[k].calls.Keys
    ensures states[n].breaker.state == Open && states[n].breaker.openedAt >= states[m].now
    ensures events[n].Arrive? && states[n + 1].calls != states[n].calls ==>
      states[n].now >= states[m].now + t.resetTimeout
  {
    assert Step(t, states[n], events[n], states[n + 1]);
    if n == m + 1 {
      OpeningStamps(t, states, events, m);
    } else {
      QuietAfterOpening(t, states, events, m, n - 1);
      assert Step(t, states[n - 1], events[n - 1], states[n]);
      RunKeepsInv(t, states, events, n - 1);
      TimeGoesOn(t, states, events, m, n - 1);
      assert states[n].calls.Keys <= states[n - 1].calls.Keys;
    }
  }

  lemma {:induction false} TimeGoesOn(t: Settings, states: seq<System>, events: seq<Event>, m: nat, n: nat)
    requires Run(t, states, events) && m <= n < |states|
    ensures states[m].now <= states[n].now
  {
    if m < n {
      TimeGoesOn(t, states, events, m, n - 1);
      assert Step(t, states[n - 1], events[n - 1], states[n]);
    }
  }

  // -- what each step does, state by state

  /** A call that ends: in half-open a success closes the breaker, a transient
      failure opens it, and anything else frees the probe's slot; while closed
      it is recorded if it says something of the other side; while open it
      changes nothing. */
  lemma EndMeans(t: Settings, states: seq<System>, events: seq<Event>, n: nat)
    requires Run(t, states, events) && n < |events| && events[n].End?
    ensures var b, b', ending := states[n].breaker, states[n + 1].breaker, events[n].ending;
      match b.state
      case HalfOpen =>
        && (ending == Success ==> b'.state == Closed && b'.window == [] && !b'.probe)
        && (ending == Transient ==> b' == Breaker(Open, [], states[n].now, false))
        && (ending == Permanent ==> b'.state == HalfOpen && !b'.probe && b'.window == b.window)
        && (ending != Transient ==> b'.openedAt == b.openedAt)
      case Open => b' == b
      case Closed =>
        && (ending == Permanent ==> b' == b)
        && (b'.state == Closed && ending != Permanent ==>
              b'.window == LastN(b.window + [ending == Transient], t.window) && !b'.probe && b'.openedAt == b.openedAt)
        && (b'.state == Open ==> b' == Breaker(Open, [], states[n].now, false))
        && b'.state != HalfOpen
  {
    RunKeepsInv(t, states, events, n);
    assert Step(t, states[n], events[n], states[n + 1]);
  }

  /** After a successful probe the next arrival is admitted, and so are those
      after it until the breaker opens again. */
  lemma RecoversAfterSuccess(t: Settings, states: seq<System>, events: seq<Event>, m: nat, n: nat)
    requires Run(t, states, events) && m < n < |events| && events[m].End? && events[n].Arrive?
    requires states[m].breaker.state == HalfOpen && events[m].ending == Success
    requires forall k :: m < k <= n ==> states[k].breaker.state != Open
    ensures states[n].breaker.state == Closed && events[n].call in states[n + 1].calls
  {
    EndMeans(t, states, events, m);
    StaysClosed(t, states, events, m + 1, n);
    assert Step(t, states[n], events[n], states[n + 1]);
  }

  lemma {:induction false} StaysClosed(t: Settings, states: seq<System>, events: seq<Event>, m: nat, n: nat)
    requires Run(t, states, events) && m <= n < |states| && states[m].breaker.state == Closed
    requires forall k :: m <= k <= n ==> states[k].breaker.state != Open
    ensures states[n].breaker.state == Closed
  {
    if m < n {
      StaysClosed(t, states, events, m, n - 1);
      assert Step(t, states[n - 1], events[n - 1], states[n]);
    }
  }

  /** An arrival: admitted by a closed breaker, which it does not change; by an
      open one from the reset timeout on, as the first probe; by a half-open one
      when no probe has the slot, which it then takes. */
  lemma ArriveMeans(t: Settings, states: seq<System>, events: seq<Event>, n: nat)
    requires Run(t, states, events) && n < |events| && events[n].Arrive?
    ensures var b, b' := states[n].breaker, states[n + 1].breaker;
      var admitted := events[n].call in states[n + 1].calls;
      match b.state
      case Closed => admitted && b' == b
      case Open =>
        && (admitted <==> states[n].now >= b.openedAt + t.resetTimeout)
        && b' == if admitted then Breaker(HalfOpen, b.window, b.openedAt, true) else b
      case HalfOpen =>
        && (admitted <==> !b.probe)
        && b' == Breaker(HalfOpen, b.window, b.openedAt, true)
  {
    assert Step(t, states[n], events[n], states[n + 1]);
  }

  lemma ByHandMeans(t: Settings, states: seq<System>, events: seq<Event>, n: nat)
    requires Run(t, states, events) && n < |events|
    ensures events[n] == ForceOpen ==> states[n + 1].breaker == Breaker(Open, [], states[n].now, false)
    ensures events[n] == Reset ==>
      states[n + 1].breaker == Breaker(Closed, [], states[n].breaker.openedAt, false)
    ensures events[n].Tick? ==> states[n + 1].breaker == states[n].breaker
  {
    assert Step(t, states[n], events[n], states[n + 1]);
  }

  /** The count of failures is the number of places that hold one. */
  lemma {:induction false} FailuresCount(window: seq<bool>)
    ensures Failures(window) == |FailurePlaces(window)|
  {
    if window != [] {
      var n := |window| - 1;
      FailuresCount(window[..n]);
      if window[n] {
        assert FailurePlaces(window) == FailurePlaces(window[..n]) + {n};
      } else {
        assert FailurePlaces(window) == FailurePlaces(window[..n]);
      }
    } else {
      assert FailurePlaces(window) == {};
    }
  }

  ghost function FailurePlaces(window: seq<bool>): set<nat> {
    set i | 0 <= i < |window| && window[i]
  }
}
