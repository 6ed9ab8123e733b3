/** The retry link around the timeout link: exponential backoff, a limit per
    attempt, and one overall deadline that both respect.

    Time is real; sleeps and cuts are exact on one clock. A base call is an
    arbitrary duration with an arbitrary result; jitter is any delay up to the backoff. */
module RetryTimeout {
  import opened Context
  import opened Wrappers

  datatype Error = AttemptTimeout | DeadlineExceeded | Other(id: int)

  datatype ErrorClass = Transient | Permanent

  // ---------------------------------------------------------------- timeout

  /** What the wrapped call would do if left alone. When it would end exactly at
      the limit, `late` says whether the cut comes first. */
  datatype Base = Base(duration: real, error: Option<Error>, late: bool)

  /** How an attempt ended, when, and whether the wrapped call was made. */
  datatype Reply = Reply(error: Option<Error>, end: real, called: bool)

  function Limit(seconds: real, deadline: Option<real>, now: real): real {
    match Remaining(deadline, now)
    case None => seconds
    case Some(r) => if seconds <= r then seconds else r
  }

  function TimeoutCall(seconds: real, deadline: Option<real>, now: real, base: Base): Reply {
    if Expired(deadline, now) then Reply(Some(DeadlineExceeded), now, false)
    else
      var limit := Limit(seconds, deadline, now);
      if base.duration < limit || (base.duration == limit && !base.late)
      then Reply(base.error, now + base.duration, true)
      else Reply(Some(AttemptTimeout), now + limit, true)
  }

  /** An attempt never outlasts its own limit or the deadline, and has the
      wrapped call's own end and result unless one of them cuts it short; only a
      deadline that is already gone keeps the call from being made. */
  lemma TimeoutKeepsLimits(seconds: real, deadline: Option<real>, now: real, base: Base)
    requires seconds > 0.0 && base.duration >= 0.0
    ensures var r := TimeoutCall(seconds, deadline, now, base);
      && now <= r.end <= now + seconds
      && (r.called <==> !Expired(deadline, now))
      && (!r.called ==> r.end == now && r.error == Some(DeadlineExceeded))
      && (r.called && deadline.Some? ==> r.end <= deadline.value)
      && (r.called ==>
            (r.end == now + base.duration && r.error == base.error)
            || (r.error == Some(AttemptTimeout) && r.end <= now + base.duration
                && (r.end == now + seconds || Some(r.end) == deadline)))
  {
  }

  /** Nothing is cut short that would end in time. */
  lemma InTimeIsUntouched(seconds: real, deadline: Option<real>, now: real, base: Base)
    requires seconds > 0.0 && 0.0 <= base.duration < seconds
    requires deadline.Some? ==> now + base.duration < deadline.value
    ensures TimeoutCall(seconds, deadline, now, base) == Reply(base.error, now + base.duration, true)
  {
  }

  // ------------------------------------------------------------------ retry

  datatype Settings = Settings(attempts: nat, baseDelay: real, maxDelay: real, jitter: bool, retryOn: ErrorClass)

  ghost predicate ValidSettings(t: Settings) {
    t.attempts >= 1 && 0.0 <= t.baseDelay <= t.maxDelay && t.maxDelay > 0.0
  }

  function Pow2(n: nat): (r: real)
    ensures r >= 1.0
  {
    if n == 0 then 1.0 else 2.0 * Pow2(n - 1)
  }

  /** `base` times two to the power of `n`. */
  function Doubled(base: real, n: nat): (r: real)
    ensures base >= 0.0 ==> r >= 0.0
  {
    if n == 0 then base else 2.0 * Doubled(base, n - 1)
  }

  lemma {:induction false} DoubledIsProduct(base: real, n: nat)
    ensures Doubled(base, n) == base * Pow2(n)
  {
    if n > 0 {
      DoubledIsProduct(base, n - 1);
      var p := Pow2(n - 1);
      assert base * (2.0 * p) == 2.0 * (base * p);
    }
  }

  /** The backoff before attempt `next`, jitter aside. */
  function DelayCap(t: Settings, next: nat): real
    requires next >= 2
  {
    var d := Doubled(t.baseDelay, next - 2);
    if d <= t.maxDelay then d else t.maxDelay
  }

  /** The delays that `_delay_before` may return. */
  predicate PossibleDelay(t: Settings, next: nat, delay: real)
    requires next >= 2
  {
    if t.jitter then 0.0 <= delay <= DelayCap(t, next) else delay == DelayCap(t, next)
  }

  /** What the random source yields, at its `i`th use, between zero and a bound. */
  type Source = (nat, real) -> real

  ghost predicate WithinBounds(draw: Source) {
    forall i, cap :: cap >= 0.0 ==> 0.0 <= draw(i, cap) <= cap
  }

  /** The delay that the source gives after attempt `next - 1`. */
  ghost predicate Drawn(t: Settings, next: nat, draw: Source, delay: real)
    requires next >= 2
  {
    delay == if t.jitter then draw(next - 1, DelayCap(t, next)) else DelayCap(t, next)
  }

  /** One attempt as it went, with the sleep that followed it. */
  datatype Attempt = Attempt(start: real, end: real, error: Option<Error>, pause: real)

  datatype Ending =
    | Succeeded(attempts: nat, elapsed: real)
    | Exhausted(attempts: nat, last: Error)
    | Abandoned(delay: real)
    | Late
    | Propagated(error: Error)

  ghost predicate Retryable(t: Settings, classify: Error -> ErrorClass, error: Option<Error>) {
    error.Some? && classify(error.value) == t.retryOn
  }

  /** When the next attempt starts, or would start. */
  function NextStart(started: real, trace: seq<Attempt>): real {
    if trace == [] then started else trace[|trace| - 1].end + trace[|trace| - 1].pause
  }

  /** Every attempt but the last failed retryably, was followed by a sleep that
      fits in what is left, and leads to the next one; none starts expired. */
  ghost predicate Chained(t: Settings, classify: Error -> ErrorClass, deadline: Option<real>, started: real,
                          trace: seq<Attempt>)
  {
    forall i :: 0 <= i < |trace| ==>
      && trace[i].start == NextStart(started, trace[..i])
      && !Expired(deadline, trace[i].start)
      && (i < |trace| - 1 ==> SleptAfter(t, classify, deadline, trace[i], i + 2))
  }

  ghost predicate SleptAfter(t: Settings, classify: Error -> ErrorClass, deadline: Option<real>, a: Attempt, next: nat)
    requires next >= 2
  {
    && Retryable(t, classify, a.error)
    && PossibleDelay(t, next, a.pause)
    && (deadline.Some? ==> a.pause < Remaining(deadline, a.end).value)
  }

  /** Attempt number `n` ends the call in this way. */
  ghost predicate EndsWith(t: Settings, classify: Error -> ErrorClass, deadline: Option<real>, started: real,
                           n: nat, a: Attempt, ending: Ending)
  {
    match ending
    case Late => false
    case Succeeded(attempts, elapsed) => a.error == None && attempts == n && elapsed == a.end - started
    case Propagated(error) => a.error == Some(error) && !Retryable(t, classify, a.error)
    case Exhausted(attempts, last) =>
      n == t.attempts && a.error == Some(last) && Retryable(t, classify, a.error) && attempts == n
    case Abandoned(delay) =>
      && 0 < n < t.attempts && Retryable(t, classify, a.error) && PossibleDelay(t, n + 1, delay)
      && deadline.Some? && delay >= Remaining(deadline, a.end).value
  }

  /** The deadline was found gone before the next attempt. */
  ghost predicate FoundLate(t: Settings, classify: Error -> ErrorClass, deadline: Option<real>, started: real,
                            trace: seq<Attempt>, end: real)
  {
    && |trace| < t.attempts && end == NextStart(started, trace) && Expired(deadline, end)
    && (trace != [] ==> SleptAfter(t, classify, deadline, trace[|trace| - 1], |trace| + 1))
  }

  /** The whole behaviour of the link on one call, for any wrapped calls. */
  ghost predicate IsRun(t: Settings, classify: Error -> ErrorClass, deadline: Option<real>, started: real,
                        trace: seq<Attempt>, ending: Ending, end: real)
  {
    && |trace| <= t.attempts
    && Chained(t, classify, deadline, started, trace)
    && if ending == Late then FoundLate(t, classify, deadline, started, trace, end)
       else
         && trace != [] && end == trace[|trace| - 1].end
         && EndsWith(t, classify, deadline, started, |trace|, trace[|trace| - 1], ending)
  }

  /** The attempts went through the timeout link. */
  ghost predicate ThroughTimeout(seconds: real, deadline: Option<real>, env: nat -> Base, trace: seq<Attempt>) {
    forall i :: 0 <= i < |trace| ==> AttemptThrough(seconds, deadline, env(i), trace[i])
  }

  ghost predicate AttemptThrough(seconds: real, deadline: Option<real>, base: Base, a: Attempt) {
    TimeoutCall(seconds, deadline, a.start, base) == Reply(a.error, a.end, true)
  }

  ghost predicate Durations(env: nat -> Base) {
    forall i :: env(i).duration >= 0.0
  }

  /** `call` of the retry link, with the timeout link as what it wraps.
      `draw` is the random source. */
  method Call(t: Settings, classify: Error -> ErrorClass, seconds: real, deadline: Option<real>, started: real,
              env: nat -> Base, draw: Source)
    returns (ending: Ending, end: real, trace: seq<Attempt>)
    requires ValidSettings(t) && seconds > 0.0
    requires WithinBounds(draw)
    ensures IsRun(t, classify, deadline, started, trace, ending, end)
    ensures ThroughTimeout(seconds, deadline, env, trace)
    ensures PausesDrawn(t, draw, trace, |trace| - 1)
    ensures ending.Abandoned? ==> trace != [] && Drawn(t, |trace| + 1, draw, ending.delay)
  {
    var now := started;
    trace := [];
    assert SoFar(t, classify, seconds, deadline, started, env, draw, trace, now);
    for attempt := 1 to t.attempts + 1
      invariant attempt <= t.attempts && |trace| == attempt - 1
      invariant SoFar(t, classify, seconds, deadline, started, env, draw, trace, now)
    {
      if Expired(deadline, now) {
        EndsLate(t, classify, seconds, deadline, started, env, draw, trace, now);
        return Late, now, trace;
      }
      var over, made := Try(t, classify, seconds, deadline, started, now, attempt, env(attempt - 1), draw);
      OneMore(t, classify, seconds, deadline, started, env, draw, trace, now, over, made);
      trace := trace + [made];
      if over.Some? {
        return over.value, made.end, trace;
      }
      now := made.end + made.pause;
    }
    assert false;
  }

  /** The attempts so far, with the time at which the next one would start. */
  ghost predicate SoFar(t: Settings, classify: Error -> ErrorClass, seconds: real, deadline: Option<real>,
                        started: real, env: nat -> Base, draw: Source, trace: seq<Attempt>, now: real)
  {
    && now == NextStart(started, trace)
    && CanGoOn(t, classify, deadline, started, trace)
    && ThroughTimeout(seconds, deadline, env, trace)
    && PausesDrawn(t, draw, trace, |trace|)
  }

  /** What `Try` says of attempt number `attempt`. */
  ghost predicate Tried(t: Settings, classify: Error -> ErrorClass, seconds: real, deadline: Option<real>,
                        started: real, now: real, attempt: nat, base: Base, draw: Source, over: Option<Ending>,
                        made: Attempt)
    requires attempt >= 1
  {
    && made.start == now && AttemptThrough(seconds, deadline, base, made)
    && match over
       case Some(ending) =>
         && EndsWith(t, classify, deadline, started, attempt, made, ending)
         && (ending.Abandoned? ==> Drawn(t, attempt + 1, draw, ending.delay))
       case None =>
         && attempt < t.attempts && SleptAfter(t, classify, deadline, made, attempt + 1)
         && Drawn(t, attempt + 1, draw, made.pause)
  }

  lemma EndsLate(t: Settings, classify: Error -> ErrorClass, seconds: real, deadline: Option<real>, started: real,
                 env: nat -> Base, draw: Source, trace: seq<Attempt>, now: real)
    requires SoFar(t, classify, seconds, deadline, started, env, draw, trace, now) && |trace| < t.attempts
    requires Expired(deadline, now)
    ensures IsRun(t, classify, deadline, started, trace, Late, now) && PausesDrawn(t, draw, trace, |trace| - 1)
  {
  }

  lemma OneMore(t: Settings, classify: Error -> ErrorClass, seconds: real, deadline: Option<real>, started: real,
                env: nat -> Base, draw: Source, trace: seq<Attempt>, now: real, over: Option<Ending>, made: Attempt)
    requires SoFar(t, classify, seconds, deadline, started, env, draw, trace, now) && |trace| < t.attempts
    requires !Expired(deadline, now)
    requires Tried(t, classify, seconds, deadline, started, now, |trace| + 1, env(|trace|), draw, over, made)
    ensures ThroughTimeout(seconds, deadline, env, trace + [made]) && PausesDrawn(t, draw, trace + [made], |trace|)
    ensures over.Some? ==> IsRun(t, classify, deadline, started, trace + [made], over.value, made.end)
    ensures over.None? ==>
      SoFar(t, classify, seconds, deadline, started, env, draw, trace + [made], made.end + made.pause)
  {
    ThroughOne(seconds, deadline, env, trace, made);
    DrawOne(t, draw, trace, made);
    if over.Some? {
      RunEnds(t, classify, deadline, started, trace, made, over.value);
    } else {
      GoesOn(t, classify, deadline, started, trace, made);
    }
  }

  /** Each of the first `n` pauses is what its draw gives. */
  ghost predicate PausesDrawn(t: Settings, draw: Source, trace: seq<Attempt>, n: int) {
    n <= |trace| && forall i :: 0 <= i < n ==> Drawn(t, i + 2, draw, trace[i].pause)
  }

  lemma DrawOne(t: Settings, draw: Source, trace: seq<Attempt>, a: Attempt)
    requires PausesDrawn(t, draw, trace, |trace|)
    ensures PausesDrawn(t, draw, trace + [a], |trace|)
    ensures Drawn(t, |trace| + 2, draw, a.pause) ==>
      PausesDrawn(t, draw, trace + [a], |trace| + 1)
  {
  }

  /** One attempt and what follows it. */
  method Try(t: Settings, classify: Error -> ErrorClass, seconds: real, deadline: Option<real>, started: real,
             now: real, attempt: nat, base: Base, draw: Source)
    returns (over: Option<Ending>, made: Attempt)
    requires ValidSettings(t) && 1 <= attempt <= t.attempts && WithinBounds(draw) && !Expired(deadline, now)
    ensures Tried(t, classify, seconds, deadline, started, now, attempt, base, draw, over, made)
  {
    var reply := TimeoutCall(seconds, deadline, now, base);
    var delay;
    over, delay := Judge(t, classify, deadline, started, attempt, Attempt(now, reply.end, reply.error, 0.0), draw);
    made := Attempt(now, reply.end, reply.error, delay);
  }

  /** What the link does after attempt number `attempt`: the call is over, or
      it sleeps for `delay` and goes on. */
  method Judge(t: Settings, classify: Error -> ErrorClass, deadline: Option<real>, started: real,
               attempt: nat, a: Attempt, draw: Source)
    returns (over: Option<Ending>, delay: real)
    requires ValidSettings(t) && 1 <= attempt <= t.attempts && WithinBounds(draw)
    ensures over.Some? ==> EndsWith(t, classify, deadline, started, attempt, a, over.value) && delay == 0.0
    ensures over.None? ==> attempt < t.attempts && SleptAfter(t, classify, deadline, a.(pause := delay), attempt + 1)
    ensures over.None? ==> Drawn(t, attempt + 1, draw, delay)
    ensures over.Some? && over.value.Abandoned? ==> Drawn(t, attempt + 1, draw, over.value.delay)
  {
    delay := 0.0;
    if a.error == None {
      return Some(Succeeded(attempt, a.end - started)), delay;
    }
    if classify(a.error.value) != t.retryOn {
      return Some(Propagated(a.error.value)), delay;
    }
    if attempt == t.attempts {
      return Some(Exhausted(attempt, a.error.value)), delay;
    }
    var pause := DelayBefore(t, attempt + 1, draw);
    var remaining := Remaining(deadline, a.end);
    if remaining.Some? && pause >= remaining.value {
      return Some(Abandoned(pause)), delay;
    }
    return None, pause;
  }

  /** The attempts so far leave room for another one. */
  ghost predicate CanGoOn(t: Settings, classify: Error -> ErrorClass, deadline: Option<real>, started: real,
                          trace: seq<Attempt>)
  {
    && Chained(t, classify, deadline, started, trace)
    && (trace != [] ==> SleptAfter(t, classify, deadline, trace[|trace| - 1], |trace| + 1))
  }

  lemma RunEnds(t: Settings, classify: Error -> ErrorClass, deadline: Option<real>, started: real, trace: seq<Attempt>,
                a: Attempt, ending: Ending)
    requires CanGoOn(t, classify, deadline, started, trace) && |trace| < t.attempts
    requires a.start == NextStart(started, trace) && !Expired(deadline, a.start)
    requires EndsWith(t, classify, deadline, started, |trace| + 1, a, ending)
    ensures IsRun(t, classify, deadline, started, trace + [a], ending, a.end)
  {
    ChainOne(t, classify, deadline, started, trace, a);
  }

  lemma GoesOn(t: Settings, classify: Error -> ErrorClass, deadline: Option<real>, started: real, trace: seq<Attempt>,
               a: Attempt)
    requires CanGoOn(t, classify, deadline, started, trace) && |trace| + 1 < t.attempts
    requires a.start == NextStart(started, trace) && !Expired(deadline, a.start)
    requires SleptAfter(t, classify, deadline, a, |trace| + 2)
    ensures CanGoOn(t, classify, deadline, started, trace + [a])
    ensures NextStart(started, trace + [a]) == a.end + a.pause
  {
    ChainOne(t, classify, deadline, started, trace, a);
  }

  lemma ChainOne(t: Settings, classify: Error -> ErrorClass, deadline: Option<real>, started: real,
                 trace: seq<Attempt>, a: Attempt)
    requires CanGoOn(t, classify, deadline, started, trace)
    requires a.start == NextStart(started, trace) && !Expired(deadline, a.start)
    ensures Chained(t, classify, deadline, started, trace + [a])
  {
    var all := trace + [a];
    forall i | 0 <= i < |all|
      ensures all[i].start == NextStart(started, all[..i])
      ensures i < |all| - 1 ==> SleptAfter(t, classify, deadline, all[i], i + 2)
    {
      assert all[..i] == trace[..i];
      assert trace[..|trace|] == trace;
    }
  }

  lemma ThroughOne(seconds: real, deadline: Option<real>, env: nat -> Base, trace: seq<Attempt>, a: Attempt)
    requires ThroughTimeout(seconds, deadline, env, trace)
    requires AttemptThrough(seconds, deadline, env(|trace|), a)
    ensures ThroughTimeout(seconds, deadline, env, trace + [a])
  {
  }

  method DoubledDelay(t: Settings, next: nat) returns (delay: real)
    requires next >= 2
    ensures delay == Doubled(t.baseDelay, next - 2)
  {
    DoubledIsProduct(t.baseDelay, next - 2);
    delay := t.baseDelay * Pow2(next - 2);
  }

  method DelayBefore(t: Settings, next: nat, draw: Source) returns (delay: real)
    requires ValidSettings(t) && next >= 2 && WithinBounds(draw)
    ensures PossibleDelay(t, next, delay) && Drawn(t, next, draw, delay)
  {
    delay := DoubledDelay(t, next);
    if delay > t.maxDelay {
      delay := t.maxDelay;
    }
    if t.jitter {
      delay := draw(next - 1, delay);
    }
  }

  // ---------------------------------------------------------------- theorems

  /** Twice as long each time, from the base delay on, up to the cap. */
  function Backoff(t: Settings, i: nat): real {
    if i == 0 then t.baseDelay
    else if 2.0 * Backoff(t, i - 1) <= t.maxDelay then 2.0 * Backoff(t, i - 1) else t.maxDelay
  }

  lemma {:induction false} CapIsBackoff(t: Settings, i: nat)
    requires ValidSettings(t)
    ensures DelayCap(t, i + 2) == Backoff(t, i)
  {
    BackoffDoubles(t, i + 2);
    if i > 0 {
      CapIsBackoff(t, i - 1);
      BackoffDoubles(t, i + 1);
    }
  }

  /** A drawn pause is what the source yields up to the backoff, or the backoff
      itself without jitter. */
  lemma DrawnMeans(t: Settings, draw: Source, trace: seq<Attempt>, n: int, i: nat)
    requires ValidSettings(t) && PausesDrawn(t, draw, trace, n) && i < n
    ensures trace[i].pause == if t.jitter then draw(i + 1, Backoff(t, i)) else Backoff(t, i)
  {
    CapIsBackoff(t, i);
    assert Drawn(t, i + 2, draw, trace[i].pause);
  }

  /** How a run goes on: from the first attempt at once, it goes from each to the
      next after a pause, and only when the attempt failed with an error of the
      kind that is retried; the pauses back off, and every attempt starts before
      the deadline. */
  lemma AttemptsMean(t: Settings, classify: Error -> ErrorClass, deadline: Option<real>, started: real,
                     trace: seq<Attempt>, ending: Ending, end: real, i: nat)
    requires ValidSettings(t) && IsRun(t, classify, deadline, started, trace, ending, end) && i < |trace|
    ensures deadline.Some? ==> trace[i].start < deadline.value
    ensures i == 0 ==> trace[i].start == started
    ensures i + 1 < |trace| ==>
      && trace[i].error.Some? && classify(trace[i].error.value) == t.retryOn
      && trace[i + 1].start == trace[i].end + trace[i].pause
      && (if t.jitter then 0.0 <= trace[i].pause <= Backoff(t, i) else trace[i].pause == Backoff(t, i))
  {
    CapIsBackoff(t, i);
    assert trace[i].start == NextStart(started, trace[..i]);
    if i + 1 < |trace| {
      assert trace[i + 1].start == NextStart(started, trace[..i + 1]);
      assert SleptAfter(t, classify, deadline, trace[i], i + 2);
    }
  }

  /** How a run ends, by its last attempt: a success or an error of another kind
      is passed on; an error of the kind that is retried exhausts the attempts,
      or makes the link give up exactly when the pause would reach the deadline. */
  lemma EndingMeans(t: Settings, classify: Error -> ErrorClass, deadline: Option<real>, started: real,
                    trace: seq<Attempt>, ending: Ending, end: real)
    requires ValidSettings(t) && IsRun(t, classify, deadline, started, trace, ending, end)
    ensures ending == Late <==> deadline.Some? && deadline.value <= started
    ensures ending == Late <==> trace == []
    ensures trace != [] ==>
      var last := trace[|trace| - 1];
      end == last.end &&
      match last.error
      case None => ending == Succeeded(|trace|, end - started)
      case Some(e) =>
        if classify(e) != t.retryOn then ending == Propagated(e)
        else if |trace| == t.attempts then ending == Exhausted(|trace|, e)
        else
          && ending.Abandoned? && deadline.Some? && end + ending.delay >= deadline.value
          && var backoff := Backoff(t, |trace| - 1);
             if t.jitter then 0.0 <= ending.delay <= backoff else ending.delay == backoff
  {
    LateOnlyAtFirst(t, classify, deadline, started, trace, ending, end);
    if trace != [] {
      CapIsBackoff(t, |trace| - 1);
    }
  }

  function CallTime(trace: seq<Attempt>): real {
    if trace == [] then 0.0
    else CallTime(trace[..|trace| - 1]) + trace[|trace| - 1].end - trace[|trace| - 1].start
  }

  function SleepTime(trace: seq<Attempt>): real {
    if trace == [] then 0.0 else SleepTime(trace[..|trace| - 1]) + trace[|trace| - 1].pause
  }

  lemma {:induction false} TimeAddsUp(t: Settings, classify: Error -> ErrorClass, deadline: Option<real>,
                                      started: real, trace: seq<Attempt>)
    requires Chained(t, classify, deadline, started, trace)
    ensures NextStart(started, trace) == started + CallTime(trace) + SleepTime(trace)
  {
    if trace != [] {
      var rest := trace[..|trace| - 1];
      ChainedPrefix(t, classify, deadline, started, trace);
      TimeAddsUp(t, classify, deadline, started, rest);
      assert trace[|trace| - 1].start == NextStart(started, rest);
    }
  }

  lemma ChainedPrefix(t: Settings, classify: Error -> ErrorClass, deadline: Option<real>, started: real,
                      trace: seq<Attempt>)
    requires Chained(t, classify, deadline, started, trace) && trace != []
    ensures Chained(t, classify, deadline, started, trace[..|trace| - 1])
  {
  }

  /** What a result reports is true: on success and on exhaustion the attempts
      are the calls made, and the elapsed time is the time in calls plus the
      time asleep, whatever the jitter. */
  lemma ReportsAreTrue(t: Settings, classify: Error -> ErrorClass, deadline: Option<real>, started: real,
                       trace: seq<Attempt>, ending: Ending, end: real)
    requires ValidSettings(t) && IsRun(t, classify, deadline, started, trace, ending, end)
    ensures ending.Succeeded? ==> ending.attempts == |trace|
    ensures ending.Exhausted? ==> ending.attempts == |trace| == t.attempts
    ensures ending.Succeeded? ==>
      ending.elapsed == end - started == CallTime(trace) + SleepTime(trace[..|trace| - 1])
  {
    TimeAddsUp(t, classify, deadline, started, trace);
  }

  /** With exact sleeps only the first attempt can find the deadline gone. */
  lemma LateOnlyAtFirst(t: Settings, classify: Error -> ErrorClass, deadline: Option<real>, started: real,
                        trace: seq<Attempt>, ending: Ending, end: real)
    requires ValidSettings(t) && IsRun(t, classify, deadline, started, trace, ending, end)
    ensures ending == Late <==> Expired(deadline, started)
    ensures ending == Late ==> trace == []
  {
    if trace != [] {
      assert trace[0].start == NextStart(started, trace[..0]);
    }
  }

  /** The overall deadline wins: whatever the outcome, the composed call ends no
      later than its deadline, or at once if that had already passed. */
  lemma DeadlineRespected(t: Settings, classify: Error -> ErrorClass, seconds: real, deadline: Option<real>,
                          started: real, env: nat -> Base, trace: seq<Attempt>, ending: Ending, end: real)
    requires ValidSettings(t) && seconds > 0.0 && deadline.Some? && Durations(env)
    requires IsRun(t, classify, deadline, started, trace, ending, end) && ThroughTimeout(seconds, deadline, env, trace)
    ensures end <= if started > deadline.value then started else deadline.value
  {
    LateOnlyAtFirst(t, classify, deadline, started, trace, ending, end);
    if ending != Late {
      var last := |trace| - 1;
      assert AttemptThrough(seconds, deadline, env(last), trace[last]);
      TimeoutKeepsLimits(seconds, deadline, trace[last].start, env(last));
    }
  }

  /** The sum of the first `n` backoffs, jitter aside. */
  function BackoffSum(t: Settings, n: nat): real {
    if n == 0 then 0.0 else BackoffSum(t, n - 1) + DelayCap(t, n + 1)
  }

  lemma {:induction false} SleepsBounded(t: Settings, classify: Error -> ErrorClass, deadline: Option<real>,
                                         started: real, trace: seq<Attempt>, n: nat)
    requires ValidSettings(t) && Chained(t, classify, deadline, started, trace) && n < |trace|
    ensures 0.0 <= SleepTime(trace[..n]) <= BackoffSum(t, n)
  {
    if n > 0 {
      SleepsBounded(t, classify, deadline, started, trace, n - 1);
      assert trace[..n][..n - 1] == trace[..n - 1];
      PauseBounded(t, classify, deadline, trace[n - 1], n + 1);
    }
  }

  lemma PauseBounded(t: Settings, classify: Error -> ErrorClass, deadline: Option<real>, a: Attempt, next: nat)
    requires ValidSettings(t) && next >= 2 && SleptAfter(t, classify, deadline, a, next)
    ensures 0.0 <= a.pause <= DelayCap(t, next)
  {
  }

  /** `n` times `x`. */
  function Times(n: nat, x: real): real {
    if n == 0 then 0.0 else Times(n - 1, x) + x
  }

  lemma {:induction false} TimesIsProduct(n: nat, x: real)
    ensures Times(n, x) == (n as real) * x
  {
    if n > 0 {
      TimesIsProduct(n - 1, x);
      assert (n as real) == ((n - 1) as real) + 1.0;
      assert (n as real) * x == ((n - 1) as real) * x + x;
    }
  }

  lemma {:induction false} TimesMonotone(m: nat, n: nat, x: real)
    requires m <= n && x >= 0.0
    ensures Times(m, x) <= Times(n, x)
  {
    if m < n {
      TimesMonotone(m, n - 1, x);
    }
  }

  lemma {:induction false} CallsBounded(seconds: real, deadline: Option<real>, env: nat -> Base, trace: seq<Attempt>)
    requires seconds > 0.0 && Durations(env) && ThroughTimeout(seconds, deadline, env, trace)
    ensures 0.0 <= CallTime(trace) <= Times(|trace|, seconds)
  {
    if trace != [] {
      var n := |trace| - 1;
      var rest := trace[..n];
      forall i | 0 <= i < |rest| ensures AttemptThrough(seconds, deadline, env(i), rest[i]) {
        assert AttemptThrough(seconds, deadline, env(i), trace[i]);
      }
      CallsBounded(seconds, deadline, env, rest);
      assert AttemptThrough(seconds, deadline, env(n), trace[n]);
      TimeoutKeepsLimits(seconds, deadline, trace[n].start, env(n));
    }
  }

  /** The backoff starts at the base delay and doubles up to the cap. */
  lemma BackoffDoubles(t: Settings, next: nat)
    requires ValidSettings(t) && next >= 2
    ensures DelayCap(t, 2) == t.baseDelay
    ensures DelayCap(t, next + 1)
         == if 2.0 * DelayCap(t, next) <= t.maxDelay then 2.0 * DelayCap(t, next) else t.maxDelay
  {
  }

  lemma {:induction false} BackoffMonotone(t: Settings, m: nat, n: nat)
    requires ValidSettings(t) && m <= n
    ensures BackoffSum(t, m) <= BackoffSum(t, n)
  {
    if m < n {
      BackoffMonotone(t, m, n - 1);
    }
  }

  /** The sum of the first `n` delays if they doubled without a cap. */
  function DoublingSum(t: Settings, n: nat): real {
    if n == 0 then 0.0 else 2.0 * DoublingSum(t, n - 1) + t.baseDelay
  }

  lemma {:induction false} DoublingIsClosed(t: Settings, n: nat)
    ensures DoublingSum(t, n) == t.baseDelay * (Pow2(n) - 1.0)
  {
    if n > 0 {
      DoublingIsClosed(t, n - 1);
      var p := Pow2(n - 1);
      assert t.baseDelay * (2.0 * p - 1.0) == 2.0 * (t.baseDelay * (p - 1.0)) + t.baseDelay;
    }
  }

  /** In closed form: the backoffs sum to no more than the full doubling series
      and no more than the cap each time. */
  lemma {:induction false} BackoffClosedForm(t: Settings, n: nat)
    requires ValidSettings(t)
    ensures BackoffSum(t, n) <= DoublingSum(t, n) == Doubled(t.baseDelay, n) - t.baseDelay
    ensures BackoffSum(t, n) <= Times(n, t.maxDelay)
  {
    if n > 0 {
      BackoffClosedForm(t, n - 1);
    }
  }

  /** Every run, with or without a deadline, ends within the attempts' limits
      plus the backoffs between them. */
  lemma RunBounded(t: Settings, classify: Error -> ErrorClass, seconds: real, deadline: Option<real>, started: real,
                   env: nat -> Base, trace: seq<Attempt>, ending: Ending, end: real)
    requires ValidSettings(t) && seconds > 0.0 && Durations(env)
    requires IsRun(t, classify, deadline, started, trace, ending, end) && ThroughTimeout(seconds, deadline, env, trace)
    ensures started <= end <= started + Times(t.attempts, seconds) + BackoffSum(t, t.attempts - 1)
  {
    LateOnlyAtFirst(t, classify, deadline, started, trace, ending, end);
    BackoffMonotone(t, 0, t.attempts - 1);
    if ending == Late {
      TimesMonotone(0, t.attempts, seconds);
    } else {
      EndAddsUp(t, classify, deadline, started, trace);
      CallsWithin(t, seconds, deadline, env, trace);
      SleepsWithin(t, classify, deadline, started, trace);
    }
  }

  lemma CallsWithin(t: Settings, seconds: real, deadline: Option<real>, env: nat -> Base, trace: seq<Attempt>)
    requires seconds > 0.0 && Durations(env) && ThroughTimeout(seconds, deadline, env, trace) && |trace| <= t.attempts
    ensures 0.0 <= CallTime(trace) <= Times(t.attempts, seconds)
  {
    CallsBounded(seconds, deadline, env, trace);
    TimesMonotone(|trace|, t.attempts, seconds);
  }

  lemma SleepsWithin(t: Settings, classify: Error -> ErrorClass, deadline: Option<real>, started: real,
                     trace: seq<Attempt>)
    requires ValidSettings(t) && Chained(t, classify, deadline, started, trace) && trace != [] && |trace| <= t.attempts
    ensures 0.0 <= SleepTime(trace[..|trace| - 1]) <= BackoffSum(t, t.attempts - 1)
  {
    SleepsBounded(t, classify, deadline, started, trace, |trace| - 1);
    BackoffMonotone(t, |trace| - 1, t.attempts - 1);
  }

  lemma EndAddsUp(t: Settings, classify: Error -> ErrorClass, deadline: Option<real>, started: real,
                  trace: seq<Attempt>)
    requires Chained(t, classify, deadline, started, trace) && trace != []
    ensures trace[|trace| - 1].end == started + CallTime(trace) + SleepTime(trace[..|trace| - 1])
  {
    TimeAddsUp(t, classify, deadline, started, trace);
  }

  /** The same bound in closed form, by the cap on each backoff; `Times` is the
      product, by `TimesIsProduct`. */
  lemma RunBoundedByCap(t: Settings, classify: Error -> ErrorClass, seconds: real, deadline: Option<real>,
                        started: real, env: nat -> Base, trace: seq<Attempt>, ending: Ending, end: real)
    requires ValidSettings(t) && seconds > 0.0 && Durations(env)
    requires IsRun(t, classify, deadline, started, trace, ending, end) && ThroughTimeout(seconds, deadline, env, trace)
    ensures end - started <= Times(t.attempts, seconds) + Times(t.attempts - 1, t.maxDelay)
  {
    RunBounded(t, classify, seconds, deadline, started, env, trace, ending, end);
    BackoffClosedForm(t, t.attempts - 1);
  }

  /** And by the doubling series. */
  lemma RunBoundedByDoubling(t: Settings, classify: Error -> ErrorClass, seconds: real, deadline: Option<real>,
                             started: real, env: nat -> Base, trace: seq<Attempt>, ending: Ending, end: real)
    requires ValidSettings(t) && seconds > 0.0 && Durations(env)
    requires IsRun(t, classify, deadline, started, trace, ending, end) && ThroughTimeout(seconds, deadline, env, trace)
    ensures end - started <= Times(t.attempts, seconds) + DoublingSum(t, t.attempts - 1)
  {
    RunBounded(t, classify, seconds, deadline, started, env, trace, ending, end);
    BackoffClosedForm(t, t.attempts - 1);
  }
}
