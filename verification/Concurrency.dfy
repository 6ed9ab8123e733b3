/** The concurrency link: one outer semaphore per endpoint and one inner
    semaphore per slice, acquired inner first.

    A semaphore is a specified primitive: a number of free slots, taken when it
    is positive. `Step` is one move of any call. */
module Concurrency {
  import opened Context
  import opened Wrappers

  type Slice = int
  type CallId = nat

  datatype Settings = Settings(innerLimit: nat, outerLimit: nat)

  ghost predicate ValidSettings(t: Settings) {
    t.innerLimit >= 1 && t.outerLimit >= 1
  }

  /** The free slots; a slice has an inner semaphore once a call used it. */
  datatype Slots = Slots(outer: nat, inner: map<Slice, nat>)

  // ---------------------------------------------------------------- mutable

  /** The link with its semaphores. Each method is a segment of `call` between
      two suspensions; a wait for a slot ends when `TakeInner` or `TakeOuter`
      succeeds. */
  class ConcurrencyInterceptor {
    const settings: Settings
    var outer: nat
    var inner: map<Slice, nat>

    ghost function Contents(): Slots
      reads this
    {
      Slots(outer, inner)
    }

    constructor (settings: Settings)
      ensures this.settings == settings && Contents() == Slots(settings.outerLimit, map[])
    {
      this.settings := settings;
      outer, inner := settings.outerLimit, map[];
    }

    method InnerFor(slice: Slice)
      modifies this`inner
      ensures Contents() == WithInner(settings, old(Contents()), slice)
    {
      if slice !in inner {
        inner := inner[slice := settings.innerLimit];
      }
    }

    /** The check before each wait: without a deadline there is no limit to the
        wait, otherwise it ends with the deadline. */
    method WaitLimit(deadline: Option<real>, now: real) returns (refused: bool, limit: Option<real>)
      ensures refused <==> deadline.Some? && now >= deadline.value
      ensures !refused && deadline.Some? ==> limit.Some? && limit.value > 0.0 && now + limit.value == deadline.value
      ensures deadline.None? ==> limit == None
    {
      refused, limit := Expired(deadline, now), Remaining(deadline, now);
    }

    method TakeInner(slice: Slice) returns (taken: bool)
      requires slice in inner
      modifies this`inner
      ensures taken <==> old(inner)[slice] > 0
      ensures Contents() == if taken then InnerTaken(old(Contents()), slice) else old(Contents())
    {
      taken := inner[slice] > 0;
      if taken {
        inner := inner[slice := inner[slice] - 1];
      }
    }

    method TakeOuter() returns (taken: bool)
      modifies this`outer
      ensures taken <==> old(outer) > 0
      ensures Contents() == if taken then OuterTaken(old(Contents())) else old(Contents())
    {
      taken := outer > 0;
      if taken {
        outer := outer - 1;
      }
    }

    method ReleaseInner(slice: Slice)
      requires slice in inner
      modifies this`inner
      ensures Contents() == InnerReleased(old(Contents()), slice)
    {
      inner := inner[slice := inner[slice] + 1];
    }

    /** The two `finally` clauses of a call that held both slots. */
    method ReleaseBoth(slice: Slice)
      requires slice in inner
      modifies this
      ensures Contents() == InnerReleased(OuterReleased(old(Contents())), slice)
    {
      outer := outer + 1;
      ReleaseInner(slice);
    }
  }

  function WithInner(t: Settings, s: Slots, slice: Slice): Slots {
    if slice in s.inner then s else s.(inner := s.inner[slice := t.innerLimit])
  }

  function InnerTaken(s: Slots, slice: Slice): Slots
    requires slice in s.inner && s.inner[slice] > 0
  {
    s.(inner := s.inner[slice := s.inner[slice] - 1])
  }

  function InnerReleased(s: Slots, slice: Slice): Slots
    requires slice in s.inner
  {
    s.(inner := s.inner[slice := s.inner[slice] + 1])
  }

  function OuterTaken(s: Slots): Slots
    requires s.outer > 0
  {
    s.(outer := s.outer - 1)
  }

  function OuterReleased(s: Slots): Slots {
    s.(outer := s.outer + 1)
  }

  // ----------------------------------------------------------- interleaving

  datatype Stage = WaitInner | WaitOuter | Running

  datatype Call = Call(slice: Slice, deadline: Option<real>, stage: Stage)

  datatype System = System(slots: Slots, now: real, calls: map<CallId, Call>)

  /** `Refused` and `RefusedOuter` are the checks made before each wait,
      `TimedOut` is a wait that reaches the deadline, `Cancelled` one that is
      cancelled; `Ended` is any end of the guarded call: a return, an error or a
      cancellation. */
  datatype Event =
    | Tick(seconds: real)
    | Refused(call: CallId, slice: Slice, deadline: Option<real>)
    | Arrive(call: CallId, slice: Slice, deadline: Option<real>)
    | GetInner(call: CallId)
    | RefusedOuter(call: CallId)
    | GetOuter(call: CallId)
    | TimedOut(call: CallId)
    | Cancelled(call: CallId)
    | Ended(call: CallId)

  ghost predicate At(s: System, c: CallId, stage: Stage) {
    c in s.calls && s.calls[c].stage == stage && s.calls[c].slice in s.slots.inner
  }

  ghost predicate Waits(s: System, c: CallId) {
    At(s, c, WaitInner) || At(s, c, WaitOuter)
  }

  /** The wait is not over by its deadline yet; at that very instant it may
      still get its slot. */
  ghost predicate InTime(s: System, c: CallId)
    requires c in s.calls
  {
    s.calls[c].deadline.Some? ==> s.now <= s.calls[c].deadline.value
  }

  ghost predicate Enabled(s: System, e: Event) {
    match e
    case Tick(seconds) => seconds >= 0.0
    case Refused(c, _, deadline) => c !in s.calls && Expired(deadline, s.now)
    case Arrive(c, _, deadline) => c !in s.calls && !Expired(deadline, s.now)
    case GetInner(c) =>
      At(s, c, WaitInner) && s.slots.inner[s.calls[c].slice] > 0 && InTime(s, c) && !Expired(s.calls[c].deadline, s.now)
    case RefusedOuter(c) =>
      At(s, c, WaitInner) && s.slots.inner[s.calls[c].slice] > 0 && InTime(s, c) && Expired(s.calls[c].deadline, s.now)
    case GetOuter(c) => At(s, c, WaitOuter) && s.slots.outer > 0 && InTime(s, c)
    case TimedOut(c) => Waits(s, c) && Expired(s.calls[c].deadline, s.now)
    case Cancelled(c) => Waits(s, c)
    case Ended(c) => At(s, c, Running)
  }

  /** A waiting call goes, with the inner slot if it holds one. */
  ghost function GivenUp(s: System, c: CallId): System
    requires Waits(s, c)
  {
    s.(slots := if s.calls[c].stage == WaitInner then s.slots else InnerReleased(s.slots, s.calls[c].slice),
       calls := s.calls - {c})
  }

  ghost predicate Step(t: Settings, s: System, e: Event, s': System) {
    && Enabled(s, e)
    && match e
       case Tick(seconds) => s' == s.(now := s.now + seconds)
       case Refused(_, slice, _) => s' == s.(slots := WithInner(t, s.slots, slice))
       case Arrive(c, slice, deadline) =>
         s' == s.(slots := WithInner(t, s.slots, slice),
                  calls := s.calls[c := Call(slice, deadline, WaitInner)])
       case GetInner(c) =>
         s' == s.(slots := InnerTaken(s.slots, s.calls[c].slice),
                  calls := s.calls[c := s.calls[c].(stage := WaitOuter)])
       case RefusedOuter(c) => s' == s.(calls := s.calls - {c})
       case GetOuter(c) =>
         s' == s.(slots := OuterTaken(s.slots), calls := s.calls[c := s.calls[c].(stage := Running)])
       case TimedOut(c) => s' == GivenUp(s, c)
       case Cancelled(c) => s' == GivenUp(s, c)
       case Ended(c) =>
         s' == s.(slots := InnerReleased(OuterReleased(s.slots), s.calls[c].slice), calls := s.calls - {c})
  }

  ghost function RunningCalls(s: System): set<CallId> {
    set c | c in s.calls && s.calls[c].stage == Running
  }

  /** The calls of a slice that are past its inner semaphore: those running and
      those queueing for an outer slot. */
  ghost function Admitted(s: System, slice: Slice): set<CallId> {
    set c | c in s.calls && s.calls[c].slice == slice && s.calls[c].stage != WaitInner
  }

  ghost predicate InnerBalanced(t: Settings, s: System, slice: Slice) {
    slice in s.slots.inner ==> s.slots.inner[slice] + |Admitted(s, slice)| == t.innerLimit
  }

  /** Free slots plus holders make up the limit, for every semaphore. */
  ghost predicate Inv(t: Settings, s: System) {
    && s.slots.outer + |RunningCalls(s)| == t.outerLimit
    && (forall slice :: InnerBalanced(t, s, slice))
    && (forall c :: c in s.calls ==> s.calls[c].slice in s.slots.inner)
  }

  lemma NewSliceKeepsInv(t: Settings, s: System, slice: Slice)
    requires Inv(t, s)
    ensures Inv(t, s.(slots := WithInner(t, s.slots, slice)))
  {
    var s' := s.(slots := WithInner(t, s.slots, slice));
    assert RunningCalls(s') == RunningCalls(s);
    forall x ensures InnerBalanced(t, s', x) {
      assert Admitted(s', x) == Admitted(s, x);
      assert InnerBalanced(t, s, x);
      if slice !in s.slots.inner {
        assert Admitted(s, slice) == {};
      }
    }
  }

  lemma SizeWithout(a: set<CallId>, c: CallId)
    ensures |a| == |a - {c}| + (if c in a then 1 else 0)
  {
  }

  lemma SameApartFrom(a: set<CallId>, b: set<CallId>, c: CallId)
    requires forall d :: d != c ==> (d in a <==> d in b)
    ensures |a| - (if c in a then 1 else 0) == |b| - (if c in b then 1 else 0)
  {
    SizeWithout(a, c);
    SizeWithout(b, c);
    assert a - {c} == b - {c};
  }

  /** What one move does to the two counts that matter. */
  lemma CountsAfter(s: System, s': System, c: CallId, x: Slice)
    requires forall d :: d != c ==> (d in s.calls <==> d in s'.calls) && (d in s.calls ==> s'.calls[d] == s.calls[d])
    ensures |RunningCalls(s')| - (if c in RunningCalls(s') then 1 else 0)
         == |RunningCalls(s)| - (if c in RunningCalls(s) then 1 else 0)
    ensures |Admitted(s', x)| - (if c in Admitted(s', x) then 1 else 0)
         == |Admitted(s, x)| - (if c in Admitted(s, x) then 1 else 0)
  {
    SameApartFrom(RunningCalls(s'), RunningCalls(s), c);
    SameApartFrom(Admitted(s', x), Admitted(s, x), c);
  }

  lemma MoveKeepsInv(t: Settings, s: System, e: Event, s': System, c: CallId)
    requires Inv(t, s) && Step(t, s, e, s')
    requires !e.Tick? && !e.Refused? && !e.Arrive? && c == e.call
    ensures Inv(t, s')
  {
    CountsAfter(s, s', c, s.calls[c].slice);
    forall x ensures InnerBalanced(t, s', x) {
      CountsAfter(s, s', c, x);
      assert InnerBalanced(t, s, x);
    }
  }

  /** Every move keeps the invariant. */
  lemma StepKeepsInv(t: Settings, s: System, e: Event, s': System)
    requires Inv(t, s) && Step(t, s, e, s')
    ensures Inv(t, s')
  {
    match e
    case Tick(_) =>
      assert RunningCalls(s') == RunningCalls(s);
      forall x ensures InnerBalanced(t, s', x) {
        assert Admitted(s', x) == Admitted(s, x) && InnerBalanced(t, s, x);
      }
    case Refused(_, slice, _) => NewSliceKeepsInv(t, s, slice);
    case Arrive(c, slice, _) =>
      var mid := s.(slots := WithInner(t, s.slots, slice));
      NewSliceKeepsInv(t, s, slice);
      CountsAfter(mid, s', c, slice);
      forall x ensures InnerBalanced(t, s', x) {
        CountsAfter(mid, s', c, x);
        assert InnerBalanced(t, mid, x);
      }
    case _ => MoveKeepsInv(t, s, e, s', e.call);
  }

  // ---------------------------------------------------------------- theorems

  ghost predicate Run(t: Settings, states: seq<System>, events: seq<Event>) {
    && ValidSettings(t)
    && |states| == |events| + 1
    && states[0] == System(Slots(t.outerLimit, map[]), states[0].now, map[])
    && forall n :: 0 <= n < |events| ==> Step(t, states[n], events[n], states[n + 1])
  }

  lemma {:induction false} RunKeepsInv(t: Settings, states: seq<System>, events: seq<Event>, n: nat)
    requires Run(t, states, events) && n < |states|
    ensures Inv(t, states[n])
  {
    if n == 0 {
      assert RunningCalls(states[0]) == {};
    } else {
      RunKeepsInv(t, states, events, n - 1);
      StepKeepsInv(t, states[n - 1], events[n - 1], states[n]);
    }
  }

  /** Slots are conserved on every path; the endpoint never runs more calls than
      its limit; and one slice never runs or queues for more outer slots than
      its own limit, so it cannot fill the outer queue. */
  lemma LimitsHold(t: Settings, states: seq<System>, events: seq<Event>, n: nat, slice: Slice)
    requires Run(t, states, events) && n < |states|
    ensures states[n].slots.outer + |RunningCalls(states[n])| == t.outerLimit
    ensures slice in states[n].slots.inner ==>
      states[n].slots.inner[slice] + |Admitted(states[n], slice)| == t.innerLimit
    ensures |RunningCalls(states[n])| <= t.outerLimit && |Admitted(states[n], slice)| <= t.innerLimit
  {
    RunKeepsInv(t, states, events, n);
    assert InnerBalanced(t, states[n], slice);
    if slice !in states[n].slots.inner {
      assert Admitted(states[n], slice) == {};
    }
  }

  /** Once every call is over, every slot is free again. */
  lemma AllFreeWhenIdle(t: Settings, states: seq<System>, events: seq<Event>, n: nat, slice: Slice)
    requires Run(t, states, events) && n < |states| && states[n].calls == map[]
    ensures states[n].slots.outer == t.outerLimit
    ensures slice in states[n].slots.inner ==> states[n].slots.inner[slice] == t.innerLimit
  {
    LimitsHold(t, states, events, n, slice);
    assert RunningCalls(states[n]) == {} && Admitted(states[n], slice) == {};
  }

  /** A call gets on by itself: it takes a slot, is turned away by its deadline,
      or ends. */
  ghost predicate GetsOn(e: Event) {
    e.GetInner? || e.RefusedOuter? || e.GetOuter? || e.TimedOut? || e.Ended?
  }

  /** No deadlock: while some call is unfinished, some call can get on. */
  lemma NoDeadlock(t: Settings, states: seq<System>, events: seq<Event>, n: nat) returns (e: Event)
    requires Run(t, states, events) && n < |states| && states[n].calls != map[]
    ensures GetsOn(e) && Enabled(states[n], e)
  {
    RunKeepsInv(t, states, events, n);
    var s := states[n];
    if RunningCalls(s) != {} {
      var c :| c in RunningCalls(s);
      e := Ended(c);
    } else if exists c :: At(s, c, WaitOuter) {
      var c :| At(s, c, WaitOuter);
      e := if InTime(s, c) then GetOuter(c) else TimedOut(c);
    } else {
      assert s.calls.Keys != {};
      var c :| c in s.calls.Keys;
      assert c in s.calls && s.calls[c].stage != Running ==> Waits(s, c);
      assert c !in RunningCalls(s);
      var slice := s.calls[c].slice;
      assert InnerBalanced(t, s, slice);
      assert forall d :: d in Admitted(s, slice) ==> d in RunningCalls(s) || At(s, d, WaitOuter);
      assert Admitted(s, slice) == {};
      e := if Expired(s.calls[c].deadline, s.now) then TimedOut(c) else GetInner(c);
    }
  }

  /** The deadline turns a call away only once it has come, and a call that starts
      running has waited no longer than to it. */
  lemma DeadlineMeans(t: Settings, states: seq<System>, events: seq<Event>, n: nat, c: CallId)
    requires Run(t, states, events) && n < |events|
    ensures events[n] == RefusedOuter(c) || events[n] == TimedOut(c) ==>
      c in states[n].calls && states[n].calls[c].deadline.Some? && states[n].calls[c].deadline.value <= states[n].now
    ensures events[n].Refused? ==> events[n].deadline.Some? && events[n].deadline.value <= states[n].now
    ensures events[n].Arrive? && events[n].deadline.Some? ==> states[n].now < events[n].deadline.value
    ensures c in states[n + 1].calls && states[n + 1].calls[c].stage == Running
            && !(c in states[n].calls && states[n].calls[c].stage == Running) ==>
      states[n + 1].calls[c].deadline.Some? ==> states[n].now <= states[n + 1].calls[c].deadline.value
  {
    assert Step(t, states[n], events[n], states[n + 1]);
  }

  /** Each call makes at most three moves: every move takes it to a later stage
      or ends it, and leaves the other calls where they are. */
  ghost function MovesLeft(s: System, c: CallId): nat {
    if c !in s.calls then 0 else match s.calls[c].stage case WaitInner => 3 case WaitOuter => 2 case Running => 1
  }

  lemma MovesBounded(t: Settings, s: System, e: Event, s': System, c: CallId)
    requires Step(t, s, e, s') && (GetsOn(e) || e.Cancelled?)
    ensures c == e.call ==> MovesLeft(s', c) < MovesLeft(s, c)
    ensures c != e.call ==> MovesLeft(s', c) == MovesLeft(s, c)
  {
  }
}
