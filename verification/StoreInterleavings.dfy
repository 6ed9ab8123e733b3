/** The state store under concurrency.

    `System` adds to the store the lock, the calls that hold pins and a log of
    the stops; `Step` is one segment of any task, so a sequence of steps is any
    interleaving of requests, pins, evictions and a close. */
module StoreInterleavings {
  import opened Recency
  import opened Sequences
  import opened StateStore
  import opened Wrappers

  /** Who holds the store's lock across a suspension, and why. */
  datatype Lock =
    | Idle
    | Making(call: CallId, key: Key)
    | Trimming(call: CallId, inst: Inst, pin: bool)
    | Closing(queue: multiset<Inst>)

  /** A call that pinned an instance. `safe` remembers that the instance was
      still owned by the store when it was pinned. */
  datatype Call = Call(inst: Inst, safe: bool)

  /** The store in its surroundings. `started`, `stops`, `lost`, `history`,
      `answers` and `evictions` record what happened and steer nothing;
      `history` and `answers` list the keys requested and the instances given
      for them. */
  datatype System = System(
    store: Store,
    lock: Lock,
    calls: map<CallId, Call>,
    started: set<Inst>,
    stops: multiset<Inst>,
    lost: multiset<Inst>,
    history: seq<Key>,
    answers: seq<Inst>,
    evictions: nat)

  /** One segment of some task. The request events carry whether the requester
      is an invocation, which pins what it got before it can be suspended. */
  datatype Event =
    | Hit(call: CallId, key: Key, pin: bool)
    | Miss(call: CallId, key: Key)
    | MakeFailed
    | Made(inst: Inst, pin: bool)
    | TrimDone
    | TrimFailed
    | Acquire(call: CallId, inst: Inst)
    | Release(call: CallId)
    | Evict(key: Key)
    | Close
    | CloseStop(inst: Inst)
    | CloseDone
    | CloseAborted

  ghost predicate Init(s: System) {
    && s.store.max >= 1
    && s == System(Store(s.store.max, [], map[], map[], {}, false), Idle, map[], {}, multiset{}, multiset{}, [], [], 0)
  }

  function AsStop(stop: Option<Inst>): multiset<Inst> {
    if stop.Some? then multiset{stop.value} else multiset{}
  }

  /** The call pins the instance it was just given. */
  function PinnedBy(s: System, call: CallId, i: Inst): System {
    s.(store := Pinned(s.store, i), calls := s.calls[call := Call(i, true)])
  }

  ghost predicate Enabled(s: System, e: Event) {
    match e
    case Hit(c, key, _) => s.lock == Idle && !s.store.closed && key in s.store.entries && c !in s.calls
    case Miss(c, key) => s.lock == Idle && !s.store.closed && key !in s.store.entries && c !in s.calls
    case MakeFailed => s.lock.Making?
    case Made(i, _) => s.lock.Making? && i !in s.started && s.lock.call !in s.calls
    case TrimDone => s.lock.Trimming? && s.lock.call !in s.calls
    case TrimFailed => s.lock.Trimming?
    case Acquire(c, i) => c !in s.calls && i in s.started
    case Release(c) => c in s.calls
    case Evict(_) => s.lock == Idle
    case Close => s.lock == Idle && !s.store.closed
    case CloseStop(i) => s.lock.Closing? && i in s.lock.queue
    case CloseDone => s.lock.Closing? && s.lock.queue == multiset{}
    case CloseAborted => s.lock.Closing?
  }

  ghost function AfterMade(s: System, i: Inst, pin: bool): System
    requires s.lock.Making? && WellFormed(s.store) && s.lock.key !in s.store.entries
  {
    var (store, stop) := Published(s.store, s.lock.key, i);
    var made := s.(store := store, started := s.started + {i}, stops := s.stops + AsStop(stop),
                   history := s.history + [s.lock.key], answers := s.answers + [i]);
    if stop.Some? then made.(lock := Trimming(s.lock.call, i, pin))
    else
      var free := made.(lock := Idle);
      if pin then PinnedBy(free, s.lock.call, i) else free
  }

  ghost function AfterHit(s: System, call: CallId, key: Key, pin: bool): System
    requires key in s.store.entries
  {
    var hit := s.(store := Touched(s.store, key), history := s.history + [key],
                  answers := s.answers + [s.store.entries[key]]);
    if pin then PinnedBy(hit, call, s.store.entries[key]) else hit
  }

  ghost function AfterRelease(s: System, call: CallId): System
    requires call in s.calls
  {
    var (store, stop) := Unpinned(s.store, s.calls[call].inst);
    s.(store := store, calls := s.calls - {call}, stops := s.stops + AsStop(stop))
  }

  ghost function AfterEvict(s: System, key: Key): System {
    var (store, stop) := Dropped(s.store, key);
    s.(store := store, stops := s.stops + AsStop(stop), evictions := s.evictions + 1)
  }

  ghost function AfterClose(s: System): System
    requires WellFormed(s.store)
  {
    s.(store := Emptied(s.store),
       lock := Closing(Instances(s.store.order, s.store.entries) + multiset(s.store.pending)))
  }

  ghost predicate Step(s: System, e: Event, s': System) {
    && WellFormed(s.store)
    && Enabled(s, e)
    && match e
       case Hit(c, key, pin) => s' == AfterHit(s, c, key, pin)
       case Miss(c, key) => s' == s.(lock := Making(c, key))
       case MakeFailed => s' == s.(lock := Idle)
       case Made(i, pin) => s.lock.key !in s.store.entries && s' == AfterMade(s, i, pin)
       case TrimDone =>
         s' == if s.lock.pin then PinnedBy(s.(lock := Idle), s.lock.call, s.lock.inst) else s.(lock := Idle)
       case TrimFailed => s' == s.(lock := Idle)
       case Acquire(c, i) =>
         s' == s.(store := Pinned(s.store, i),
                  calls := s.calls[c := Call(i, Live(s.store, i) || i in s.store.pending)])
       case Release(c) => s' == AfterRelease(s, c)
       case Evict(key) => s' == AfterEvict(s, key)
       case Close => s' == AfterClose(s)
       case CloseStop(i) =>
         s' == s.(lock := Closing(s.lock.queue - multiset{i}), stops := s.stops + multiset{i})
       case CloseDone => s' == s.(lock := Idle)
       case CloseAborted => s' == s.(lock := Idle, lost := s.lost + s.lock.queue)
  }

  // -------------------------------------------------------------- invariant

  ghost function Queue(s: System): multiset<Inst> {
    if s.lock.Closing? then s.lock.queue else multiset{}
  }

  /** In how many of its possible conditions an instance is: live, waiting for
      its last pin, queued by `close`, stopped (counting every stop), or lost by
      a `close` that was cut short. */
  ghost function Conditions(s: System, i: Inst): nat {
    (if Live(s.store, i) then 1 else 0) + (if i in s.store.pending then 1 else 0)
    + Queue(s)[i] + s.stops[i] + s.lost[i]
  }

  ghost function Holders(calls: map<CallId, Call>, i: Inst): set<CallId> {
    set c | c in calls && calls[c].inst == i
  }

  ghost predicate PinsMatch(s: System) {
    !s.store.closed ==> forall i :: Pins(s.store, i) == |Holders(s.calls, i)|
  }

  ghost predicate SafeCallsOwned(s: System) {
    !s.store.closed ==>
      forall c :: c in s.calls && s.calls[c].safe ==>
        Live(s.store, s.calls[c].inst) || s.calls[c].inst in s.store.pending
  }

  ghost predicate LockSound(s: System) {
    match s.lock
    case Idle => true
    case Making(_, key) => !s.store.closed && key !in s.store.entries
    case Trimming(_, i, _) => !s.store.closed && Live(s.store, i)
    case Closing(_) => s.store.closed
  }

  ghost predicate InOrderOfUse(s: System) {
    s.evictions == 0 && !s.store.closed ==> s.store.order == LastN(ByLastUse(s.history), s.store.max)
  }

  ghost predicate OwnedOnce(s: System) {
    forall i :: Conditions(s, i) == if i in s.started then 1 else 0
  }

  ghost predicate Inv(s: System) {
    && WellFormed(s.store)
    && OwnedOnce(s)
    && PinsMatch(s)
    && SafeCallsOwned(s)
    && LockSound(s)
    && InOrderOfUse(s)
    && (!s.store.closed ==> s.lost == multiset{})
  }

  // ------------------------------------------------------------ preservation

  lemma AddHolder(calls: map<CallId, Call>, c: CallId, call: Call, i: Inst)
    requires c !in calls
    ensures |Holders(calls[c := call], i)| == |Holders(calls, i)| + if call.inst == i then 1 else 0
  {
    assert Holders(calls[c := call], i) == Holders(calls, i) + if call.inst == i then {c} else {};
  }

  lemma RemoveHolder(calls: map<CallId, Call>, c: CallId, i: Inst)
    requires c in calls
    ensures |Holders(calls, i)| == |Holders(calls - {c}, i)| + if calls[c].inst == i then 1 else 0
  {
    assert Holders(calls, i) == Holders(calls - {c}, i) + if calls[c].inst == i then {c} else {};
  }

  /** Pinning an instance the store still owns, or any instance at all when the
      call is not marked safe. */
  lemma PinKeepsInv(s: System, c: CallId, call: Call)
    requires Inv(s) && c !in s.calls
    requires call.safe ==> Live(s.store, call.inst) || call.inst in s.store.pending
    ensures Inv(s.(store := Pinned(s.store, call.inst), calls := s.calls[c := call]))
  {
    var s' := s.(store := Pinned(s.store, call.inst), calls := s.calls[c := call]);
    forall i ensures Conditions(s', i) == Conditions(s, i) {
      assert Live(s'.store, i) == Live(s.store, i);
    }
    forall i ensures !s.store.closed ==> Pins(s'.store, i) == |Holders(s'.calls, i)| {
      AddHolder(s.calls, c, call, i);
    }
  }

  lemma HitKeepsInv(s: System, call: CallId, key: Key, pin: bool)
    requires Inv(s) && Enabled(s, Hit(call, key, pin))
    ensures Inv(AfterHit(s, call, key, pin))
  {
    var hit := AfterHit(s, call, key, false);
    TouchDistinct(s.store.order, key);
    TouchMembers(s.store.order, key);
    if s.evictions == 0 {
      RequestKeepsOrder(s, key);
    }
    forall i ensures Conditions(hit, i) == Conditions(s, i) {
      assert Live(hit.store, i) == Live(s.store, i);
    }
    if pin {
      PinKeepsInv(hit, call, Call(s.store.entries[key], true));
    }
  }

  /** A request for `key`, cut to the store's size, keeps the order of use. */
  lemma RequestKeepsOrder(s: System, key: Key)
    requires Inv(s) && s.evictions == 0 && !s.store.closed
    ensures LastN(Touch(s.store.order, key), s.store.max) == LastN(ByLastUse(s.history + [key]), s.store.max)
  {
    var h := s.history + [key];
    assert h[..|h| - 1] == s.history;
    ByLastUseDistinct(s.history);
    TouchCut(ByLastUse(s.history), key, s.store.max);
  }

  /** The system just after a start completed, before any pin. */
  ghost function MadeUnpinned(s: System, i: Inst, pin: bool): System
    requires s.lock.Making? && WellFormed(s.store) && s.lock.key !in s.store.entries
  {
    var (store, stop) := Published(s.store, s.lock.key, i);
    s.(store := store, started := s.started + {i}, stops := s.stops + AsStop(stop),
       history := s.history + [s.lock.key], answers := s.answers + [i],
       lock := if stop.Some? then Trimming(s.lock.call, i, pin) else Idle)
  }

  lemma MadeOwnsOnce(s: System, i: Inst, pin: bool, j: Inst)
    requires Inv(s) && Enabled(s, Made(i, pin))
    ensures var made := MadeUnpinned(s, i, pin);
      Conditions(made, j) == if j in made.started then 1 else 0
  {
    PublishedLive(s.store, s.lock.key, i, j);
    assert Conditions(s, i) == 0;
    assert Conditions(s, j) == if j in s.started then 1 else 0;
    if |s.store.order| == s.store.max {
      assert s.store.order[0] in s.store.order;
      assert Live(s.store, s.store.entries[s.store.order[0]]);
    }
  }

  lemma MadeKeepsSafe(s: System, i: Inst, pin: bool, c: CallId)
    requires Inv(s) && Enabled(s, Made(i, pin))
    requires c in s.calls && s.calls[c].safe
    ensures var made := MadeUnpinned(s, i, pin);
      Live(made.store, made.calls[c].inst) || made.calls[c].inst in made.store.pending
  {
    PublishedLive(s.store, s.lock.key, i, s.calls[c].inst);
    HeldIsPinned(s, c);
  }

  lemma MadeUnpinnedKeepsInv(s: System, i: Inst, pin: bool)
    requires Inv(s) && Enabled(s, Made(i, pin))
    ensures Inv(MadeUnpinned(s, i, pin))
  {
    var key := s.lock.key;
    var made := MadeUnpinned(s, i, pin);
    assert WellFormed(made.store) && Live(made.store, i) by {
      assert !Live(s.store, i) by { assert Conditions(s, i) == 0; }
      PublishedWellFormed(s.store, key, i);
      PublishedLive(s.store, key, i, i);
    }
    forall j ensures Conditions(made, j) == if j in made.started then 1 else 0 {
      MadeOwnsOnce(s, i, pin, j);
    }
    assert SafeCallsOwned(made) by {
      forall c | c in made.calls && made.calls[c].safe
        ensures Live(made.store, made.calls[c].inst) || made.calls[c].inst in made.store.pending
      {
        MadeKeepsSafe(s, i, pin, c);
      }
    }
    assert PinsMatch(made);
    assert InOrderOfUse(made) by {
      if s.evictions == 0 {
        RequestKeepsOrder(s, key);
        PublishedOrder(s.store, key, i);
      }
    }
  }

  lemma MadeKeepsInv(s: System, i: Inst, pin: bool)
    requires Inv(s) && Enabled(s, Made(i, pin))
    ensures Inv(AfterMade(s, i, pin))
  {
    MadeUnpinnedKeepsInv(s, i, pin);
    if Published(s.store, s.lock.key, i).1.None? && pin {
      PublishedLive(s.store, s.lock.key, i, i);
      PinKeepsInv(MadeUnpinned(s, i, pin), s.lock.call, Call(i, true));
    }
  }

  /** An instance that some call holds has a positive pin count. */
  lemma HeldIsPinned(s: System, c: CallId)
    requires Inv(s) && !s.store.closed && c in s.calls
    ensures Pins(s.store, s.calls[c].inst) > 0
  {
    assert c in Holders(s.calls, s.calls[c].inst);
  }

  lemma ReleaseKeepsInv(s: System, c: CallId)
    requires Inv(s) && c in s.calls
    ensures Inv(AfterRelease(s, c))
  {
    var s' := AfterRelease(s, c);
    forall i ensures Conditions(s', i) == Conditions(s, i) {
      assert Live(s'.store, i) == Live(s.store, i);
    }
    forall i ensures !s.store.closed ==> Pins(s'.store, i) == |Holders(s'.calls, i)| {
      RemoveHolder(s.calls, c, i);
    }
    ReleaseKeepsSafe(s, c);
  }

  lemma ReleaseKeepsSafe(s: System, c: CallId)
    requires Inv(s) && c in s.calls
    ensures SafeCallsOwned(AfterRelease(s, c))
  {
    var s' := AfterRelease(s, c);
    var inst := s.calls[c].inst;
    forall d | !s.store.closed && d in s'.calls && s'.calls[d].safe
      ensures Live(s'.store, s'.calls[d].inst) || s'.calls[d].inst in s'.store.pending
    {
      assert Live(s'.store, s'.calls[d].inst) == Live(s.store, s.calls[d].inst);
      if s'.calls[d].inst == inst {
        assert d in Holders(s'.calls, inst);
        RemoveHolder(s.calls, c, inst);
      }
    }
  }

  lemma EvictKeepsInv(s: System, key: Key)
    requires Inv(s) && s.lock == Idle
    ensures Inv(AfterEvict(s, key))
  {
    var s' := AfterEvict(s, key);
    DroppedWellFormed(s.store, key);
    if key in s.store.entries {
      assert Live(s.store, s.store.entries[key]);
      forall i ensures Conditions(s', i) == Conditions(s, i) {
        DroppedLive(s.store, key, i);
        assert Conditions(s, i) == if i in s.started then 1 else 0;
        assert Conditions(s, s.store.entries[key]) <= 1;
      }
      EvictKeepsSafe(s, key);
    } else {
      forall i ensures Conditions(s', i) == Conditions(s, i) {
        assert Live(s'.store, i) == Live(s.store, i);
      }
    }
  }

  lemma EvictKeepsSafe(s: System, key: Key)
    requires Inv(s) && key in s.store.entries
    ensures SafeCallsOwned(AfterEvict(s, key))
  {
    var s' := AfterEvict(s, key);
    forall c | c in s'.calls && s'.calls[c].safe && !s'.store.closed
      ensures Live(s'.store, s'.calls[c].inst) || s'.calls[c].inst in s'.store.pending
    {
      DroppedLive(s.store, key, s.calls[c].inst);
      HeldIsPinned(s, c);
    }
  }

  lemma CloseKeepsInv(s: System)
    requires Inv(s) && Enabled(s, Close)
    ensures Inv(AfterClose(s))
  {
    var s' := AfterClose(s);
    forall i ensures Conditions(s', i) == Conditions(s, i) {
      InstancesOnce(s.store.order, s.store.entries, i);
      assert Live(s.store, i) <==> exists k :: k in s.store.order && s.store.entries[k] == i;
    }
  }

  /** A move that leaves the store, the calls and the log of requests alone. */
  lemma SameStoreKeepsInv(s: System, s': System)
    requires Inv(s) && LockSound(s')
    requires s' == s.(lock := s'.lock, stops := s'.stops, lost := s'.lost)
    requires Queue(s') + s'.stops + s'.lost == Queue(s) + s.stops + s.lost
    requires !s.store.closed ==> s'.lost == multiset{}
    ensures Inv(s')
  {
    forall i ensures Conditions(s', i) == Conditions(s, i) {
      assert (Queue(s') + s'.stops + s'.lost)[i] == (Queue(s) + s.stops + s.lost)[i];
      assert Live(s'.store, i) == Live(s.store, i);
    }
    assert PinsMatch(s') && SafeCallsOwned(s') && InOrderOfUse(s');
  }

  lemma OtherStepKeepsInv(s: System, e: Event, s': System)
    requires Inv(s) && Step(s, e, s')
    requires e.Miss? || e.MakeFailed? || e.TrimFailed? || e.CloseStop? || e.CloseDone? || e.CloseAborted?
    ensures Inv(s')
  {
    if e.CloseStop? {
      assert s.lock.queue == (s.lock.queue - multiset{e.inst}) + multiset{e.inst};
    }
    assert Queue(s') + s'.stops + s'.lost == Queue(s) + s.stops + s.lost;
    assert LockSound(s');
    SameStoreKeepsInv(s, s');
  }

  /** Every segment of every task keeps the invariant. */
  lemma StepKeepsInv(s: System, e: Event, s': System)
    requires Inv(s) && Step(s, e, s')
    ensures Inv(s')
  {
    match e
    case Hit(c, key, pin) => HitKeepsInv(s, c, key, pin);
    case Made(i, pin) => MadeKeepsInv(s, i, pin);
    case TrimDone =>
      var free := s.(lock := Idle);
      forall i ensures Conditions(free, i) == Conditions(s, i) {
        assert Live(free.store, i) == Live(s.store, i);
      }
      if s.lock.pin {
        PinKeepsInv(free, s.lock.call, Call(s.lock.inst, true));
      }
    case Acquire(c, i) => PinKeepsInv(s, c, Call(i, Live(s.store, i) || i in s.store.pending));
    case Release(c) => ReleaseKeepsInv(s, c);
    case Evict(key) => EvictKeepsInv(s, key);
    case Close => CloseKeepsInv(s);
    case _ => OtherStepKeepsInv(s, e, s');
  }

  // ---------------------------------------------------------------- theorems

  /** A run: an initial state and one step between each two neighbours. */
  ghost predicate Run(states: seq<System>, events: seq<Event>) {
    && |states| == |events| + 1
    && Init(states[0])
    && forall n :: 0 <= n < |events| ==> Step(states[n], events[n], states[n + 1])
  }

  lemma {:induction false} RunKeepsInv(states: seq<System>, events: seq<Event>, n: nat)
    requires Run(states, events) && n < |states|
    ensures Inv(states[n])
  {
    if n == 0 {
      forall i ensures Conditions(states[0], i) == 0 && Holders(states[0].calls, i) == {} {}
    } else {
      RunKeepsInv(states, events, n - 1);
      StepKeepsInv(states[n - 1], events[n - 1], states[n]);
    }
  }

  /** Over every interleaving each started instance is in exactly one
      condition: live, waiting for a last pin it really has, queued by `close`,
      stopped exactly once, or lost by an interrupted `close`. */
  lemma OneConditionEach(states: seq<System>, events: seq<Event>, n: nat, i: Inst)
    requires Run(states, events) && n < |states|
    ensures Conditions(states[n], i) == if i in states[n].started then 1 else 0
    ensures states[n].stops[i] <= 1
    ensures i in states[n].store.pending ==> Pins(states[n].store, i) > 0
    ensures |states[n].store.entries| <= states[n].store.max
  {
    RunKeepsInv(states, events, n);
    var s := states[n];
    assert Conditions(s, i) <= 1;
    DistinctCount(s.store.order);
    assert forall k :: k in s.store.entries.Keys <==> k in Keys(s.store.order);
    assert s.store.entries.Keys == Keys(s.store.order);
  }

  lemma StopLeavesNoPin(s: System, e: Event, s': System, i: Inst)
    requires LockSound(s) && Step(s, e, s') && !e.CloseStop?
    requires s'.stops[i] > s.stops[i]
    ensures !s'.store.closed && Pins(s'.store, i) == 0
  {
    assert e.Made? || e.Release? || e.Evict?;
    if e.Made? {
      assert s'.stops == s.stops + AsStop(Published(s.store, s.lock.key, e.inst).1);
    }
  }

  /** Nothing but `close` stops an instance that some call holds: whatever else
      stops it, no call holds it at that moment. */
  lemma StopOnlyUnheld(states: seq<System>, events: seq<Event>, n: nat, i: Inst)
    requires Run(states, events) && n < |events| && !events[n].CloseStop?
    requires states[n + 1].stops[i] > states[n].stops[i]
    ensures Holders(states[n + 1].calls, i) == {}
  {
    RunKeepsInv(states, events, n);
    StopLeavesNoPin(states[n], events[n], states[n + 1], i);
    RunKeepsInv(states, events, n + 1);
    assert PinsMatch(states[n + 1]);
  }

  /** An invocation pins its instance with nothing between receiving and
      pinning it, so until the store is closed the instance is never stopped
      under it. */
  lemma InvocationNeverOnStopped(states: seq<System>, events: seq<Event>, n: nat, c: CallId)
    requires Run(states, events) && n < |states| && !states[n].store.closed
    requires c in states[n].calls && states[n].calls[c].safe
    ensures states[n].stops[states[n].calls[c].inst] == 0
  {
    RunKeepsInv(states, events, n);
    var i := states[n].calls[c].inst;
    assert Conditions(states[n], i) <= 1;
  }

  /** The pin taken by a request is always of the safe kind. */
  lemma InvocationPinIsSafe(s: System, e: Event, s': System, c: CallId)
    requires Inv(s) && Step(s, e, s') && !e.Acquire?
    requires c in s'.calls && c !in s.calls
    ensures s'.calls[c].safe && Live(s'.store, s'.calls[c].inst)
  {
    StepKeepsInv(s, e, s');
    if e.Made? {
      PublishedLive(s.store, s.lock.key, e.inst, e.inst);
    }
    assert Live(s'.store, s'.calls[c].inst) by {
      if e.Hit? {
        assert s'.store.entries[e.key] == s'.calls[c].inst;
      }
    }
  }

  /** Least recently used, as a caller can state it: without explicit eviction
      and before closing, a key is in the store exactly when fewer than `max`
      other keys were requested since its own last request; and the keys stand
      in the order of their last requests. */
  lemma KeepsTheMostRecentKeys(states: seq<System>, events: seq<Event>, n: nat, key: Key)
    requires Run(states, events) && n < |states|
    requires states[n].evictions == 0 && !states[n].store.closed
    ensures states[n].store.order == LastN(ByLastUse(states[n].history), states[n].store.max)
    ensures key in states[n].store.entries <==> UsedWithin(states[n].history, key, states[n].store.max)
  {
    RunKeepsInv(states, events, n);
    KeptIff(states[n].history, key, states[n].store.max);
  }

  /** A key keeps its instance for as long as it stays in the store, a request
      returns the instance stored under its key, and only a miss makes one. */
  lemma KeyKeepsInstance(s: System, e: Event, s': System, key: Key)
    requires Step(s, e, s') && key in s.store.entries && key in s'.store.entries
    ensures s'.store.entries[key] == s.store.entries[key]
    ensures e.Made? ==> s.lock.key != key
  {
    if e.Made? {
      assert s'.store.entries == Published(s.store, s.lock.key, e.inst).0.entries;
      PublishedKeeps(s.store, s.lock.key, e.inst, key);
    } else {
      EntriesShrink(s, e, s', key);
    }
  }

  /** Over a run: for as long as a key stays in the store, every request for it
      is given the same instance. */
  lemma {:induction false} KeyKeepsInstanceInRun(states: seq<System>, events: seq<Event>, m: nat, n: nat, key: Key)
    requires Run(states, events) && m <= n < |states|
    requires forall k :: m <= k <= n ==> key in states[k].store.entries
    ensures states[n].store.entries[key] == states[m].store.entries[key]
    ensures |states[m].history| <= |states[n].history| == |states[n].answers|
    ensures forall j :: |states[m].history| <= j < |states[n].history| && states[n].history[j] == key ==>
      states[n].answers[j] == states[m].store.entries[key]
  {
    if m == n {
      AnswersMatch(states, events, m);
    } else {
      KeyKeepsInstanceInRun(states, events, m, n - 1, key);
      assert Step(states[n - 1], events[n - 1], states[n]);
      KeyKeepsInstance(states[n - 1], events[n - 1], states[n], key);
      LogsGrow(states[n - 1], events[n - 1], states[n]);
    }
  }

  /** One step adds to the logs nothing, or one request and the instance that is
      stored for it. */
  ghost predicate Logged(s: System, s': System) {
    || (s'.history == s.history && s'.answers == s.answers)
    || (s'.history != [] && s'.answers != []
        && AddsRequest(s, s', s'.history[|s'.history| - 1], s'.answers[|s'.answers| - 1]))
  }

  ghost predicate AddsRequest(s: System, s': System, k: Key, i: Inst) {
    && s'.history == s.history + [k] && s'.answers == s.answers + [i]
    && (k in s'.store.entries ==> s'.store.entries[k] == i)
  }

  lemma LogsGrow(s: System, e: Event, s': System)
    requires Step(s, e, s')
    ensures Logged(s, s')
  {
    match e
    case Hit(_, key, _) => assert AddsRequest(s, s', key, s.store.entries[key]);
    case Made(i, _) => MadeIsLogged(s, i, e.pin, s');
    case _ => assert s'.history == s.history && s'.answers == s.answers;
  }

  lemma MadeIsLogged(s: System, i: Inst, pin: bool, s': System)
    requires Step(s, Made(i, pin), s')
    ensures AddsRequest(s, s', s.lock.key, i)
  {
    assert s'.store.entries == Published(s.store, s.lock.key, i).0.entries;
  }

  lemma {:induction false} AnswersMatch(states: seq<System>, events: seq<Event>, n: nat)
    requires Run(states, events) && n < |states|
    ensures |states[n].history| == |states[n].answers|
  {
    if n > 0 {
      AnswersMatch(states, events, n - 1);
      LogsGrow(states[n - 1], events[n - 1], states[n]);
    }
  }

  lemma PublishedKeeps(s: Store, key: Key, i: Inst, k: Key)
    requires WellFormed(s) && key !in s.entries && k in s.entries && k in Published(s, key, i).0.entries
    ensures Published(s, key, i).0.entries[k] == s.entries[k]
  {
  }

  lemma EntriesShrink(s: System, e: Event, s': System, key: Key)
    requires Step(s, e, s') && !e.Made? && key in s'.store.entries
    ensures key in s.store.entries && s'.store.entries[key] == s.store.entries[key]
  {
    if e.Evict? {
      assert s'.store.entries == Dropped(s.store, e.key).0.entries;
    } else if !e.Close? {
      assert s'.store.entries == s.store.entries;
    }
  }

  lemma MadeIsReturnedLive(s: System, i: Inst, pin: bool, s': System)
    requires Inv(s) && Step(s, Made(i, pin), s')
    ensures s.lock.key in s'.store.entries && s'.store.entries[s.lock.key] == i && s'.stops[i] == 0
  {
    StepKeepsInv(s, Made(i, pin), s');
    PublishedLive(s.store, s.lock.key, i, i);
    assert Conditions(s', i) == 1;
    assert Live(s'.store, i);
  }

  /** Once a close is over, every instance ever started has been stopped exactly
      once or lost, and is lost exactly when it was still queued as a close was
      cut short. */
  lemma ClosedMeansStoppedOrLost(states: seq<System>, events: seq<Event>, n: nat, i: Inst)
    requires Run(states, events) && n < |states|
    requires states[n].store.closed && states[n].lock == Idle && i in states[n].started
    ensures states[n].stops[i] == 1 <==> states[n].lost[i] == 0
    ensures states[n].stops[i] <= 1
    ensures states[n].lost[i] > 0 <==>
      exists m :: 0 <= m < n && events[m].CloseAborted? && states[m].lock.Closing? && i in states[m].lock.queue
  {
    RunKeepsInv(states, events, n);
    assert Conditions(states[n], i) == 1;
    assert !Live(states[n].store, i);
    LostWhenCut(states, events, n, i);
  }

  /** A closed store stays closed and empty, and makes nothing. */
  lemma {:induction false} UnusableAfterClose(states: seq<System>, events: seq<Event>, m: nat, n: nat)
    requires Run(states, events) && m <= n < |states| && states[m].store.closed
    ensures states[n].store.closed && states[n].store.entries == map[] && states[n].started == states[m].started
    ensures states[n].history == states[m].history
  {
    if m < n {
      UnusableAfterClose(states, events, m, n - 1);
      RunKeepsInv(states, events, n - 1);
      ClosedStays(states[n - 1], events[n - 1], states[n]);
    }
    RunKeepsInv(states, events, n);
    ClosedIsEmpty(states[n]);
  }

  lemma ClosedStays(s: System, e: Event, s': System)
    requires LockSound(s) && Step(s, e, s') && s.store.closed
    ensures s'.store.closed && s'.started == s.started && s'.history == s.history
  {
  }

  lemma ClosedIsEmpty(s: System)
    requires WellFormed(s.store) && s.store.closed
    ensures s.store.entries == map[]
  {
    assert forall k: Key :: k !in s.store.entries;
  }

  lemma {:induction false} LostWhenCut(states: seq<System>, events: seq<Event>, n: nat, i: Inst)
    requires Run(states, events) && n < |states|
    ensures states[n].lost[i] > 0 <==>
      exists m :: 0 <= m < n && events[m].CloseAborted? && states[m].lock.Closing? && i in states[m].lock.queue
  {
    if n > 0 {
      LostWhenCut(states, events, n - 1, i);
      assert Step(states[n - 1], events[n - 1], states[n]);
    }
  }

  /** In particular a close that was not cut short stopped everything. */
  lemma CloseStopsEverything(states: seq<System>, events: seq<Event>, n: nat, i: Inst)
    requires Run(states, events) && n < |states|
    requires states[n].store.closed && states[n].lock == Idle && i in states[n].started
    requires forall m :: 0 <= m < n ==> !events[m].CloseAborted?
    ensures states[n].stops[i] == 1
  {
    ClosedMeansStoppedOrLost(states, events, n, i);
  }

  /** Some run ends here. */
  ghost predicate Reachable(s: System) {
    exists states, events :: Run(states, events) && states[|states| - 1] == s
  }

  lemma StepReachable(s: System, e: Event, s': System)
    requires Reachable(s) && Step(s, e, s')
    ensures Reachable(s')
  {
    var states, events :| Run(states, events) && states[|states| - 1] == s;
    var longer, more := states + [s'], events + [e];
    forall n | 0 <= n < |more| ensures Step(longer[n], more[n], longer[n + 1]) {
      if n < |events| {
        assert Step(states[n], events[n], states[n + 1]);
      }
    }
    assert Run(longer, more);
  }

  lemma ReachableInv(s: System)
    requires Reachable(s)
    ensures Inv(s)
  {
    var states, events :| Run(states, events) && states[|states| - 1] == s;
    RunKeepsInv(states, events, |states| - 1);
  }

  /** A close that is cut short before its first stop loses every live instance:
      each is still running, and nothing will stop it. */
  lemma CutCloseLoses(s: System, i: Inst) returns (s': System)
    requires Reachable(s) && s.lock == Idle && !s.store.closed && Live(s.store, i)
    ensures Reachable(s') && s'.store.closed && s'.lock == Idle
    ensures i in s'.started && s'.lost[i] == 1 && s'.stops[i] == 0
  {
    ReachableInv(s);
    assert Conditions(s, i) == 1;
    var closing := AfterClose(s);
    StepReachable(s, Close, closing);
    ReachableInv(closing);
    s' := closing.(lock := Idle, lost := closing.lost + closing.lock.queue);
    StepReachable(closing, CloseAborted, s');
    ReachableInv(s');
    assert Conditions(s', i) == 1 && !Live(s'.store, i);
  }

  /** And such a store there is. */
  lemma OneLive() returns (s: System)
    ensures Reachable(s) && s.lock == Idle && !s.store.closed && Live(s.store, 7)
  {
    var s0 := System(Store(1, [], map[], map[], {}, false), Idle, map[], {}, multiset{}, multiset{}, [], [], 0);
    assert Run([s0], []);
    var s1 := s0.(lock := Making(1, 5));
    StepReachable(s0, Miss(1, 5), s1);
    s := AfterMade(s1, 7, false);
    assert s.store.entries[5] == 7;
    StepReachable(s1, Made(7, false), s);
  }
}
