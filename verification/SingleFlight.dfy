/** The cache link under concurrency.

    A flight is one base call: the index of a flight in `flights` is the
    identity of its in-flight record. `Step` is one segment of one call, or the
    clock moving on; `ticks` numbers the steps, so that intervals of calls can
    be compared. */
module SingleFlight {
  import opened CacheLink
  import opened Recency
  import opened Sequences
  import opened Wrappers

  type CallId = nat

  datatype Landing = Landing(at: nat, time: real, ending: Ending)

  datatype Flight = Flight(key: Key, leader: CallId, start: nat, startTime: real, landing: Option<Landing>)

  datatype Source = FromStore | Coalesced(flight: FlightId) | Led(flight: FlightId) | GaveUp

  /** A finished call has a payload (a value, or an error that was raised) or
      was cancelled. */
  datatype Status =
    | Waiting(flight: FlightId)
    | Leading(flight: FlightId)
    | Finished(source: Source, result: Option<Payload>, at: nat)

  datatype Call = Call(key: Key, entered: nat, retries: nat, status: Status)

  datatype System = System(
    cache: Cache,
    now: real,
    ticks: nat,
    flights: seq<Flight>,
    calls: map<CallId, Call>,
    pushedOut: set<FlightId>,
    uses: seq<Key>)

  datatype Event =
    | Tick(seconds: real)
    | Enter(call: CallId, key: Key)
    | Resume(call: CallId)
    | Land(call: CallId, ending: Ending)
    | StopWaiting(call: CallId)

  ghost predicate Init(s: System) {
    s == System(Cache([], map[], map[]), s.now, 0, [], map[], {}, [])
  }

  function PayloadOf(ending: Ending): Option<Payload> {
    match ending
    case Returned(v) => Some(Value(v))
    case Raised(e) => Some(Error(e))
    case Abandoned => None
  }

  /** One turn of the loop in `call`, for a new caller or one that woke up. */
  ghost function AfterTurn(s: System, c: CallId, key: Key, entered: nat, retries: nat): System {
    var decision := Decide(s.cache, key, s.now);
    var next := |s.flights|;
    var status := match decision
      case Hit(p) => Finished(FromStore, Some(p), s.ticks)
      case Wait(f) => Waiting(f)
      case Lead => Leading(next);
    s.(cache := Decided(s.cache, key, s.now, next),
       ticks := s.ticks + 1,
       flights := if decision.Lead? then s.flights + [Flight(key, c, s.ticks, s.now, None)] else s.flights,
       calls := s.calls[c := Call(key, entered, retries, status)],
       uses := if decision.Hit? then s.uses + [key] else s.uses)
  }

  ghost function WithStatus(s: System, c: CallId, status: Status): System
    requires c in s.calls
  {
    s.(ticks := s.ticks + 1, calls := s.calls[c := s.calls[c].(status := status)])
  }

  ghost function AfterResume(s: System, c: CallId): System
    requires c in s.calls && s.calls[c].status.Waiting? && s.calls[c].status.flight < |s.flights|
    requires s.flights[s.calls[c].status.flight].landing.Some?
  {
    var call := s.calls[c];
    var f := call.status.flight;
    var ending := s.flights[f].landing.value.ending;
    if ending.Abandoned? then AfterTurn(s, c, call.key, call.entered, call.retries + 1)
    else WithStatus(s, c, Finished(Coalesced(f), PayloadOf(ending), s.ticks))
  }

  /** The flights whose stored results a landing pushes out of the store. */
  ghost function Victims(s: System, cache: Cache, key: Key): set<FlightId> {
    set f | 0 <= f < |s.flights| && s.flights[f].key != key && s.flights[f].key in s.cache.entries
            && s.flights[f].key !in cache.entries && IsLatest(s.flights, f)
  }

  ghost function AfterLand(t: Settings, s: System, c: CallId, ending: Ending): System
    requires c in s.calls && s.calls[c].status.Leading? && s.calls[c].status.flight < |s.flights|
  {
    var f := s.calls[c].status.flight;
    var key := s.calls[c].key;
    var cache := Landed(t, s.cache, key, ending, s.now);
    var landed := s.flights[f].(landing := Some(Landing(s.ticks, s.now, ending)));
    WithStatus(s, c, Finished(Led(f), PayloadOf(ending), s.ticks))
      .(cache := cache,
        flights := s.flights[f := landed],
        pushedOut := s.pushedOut + Victims(s, cache, key),
        uses := if Cacheable(t, ending).Some? then s.uses + [key] else s.uses)
  }

  ghost predicate Step(t: Settings, s: System, e: Event, s': System) {
    match e
    case Tick(seconds) => seconds >= 0.0 && s' == s.(now := s.now + seconds, ticks := s.ticks + 1)
    case Enter(c, key) => c !in s.calls && s' == AfterTurn(s, c, key, s.ticks, 0)
    case Resume(c) =>
      && c in s.calls && s.calls[c].status.Waiting? && s.calls[c].status.flight < |s.flights|
      && s.flights[s.calls[c].status.flight].landing.Some?
      && s' == AfterResume(s, c)
    case Land(c, ending) =>
      && c in s.calls && s.calls[c].status.Leading? && s.calls[c].status.flight < |s.flights|
      && s' == AfterLand(t, s, c, ending)
    case StopWaiting(c) =>
      && c in s.calls && s.calls[c].status.Waiting?
      && s' == WithStatus(s, c, Finished(GaveUp, None, s.ticks))
  }

  // -------------------------------------------------------------- invariant

  ghost predicate HasLanded(flights: seq<Flight>, f: FlightId) {
    f < |flights| && flights[f].landing.Some?
  }

  /** The latest landed flight of its key. */
  ghost predicate IsLatest(flights: seq<Flight>, f: FlightId) {
    && HasLanded(flights, f)
    && forall g :: f < g < |flights| && flights[g].key == flights[f].key ==> flights[g].landing.None?
  }

  ghost predicate TimesSound(s: System) {
    forall f :: 0 <= f < |s.flights| ==>
      && s.flights[f].start < s.ticks && s.flights[f].startTime <= s.now
      && (s.flights[f].landing.Some? ==>
            && s.flights[f].start < s.flights[f].landing.value.at < s.ticks
            && s.flights[f].startTime <= s.flights[f].landing.value.time <= s.now)
  }

  ghost predicate InflightSound(s: System) {
    && (forall k :: k in s.cache.inflight ==>
          && s.cache.inflight[k] < |s.flights|
          && s.flights[s.cache.inflight[k]].key == k && s.flights[s.cache.inflight[k]].landing.None?)
    && (forall f :: 0 <= f < |s.flights| && s.flights[f].landing.None? ==>
          s.flights[f].key in s.cache.inflight && s.cache.inflight[s.flights[f].key] == f)
  }

  /** Base calls for one key: each landed before the next one started. */
  ghost predicate OneAtATime(s: System) {
    forall f, g :: 0 <= f < g < |s.flights| && s.flights[f].key == s.flights[g].key ==>
      s.flights[f].landing.Some? && s.flights[f].landing.value.at < s.flights[g].start
  }

  /** The entry is what that flight left behind. */
  ghost predicate HoldsResult(t: Settings, entry: Entry, landing: Landing) {
    Cacheable(t, landing.ending) == Some(entry.payload) && entry.expiresAt == landing.time + t.ttl
  }

  ghost predicate EntriesSound(t: Settings, s: System) {
    forall k :: k in s.cache.entries ==>
      exists f :: 0 <= f < |s.flights| && s.flights[f].key == k && IsLatest(s.flights, f)
                  && HoldsResult(t, s.cache.entries[k], s.flights[f].landing.value)
  }

  ghost predicate WasCached(t: Settings, flights: seq<Flight>, f: FlightId) {
    HasLanded(flights, f) && Cacheable(t, flights[f].landing.value.ending).Some?
  }

  /** A cached result stays for its time to live, unless capacity takes it. */
  ghost predicate ResultsKept(t: Settings, s: System) {
    forall f :: 0 <= f < |s.flights| && WasCached(t, s.flights, f) ==>
      || f in s.pushedOut
      || s.now >= s.flights[f].landing.value.time + t.ttl
      || (IsLatest(s.flights, f) && s.flights[f].key in s.cache.entries)
  }

  ghost predicate FlightsApart(t: Settings, s: System) {
    forall f, g :: 0 <= f < g < |s.flights| && s.flights[f].key == s.flights[g].key && WasCached(t, s.flights, f) ==>
      f in s.pushedOut || s.flights[g].startTime >= s.flights[f].landing.value.time + t.ttl
  }

  /** The leaders of `key` among the first `n` flights that ended without a
      result after step `entered`. */
  ghost function Abandons(flights: seq<Flight>, key: Key, entered: nat, n: nat): set<FlightId> {
    set f | 0 <= f < |flights| && f < n && flights[f].key == key && flights[f].landing.Some?
            && flights[f].landing.value.ending.Abandoned? && entered < flights[f].landing.value.at
  }

  ghost predicate CallSound(s: System, c: CallId)
    requires c in s.calls
  {
    var call := s.calls[c];
    match call.status
    case Waiting(f) =>
      && f < |s.flights| && s.flights[f].key == call.key
      && (s.flights[f].landing.Some? ==> call.entered < s.flights[f].landing.value.at)
      && call.entered < s.ticks
      && call.retries <= |Abandons(s.flights, call.key, call.entered, f)|
    case Leading(f) =>
      && f < |s.flights| && s.flights[f].key == call.key
      && s.flights[f].leader == c && s.flights[f].landing.None?
      && call.entered <= s.flights[f].start
      && call.retries <= |Abandons(s.flights, call.key, call.entered, f)|
    case Finished(source, result, at) =>
      && call.entered <= at < s.ticks
      && call.retries <= |Abandons(s.flights, call.key, call.entered, |s.flights|)|
      && (source.Coalesced? || source.Led? ==>
            && source.flight < |s.flights| && s.flights[source.flight].key == call.key
            && s.flights[source.flight].landing.Some?
            && call.entered < s.flights[source.flight].landing.value.at <= at
            && result == PayloadOf(s.flights[source.flight].landing.value.ending))
      && (source.Coalesced? ==> result.Some?)
  }

  ghost predicate CallsSound(s: System) {
    forall c :: c in s.calls ==> CallSound(s, c)
  }

  ghost predicate Inv(t: Settings, s: System) {
    && WellFormed(t, s.cache)
    && TimesSound(s)
    && InflightSound(s)
    && OneAtATime(s)
    && EntriesSound(t, s)
    && ResultsKept(t, s)
    && FlightsApart(t, s)
    && CallsSound(s)
    && InUseOrder(s.cache.order, s.uses)
  }

  // ------------------------------------------------------------ preservation

  /** Flights are only added at the end, and only their landings change: the
      ones that landed in this step were led by `c`. */
  ghost predicate Progress(s: System, s': System, c: CallId) {
    && s'.ticks == s.ticks + 1
    && |s.flights| <= |s'.flights|
    && forall f :: 0 <= f < |s.flights| ==>
         && s'.flights[f].(landing := None) == s.flights[f].(landing := None)
         && (s.flights[f].landing.Some? ==> s'.flights[f] == s.flights[f])
         && (s.flights[f].landing.None? && s'.flights[f].landing.Some? ==>
               s.flights[f].leader == c && s'.flights[f].landing.value.at == s.ticks)
  }

  lemma {:induction false} SubsetSize(a: set<FlightId>, b: set<FlightId>)
    requires a <= b
    ensures |a| <= |b|
  {
    if a != {} {
      var x :| x in a;
      SubsetSize(a - {x}, b - {x});
    }
  }

  lemma AbandonsGrow(s: System, s': System, c: CallId, key: Key, entered: nat, n: nat, n': nat)
    requires Progress(s, s', c) && n <= n'
    ensures |Abandons(s.flights, key, entered, n)| <= |Abandons(s'.flights, key, entered, n')|
  {
    SubsetSize(Abandons(s.flights, key, entered, n), Abandons(s'.flights, key, entered, n'));
  }

  lemma OtherCallSound(s: System, s': System, c: CallId, d: CallId)
    requires d in s.calls && CallSound(s, d) && d in s'.calls && s'.calls[d] == s.calls[d]
    requires Progress(s, s', c) && (d == c ==> s.calls[d].status.Finished?)
    ensures CallSound(s', d)
  {
    var call := s.calls[d];
    var n := if call.status.Finished? then |s.flights| else call.status.flight;
    AbandonsGrow(s, s', c, call.key, call.entered, n, if call.status.Finished? then |s'.flights| else n);
  }

  /** Once a lookup of `key` has missed, an earlier cached result was pushed out
      or has lived out its time. */
  lemma MissMeans(t: Settings, s: System, key: Key, f: FlightId)
    requires Inv(t, s) && Fresh(s.cache, key, s.now).None?
    requires WasCached(t, s.flights, f) && s.flights[f].key == key
    ensures f in s.pushedOut || s.now >= s.flights[f].landing.value.time + t.ttl
  {
  }

  lemma TurnKeepsEntries(t: Settings, s: System, c: CallId, key: Key, entered: nat, retries: nat)
    requires Inv(t, s)
    ensures EntriesSound(t, AfterTurn(s, c, key, entered, retries))
  {
    var s' := AfterTurn(s, c, key, entered, retries);
    forall k | k in s'.cache.entries
      ensures exists f :: 0 <= f < |s'.flights| && s'.flights[f].key == k && IsLatest(s'.flights, f)
                          && HoldsResult(t, s'.cache.entries[k], s'.flights[f].landing.value)
    {
      assert k in s.cache.entries && s'.cache.entries[k] == s.cache.entries[k];
      var f :| 0 <= f < |s.flights| && s.flights[f].key == k && IsLatest(s.flights, f)
               && HoldsResult(t, s.cache.entries[k], s.flights[f].landing.value);
      assert s'.flights[f] == s.flights[f] && IsLatest(s'.flights, f);
    }
  }

  lemma TurnKeepsResults(t: Settings, s: System, c: CallId, key: Key, entered: nat, retries: nat)
    requires Inv(t, s)
    ensures ResultsKept(t, AfterTurn(s, c, key, entered, retries))
    ensures FlightsApart(t, AfterTurn(s, c, key, entered, retries))
  {
    var s' := AfterTurn(s, c, key, entered, retries);
    forall f | 0 <= f < |s'.flights| && WasCached(t, s'.flights, f)
      ensures f in s'.pushedOut || s'.now >= s'.flights[f].landing.value.time + t.ttl
              || (IsLatest(s'.flights, f) && s'.flights[f].key in s'.cache.entries)
    {
      assert f < |s.flights| && WasCached(t, s.flights, f);
      if s.flights[f].key == key && Fresh(s.cache, key, s.now).None? {
        MissMeans(t, s, key, f);
      } else if IsLatest(s.flights, f) {
        assert IsLatest(s'.flights, f);
      }
    }
    forall f, g | 0 <= f < g < |s'.flights| && s'.flights[f].key == s'.flights[g].key && WasCached(t, s'.flights, f)
      ensures f in s'.pushedOut || s'.flights[g].startTime >= s'.flights[f].landing.value.time + t.ttl
    {
      assert WasCached(t, s.flights, f);
      if g == |s.flights| {
        MissMeans(t, s, key, f);
      }
    }
  }

  lemma TurnKeepsCache(t: Settings, s: System, c: CallId, key: Key, entered: nat, retries: nat)
    requires Inv(t, s)
    ensures var s' := AfterTurn(s, c, key, entered, retries);
      WellFormed(t, s'.cache) && InUseOrder(s'.cache.order, s'.uses)
  {
    LookedWellFormed(t, s.cache, key, s.now);
    TouchInUseOrder(s.cache.order, key, s.uses);
    WithoutInUseOrder(s.cache.order, key, s.uses);
  }

  lemma TurnKeepsFlights(t: Settings, s: System, c: CallId, key: Key, entered: nat, retries: nat)
    requires Inv(t, s)
    ensures var s' := AfterTurn(s, c, key, entered, retries);
      TimesSound(s') && InflightSound(s') && OneAtATime(s') && Progress(s, s', c)
  {
    var s' := AfterTurn(s, c, key, entered, retries);
    if Decide(s.cache, key, s.now).Lead? {
      var flight := Flight(key, c, s.ticks, s.now, None);
      assert s'.flights == s.flights + [flight];
      NewFlightApart(s, flight);
      NewFlightSound(s, flight, s');
      assert forall f :: 0 <= f < |s.flights| ==> s'.flights[f] == s.flights[f];
    } else {
      assert s'.flights == s.flights && s'.cache.inflight == s.cache.inflight;
    }
  }

  lemma NewFlightSound(s: System, flight: Flight, s': System)
    requires TimesSound(s) && InflightSound(s) && flight.key !in s.cache.inflight
    requires flight.start == s.ticks && flight.startTime == s.now && flight.landing.None?
    requires s'.flights == s.flights + [flight] && s'.ticks == s.ticks + 1 && s'.now == s.now
    requires s'.cache.inflight == s.cache.inflight[flight.key := |s.flights|]
    ensures TimesSound(s') && InflightSound(s')
  {
  }

  lemma NewFlightApart(s: System, flight: Flight)
    requires TimesSound(s) && InflightSound(s) && OneAtATime(s)
    requires flight.key !in s.cache.inflight && flight.start == s.ticks && flight.landing.None?
    ensures OneAtATime(s.(flights := s.flights + [flight]))
  {
  }

  /** The first `m` flights of the key have landed, so a caller joins a later
      one; its retries are paid for by leaders among those. */
  ghost predicate CanTurn(s: System, key: Key, entered: nat, retries: nat, m: nat) {
    && entered <= s.ticks && m <= |s.flights| && retries <= |Abandons(s.flights, key, entered, m)|
    && forall f :: 0 <= f < m && s.flights[f].key == key ==> s.flights[f].landing.Some?
  }

  /** A turn of a caller that is not leading. */
  lemma TurnKeepsInv(t: Settings, s: System, c: CallId, key: Key, entered: nat, retries: nat, m: nat)
    requires Inv(t, s) && (c in s.calls ==> !s.calls[c].status.Leading?)
    requires CanTurn(s, key, entered, retries, m)
    ensures Inv(t, AfterTurn(s, c, key, entered, retries))
  {
    var s' := AfterTurn(s, c, key, entered, retries);
    TurnKeepsCache(t, s, c, key, entered, retries);
    TurnKeepsFlights(t, s, c, key, entered, retries);
    TurnKeepsEntries(t, s, c, key, entered, retries);
    TurnKeepsResults(t, s, c, key, entered, retries);
    forall d | d in s'.calls ensures CallSound(s', d) {
      if d == c {
        var status := s'.calls[c].status;
        var n := if status.Finished? then |s'.flights| else status.flight;
        AbandonsGrow(s, s', c, key, entered, m, n);
      } else {
        OtherCallSound(s, s', c, d);
      }
    }
  }

  lemma StatusKeepsInv(t: Settings, s: System, c: CallId, status: Status)
    requires Inv(t, s) && c in s.calls && !s.calls[c].status.Leading?
    requires CallSound(WithStatus(s, c, status), c)
    ensures Inv(t, WithStatus(s, c, status))
  {
    var s' := WithStatus(s, c, status);
    forall d | d in s'.calls ensures CallSound(s', d) {
      if d != c {
        OtherCallSound(s, s', c, d);
      }
    }
  }

  /** A waiter that goes round again has one more resultless leader behind it. */
  lemma OneMoreAbandon(s: System, c: CallId)
    requires c in s.calls && s.calls[c].status.Waiting? && CallSound(s, c) && OneAtATime(s)
    requires HasLanded(s.flights, s.calls[c].status.flight)
    requires s.flights[s.calls[c].status.flight].landing.value.ending.Abandoned?
    ensures var call := s.calls[c];
      CanTurn(s, call.key, call.entered, call.retries + 1, call.status.flight + 1)
  {
    var call := s.calls[c];
    var f := call.status.flight;
    CountsAbandoned(s.flights, call.key, call.entered, f);
  }

  lemma CountsAbandoned(flights: seq<Flight>, key: Key, entered: nat, f: FlightId)
    requires HasLanded(flights, f) && flights[f].key == key && flights[f].landing.value.ending.Abandoned?
    requires entered < flights[f].landing.value.at
    ensures |Abandons(flights, key, entered, f + 1)| == |Abandons(flights, key, entered, f)| + 1
  {
    assert Abandons(flights, key, entered, f + 1) == Abandons(flights, key, entered, f) + {f};
  }

  lemma RetryKeepsInv(t: Settings, s: System, c: CallId)
    requires Inv(t, s) && c in s.calls && s.calls[c].status.Waiting?
    requires HasLanded(s.flights, s.calls[c].status.flight)
    requires s.flights[s.calls[c].status.flight].landing.value.ending.Abandoned?
    ensures Inv(t, AfterResume(s, c))
  {
    var call := s.calls[c];
    assert CallSound(s, c);
    OneMoreAbandon(s, c);
    TurnKeepsInv(t, s, c, call.key, call.entered, call.retries + 1, call.status.flight + 1);
  }

  /** A waiter that finishes, with the result of its flight or by giving up. */
  lemma FinishWaiting(s: System, c: CallId, status: Status)
    requires c in s.calls && s.calls[c].status.Waiting? && CallSound(s, c) && TimesSound(s)
    requires status.Finished? && status.at == s.ticks
    requires status.source == GaveUp || (
      var f := s.calls[c].status.flight;
      s.flights[f].landing.Some? && !s.flights[f].landing.value.ending.Abandoned?
      && status.source == Coalesced(f) && status.result == PayloadOf(s.flights[f].landing.value.ending))
    ensures CallSound(WithStatus(s, c, status), c)
  {
    var call := s.calls[c];
    SubsetSize(Abandons(s.flights, call.key, call.entered, call.status.flight),
               Abandons(s.flights, call.key, call.entered, |s.flights|));
  }

  lemma CoalesceKeepsInv(t: Settings, s: System, c: CallId)
    requires Inv(t, s) && c in s.calls && s.calls[c].status.Waiting?
    requires HasLanded(s.flights, s.calls[c].status.flight)
    requires !s.flights[s.calls[c].status.flight].landing.value.ending.Abandoned?
    ensures Inv(t, AfterResume(s, c))
  {
    var f := s.calls[c].status.flight;
    var status := Finished(Coalesced(f), PayloadOf(s.flights[f].landing.value.ending), s.ticks);
    assert CallSound(s, c);
    FinishWaiting(s, c, status);
    StatusKeepsInv(t, s, c, status);
  }

  lemma StopWaitingKeepsInv(t: Settings, s: System, e: Event, s': System)
    requires Inv(t, s) && Step(t, s, e, s') && e.StopWaiting?
    ensures Inv(t, s')
  {
    assert CallSound(s, e.call);
    FinishWaiting(s, e.call, Finished(GaveUp, None, s.ticks));
    StatusKeepsInv(t, s, e.call, Finished(GaveUp, None, s.ticks));
  }

  // -- the end of a leader

  /** What a leader's end does to the store. */
  lemma LandedMeaning(t: Settings, c: Cache, key: Key, ending: Ending, now: real)
    requires ValidSettings(t) && WellFormed(t, c) && key in c.inflight
    ensures var l := Landed(t, c, key, ending, now);
      && l.inflight == c.inflight - {key}
      && (key in l.entries <==> Cacheable(t, ending).Some?)
      && (key in l.entries ==> l.entries[key] == Entry(Cacheable(t, ending).value, now + t.ttl))
      && (forall k :: k in l.entries && k != key ==> k in c.entries && l.entries[k] == c.entries[k])
      && (Cacheable(t, ending).None? ==> l.entries == c.entries && l.order == c.order)
  {
    var kept := Cacheable(t, ending);
    if kept.Some? {
      StoredMeaning(t, c, key, kept.value, now);
    }
  }

  ghost predicate CanLand(t: Settings, s: System, c: CallId) {
    && ValidSettings(t) && Inv(t, s)
    && c in s.calls && s.calls[c].status.Leading? && s.calls[c].status.flight < |s.flights|
  }

  lemma LandKeepsCache(t: Settings, s: System, c: CallId, ending: Ending)
    requires CanLand(t, s, c)
    ensures var s' := AfterLand(t, s, c, ending);
      WellFormed(t, s'.cache) && InUseOrder(s'.cache.order, s'.uses)
  {
    assert CallSound(s, c);
    var key := s.calls[c].key;
    LandedWellFormed(t, s.cache, key, ending, s.now);
    if Cacheable(t, ending).Some? {
      StoredMeaning(t, s.cache, key, Cacheable(t, ending).value, s.now);
      TouchInUseOrder(s.cache.order, key, s.uses);
      LastNInUseOrder(Touch(s.cache.order, key), t.maxEntries, s.uses + [key]);
    }
  }

  lemma LandKeepsFlights(t: Settings, s: System, c: CallId, ending: Ending)
    requires CanLand(t, s, c)
    ensures var s' := AfterLand(t, s, c, ending);
      TimesSound(s') && OneAtATime(s') && Progress(s, s', c)
  {
    assert CallSound(s, c);
    LandKeepsApartness(t, s, c, ending);
  }

  lemma LandKeepsApartness(t: Settings, s: System, c: CallId, ending: Ending)
    requires CanLand(t, s, c)
    ensures OneAtATime(AfterLand(t, s, c, ending))
  {
    var f := s.calls[c].status.flight;
    var s' := AfterLand(t, s, c, ending);
    assert CallSound(s, c);
    assert s'.flights[f].key == s.flights[f].key && s'.flights[f].start == s.flights[f].start;
    assert forall g :: 0 <= g < |s.flights| && g != f ==> s'.flights[g] == s.flights[g];
  }

  lemma LandKeepsInflight(t: Settings, s: System, c: CallId, ending: Ending)
    requires CanLand(t, s, c)
    ensures InflightSound(AfterLand(t, s, c, ending))
  {
    assert CallSound(s, c);
    LandedMeaning(t, s.cache, s.calls[c].key, ending, s.now);
  }

  /** The flight that lands becomes the latest of its key; those of other keys
      are not touched. */
  lemma OwnIsLatest(t: Settings, s: System, c: CallId, ending: Ending)
    requires CanLand(t, s, c)
    ensures IsLatest(AfterLand(t, s, c, ending).flights, s.calls[c].status.flight)
  {
  }

  lemma OthersStayLatest(t: Settings, s: System, c: CallId, ending: Ending, f: FlightId)
    requires CanLand(t, s, c) && IsLatest(s.flights, f) && s.flights[f].key != s.calls[c].key
    ensures var s' := AfterLand(t, s, c, ending);
      s'.flights[f] == s.flights[f] && IsLatest(s'.flights, f)
  {
  }

  lemma LandKeepsEntries(t: Settings, s: System, c: CallId, ending: Ending)
    requires CanLand(t, s, c)
    ensures EntriesSound(t, AfterLand(t, s, c, ending))
  {
    assert CallSound(s, c);
    var s' := AfterLand(t, s, c, ending);
    var own := s.calls[c].status.flight;
    var key := s.calls[c].key;
    LandedMeaning(t, s.cache, key, ending, s.now);
    forall k | k in s'.cache.entries
      ensures exists f :: 0 <= f < |s'.flights| && s'.flights[f].key == k && IsLatest(s'.flights, f)
                          && HoldsResult(t, s'.cache.entries[k], s'.flights[f].landing.value)
    {
      if k == key {
        OwnIsLatest(t, s, c, ending);
      } else {
        var f :| 0 <= f < |s.flights| && s.flights[f].key == k && IsLatest(s.flights, f)
                 && HoldsResult(t, s.cache.entries[k], s.flights[f].landing.value);
        OthersStayLatest(t, s, c, ending, f);
      }
    }
  }

  lemma LandKeepsResults(t: Settings, s: System, c: CallId, ending: Ending)
    requires CanLand(t, s, c)
    ensures ResultsKept(t, AfterLand(t, s, c, ending))
  {
    assert CallSound(s, c);
    var s' := AfterLand(t, s, c, ending);
    var own := s.calls[c].status.flight;
    var key := s.calls[c].key;
    LandedMeaning(t, s.cache, key, ending, s.now);
    forall f | 0 <= f < |s'.flights| && WasCached(t, s'.flights, f)
      ensures f in s'.pushedOut || s'.now >= s'.flights[f].landing.value.time + t.ttl
              || (IsLatest(s'.flights, f) && s'.flights[f].key in s'.cache.entries)
    {
      if f == own {
        OwnIsLatest(t, s, c, ending);
      } else {
        assert WasCached(t, s.flights, f);
        assert key !in s.cache.entries;
        if IsLatest(s.flights, f) && s.flights[f].key in s.cache.entries {
          OthersStayLatest(t, s, c, ending, f);
        }
      }
    }
  }

  lemma LandKeepsApart(t: Settings, s: System, c: CallId, ending: Ending)
    requires CanLand(t, s, c)
    ensures FlightsApart(t, AfterLand(t, s, c, ending))
  {
  }

  lemma LandKeepsInv(t: Settings, s: System, c: CallId, ending: Ending)
    requires CanLand(t, s, c)
    ensures Inv(t, AfterLand(t, s, c, ending))
  {
    assert CallSound(s, c);
    var s' := AfterLand(t, s, c, ending);
    LandKeepsCache(t, s, c, ending);
    LandKeepsFlights(t, s, c, ending);
    LandKeepsInflight(t, s, c, ending);
    LandKeepsEntries(t, s, c, ending);
    LandKeepsResults(t, s, c, ending);
    LandKeepsApart(t, s, c, ending);
    forall d | d in s'.calls ensures CallSound(s', d) {
      if d == c {
        var call := s.calls[c];
        AbandonsGrow(s, s', c, call.key, call.entered, call.status.flight, |s'.flights|);
      } else {
        OtherCallSound(s, s', c, d);
      }
    }
  }

  lemma TickKeepsInv(t: Settings, s: System, e: Event, s': System)
    requires Inv(t, s) && Step(t, s, e, s') && e.Tick?
    ensures Inv(t, s')
  {
    forall d | d in s'.calls ensures CallSound(s', d) {
      assert CallSound(s, d);
    }
  }

  lemma EnterKeepsInv(t: Settings, s: System, e: Event, s': System)
    requires Inv(t, s) && Step(t, s, e, s') && e.Enter?
    ensures Inv(t, s')
  {
    TurnKeepsInv(t, s, e.call, e.key, s.ticks, 0, 0);
  }

  lemma ResumeKeepsInv(t: Settings, s: System, e: Event, s': System)
    requires Inv(t, s) && Step(t, s, e, s') && e.Resume?
    ensures Inv(t, s')
  {
    if s.flights[s.calls[e.call].status.flight].landing.value.ending.Abandoned? {
      RetryKeepsInv(t, s, e.call);
    } else {
      CoalesceKeepsInv(t, s, e.call);
    }
  }

  lemma LandStepKeepsInv(t: Settings, s: System, e: Event, s': System)
    requires ValidSettings(t) && Inv(t, s) && Step(t, s, e, s') && e.Land?
    ensures Inv(t, s')
  {
    LandKeepsInv(t, s, e.call, e.ending);
  }

  /** Every segment of every call keeps the invariant. */
  lemma StepKeepsInv(t: Settings, s: System, e: Event, s': System)
    requires ValidSettings(t) && Inv(t, s) && Step(t, s, e, s')
    ensures Inv(t, s')
  {
    match e
    case Enter(_, _) => EnterKeepsInv(t, s, e, s');
    case Resume(_) => ResumeKeepsInv(t, s, e, s');
    case Land(_, _) => LandStepKeepsInv(t, s, e, s');
    case Tick(_) => TickKeepsInv(t, s, e, s');
    case StopWaiting(_) => StopWaitingKeepsInv(t, s, e, s');
  }

  // ---------------------------------------------------------------- theorems

  ghost predicate Run(t: Settings, states: seq<System>, events: seq<Event>) {
    && ValidSettings(t)
    && |states| == |events| + 1
    && Init(states[0])
    && forall n :: 0 <= n < |events| ==> Step(t, states[n], events[n], states[n + 1])
  }

  lemma {:induction false} RunKeepsInv(t: Settings, states: seq<System>, events: seq<Event>, n: nat)
    requires Run(t, states, events) && n < |states|
    ensures Inv(t, states[n])
  {
    if n > 0 {
      RunKeepsInv(t, states, events, n - 1);
      StepKeepsInv(t, states[n - 1], events[n - 1], states[n]);
    }
  }

  /** Single flight: at no time do two calls lead for one key, and the base
      calls made for one key are disjoint in time. */
  lemma OneLeaderPerKey(t: Settings, states: seq<System>, events: seq<Event>, n: nat, c: CallId, d: CallId,
                        f: FlightId, g: FlightId)
    requires Run(t, states, events) && n < |states|
    ensures var calls := states[n].calls;
      (c in calls && d in calls && calls[c].status.Leading? && calls[d].status.Leading? && calls[c].key == calls[d].key)
      ==> c == d
    ensures var s := states[n];
      (f < g < |s.flights| && s.flights[f].key == s.flights[g].key) ==>
        s.flights[f].landing.Some? && s.flights[f].start < s.flights[f].landing.value.at < s.flights[g].start
  {
    RunKeepsInv(t, states, events, n);
    var s := states[n];
    if c in s.calls && d in s.calls {
      assert CallSound(s, c) && CallSound(s, d);
    }
    assert f < |s.flights| ==> TimesSound(s);
  }

  /** A coalesced caller gets the value or the error of a base call for its own
      key that ended while the caller was waiting. */
  lemma CoalescedWithinCall(t: Settings, states: seq<System>, events: seq<Event>, n: nat, c: CallId)
    requires Run(t, states, events) && n < |states|
    requires c in states[n].calls && states[n].calls[c].status.Finished? && states[n].calls[c].status.source.Coalesced?
    ensures var s, call := states[n], states[n].calls[c];
      var f := call.status.source.flight;
      && f < |s.flights| && s.flights[f].key == call.key && s.flights[f].landing.Some?
      && call.entered < s.flights[f].landing.value.at <= call.status.at
      && call.status.result.Some? && call.status.result == PayloadOf(s.flights[f].landing.value.ending)
  {
    RunKeepsInv(t, states, events, n);
    assert CallSound(states[n], c);
  }

  /** The loop of `call` goes round at most once for each leader of its key that
      ended without a result while the caller was inside. */
  lemma RetriesBounded(t: Settings, states: seq<System>, events: seq<Event>, n: nat, c: CallId)
    requires Run(t, states, events) && n < |states| && c in states[n].calls
    ensures var call := states[n].calls[c];
      call.retries <= |Abandons(states[n].flights, call.key, call.entered, |states[n].flights|)|
  {
    RunKeepsInv(t, states, events, n);
    var s, call := states[n], states[n].calls[c];
    assert CallSound(s, c);
    if !call.status.Finished? {
      SubsetSize(Abandons(s.flights, call.key, call.entered, call.status.flight),
                 Abandons(s.flights, call.key, call.entered, |s.flights|));
    }
  }

  /** A hit agrees with the base calls it replaces: it returns what the latest
      ended base call for the key produced, less than `ttl` after that call
      ended. */
  lemma HitAgrees(t: Settings, states: seq<System>, events: seq<Event>, n: nat, key: Key)
    returns (f: FlightId)
    requires Run(t, states, events) && n < |states|
    requires Decide(states[n].cache, key, states[n].now).Hit?
    ensures var s := states[n];
      && f < |s.flights| && s.flights[f].key == key && IsLatest(s.flights, f)
      && PayloadOf(s.flights[f].landing.value.ending) == Some(Decide(s.cache, key, s.now).payload)
      && s.flights[f].landing.value.time <= s.now < s.flights[f].landing.value.time + t.ttl
  {
    RunKeepsInv(t, states, events, n);
    var s := states[n];
    f :| 0 <= f < |s.flights| && s.flights[f].key == key && IsLatest(s.flights, f)
         && HoldsResult(t, s.cache.entries[key], s.flights[f].landing.value);
  }

  /** The latest base call made for a key. */
  ghost predicate LatestCall(flights: seq<Flight>, key: Key, f: FlightId) {
    && f < |flights| && flights[f].key == key
    && forall g :: f < g < |flights| ==> flights[g].key != key
  }

  /** A base call whose end leaves something to store: a value, or an error if
      errors are cached. */
  ghost predicate Worth(t: Settings, ending: Ending) {
    ending.Returned? || (ending.Raised? && t.cacheErrors)
  }

  /** Its result is still there to be found: stored, not pushed out by capacity
      and younger than the time to live. */
  ghost predicate StillThere(t: Settings, s: System, f: FlightId) {
    && f < |s.flights| && s.flights[f].landing.Some? && Worth(t, s.flights[f].landing.value.ending)
    && f !in s.pushedOut && s.now < s.flights[f].landing.value.time + t.ttl
  }

  /** What a turn decides, from the base calls made so far: it waits for the
      latest one for its key while that runs; it hits exactly when the result of
      that one is still there, with that very value or error; and it leads a new
      base call in every other case. */
  lemma TurnMeans(t: Settings, states: seq<System>, events: seq<Event>, n: nat, key: Key, f: FlightId)
    requires Run(t, states, events) && n < |states| && LatestCall(states[n].flights, key, f)
    ensures var s := states[n];
      Decide(s.cache, key, s.now) ==
        match s.flights[f].landing
        case None => Wait(f)
        case Some(landing) =>
          if !StillThere(t, s, f) then Lead
          else if landing.ending.Returned? then Hit(Value(landing.ending.value))
          else Hit(Error(landing.ending.error))
  {
    RunKeepsInv(t, states, events, n);
    var s := states[n];
    if s.flights[f].landing.Some? {
      assert IsLatest(s.flights, f);
      PushedOutIsGone(t, states, events, n, f);
      if key in s.cache.entries {
        EntryOfLatest(t, s, key, f);
      }
      assert WasCached(t, s.flights, f) <==> Worth(t, s.flights[f].landing.value.ending);
    }
  }

  /** Without any base call for its key so far, a turn leads one. */
  lemma FirstTurnLeads(t: Settings, states: seq<System>, events: seq<Event>, n: nat, key: Key)
    requires Run(t, states, events) && n < |states|
    requires forall f :: 0 <= f < |states[n].flights| ==> states[n].flights[f].key != key
    ensures Decide(states[n].cache, key, states[n].now) == Lead
  {
    RunKeepsInv(t, states, events, n);
  }

  /** The entry of a key holds the result of its latest base call. */
  lemma EntryOfLatest(t: Settings, s: System, key: Key, f: FlightId)
    requires Inv(t, s) && key in s.cache.entries && LatestCall(s.flights, key, f) && s.flights[f].landing.Some?
    ensures HoldsResult(t, s.cache.entries[key], s.flights[f].landing.value)
  {
    var g :| 0 <= g < |s.flights| && s.flights[g].key == key && IsLatest(s.flights, g)
             && HoldsResult(t, s.cache.entries[key], s.flights[g].landing.value);
    assert g == f;
  }

  /** What capacity pushed out does not come back by itself. */
  ghost predicate GoneFor(s: System, f: FlightId) {
    f in s.pushedOut ==>
      HasLanded(s.flights, f) && (IsLatest(s.flights, f) ==> s.flights[f].key !in s.cache.entries)
  }

  lemma {:induction false} PushedOutIsGone(t: Settings, states: seq<System>, events: seq<Event>, n: nat, f: FlightId)
    requires Run(t, states, events) && n < |states|
    ensures GoneFor(states[n], f)
  {
    if n > 0 {
      PushedOutIsGone(t, states, events, n - 1, f);
      RunKeepsInv(t, states, events, n - 1);
      var s, e, s' := states[n - 1], events[n - 1], states[n];
      assert Step(t, s, e, s');
      match e
      case Enter(c, key) => TurnKeepsGone(t, s, c, key, s.ticks, 0, f);
      case Resume(c) => ResumeKeepsGone(t, s, c, f);
      case Land(c, ending) => LandKeepsGone(t, s, c, ending, f);
      case _ =>
    }
  }

  lemma TurnKeepsGone(t: Settings, s: System, c: CallId, key: Key, entered: nat, retries: nat, f: FlightId)
    requires Inv(t, s) && GoneFor(s, f)
    ensures GoneFor(AfterTurn(s, c, key, entered, retries), f)
  {
    var s' := AfterTurn(s, c, key, entered, retries);
    assert forall g :: 0 <= g < |s.flights| ==> s'.flights[g] == s.flights[g];
    if f in s.pushedOut && IsLatest(s'.flights, f) {
      assert IsLatest(s.flights, f);
    }
  }

  lemma ResumeKeepsGone(t: Settings, s: System, c: CallId, f: FlightId)
    requires Inv(t, s) && GoneFor(s, f)
    requires c in s.calls && s.calls[c].status.Waiting? && HasLanded(s.flights, s.calls[c].status.flight)
    ensures GoneFor(AfterResume(s, c), f)
  {
    var call := s.calls[c];
    TurnKeepsGone(t, s, c, call.key, call.entered, call.retries + 1, f);
  }

  lemma LandKeepsGone(t: Settings, s: System, c: CallId, ending: Ending, f: FlightId)
    requires CanLand(t, s, c) && GoneFor(s, f)
    ensures GoneFor(AfterLand(t, s, c, ending), f)
  {
    assert CallSound(s, c);
    var s' := AfterLand(t, s, c, ending);
    var own, key := s.calls[c].status.flight, s.calls[c].key;
    LandedMeaning(t, s.cache, key, ending, s.now);
    if f in s'.pushedOut {
      assert HasLanded(s.flights, f) && f != own && s'.flights[f] == s.flights[f];
      if IsLatest(s'.flights, f) {
        LatestBefore(t, s, c, ending, f);
      }
    }
  }

  /** A flight that was pushed out had landed before, so it is not the one that
      lands, nor an earlier one of the same key. */
  lemma LatestBefore(t: Settings, s: System, c: CallId, ending: Ending, f: FlightId)
    requires CanLand(t, s, c) && IsLatest(AfterLand(t, s, c, ending).flights, f)
    ensures f == s.calls[c].status.flight || (IsLatest(s.flights, f) && s.flights[f].key != s.calls[c].key)
  {
    assert CallSound(s, c);
    var own, after := s.calls[c].status.flight, AfterLand(t, s, c, ending).flights;
    assert forall g :: 0 <= g < |after| ==> after[g].key == s.flights[g].key && (g != own ==> after[g] == s.flights[g]);
  }

  /** What a new caller gets when it is not made to wait: what the turn hit, or
      the lead of a new base call. */
  lemma EnterMeans(t: Settings, states: seq<System>, events: seq<Event>, n: nat)
    requires Run(t, states, events) && n < |events| && events[n].Enter?
    ensures var s, c, key := states[n], events[n].call, events[n].key;
      var s' := states[n + 1];
      c in s'.calls && s'.calls[c].key == key &&
      match Decide(s.cache, key, s.now)
      case Hit(p) => s'.calls[c].status == Finished(FromStore, Some(p), s.ticks) && s'.flights == s.flights
      case Wait(f) => s'.calls[c].status == Waiting(f) && s'.flights == s.flights
      case Lead =>
        && s'.calls[c].status == Leading(|s.flights|)
        && s'.flights == s.flights + [Flight(key, c, s.ticks, s.now, None)]
  {
    assert Step(t, states[n], events[n], states[n + 1]);
  }

  /** A leader gets what its own base call produced, and the end of that call is
      logged with its time. */
  lemma LeaderGetsItsOwn(t: Settings, states: seq<System>, events: seq<Event>, n: nat)
    requires Run(t, states, events) && n < |events| && events[n].Land?
    ensures var s, s', c, ending := states[n], states[n + 1], events[n].call, events[n].ending;
      c in s'.calls && s'.calls[c].status.Finished? && s'.calls[c].status.source.Led? &&
      var f := s'.calls[c].status.source.flight;
      f < |s'.flights| && s'.flights[f].landing == Some(Landing(s.ticks, s.now, ending)) &&
      match ending
      case Returned(v) => s'.calls[c].status.result == Some(Value(v))
      case Raised(e) => s'.calls[c].status.result == Some(Error(e))
      case Abandoned => s'.calls[c].status.result == None
  {
    assert Step(t, states[n], events[n], states[n + 1]);
  }

  /** Base calls are spared: after one returned, or raised and errors are cached,
      the next base call for its key starts no sooner than `ttl` later, unless
      capacity pushed the result out. */
  lemma BaseCallsApart(t: Settings, states: seq<System>, events: seq<Event>, n: nat, f: FlightId, g: FlightId)
    requires Run(t, states, events) && n < |states|
    requires f < g < |states[n].flights| && states[n].flights[f].key == states[n].flights[g].key
    requires states[n].flights[f].landing.Some? && Worth(t, states[n].flights[f].landing.value.ending)
    requires f !in states[n].pushedOut
    ensures states[n].flights[g].startTime >= states[n].flights[f].landing.value.time + t.ttl
  {
    RunKeepsInv(t, states, events, n);
    assert WasCached(t, states[n].flights, f);
  }

  /** Capacity pushes a result out only when the store is full, and takes the
      key used least recently. */
  lemma PushedOutMeans(t: Settings, s: System, c: CallId, ending: Ending, s': System, f: FlightId, k: Key)
    requires ValidSettings(t) && Inv(t, s) && Step(t, s, Land(c, ending), s')
    requires f in s'.pushedOut && f !in s.pushedOut && k in s'.cache.entries && k != s.calls[c].key
    ensures |s.cache.order| == t.maxEntries && f < |s.flights|
    ensures LastIndex(s.uses, s.flights[f].key) < LastIndex(s.uses, k)
  {
    assert CallSound(s, c);
    assert f in Victims(s, s'.cache, s.calls[c].key);
    VictimIsOldest(t, s.cache, s.calls[c].key, ending, s.now, s.uses, s.flights[f].key, k);
  }

  lemma StoredOrder(t: Settings, c: Cache, key: Key, payload: Payload, now: real)
    requires ValidSettings(t) && WellFormed(t, c) && key in c.inflight
    ensures Distinct(c.order + [key])
    ensures forall k :: k in LastN(c.order + [key], t.maxEntries) <==> k in Stored(t, c, key, payload, now).entries
  {
    WithoutAbsent(c.order, key);
    TouchDistinct(c.order, key);
    StoredMeaning(t, c, key, payload, now);
  }

  lemma VictimIsOldest(t: Settings, c: Cache, key: Key, ending: Ending, now: real, uses: seq<Key>, gone: Key, kept: Key)
    requires ValidSettings(t) && WellFormed(t, c) && key in c.inflight && InUseOrder(c.order, uses)
    requires gone in c.entries && gone !in Landed(t, c, key, ending, now).entries && gone != key
    requires kept in Landed(t, c, key, ending, now).entries && kept != key
    ensures |c.order| == t.maxEntries && LastIndex(uses, gone) < LastIndex(uses, kept)
  {
    var payload := Cacheable(t, ending).value;
    StoredOrder(t, c, key, payload, now);
    assert gone in c.order && kept in c.order by { StoredMeaning(t, c, key, payload, now); }
    assert Stored(t, c, key, payload, now).entries == Landed(t, c, key, ending, now).entries;
    CutTakesOldest(c.order, key, t.maxEntries, uses, gone, kept);
  }

  /** At every suspension point stored and in-flight keys are apart, the store
      is within its capacity, and its keys stand in the order of their last use. */
  lemma StoreSound(t: Settings, states: seq<System>, events: seq<Event>, n: nat)
    requires Run(t, states, events) && n < |states|
    ensures WellFormed(t, states[n].cache)
    ensures InUseOrder(states[n].cache.order, states[n].uses)
  {
    RunKeepsInv(t, states, events, n);
  }
}
