/** The cache link: a least-recently-used map with a time to live, and a single
    flight per key.

    `Cache` holds the link's own fields; the functions on it are the segments of
    a call between two suspension points. `CacheInterceptor` runs them on mutable
    fields. */
module CacheLink {
  import opened Recency
  import opened Sequences
  import opened Wrappers

  /** What a base call produced, and what an entry holds. */
  datatype Payload = Value(value: int) | Error(error: int)

  datatype Entry = Entry(payload: Payload, expiresAt: real)

  /** How a leader's base call ended: a value, an exception, or neither (it was
      cancelled). */
  datatype Ending = Returned(value: int) | Raised(error: int) | Abandoned

  /** An in-flight record, by identity. */
  type FlightId = nat

  datatype Settings = Settings(ttl: real, maxEntries: nat, cacheErrors: bool)

  ghost predicate ValidSettings(t: Settings) {
    t.ttl > 0.0 && t.maxEntries >= 1
  }

  datatype Cache = Cache(order: seq<Key>, entries: map<Key, Entry>, inflight: map<Key, FlightId>)

  /** What a call does after looking at the cache. */
  datatype Decision = Hit(payload: Payload) | Wait(flight: FlightId) | Lead

  ghost predicate WellFormed(t: Settings, c: Cache) {
    && |c.order| <= t.maxEntries
    && Distinct(c.order)
    && (forall k :: k in c.order <==> k in c.entries)
    && (forall k :: k in c.entries ==> k !in c.inflight)
  }

  /** The entry a lookup finds: present and not yet expired. */
  function Fresh(c: Cache, key: Key, now: real): Option<Entry> {
    if key in c.entries && now < c.entries[key].expiresAt then Some(c.entries[key]) else None
  }

  /** `_get`: a fresh entry becomes the most recent one, a stale one goes. */
  function Looked(c: Cache, key: Key, now: real): Cache {
    if key !in c.entries then c
    else if now < c.entries[key].expiresAt then c.(order := Touch(c.order, key))
    else c.(order := Without(c.order, key), entries := c.entries - {key})
  }

  /** `_put`: the entry is the most recent one and lives for `ttl`; the oldest
      entries beyond the capacity go. */
  function Stored(t: Settings, c: Cache, key: Key, payload: Payload, now: real): Cache {
    Popped(t, Grown(t, c, key, payload, now))
  }

  function Popped(t: Settings, c: Cache): Cache
    decreases |c.order|
  {
    if |c.order| <= t.maxEntries then c
    else Popped(t, c.(order := c.order[1..], entries := c.entries - {c.order[0]}))
  }

  /** What popping leaves: the most recent keys, with the entries they had. */
  lemma {:induction false} PoppedMeaning(t: Settings, c: Cache)
    requires Distinct(c.order) && forall k :: k in c.order <==> k in c.entries
    ensures var p := Popped(t, c);
      && p.order == LastN(c.order, t.maxEntries) && Distinct(p.order) && p.inflight == c.inflight
      && (forall k :: k in p.order <==> k in p.entries)
      && (forall k :: k in p.entries ==> k in c.entries && p.entries[k] == c.entries[k])
    decreases |c.order|
  {
    if |c.order| > t.maxEntries {
      WithoutOldest(c.order);
      PoppedMeaning(t, c.(order := c.order[1..], entries := c.entries - {c.order[0]}));
    }
  }

  /** The loop body of `call`, from the top to the next suspension or return. */
  function Decide(c: Cache, key: Key, now: real): Decision {
    var entry := Fresh(c, key, now);
    if entry.Some? then Hit(entry.value.payload)
    else if key in c.inflight then Wait(c.inflight[key])
    else Lead
  }

  function Decided(c: Cache, key: Key, now: real, next: FlightId): Cache {
    var looked := Looked(c, key, now);
    if Decide(c, key, now).Lead? then looked.(inflight := looked.inflight[key := next]) else looked
  }

  /** What the leader leaves in the store, if anything. */
  function Cacheable(t: Settings, ending: Ending): Option<Payload> {
    match ending
    case Returned(v) => Some(Value(v))
    case Raised(e) => if t.cacheErrors then Some(Error(e)) else None
    case Abandoned => None
  }

  /** The end of `_lead`: store the result, then let the waiters go. */
  function Landed(t: Settings, c: Cache, key: Key, ending: Ending, now: real): Cache {
    var kept := Cacheable(t, ending);
    var stored := if kept.Some? then Stored(t, c, key, kept.value, now) else c;
    stored.(inflight := stored.inflight - {key})
  }

  lemma LookedWellFormed(t: Settings, c: Cache, key: Key, now: real)
    requires WellFormed(t, c)
    ensures WellFormed(t, Looked(c, key, now))
  {
    if key in c.entries {
      TouchDistinct(c.order, key);
      TouchMembers(c.order, key);
      WithoutDistinct(c.order, key);
    }
  }

  /** The cache just before the oldest entries are popped. */
  function Grown(t: Settings, c: Cache, key: Key, payload: Payload, now: real): Cache {
    c.(order := Touch(c.order, key), entries := c.entries[key := Entry(payload, now + t.ttl)])
  }

  lemma GrownSound(t: Settings, c: Cache, key: Key, payload: Payload, now: real)
    requires WellFormed(t, c)
    ensures var g := Grown(t, c, key, payload, now);
      Distinct(g.order) && forall k :: k in g.order <==> k in g.entries
  {
    TouchDistinct(c.order, key);
    TouchMembers(c.order, key);
  }

  lemma StoredMeaning(t: Settings, c: Cache, key: Key, payload: Payload, now: real)
    requires ValidSettings(t) && WellFormed(t, c)
    ensures var s := Stored(t, c, key, payload, now);
      && s.order == LastN(Touch(c.order, key), t.maxEntries) && Distinct(s.order) && s.inflight == c.inflight
      && (forall k :: k in s.order <==> k in s.entries)
      && key in s.entries && s.entries[key] == Entry(payload, now + t.ttl)
      && (forall k :: k in s.entries && k != key ==> k in c.entries && s.entries[k] == c.entries[k])
  {
    var g := Grown(t, c, key, payload, now);
    GrownSound(t, c, key, payload, now);
    PoppedMeaning(t, g);
    LastNMembers(g.order, t.maxEntries);
  }

  // ---------------------------------------------------------------- mutable

  /** The link with its fields updated in place. */
  class CacheInterceptor {
    const settings: Settings
    var order: seq<Key>
    var entries: map<Key, Entry>
    var inflight: map<Key, FlightId>

    ghost function Contents(): Cache
      reads this
    {
      Cache(order, entries, inflight)
    }

    constructor (settings: Settings)
      requires ValidSettings(settings)
      ensures this.settings == settings && Contents() == Cache([], map[], map[])
    {
      this.settings := settings;
      order, entries, inflight := [], map[], map[];
    }

    method Get(key: Key, now: real) returns (entry: Option<Entry>)
      requires WellFormed(settings, Contents())
      modifies this`order, this`entries
      ensures entry == Fresh(old(Contents()), key, now)
      ensures Contents() == Looked(old(Contents()), key, now)
      ensures WellFormed(settings, Contents())
    {
      LookedWellFormed(settings, Contents(), key, now);
      entry := None;
      if key in entries {
        if entries[key].expiresAt <= now {
          order, entries := Without(order, key), entries - {key};
        } else {
          order := Without(order, key) + [key];
          entry := Some(entries[key]);
        }
      }
    }

    method Put(key: Key, payload: Payload, now: real)
      modifies this`order, this`entries
      ensures Contents() == Stored(settings, old(Contents()), key, payload, now)
    {
      entries := entries[key := Entry(payload, now + settings.ttl)];
      order := Without(order, key) + [key];
      ghost var grown := Contents();
      while |order| > settings.maxEntries
        invariant Popped(settings, Contents()) == Popped(settings, grown)
        decreases |order|
      {
        var oldest := order[0];
        order, entries := order[1..], entries - {oldest};
      }
    }

    /** One turn of the loop in `call`; `next` names the in-flight record that
        is created when this caller becomes the leader. */
    method Turn(key: Key, now: real, next: FlightId) returns (decision: Decision)
      requires WellFormed(settings, Contents())
      modifies this`order, this`entries, this`inflight
      ensures decision == Decide(old(Contents()), key, now)
      ensures Contents() == Decided(old(Contents()), key, now, next)
      ensures WellFormed(settings, Contents())
    {
      var entry := Get(key, now);
      if entry.Some? {
        return Hit(entry.value.payload);
      }
      if key in inflight {
        return Wait(inflight[key]);
      }
      inflight := inflight[key := next];
      decision := Lead;
    }

    /** The leader's `except`, `else` and `finally` parts. */
    method Land(key: Key, ending: Ending, now: real)
      requires ValidSettings(settings) && WellFormed(settings, Contents())
      modifies this`order, this`entries, this`inflight
      ensures Contents() == Landed(settings, old(Contents()), key, ending, now)
      ensures WellFormed(settings, Contents())
    {
      LandedWellFormed(settings, Contents(), key, ending, now);
      match ending {
        case Raised(e) =>
          if settings.cacheErrors {
            Put(key, Error(e), now);
          }
        case Returned(v) => Put(key, Value(v), now);
        case Abandoned =>
      }
      inflight := inflight - {key};
    }
  }

  lemma LandedWellFormed(t: Settings, c: Cache, key: Key, ending: Ending, now: real)
    requires ValidSettings(t) && WellFormed(t, c)
    ensures WellFormed(t, Landed(t, c, key, ending, now))
  {
    var kept := Cacheable(t, ending);
    if kept.Some? {
      StoredMeaning(t, c, key, kept.value, now);
    }
  }
}
