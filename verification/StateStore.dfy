/** The in-memory state store: live instances under one lock, least recently
    used first, with off-lock pins and a stop that waits for the last pin.

    `Store` is the store's own fields and the functions on it are its atomic
    segments: everything a method does between two suspension points.
    `InMemoryStateStore` runs those segments on mutable fields. */
module StateStore {
  import opened Recency
  import opened Sequences
  import opened Wrappers

  /** An instance, by identity. */
  type Inst = nat
  type CallId = nat

  datatype Store = Store(
    max: nat,
    order: seq<Key>,
    entries: map<Key, Inst>,
    refs: map<Inst, nat>,
    pending: set<Inst>,
    closed: bool)

  ghost predicate Live(s: Store, i: Inst) {
    exists k :: k in s.entries && s.entries[k] == i
  }

  ghost predicate WellFormed(s: Store) {
    && s.max >= 1
    && |s.order| <= s.max
    && Distinct(s.order)
    && (forall k :: k in s.order <==> k in s.entries)
    && (forall k, l :: k in s.entries && l in s.entries && s.entries[k] == s.entries[l] ==> k == l)
    && (forall i :: i in s.refs ==> s.refs[i] > 0)
    && (forall i :: i in s.pending ==> i in s.refs)
    && (s.closed ==> s.order == [] && s.pending == {})
  }

  function Pins(s: Store, i: Inst): nat {
    if i in s.refs then s.refs[i] else 0
  }

  /** A hit: the key becomes the most recently used one. */
  function Touched(s: Store, key: Key): Store {
    s.(order := Touch(s.order, key))
  }

  /** `_evict_instance`: a pinned instance waits for its last pin, any other is
      to be stopped now. */
  function Dismissed(s: Store, i: Inst): (Store, Option<Inst>) {
    if Pins(s, i) > 0 then (s.(pending := s.pending + {i}), None) else (s, Some(i))
  }

  /** Publishing a started instance, then dropping the oldest key if the store
      has become too large; with the instance to stop now, if there is one. */
  function Published(s: Store, key: Key, i: Inst): (Store, Option<Inst>)
    requires WellFormed(s) && key !in s.entries
  {
    var grown := s.(order := s.order + [key], entries := s.entries[key := i]);
    if |s.order| < s.max then (grown, None)
    else
      var oldest := s.order[0];
      Dismissed(grown.(order := grown.order[1..], entries := grown.entries - {oldest}), s.entries[oldest])
  }

  function Pinned(s: Store, i: Inst): Store {
    s.(refs := s.refs[i := Pins(s, i) + 1])
  }

  /** Dropping one pin; with the instance to stop now, if this was the last pin
      of an evicted one. A pin that is not there (dropped by `close`) counts as
      the last. */
  function Unpinned(s: Store, i: Inst): (Store, Option<Inst>) {
    if Pins(s, i) > 1 then (s.(refs := s.refs[i := s.refs[i] - 1]), None)
    else (s.(refs := s.refs - {i}, pending := s.pending - {i}), if i in s.pending then Some(i) else None)
  }

  /** An explicit eviction; nothing happens for an absent key. */
  function Dropped(s: Store, key: Key): (Store, Option<Inst>) {
    if key !in s.entries then (s, None)
    else Dismissed(s.(order := Without(s.order, key), entries := s.entries - {key}), s.entries[key])
  }

  function Emptied(s: Store): Store {
    s.(order := [], entries := map[], refs := map[], pending := {}, closed := true)
  }

  function Instances(order: seq<Key>, entries: map<Key, Inst>): multiset<Inst>
    requires forall k :: k in order ==> k in entries
  {
    if order == [] then multiset{}
    else
      var last := order[|order| - 1];
      assert last in order;
      Instances(order[..|order| - 1], entries) + multiset{entries[last]}
  }

  // ---------------------------------------------------------------- mutable

  /** The store with its fields updated in place. */
  class InMemoryStateStore {
    const max: nat
    var order: seq<Key>
    var entries: map<Key, Inst>
    var refs: map<Inst, nat>
    var pending: set<Inst>
    var closed: bool

    ghost function Contents(): Store
      reads this
    {
      Store(max, order, entries, refs, pending, closed)
    }

    constructor (max: nat)
      requires max >= 1
      ensures Contents() == Store(max, [], map[], map[], {}, false) && WellFormed(Contents())
    {
      this.max := max;
      order, entries, refs, pending, closed := [], map[], map[], {}, false;
    }

    /** The first segment of `get_or_create`, up to the factory: a closed store
        is an error (`open` is false), a hit touches its key. */
    method Find(key: Key) returns (open: bool, found: Option<Inst>)
      requires WellFormed(Contents())
      modifies this`order
      ensures open == !closed
      ensures found == if !closed && key in entries then Some(entries[key]) else None
      ensures Contents() == if found.Some? then Touched(old(Contents()), key) else old(Contents())
      ensures WellFormed(Contents())
    {
      open, found := !closed, None;
      if open && key in entries {
        TouchDistinct(order, key);
        TouchMembers(order, key);
        order := Without(order, key) + [key];
        found := Some(entries[key]);
      }
    }

    /** The segment of `get_or_create` after the instance has started. The
        source stops each evicted instance inside the loop; `stops` lists them
        in that order, and there is never more than one. */
    method Publish(key: Key, i: Inst) returns (stops: seq<Inst>)
      requires WellFormed(Contents()) && !closed && key !in entries && !Live(Contents(), i) && i !in pending
      modifies this`order, this`entries, this`pending
      ensures var (s, stop) := Published(old(Contents()), key, i);
        Contents() == s && stops == if stop.Some? then [stop.value] else []
      ensures WellFormed(Contents())
      ensures key in entries && entries[key] == i && i !in stops
    {
      stops := [];
      order := order + [key];
      entries := entries[key := i];
      ghost var grown := Contents();
      while |order| > max
        invariant |order| > max ==> Contents() == grown && stops == []
        invariant |order| <= max ==> Contents() == Published(old(Contents()), key, i).0
        invariant |order| <= max ==>
          var stop := Published(old(Contents()), key, i).1;
          stops == if stop.Some? then [stop.value] else []
        decreases |order|
      {
        var oldest := order[0];
        var evicted := entries[oldest];
        order, entries := order[1..], entries - {oldest};
        if evicted in refs {
          pending := pending + {evicted};
        } else {
          stops := stops + [evicted];
        }
      }
      PublishedWellFormed(old(Contents()), key, i);
    }

    method Acquire(i: Inst)
      requires WellFormed(Contents())
      modifies this`refs
      ensures Contents() == Pinned(old(Contents()), i) && WellFormed(Contents())
    {
      refs := refs[i := (if i in refs then refs[i] else 0) + 1];
    }

    method Release(i: Inst) returns (stop: Option<Inst>)
      requires WellFormed(Contents())
      modifies this`refs, this`pending
      ensures (Contents(), stop) == Unpinned(old(Contents()), i) && WellFormed(Contents())
    {
      stop := None;
      var count: int := if i in refs then refs[i] - 1 else -1;
      if count > 0 {
        refs := refs[i := count];
        return;
      }
      refs := refs - {i};
      if i !in pending {
        assert pending - {i} == pending;
      } else {
        pending := pending - {i};
        stop := Some(i);
      }
    }

    method Evict(key: Key) returns (stop: Option<Inst>)
      requires WellFormed(Contents())
      modifies this`order, this`entries, this`pending
      ensures (Contents(), stop) == Dropped(old(Contents()), key) && WellFormed(Contents())
    {
      stop := None;
      if key in entries {
        var i := entries[key];
        WithoutDistinct(order, key);
        order, entries := Without(order, key), entries - {key};
        if i in refs {
          pending := pending + {i};
        } else {
          stop := Some(i);
        }
      }
    }

    /** The first segment of `close`: everything the store still owns is taken
        out of it and handed to the stopping loop. */
    method TakeAll() returns (queue: multiset<Inst>)
      requires WellFormed(Contents()) && !closed
      modifies this
      ensures Contents() == Emptied(old(Contents())) && WellFormed(Contents())
      ensures closed && order == [] && entries == map[] && refs == map[] && pending == {}
      ensures queue == Instances(old(order), old(entries)) + multiset(old(pending))
    {
      queue := multiset{};
      var n := 0;
      while n < |order|
        invariant 0 <= n <= |order|
        invariant queue == Instances(order[..n], entries)
        invariant Contents() == old(Contents())
      {
        assert order[..n + 1][..n] == order[..n];
        var key := order[n];
        assert key in order;
        queue := queue + multiset{entries[key]};
        n := n + 1;
      }
      assert order[..n] == order;
      queue := queue + multiset(pending);
      order, entries, refs, pending, closed := [], map[], map[], {}, true;
    }
  }

  lemma PublishedWellFormed(s: Store, key: Key, i: Inst)
    requires WellFormed(s) && !s.closed && key !in s.entries && !Live(s, i)
    ensures WellFormed(Published(s, key, i).0)
  {
    var order, entries := s.order + [key], s.entries[key := i];
    GrownSound(s, key, i);
    if |s.order| == s.max {
      WithoutOldest(order);
      assert order[0] == s.order[0];
    }
  }

  lemma GrownSound(s: Store, key: Key, i: Inst)
    requires WellFormed(s) && key !in s.entries && !Live(s, i)
    ensures var order, entries := s.order + [key], s.entries[key := i];
      && Distinct(order) && (forall k :: k in order <==> k in entries)
      && (forall k, l :: k in entries && l in entries && entries[k] == entries[l] ==> k == l)
  {
  }

  /** Publishing is a use of the key in the list cut to the store's size. */
  lemma PublishedOrder(s: Store, key: Key, i: Inst)
    requires WellFormed(s) && key !in s.entries
    ensures Published(s, key, i).0.order == LastN(Touch(s.order, key), s.max)
  {
    WithoutAbsent(s.order, key);
    var grown := s.order + [key];
    assert Touch(s.order, key) == grown;
    if |s.order| < s.max {
      assert LastN(grown, s.max) == grown;
    } else {
      assert LastN(grown, s.max) == grown[1..];
    }
  }

  // ------------------------------------------- what the segments do to owners

  lemma PublishedLive(s: Store, key: Key, i: Inst, j: Inst)
    requires WellFormed(s) && key !in s.entries
    ensures Live(Published(s, key, i).0, j)
      <==> j == i || (Live(s, j) && !(|s.order| == s.max && j == s.entries[s.order[0]]))
  {
    var entries := Published(s, key, i).0.entries;
    assert key in entries && entries[key] == i;
    if Live(s, j) {
      var k :| k in s.entries && s.entries[k] == j;
      assert k in entries ==> entries[k] == j;
    }
  }

  lemma DroppedLive(s: Store, key: Key, j: Inst)
    requires WellFormed(s) && key in s.entries
    ensures Live(Dropped(s, key).0, j) <==> Live(s, j) && j != s.entries[key]
  {
    var entries := Dropped(s, key).0.entries;
    if Live(s, j) {
      var k :| k in s.entries && s.entries[k] == j;
      assert k in entries ==> entries[k] == j;
    }
  }

  lemma DroppedWellFormed(s: Store, key: Key)
    requires WellFormed(s)
    ensures WellFormed(Dropped(s, key).0)
  {
    WithoutDistinct(s.order, key);
  }

  lemma {:induction false} InstancesOnce(order: seq<Key>, entries: map<Key, Inst>, i: Inst)
    requires Distinct(order)
    requires forall k :: k in order ==> k in entries
    requires forall k, l :: k in entries && l in entries && entries[k] == entries[l] ==> k == l
    ensures Instances(order, entries)[i] == if exists k :: k in order && entries[k] == i then 1 else 0
  {
    if order != [] {
      var rest, last := order[..|order| - 1], order[|order| - 1];
      assert order == rest + [last];
      assert last in order && last !in rest;
      InstancesOnce(rest, entries, i);
    }
  }
}
