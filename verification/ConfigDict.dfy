/** The merge as it runs: dictionaries updated in place, and a provenance entry
    written with each scalar. */
module ConfigDict {
  import opened ConfigMerge
  import opened Wrappers

  datatype Item = Value(value: int) | Sub(dict: Dict)

  /** A dictionary. `Repr` holds at least the dictionaries inside it. */
  class Dict {
    var items: map<Key, Item>
    ghost var Repr: set<Dict>

    constructor ()
      ensures Valid() && Apart() && fresh(Repr) && items == map[] && Contents() == Empty
    {
      items := map[];
      Repr := {this};
    }

    ghost predicate Valid()
      reads this, Repr
      decreases Repr
    {
      && this in Repr
      && forall k :: k in items && items[k].Sub? ==> Inside(items[k].dict) && items[k].dict.Valid()
    }

    ghost predicate Inside(d: Dict)
      reads this, Repr
    {
      d in Repr && d.Repr <= Repr && this !in d.Repr
    }

    /** No dictionary is reached in two ways. */
    ghost predicate Apart()
      requires Valid()
      reads this, Repr
      decreases Repr
    {
      && (forall k :: k in items && items[k].Sub? ==> items[k].dict.Apart())
      && (forall j, k :: j in items && k in items && j != k && items[j].Sub? && items[k].Sub? ==>
            items[j].dict.Repr !! items[k].dict.Repr)
    }

    ghost function Contents(): (t: Tree)
      requires Valid()
      reads this, Repr
      ensures t.Mapping?
      decreases Repr
    {
      Mapping(map k | k in items :: Held(k))
    }

    ghost function Held(k: Key): Tree
      requires Valid() && k in items
      reads this, Repr
      decreases Repr, 0
    {
      match items[k]
      case Value(v) => Scalar(v)
      case Sub(d) => d.Contents()
    }
  }

  // ------------------------------------------------------------- provenance

  type Provenance = map<Path, Source>

  function Entry(p: Provenance, path: Path): Option<Source> {
    if path in p then Some(p[path]) else None
  }

  /** The path is `prefix` followed by the path of a scalar in `t`. */
  predicate ScalarUnder(t: Tree, prefix: Path, path: Path) {
    |prefix| <= |path| && path[..|prefix|] == prefix && Look(t, path[|prefix|..]).Leaf?
  }

  /** Every scalar of `t` got an entry naming its source, and no other entry
      changed. */
  ghost predicate Recorded(before: Provenance, after: Provenance, t: Tree, source: Source, prefix: Path) {
    forall path :: Entry(after, path) == if ScalarUnder(t, prefix, path) then Some(source) else Entry(before, path)
  }

  /** The part of a mapping under some of its keys. */
  ghost function Only(t: Tree, keys: set<Key>): Tree
    requires t.Mapping?
  {
    Mapping(map k | k in t.kids && k in keys :: t.kids[k])
  }

  ghost function Child(t: Tree, k: Key): Tree {
    if k in Kids(t) then Kids(t)[k] else Empty
  }

  // ------------------------------------------------------------------ merge

  method MergeInto(dst: Dict, src: Dict, source: Source, prefix: Path, provenance: Provenance)
    returns (after: Provenance)
    requires dst.Valid() && dst.Apart() && src.Valid() && dst.Repr !! src.Repr
    modifies dst.Repr
    ensures dst.Valid() && dst.Apart() && fresh(dst.Repr - old(dst.Repr))
    ensures src.Valid() && src.Contents() == old(src.Contents())
    ensures dst.Contents() == Merge(old(dst.Contents()), src.Contents())
    ensures Recorded(provenance, after, src.Contents(), source, prefix)
    decreases src.Repr, 1
  {
    ghost var base, over := dst.Contents(), src.Contents();
    ghost var done: set<Key> := {};
    after := provenance;
    var todo := src.items.Keys;
    while todo != {}
      invariant done !! todo && done + todo == src.items.Keys
      invariant dst.Valid() && dst.Apart() && fresh(dst.Repr - old(dst.Repr)) && dst.Repr !! src.Repr
      invariant src.Valid() && src.Contents() == over && src.items == old(src.items) && src.Repr == old(src.Repr)
      invariant MergedSoFar(base, over, done, dst.Contents())
      invariant Recorded(provenance, after, Only(over, done), source, prefix)
    {
      ghost var _ := SomeKey(todo);
      var key :| key in todo;
      ghost var earlier, before := after, dst.Contents();
      after := MergeKey(dst, src, key, source, prefix, after);
      OneMoreKey(base, over, done, key, before, dst.Contents());
      OneMoreRecord(provenance, earlier, after, over, done, key, source, prefix);
      done, todo := done + {key}, todo - {key};
    }
    assert forall k: Key :: k in done <==> k in over.kids.Keys;
    assert done == over.kids.Keys;
    assert Only(over, done) == over;
    AllMerged(base, over, dst.Contents());
  }

  /** The body of the loop, for one key of `src`. */
  method MergeKey(dst: Dict, src: Dict, key: Key, source: Source, prefix: Path, provenance: Provenance)
    returns (after: Provenance)
    requires dst.Valid() && dst.Apart() && src.Valid() && dst.Repr !! src.Repr && key in src.items
    modifies dst.Repr
    ensures dst.Valid() && dst.Apart() && fresh(dst.Repr - old(dst.Repr))
    ensures src.Valid() && src.Contents() == old(src.Contents())
    ensures dst.Contents()
         == Mapping(old(dst.Contents()).kids[key := Merge(Child(old(dst.Contents()), key), src.Held(key))])
    ensures Recorded(provenance, after, src.Held(key), source, prefix + [key])
    decreases src.Repr, 0
  {
    match src.items[key] {
      case Value(v) =>
        SetValue(dst, key, v);
        after := provenance[prefix + [key] := source];
        OneRecord(provenance, v, source, prefix + [key]);
      case Sub(m) =>
        MakeRoom(dst, key);
        OnlyKidsCount(Child(old(dst.Contents()), key), m.Contents());
        after := MergeSub(dst, m, key, source, prefix + [key], provenance);
    }
  }

  /** Under a mapping a scalar counts as an empty one. */
  lemma OnlyKidsCount(a: Tree, b: Tree)
    requires b.Mapping?
    ensures Merge(Mapping(Kids(a)), b) == Merge(a, b)
  {
  }

  method SetValue(dst: Dict, key: Key, v: int)
    requires dst.Valid() && dst.Apart()
    modifies dst
    ensures dst.Valid() && dst.Apart() && dst.Repr == old(dst.Repr)
    ensures dst.Contents() == Mapping(old(dst.Contents()).kids[key := Scalar(v)])
  {
    dst.items := dst.items[key := Value(v)];
  }

  /** A dictionary under the key, if there is none yet. */
  method MakeRoom(dst: Dict, key: Key)
    requires dst.Valid() && dst.Apart()
    modifies dst
    ensures dst.Valid() && dst.Apart() && fresh(dst.Repr - old(dst.Repr))
    ensures key in dst.items && dst.items[key].Sub?
    ensures dst.Contents() == Mapping(old(dst.Contents()).kids[key := Mapping(Kids(Child(old(dst.Contents()), key)))])
  {
    if !(key in dst.items && dst.items[key].Sub?) {
      var node := new Dict();
      dst.items := dst.items[key := Sub(node)];
      dst.Repr := dst.Repr + node.Repr;
    }
  }

  method MergeSub(dst: Dict, m: Dict, key: Key, source: Source, prefix: Path, provenance: Provenance)
    returns (after: Provenance)
    requires dst.Valid() && dst.Apart() && m.Valid() && dst.Repr !! m.Repr && key in dst.items && dst.items[key].Sub?
    modifies dst.Repr
    ensures dst.Valid() && dst.Apart() && fresh(dst.Repr - old(dst.Repr))
    ensures m.Valid() && m.Contents() == old(m.Contents())
    ensures dst.Contents()
         == Mapping(old(dst.Contents()).kids[key := Merge(old(dst.Contents()).kids[key], m.Contents())])
    ensures Recorded(provenance, after, m.Contents(), source, prefix)
    decreases m.Repr, 2
  {
    after := MergeInto(dst.items[key].dict, m, source, prefix, provenance);
    dst.Repr := dst.Repr + dst.items[key].dict.Repr;
  }

  lemma OneRecord(provenance: Provenance, v: int, source: Source, path: Path)
    ensures Recorded(provenance, provenance[path := source], Scalar(v), source, path)
  {
    forall p ensures ScalarUnder(Scalar(v), path, p) <==> p == path {
      if ScalarUnder(Scalar(v), path, p) {
        assert p == p[..|path|] + p[|path|..];
      }
    }
  }

  /** `base` with some of the keys of `over` merged in. */
  ghost predicate MergedSoFar(base: Tree, over: Tree, done: set<Key>, now: Tree) {
    && base.Mapping? && over.Mapping? && now.Mapping?
    && forall k: Key :: MergedAt(base, over, done, now, k)
  }

  ghost predicate MergedAt(base: Tree, over: Tree, done: set<Key>, now: Tree, k: Key) {
    && (k in done ==> k in Kids(over) && k in Kids(now) && Child(now, k) == Merge(Child(base, k), Child(over, k)))
    && (k !in done ==> (k in Kids(now) <==> k in Kids(base)) && Child(now, k) == Child(base, k))
  }

  lemma OneMoreKey(base: Tree, over: Tree, done: set<Key>, key: Key, before: Tree, now: Tree)
    requires MergedSoFar(base, over, done, before) && key in over.kids && key !in done
    requires now == Mapping(before.kids[key := Merge(Child(before, key), Child(over, key))])
    ensures MergedSoFar(base, over, done + {key}, now)
  {
    assert MergedAt(base, over, done, before, key);
    forall k: Key ensures MergedAt(base, over, done + {key}, now, k) {
      assert MergedAt(base, over, done, before, k);
    }
  }

  lemma AllMerged(base: Tree, over: Tree, now: Tree)
    requires over.Mapping? && MergedSoFar(base, over, over.kids.Keys, now)
    ensures now == Merge(base, over)
  {
    var end := Merge(base, over);
    forall k: Key
      ensures k in now.kids.Keys <==> k in end.kids.Keys
      ensures k in now.kids && k in end.kids ==> now.kids[k] == end.kids[k]
    {
      assert MergedAt(base, over, over.kids.Keys, now, k);
    }
    assert now.kids == end.kids;
  }

  lemma OneMoreRecord(before: Provenance, mid: Provenance, after: Provenance, over: Tree, done: set<Key>, key: Key,
                      source: Source, prefix: Path)
    requires over.Mapping? && key in over.kids && key !in done
    requires Recorded(before, mid, Only(over, done), source, prefix)
    requires Recorded(mid, after, over.kids[key], source, prefix + [key])
    ensures Recorded(before, after, Only(over, done + {key}), source, prefix)
  {
  }

  // ------------------------------------------------------------ many layers

  /** The source of the last layer that has a scalar at a path. */
  function LastScalar(trees: seq<Tree>, sources: seq<Source>, path: Path): Option<Source>
    requires |trees| == |sources|
  {
    if trees == [] then None
    else
      var n := |trees| - 1;
      if Look(trees[n], path).Leaf? then Some(sources[n]) else LastScalar(trees[..n], sources[..n], path)
  }

  /** Layers merged in order. Only new dictionaries are written, so every layer
      stays as it was. */
  method DeepMerge(layers: seq<Dict>, sources: seq<Source>, ghost trees: seq<Tree>)
    returns (merged: Dict, provenance: Provenance)
    requires |layers| == |sources| == |trees|
    requires forall i :: 0 <= i < |layers| ==> layers[i].Valid() && layers[i].Contents() == trees[i]
    ensures merged.Valid() && fresh(merged.Repr)
    ensures merged.Contents() == MergeAll(trees)
    ensures forall path :: Entry(provenance, path) == LastScalar(trees, sources, path)
  {
    merged := new Dict();
    provenance := map[];
    for n := 0 to |layers|
      invariant merged.Valid() && merged.Apart() && fresh(merged.Repr)
      invariant forall i :: 0 <= i < |layers| ==> layers[i].Valid() && layers[i].Contents() == trees[i]
      invariant merged.Contents() == MergeAll(trees[..n])
      invariant forall path :: Entry(provenance, path) == LastScalar(trees[..n], sources[..n], path)
    {
      ghost var before := provenance;
      provenance := MergeInto(merged, layers[n], sources[n], [], provenance);
      assert trees[..n + 1][..n] == trees[..n] && sources[..n + 1][..n] == sources[..n];
      WholeRecord(before, provenance, trees[n], sources[n]);
    }
    assert trees[..|layers|] == trees && sources[..|layers|] == sources;
  }

  lemma WholeRecord(before: Provenance, after: Provenance, t: Tree, source: Source)
    requires Recorded(before, after, t, source, [])
    ensures forall path :: Entry(after, path) == if Look(t, path).Leaf? then Some(source) else Entry(before, path)
  {
  }

  lemma {:induction false} DeciderIsNamed(trees: seq<Tree>, sources: seq<Source>, path: Path, i: int)
    requires |trees| == |sources| && Decides(trees, path, i)
    ensures LastScalar(trees, sources, path) == Some(sources[i])
  {
    var n := |trees| - 1;
    if i < n {
      assert Decides(trees[..n], path, i);
      DeciderIsNamed(trees[..n], sources[..n], path, i);
    }
  }

  /** Each leaf of the merged tree is the value of the last layer that wrote its
      path, and its provenance entry names that layer. */
  lemma LeafAndSource(trees: seq<Tree>, sources: seq<Source>, path: Path, v: int) returns (i: int)
    requires |trees| == |sources| && path != [] && Look(MergeAll(trees), path) == Leaf(v)
    ensures Decides(trees, path, i) && Look(trees[i], path) == Leaf(v)
    ensures LastScalar(trees, sources, path) == Some(sources[i])
  {
    LeafIff(trees, path, v);
    i :| Decides(trees, path, i) && Look(trees[i], path) == Leaf(v);
    DeciderIsNamed(trees, sources, path, i);
  }
}
