/** Layered configuration: field by field merging, and where each leaf came
    from.

    A tree is a scalar or a mapping; a path is the sequence of keys to a spot
    in it. Keys, scalars and source names are plain numbers. */
module ConfigMerge {
  type Key = int
  type Path = seq<Key>
  type Source = int

  datatype Tree = Scalar(value: int) | Mapping(kids: map<Key, Tree>)

  const Empty := Mapping(map[])

  // ------------------------------------------------------------------ merge

  /** What stays of `a` under `b`: mappings merge key by key, and anything else
      in `b` replaces what was there. */
  function Merge(a: Tree, b: Tree): Tree
    decreases b
  {
    match b
    case Scalar(_) => b
    case Mapping(over) =>
      var under := Kids(a);
      Mapping(map k | k in under.Keys + over.Keys ::
        if k !in over then under[k] else Merge(if k in under then under[k] else Empty, over[k]))
  }

  function Kids(t: Tree): map<Key, Tree> {
    if t.Mapping? then t.kids else map[]
  }

  function MergeOnto(base: Tree, layers: seq<Tree>): Tree {
    if layers == [] then base else Merge(MergeOnto(base, layers[..|layers| - 1]), layers[|layers| - 1])
  }

  function MergeAll(layers: seq<Tree>): Tree {
    MergeOnto(Empty, layers)
  }

  lemma SomeKey(keys: set<Key>) returns (k: Key)
    requires keys != {}
    ensures k in keys
  {
    assert (forall k: Key :: k !in keys) ==> keys == {};
    k :| k in keys;
  }

  // ------------------------------------------------------------------ spots

  /** What a path leads to. `Blocked` is a path that runs into a scalar before
      its end. */
  datatype Spot = Absent | Blocked | Leaf(value: int) | Node

  function Look(t: Tree, path: Path): Spot {
    match t
    case Scalar(v) => if path == [] then Leaf(v) else Blocked
    case Mapping(kids) =>
      if path == [] then Node
      else if path[0] in kids then Look(kids[path[0]], path[1..])
      else Absent
  }

  predicate Touches(t: Tree, path: Path) {
    Look(t, path) != Absent
  }

  /** What is really there. */
  function Shown(t: Tree, path: Path): Spot {
    if Look(t, path) == Blocked then Absent else Look(t, path)
  }

  lemma OneKey(t: Tree, k: Key)
    ensures k in Kids(t) <==> Shown(t, [k]) != Absent
  {
    assert [k][1..] == [];
    if k in Kids(t) {
      assert Look(t.kids[k], []) != Absent && Look(t.kids[k], []) != Blocked;
    }
  }

  /** Two trees that look the same along every path are the same. */
  lemma {:induction false} SameLooks(a: Tree, b: Tree)
    requires forall p :: Shown(a, p) == Shown(b, p)
    ensures a == b
  {
    assert Shown(a, []) == Shown(b, []);
    if a.Mapping? {
      forall k: Key ensures k in a.kids.Keys <==> k in b.kids.Keys {
        OneKey(a, k);
        OneKey(b, k);
        assert Shown(a, [k]) == Shown(b, [k]);
      }
      forall k | k in a.kids ensures a.kids[k] == b.kids[k] {
        forall p ensures Shown(a.kids[k], p) == Shown(b.kids[k], p) {
          assert ([k] + p)[1..] == p;
          assert Shown(a, [k] + p) == Shown(b, [k] + p);
        }
        SameLooks(a.kids[k], b.kids[k]);
      }
    }
  }

  /** The merge, path by path: what `b` touches is as in `b`, the rest as in `a`. */
  lemma {:induction false} MergeShows(a: Tree, b: Tree, p: Path)
    ensures Shown(Merge(a, b), p) == if Touches(b, p) then Shown(b, p) else Shown(a, p)
    ensures !Touches(a, p) && !Touches(b, p) ==> !Touches(Merge(a, b), p)
    decreases p
  {
    if b.Mapping? && p != [] && p[0] in b.kids {
      MergeShows(if p[0] in Kids(a) then Kids(a)[p[0]] else Empty, b.kids[p[0]], p[1..]);
    }
  }

  // ------------------------------------------------------------ many layers

  /** The last layer that touches a path. */
  ghost predicate LastTouch(layers: seq<Tree>, path: Path, i: int) {
    && 0 <= i < |layers| && Touches(layers[i], path)
    && forall j :: i < j < |layers| ==> !Touches(layers[j], path)
  }

  ghost predicate Untouched(layers: seq<Tree>, path: Path) {
    forall i :: 0 <= i < |layers| ==> !Touches(layers[i], path)
  }

  lemma {:induction false} LastTouchExists(layers: seq<Tree>, path: Path) returns (i: int)
    requires !Untouched(layers, path)
    ensures LastTouch(layers, path, i)
  {
    var n := |layers| - 1;
    if Touches(layers[n], path) {
      i := n;
    } else {
      i := LastTouchExists(layers[..n], path);
    }
  }

  /** Where no layer touches a path, the base shows. */
  lemma {:induction false} BaseShows(base: Tree, layers: seq<Tree>, path: Path)
    requires Untouched(layers, path)
    ensures Shown(MergeOnto(base, layers), path) == Shown(base, path)
    ensures !Touches(base, path) ==> !Touches(MergeOnto(base, layers), path)
  {
    if layers != [] {
      var n := |layers| - 1;
      BaseShows(base, layers[..n], path);
      MergeShows(MergeOnto(base, layers[..n]), layers[n], path);
    }
  }

  /** Elsewhere a path shows what the last layer that touches it shows. */
  lemma {:induction false} LastTouchShows(base: Tree, layers: seq<Tree>, path: Path, i: int)
    requires LastTouch(layers, path, i)
    ensures Shown(MergeOnto(base, layers), path) == Shown(layers[i], path)
  {
    var n := |layers| - 1;
    MergeShows(MergeOnto(base, layers[..n]), layers[n], path);
    if i < n {
      assert LastTouch(layers[..n], path, i);
      LastTouchShows(base, layers[..n], path, i);
    }
  }

  /** The layer whose scalar is at a path: it has one there, and no later layer
      touches the path. */
  ghost predicate Decides(layers: seq<Tree>, path: Path, i: int) {
    LastTouch(layers, path, i) && Look(layers[i], path).Leaf?
  }

  /** Each leaf of the merged tree is the scalar of the layer that decides it,
      and every such scalar is there. */
  lemma LeafIff(layers: seq<Tree>, path: Path, v: int)
    requires path != []
    ensures Look(MergeAll(layers), path) == Leaf(v)
       <==> exists i :: Decides(layers, path, i) && Look(layers[i], path) == Leaf(v)
  {
    if Untouched(layers, path) {
      BaseShows(Empty, layers, path);
    } else {
      var i := LastTouchExists(layers, path);
      LastTouchShows(Empty, layers, path, i);
    }
  }

  // ----------------------------------------------------------- in two stages

  lemma {:induction false} MergeOntoAppend(base: Tree, first: seq<Tree>, rest: seq<Tree>)
    ensures MergeOnto(base, first + rest) == MergeOnto(MergeOnto(base, first), rest)
  {
    if rest == [] {
      assert first + rest == first;
    } else {
      var n := |rest| - 1;
      MergeOntoAppend(base, first, rest[..n]);
      assert (first + rest)[..|first + rest| - 1] == first + rest[..n];
    }
  }

  /** A scalar cut the path off, in the last layer that touches it, and a later
      layer put a mapping in the scalar's place: the path is open again. */
  ghost predicate Reopened(layers: seq<Tree>, path: Path) {
    exists i, j, n: nat :: ReopenedAt(layers, path, i, j, n)
  }

  ghost predicate ReopenedAt(layers: seq<Tree>, path: Path, i: int, j: int, n: nat) {
    && LastTouch(layers, path, i) && n < |path| && Look(layers[i], path[..n]).Leaf?
    && i < j < |layers| && Look(layers[j], path[..n]) == Node
  }

  /** The last layer that touches the path has something there. */
  ghost predicate Present(layers: seq<Tree>, path: Path) {
    exists i :: LastTouch(layers, path, i) && Shown(layers[i], path) != Absent
  }

  /** Merging some layers first and the result with those below and above is the
      same as merging all of them at once, exactly when every path that is there
      below and that the layers reopen is touched by a layer above. */
  lemma StagesIff(below: seq<Tree>, layers: seq<Tree>, above: seq<Tree>)
    requires layers != []
    ensures MergeAll(below + [MergeAll(layers)] + above) == MergeAll(below + layers + above)
       <==> forall p :: Present(below, p) && Reopened(layers, p) ==> !Untouched(above, p)
  {
    var base := MergeAll(below);
    var twice, once := Merge(base, MergeAll(layers)), MergeOnto(base, layers);
    StagesAsMerges(below, layers, above);
    forall p
      ensures Shown(MergeOnto(twice, above), p) == Shown(MergeOnto(once, above), p)
         <==> (Present(below, p) && Reopened(layers, p) ==> !Untouched(above, p))
    {
      if Untouched(above, p) {
        BaseShows(twice, above, p);
        BaseShows(once, above, p);
        OneStageOrTwo(below, layers, p);
      } else {
        var i := LastTouchExists(above, p);
        LastTouchShows(twice, above, p, i);
        LastTouchShows(once, above, p, i);
      }
    }
    if forall p :: Present(below, p) && Reopened(layers, p) ==> !Untouched(above, p) {
      SameLooks(MergeOnto(twice, above), MergeOnto(once, above));
    }
  }

  lemma StagesAsMerges(below: seq<Tree>, layers: seq<Tree>, above: seq<Tree>)
    ensures MergeAll(below + [MergeAll(layers)] + above) == MergeOnto(Merge(MergeAll(below), MergeAll(layers)), above)
    ensures MergeAll(below + layers + above) == MergeOnto(MergeOnto(MergeAll(below), layers), above)
  {
    MergeOntoAppend(Empty, below, layers);
    MergeOntoAppend(Empty, below + layers, above);
    var middle := [MergeAll(layers)];
    MergeOntoAppend(Empty, below, middle);
    MergeOntoAppend(Empty, below + middle, above);
    assert MergeOnto(MergeAll(below), middle) == Merge(MergeOnto(MergeAll(below), []), MergeAll(layers));
  }

  lemma OneStageOrTwo(below: seq<Tree>, layers: seq<Tree>, p: Path)
    requires layers != []
    ensures Shown(Merge(MergeAll(below), MergeAll(layers)), p) == Shown(MergeOnto(MergeAll(below), layers), p)
       <==> !(Present(below, p) && Reopened(layers, p))
  {
    var base := MergeAll(below);
    MergeShows(base, MergeAll(layers), p);
    PresentIff(below, p);
    if Untouched(layers, p) {
      BaseShows(base, layers, p);
      BaseShows(Empty, layers, p);
    } else {
      var i := LastTouchExists(layers, p);
      LastTouchShows(base, layers, p, i);
      LastTouchShows(Empty, layers, p, i);
      ReopenedIff(layers, p, i);
    }
  }

  lemma PresentIff(layers: seq<Tree>, path: Path)
    ensures Present(layers, path) || (path == [] && layers == []) <==> Shown(MergeAll(layers), path) != Absent
  {
    if Untouched(layers, path) {
      BaseShows(Empty, layers, path);
    } else {
      var i := LastTouchExists(layers, path);
      LastTouchShows(Empty, layers, path, i);
    }
  }

  /** The merged layers do not show that a path was touched exactly when it was
      reopened. */
  lemma ReopenedIff(layers: seq<Tree>, path: Path, i: int)
    requires LastTouch(layers, path, i)
    ensures !Touches(MergeAll(layers), path) <==> Reopened(layers, path)
  {
    LastTouchShows(Empty, layers, path, i);
    if !Touches(MergeAll(layers), path) {
      MissingIsReopened(layers, path, i);
    }
    if Reopened(layers, path) {
      var k, j, n: nat :| ReopenedAt(layers, path, k, j, n);
      ReopenedIsMissing(layers, path, i, j, n);
    }
  }

  lemma MissingIsReopened(layers: seq<Tree>, path: Path, i: int)
    requires LastTouch(layers, path, i) && !Touches(MergeAll(layers), path)
    ensures Reopened(layers, path)
  {
    LastTouchShows(Empty, layers, path, i);
    var n := BlockedBy(layers[i], path);
    var k := LastTouchExists(layers, path[..n]);
    LastTouchShows(Empty, layers, path[..n], k);
    match Look(layers[k], path[..n])
    case Leaf(_) => LeafCuts(MergeAll(layers), path, n);
    case Blocked => BlockedOnward(layers[k], path, n);
    case Node => assert ReopenedAt(layers, path, i, k, n);
  }

  lemma ReopenedIsMissing(layers: seq<Tree>, path: Path, i: int, j: int, n: nat)
    requires ReopenedAt(layers, path, i, j, n)
    ensures !Touches(MergeAll(layers), path)
  {
    LastTouchShows(Empty, layers, path, i);
    LeafCuts(layers[i], path, n);
    if Touches(MergeAll(layers), path) {
      var m := BlockedBy(MergeAll(layers), path);
      var q := path[..m];
      if m <= n {
        NodeBefore(layers[j], path, n, m);
      } else {
        assert q[..n] == path[..n];
        LeafCuts(layers[i], q, n);
      }
      var k := LastTouchExists(layers, q);
      LastTouchShows(Empty, layers, q, k);
      LeafCuts(layers[k], path, m);
    }
  }

  lemma {:induction false} BlockedBy(t: Tree, path: Path) returns (n: nat)
    requires Look(t, path) == Blocked
    ensures n < |path| && Look(t, path[..n]).Leaf?
  {
    if t.Scalar? {
      n := 0;
    } else {
      n := BlockedBy(t.kids[path[0]], path[1..]);
      n := n + 1;
      assert path[..n][1..] == path[1..][..n - 1];
    }
  }

  /** A scalar cuts off every longer path. */
  lemma {:induction false} LeafCuts(t: Tree, path: Path, n: nat)
    requires n < |path| && Look(t, path[..n]).Leaf?
    ensures Look(t, path) == Blocked
  {
    if n > 0 {
      assert path[..n][1..] == path[1..][..n - 1];
      LeafCuts(t.kids[path[0]], path[1..], n - 1);
    }
  }

  lemma {:induction false} BlockedOnward(t: Tree, path: Path, n: nat)
    requires n <= |path| && Look(t, path[..n]) == Blocked
    ensures Look(t, path) == Blocked
  {
    var m := BlockedBy(t, path[..n]);
    assert path[..n][..m] == path[..m];
    LeafCuts(t, path, m);
  }

  /** Every path that leads towards a mapping leads to one. */
  lemma {:induction false} NodeBefore(t: Tree, path: Path, n: nat, m: nat)
    requires m <= n <= |path| && Look(t, path[..n]) == Node
    ensures Look(t, path[..m]) == Node
  {
    if m > 0 {
      assert path[..n][1..] == path[1..][..n - 1] && path[..m][1..] == path[1..][..m - 1];
      NodeBefore(t.kids[path[0]], path[1..], n - 1, m - 1);
    }
  }

  /** No path is a scalar in one layer and a mapping in another. */
  ghost predicate NoConflict(layers: seq<Tree>) {
    forall p, i, j :: 0 <= i < |layers| && 0 <= j < |layers| && Look(layers[i], p).Leaf? ==> Look(layers[j], p) != Node
  }

  /** Without such conflicts among the layers merged first, merging in two
      stages is merging once, whatever lies below and above them. */
  lemma StagesAgree(below: seq<Tree>, layers: seq<Tree>, above: seq<Tree>)
    requires layers != [] && NoConflict(layers)
    ensures MergeAll(below + [MergeAll(layers)] + above) == MergeAll(below + layers + above)
  {
    assert forall p :: !Reopened(layers, p);
    StagesIff(below, layers, above);
  }

  /** With one, it need not be: a default survives below a section that a
      scalar had replaced in the deployment layers, with an empty override of
      the slice above. */
  lemma StagesDiffer()
    ensures var below := Mapping(map[1 := Mapping(map[2 := Scalar(10)])]);
      var file := Mapping(map[1 := Scalar(11)]);
      var env := Mapping(map[1 := Mapping(map[3 := Scalar(12)])]);
      && Look(MergeAll([below, MergeAll([file, env]), Empty]), [1, 2]) == Leaf(10)
      && Shown(MergeAll([below, file, env, Empty]), [1, 2]) == Absent
  {
    var below := Mapping(map[1 := Mapping(map[2 := Scalar(10)])]);
    var file := Mapping(map[1 := Scalar(11)]);
    var env := Mapping(map[1 := Mapping(map[3 := Scalar(12)])]);
    var path := [1, 2];
    assert path[..1] == [1] && path[1..] == [2] && path[1..][1..] == [] && [1][1..] == [];
    assert !Touches(Empty, path) && !Touches(env, path);
    assert Look(file, path) == Blocked && Look(below, path) == Leaf(10);
    assert Look(file, path[..1]).Leaf? && Look(env, path[..1]) == Node;
    LastTouchShows(Empty, [below, file, env, Empty], path, 1);
    assert ReopenedAt([file, env], path, 0, 1, 1);
    ReopenedIff([file, env], path, 0);
    LastTouchShows(Empty, [below, MergeAll([file, env]), Empty], path, 0);
  }
}
