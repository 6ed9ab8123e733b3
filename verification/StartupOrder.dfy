/** Startup layers and the flat start and stop orders of an accepted graph. */
module StartupOrder {
  import opened DependencyGraph
  import opened Sequences

  type Layers = seq<seq<Name>>

  /** The components in the first `k` layers. */
  ghost function Emitted(layers: Layers, k: nat): set<Name>
    requires k <= |layers|
  {
    if k == 0 then {} else Emitted(layers, k - 1) + Members(layers[k - 1])
  }

  ghost function Members(s: seq<Name>): set<Name> {
    set n | n in s
  }

  /** The longest walk along dependencies that starts at `n` has `h` edges. */
  ghost predicate LongestWalk(g: Graph, n: Name, h: nat) {
    && (exists p :: Walk(g, p) && p[0] == n && |p| == h + 1)
    && (forall p :: Walk(g, p) && p[0] == n ==> |p| <= h + 1)
  }

  /** How often `x` is listed. */
  function Count(s: seq<Name>, x: Name): nat {
    if s == [] then 0 else Count(s[..|s| - 1], x) + if s[|s| - 1] == x then 1 else 0
  }

  /** The listed dependencies that are not yet done, counted as often as listed. */
  function Outstanding(deps: seq<Name>, done: set<Name>): nat {
    if deps == [] then 0 else Outstanding(deps[..|deps| - 1], done) + if deps[|deps| - 1] in done then 0 else 1
  }

  lemma CountAppend(s: seq<Name>, y: Name, x: Name)
    ensures Count(s + [y], x) == Count(s, x) + if y == x then 1 else 0
  {
  }

  lemma {:induction false} CountPrefix(s: seq<Name>, j: nat, x: Name)
    requires j <= |s|
    ensures Count(s[..j], x) <= Count(s, x)
    ensures j < |s| && s[j] == x ==> Count(s[..j], x) < Count(s, x)
  {
    if j < |s| {
      var rest := s[..|s| - 1];
      if j < |rest| {
        CountPrefix(rest, j, x);
      }
      assert rest[..j] == s[..j];
    } else {
      assert s[..j] == s;
    }
  }

  lemma {:induction false} CountZero(s: seq<Name>, x: Name)
    ensures Count(s, x) == 0 <==> x !in s
  {
    if s != [] {
      CountZero(s[..|s| - 1], x);
      assert s == s[..|s| - 1] + [s[|s| - 1]];
    }
  }

  ghost predicate AllIn(deps: seq<Name>, done: set<Name>) {
    forall d :: d in deps ==> d in done
  }

  lemma {:induction false} OutstandingNone(deps: seq<Name>, done: set<Name>)
    ensures Outstanding(deps, done) == 0 <==> AllIn(deps, done)
  {
    if deps != [] {
      var last := deps[|deps| - 1];
      OutstandingNone(deps[..|deps| - 1], done);
      assert deps == deps[..|deps| - 1] + [last];
      assert last in deps;
    }
  }

  lemma {:induction false} OutstandingAfter(deps: seq<Name>, done: set<Name>, x: Name)
    requires x !in done
    ensures Outstanding(deps, done) == Outstanding(deps, done + {x}) + Count(deps, x)
  {
    if deps != [] {
      OutstandingAfter(deps[..|deps| - 1], done, x);
    }
  }

  lemma {:induction false} OutstandingFirst(deps: seq<Name>)
    ensures Outstanding(deps, {}) == |deps|
  {
    if deps != [] {
      OutstandingFirst(deps[..|deps| - 1]);
    }
  }

  // ---------------------------------------------------------------- layering

  /** Each layer holds components all of whose dependencies are in earlier
      layers, and, from the second layer on, one of them in the layer just
      before; no component is in two places. */
  ghost predicate Layered(g: Graph, layers: Layers) {
    && (forall i :: 0 <= i < |layers| ==> LayerSound(g, layers, i))
  }

  ghost predicate LayerSound(g: Graph, layers: Layers, i: nat)
    requires i < |layers|
  {
    && layers[i] != [] && Distinct(layers[i])
    && forall n :: n in layers[i] ==>
         && n in g.nodes && n !in Emitted(layers, i)
         && (forall d :: Edge(g, n, d) ==> d in Emitted(layers, i))
         && (i > 0 ==> exists d :: Edge(g, n, d) && d in layers[i - 1])
  }

  /** How often `n` stands under `d` once the components before `i` and the
      first `j` dependencies of component `i` are recorded. */
  ghost function Recorded(g: Graph, i: nat, j: nat, n: Name, d: Name): nat
    requires i < |g.order| && j <= |Deps(g, g.order[i])|
  {
    if n in g.order[..i] then Count(Deps(g, n), d)
    else if n == g.order[i] then Count(Deps(g, n)[..j], d)
    else 0
  }

  ghost predicate Known(g: Graph, s: seq<Name>) {
    forall n :: n in s ==> n in g.nodes
  }

  ghost predicate PartlyMirrors(g: Graph, dependents: map<Name, seq<Name>>, i: nat, j: nat) {
    && i < |g.order| && j <= |Deps(g, g.order[i])|
    && dependents.Keys == g.nodes.Keys
    && forall d :: d in g.nodes ==> Known(g, dependents[d]) && RowHolds(g, dependents[d], i, j, d)
  }

  ghost predicate RowHolds(g: Graph, row: seq<Name>, i: nat, j: nat, d: Name)
    requires i < |g.order| && j <= |Deps(g, g.order[i])|
  {
    forall n :: Count(row, n) == Recorded(g, i, j, n, d)
  }

  /** What the map of dependents holds in the end: `n` stands under `d` as often
      as `n` lists `d`. */
  ghost predicate Mirrors(g: Graph, dependents: map<Name, seq<Name>>) {
    && dependents.Keys == g.nodes.Keys
    && forall d :: d in g.nodes ==>
         Known(g, dependents[d]) && forall n :: Count(dependents[d], n) == Count(Deps(g, n), d)
  }

  lemma RecordOne(g: Graph, dependents: map<Name, seq<Name>>, i: nat, j: nat, dep: Name)
    requires WellFormed(g) && PartlyMirrors(g, dependents, i, j) && j < |Deps(g, g.order[i])|
    requires dep == Deps(g, g.order[i])[j] && dep in g.nodes
    ensures PartlyMirrors(g, dependents[dep := dependents[dep] + [g.order[i]]], i, j + 1)
  {
    var name := g.order[i];
    var deps := Deps(g, name);
    assert name in g.order && name !in g.order[..i];
    assert deps[..j + 1] == deps[..j] + [dep];
    forall d | d in g.nodes ensures RowHolds(g, dependents[dep := dependents[dep] + [name]][d], i, j + 1, d) {
      assert RowHolds(g, dependents[d], i, j, d);
      var row := dependents[dep := dependents[dep] + [name]][d];
      forall n ensures Count(row, n) == Recorded(g, i, j + 1, n, d) {
        assert Count(dependents[d], n) == Recorded(g, i, j, n, d);
        CountAppend(dependents[dep], name, n);
        CountAppend(deps[..j], dep, d);
      }
    }
  }

  lemma NextRow(g: Graph, dependents: map<Name, seq<Name>>, i: nat)
    requires WellFormed(g) && i < |g.order| && PartlyMirrors(g, dependents, i, |Deps(g, g.order[i])|)
    ensures if i + 1 < |g.order| then PartlyMirrors(g, dependents, i + 1, 0) else Mirrors(g, dependents)
  {
    forall d, n | d in g.nodes
      ensures Count(dependents[d], n)
           == if i + 1 < |g.order| then Recorded(g, i + 1, 0, n, d) else Count(Deps(g, n), d)
    {
      RecordedNext(g, i, n, d);
      assert RowHolds(g, dependents[d], i, |Deps(g, g.order[i])|, d);
    }
  }

  lemma RecordedNext(g: Graph, i: nat, n: Name, d: Name)
    requires WellFormed(g) && i < |g.order|
    ensures Recorded(g, i, |Deps(g, g.order[i])|, n, d)
         == if i + 1 < |g.order| then Recorded(g, i + 1, 0, n, d) else Count(Deps(g, n), d)
  {
    var name := g.order[i];
    assert Deps(g, name)[..|Deps(g, name)|] == Deps(g, name);
    assert g.order[..i + 1] == g.order[..i] + [name];
    assert i + 1 == |g.order| ==> g.order[..i + 1] == g.order;
  }

  lemma NothingRecorded(g: Graph, dependents: map<Name, seq<Name>>)
    requires WellFormed(g)
    requires dependents.Keys == g.nodes.Keys && forall n :: n in g.nodes ==> dependents[n] == []
    ensures if g.order != [] then PartlyMirrors(g, dependents, 0, 0) else Mirrors(g, dependents)
  {
    assert g.order == [] ==> forall n :: n !in g.nodes;
  }

  method Dependents(g: Graph) returns (dependents: map<Name, seq<Name>>)
    requires WellFormed(g) && NoneMissing(g)
    ensures Mirrors(g, dependents)
  {
    dependents := map n | n in g.nodes :: [];
    NothingRecorded(g, dependents);
    var i := 0;
    while i < |g.order|
      invariant 0 <= i <= |g.order|
      invariant if i < |g.order| then PartlyMirrors(g, dependents, i, 0) else Mirrors(g, dependents)
    {
      var name := g.order[i];
      assert name in g.order;
      var deps := g.nodes[name].dependencies;
      var j := 0;
      while j < |deps|
        invariant 0 <= j <= |deps| && PartlyMirrors(g, dependents, i, j)
      {
        var dep := deps[j];
        assert Edge(g, name, dep);
        RecordOne(g, dependents, i, j, dep);
        dependents := dependents[dep := dependents[dep] + [name]];
        j := j + 1;
      }
      NextRow(g, dependents, i);
      i := i + 1;
    }
  }

  // ---------------------------------------------------------------- the loop

  /** The in-degrees once the components in `done` are accounted for. */
  ghost predicate Counts(g: Graph, indegree: map<Name, int>, done: set<Name>) {
    && indegree.Keys == g.nodes.Keys
    && forall n :: n in g.nodes ==> indegree[n] == Outstanding(Deps(g, n), done)
  }

  ghost predicate Triggered(g: Graph, n: Name, ready: seq<Name>) {
    exists d :: Edge(g, n, d) && d in ready
  }

  /** The next layer so far: exactly the components whose count has reached
      zero in this layer. */
  ghost predicate NextSound(g: Graph, indegree: map<Name, int>, done: set<Name>, ready: seq<Name>, next: seq<Name>)
    requires indegree.Keys == g.nodes.Keys
  {
    && Distinct(next)
    && (forall n :: n in next <==> n in g.nodes && indegree[n] == 0 && !AllIn(Deps(g, n), done))
    && (forall n :: n in next ==> Triggered(g, n, ready))
  }

  /** The components of this layer that are ready: all and only those whose
      dependencies are done. */
  ghost predicate ReadySound(g: Graph, done: set<Name>, ready: seq<Name>) {
    && Distinct(ready)
    && forall n :: n in ready <==> n in g.nodes && n !in done && AllIn(Deps(g, n), done)
  }

  ghost predicate BetweenRows(g: Graph, indegree: map<Name, int>, done: set<Name>, ready: seq<Name>, a: nat,
                              next: seq<Name>)
  {
    && a <= |ready|
    && Counts(g, indegree, done + Members(ready[..a]))
    && NextSound(g, indegree, done, ready, next)
  }

  ghost predicate InRow(g: Graph, dependents: map<Name, seq<Name>>, indegree: map<Name, int>, done: set<Name>,
                        ready: seq<Name>, a: nat, b: nat, next: seq<Name>)
  {
    && Mirrors(g, dependents) && ReadySound(g, done, ready)
    && a < |ready| && ready[a] in g.nodes && b <= |dependents[ready[a]]|
    && indegree.Keys == g.nodes.Keys
    && (forall n :: n in g.nodes ==>
          indegree[n] == Outstanding(Deps(g, n), done + Members(ready[..a])) - Count(dependents[ready[a]][..b], n))
    && NextSound(g, indegree, done, ready, next)
  }

  /** There is still something to take off: the row is not finished. */
  lemma StillCounted(g: Graph, dependents: map<Name, seq<Name>>, indegree: map<Name, int>, done: set<Name>,
                     ready: seq<Name>, a: nat, b: nat, next: seq<Name>, m: Name)
    requires InRow(g, dependents, indegree, done, ready, a, b, next)
    requires b < |dependents[ready[a]]| && dependents[ready[a]][b] == m
    ensures m in g.nodes && indegree[m] >= 1
    ensures Triggered(g, m, ready) && !AllIn(Deps(g, m), done)
  {
    var x := ready[a];
    var row := dependents[x];
    var passed := done + Members(ready[..a]);
    assert x in ready && x !in passed;
    assert m in row && m in g.nodes;
    CountZero(row, m);
    CountPrefix(row, b, m);
    assert Count(row, m) == Count(Deps(g, m), x);
    CountZero(Deps(g, m), x);
    OutstandingAfter(Deps(g, m), passed, x);
    assert Edge(g, m, x);
  }

  lemma NextKept(g: Graph, indegree: map<Name, int>, done: set<Name>, ready: seq<Name>, next: seq<Name>, m: Name)
    requires indegree.Keys == g.nodes.Keys && NextSound(g, indegree, done, ready, next)
    requires m in g.nodes && indegree[m] >= 1 && Triggered(g, m, ready) && !AllIn(Deps(g, m), done)
    ensures NextSound(g, indegree[m := indegree[m] - 1], done, ready, if indegree[m] == 1 then next + [m] else next)
  {
  }

  lemma DecrementOne(g: Graph, dependents: map<Name, seq<Name>>, indegree: map<Name, int>, done: set<Name>,
                     ready: seq<Name>, a: nat, b: nat, next: seq<Name>, m: Name)
    requires InRow(g, dependents, indegree, done, ready, a, b, next)
    requires b < |dependents[ready[a]]| && dependents[ready[a]][b] == m
    ensures m in indegree
    ensures InRow(g, dependents, indegree[m := indegree[m] - 1], done, ready, a, b + 1,
                  if indegree[m] == 1 then next + [m] else next)
  {
    StillCounted(g, dependents, indegree, done, ready, a, b, next, m);
    NextKept(g, indegree, done, ready, next, m);
    forall n | n in g.nodes
      ensures indegree[m := indegree[m] - 1][n]
           == Outstanding(Deps(g, n), done + Members(ready[..a])) - Count(dependents[ready[a]][..b + 1], n)
    {
      CountNext(dependents[ready[a]], b, n);
    }
  }

  lemma CountNext(row: seq<Name>, b: nat, n: Name)
    requires b < |row|
    ensures Count(row[..b + 1], n) == Count(row[..b], n) + if row[b] == n then 1 else 0
  {
    assert row[..b + 1] == row[..b] + [row[b]];
    CountAppend(row[..b], row[b], n);
  }

  lemma MembersMore(s: seq<Name>, a: nat)
    requires a < |s|
    ensures Members(s[..a + 1]) == Members(s[..a]) + {s[a]}
  {
    assert s[..a + 1] == s[..a] + [s[a]];
  }

  lemma RowDone(g: Graph, dependents: map<Name, seq<Name>>, indegree: map<Name, int>, done: set<Name>,
                ready: seq<Name>, a: nat, next: seq<Name>)
    requires a < |ready| && ready[a] in dependents
    requires InRow(g, dependents, indegree, done, ready, a, |dependents[ready[a]]|, next)
    ensures BetweenRows(g, indegree, done, ready, a + 1, next)
  {
    var x := ready[a];
    var passed := done + Members(ready[..a]);
    assert x in ready && x !in passed;
    MembersMore(ready, a);
    assert done + Members(ready[..a + 1]) == passed + {x};
    assert dependents[x][..|dependents[x]|] == dependents[x];
    forall n | n in g.nodes ensures indegree[n] == Outstanding(Deps(g, n), passed + {x}) {
      OutstandingAfter(Deps(g, n), passed, x);
      assert Count(dependents[x], n) == Count(Deps(g, n), x);
    }
  }

  /** The loop's state between two layers. */
  ghost predicate LoopInv(g: Graph, layers: Layers, indegree: map<Name, int>, ready: seq<Name>) {
    && Layered(g, layers)
    && Counts(g, indegree, Emitted(layers, |layers|))
    && ReadySound(g, Emitted(layers, |layers|), ready)
    && (layers != [] ==> forall n :: n in ready ==> Triggered(g, n, layers[|layers| - 1]))
  }

  lemma {:induction false} EmittedPrefix(layers: Layers, more: Layers, k: nat)
    requires k <= |layers|
    ensures Emitted(layers + more, k) == Emitted(layers, k)
  {
    if k > 0 {
      EmittedPrefix(layers, more, k - 1);
    }
  }

  lemma {:induction false} EmittedClosed(g: Graph, layers: Layers, k: nat)
    requires Layered(g, layers) && k <= |layers|
    ensures forall n, d :: n in Emitted(layers, k) && Edge(g, n, d) ==> d in Emitted(layers, k)
    ensures Emitted(layers, k) <= g.nodes.Keys
  {
    if k > 0 {
      EmittedClosed(g, layers, k - 1);
      assert LayerSound(g, layers, k - 1);
      MembersKnown(g, layers[k - 1]);
    }
  }

  lemma MembersKnown(g: Graph, s: seq<Name>)
    requires forall n :: n in s ==> n in g.nodes
    ensures Members(s) <= g.nodes.Keys
  {
    assert forall n: Name :: n in Members(s) ==> n in g.nodes.Keys;
  }

  lemma AddLayer(g: Graph, layers: Layers, indegree: map<Name, int>, ready: seq<Name>)
    requires LoopInv(g, layers, indegree, ready) && ready != []
    ensures Layered(g, layers + [ready])
  {
    forall i | 0 <= i < |layers + [ready]| ensures LayerSound(g, layers + [ready], i) {
      if i < |layers| {
        LowerLayerSound(g, layers, ready, i);
      } else {
        TopLayerSound(g, layers, indegree, ready);
      }
    }
  }

  lemma EmittedMore(layers: Layers, layer: seq<Name>)
    ensures Emitted(layers + [layer], |layers| + 1) == Emitted(layers, |layers|) + Members(layer)
  {
    EmittedPrefix(layers, [layer], |layers|);
    assert (layers + [layer])[|layers|] == layer;
  }

  lemma LowerLayerSound(g: Graph, layers: Layers, ready: seq<Name>, i: nat)
    requires Layered(g, layers) && i < |layers|
    ensures LayerSound(g, layers + [ready], i)
  {
    EmittedPrefix(layers, [ready], i);
    assert LayerSound(g, layers, i);
  }

  lemma TopLayerSound(g: Graph, layers: Layers, indegree: map<Name, int>, ready: seq<Name>)
    requires LoopInv(g, layers, indegree, ready) && ready != []
    ensures LayerSound(g, layers + [ready], |layers|)
  {
    var all, i := layers + [ready], |layers|;
    EmittedPrefix(layers, [ready], i);
    var done := Emitted(layers, i);
    forall n | n in ready
      ensures forall d :: Edge(g, n, d) ==> d in done
      ensures i > 0 ==> exists d :: Edge(g, n, d) && d in all[i - 1]
    {
      assert AllIn(Deps(g, n), done);
      if i > 0 {
        assert Triggered(g, n, layers[i - 1]) && all[i - 1] == layers[i - 1];
      }
    }
  }

  lemma NextLayer(g: Graph, layers: Layers, before: map<Name, int>, ready: seq<Name>, indegree: map<Name, int>,
                  next: seq<Name>)
    requires LoopInv(g, layers, before, ready) && ready != []
    requires BetweenRows(g, indegree, Emitted(layers, |layers|), ready, |ready|, next)
    ensures LoopInv(g, layers + [ready], indegree, Sorted(next))
  {
    var done := Emitted(layers, |layers|);
    AddLayer(g, layers, before, ready);
    EmittedMore(layers, ready);
    assert ready[..|ready|] == ready;
    SortedSound(next);
    NextIsReady(g, layers, before, ready, indegree, next);
  }

  lemma NextIsReady(g: Graph, layers: Layers, before: map<Name, int>, ready: seq<Name>, indegree: map<Name, int>,
                    next: seq<Name>)
    requires LoopInv(g, layers, before, ready) && ready != []
    requires BetweenRows(g, indegree, Emitted(layers, |layers|), ready, |ready|, next)
    ensures ReadySound(g, Emitted(layers, |layers|) + Members(ready), next)
  {
    var done := Emitted(layers, |layers|);
    var done' := done + Members(ready);
    assert ready[..|ready|] == ready;
    EmittedClosed(g, layers, |layers|);
    forall n ensures n in next <==> n in g.nodes && n !in done' && AllIn(Deps(g, n), done') {
      if n in g.nodes {
        OutstandingNone(Deps(g, n), done');
        assert n in done ==> AllIn(Deps(g, n), done) by {
          assert forall d :: d in Deps(g, n) ==> Edge(g, n, d);
        }
        assert n in Members(ready) <==> n in ready;
      }
    }
  }

  lemma FewerLeft(g: Graph, layers: Layers, indegree: map<Name, int>, ready: seq<Name>)
    requires LoopInv(g, layers, indegree, ready) && ready != []
    ensures g.nodes.Keys - Emitted(layers + [ready], |layers| + 1) < g.nodes.Keys - Emitted(layers, |layers|)
  {
    EmittedMore(layers, ready);
    var n := ready[0];
    assert n in ready && n in Members(ready);
    assert n in g.nodes.Keys - Emitted(layers, |layers|);
  }

  /** The components with nothing outstanding, in the order given. */
  function Free(order: seq<Name>, indegree: map<Name, int>): (r: seq<Name>)
    requires forall n :: n in order ==> n in indegree
    ensures forall n :: n in r <==> n in order && indegree[n] == 0
  {
    if order == [] then []
    else
      var last := order[|order| - 1];
      assert order == order[..|order| - 1] + [last] && last in order;
      Free(order[..|order| - 1], indegree) + if indegree[last] == 0 then [last] else []
  }

  lemma {:induction false} FreeDistinct(order: seq<Name>, indegree: map<Name, int>)
    requires forall n :: n in order ==> n in indegree
    requires Distinct(order)
    ensures Distinct(Free(order, indegree))
  {
    if order != [] {
      FreeDistinct(order[..|order| - 1], indegree);
      assert order[|order| - 1] !in order[..|order| - 1];
    }
  }

  lemma FirstLayer(g: Graph, indegree: map<Name, int>)
    requires WellFormed(g)
    requires indegree.Keys == g.nodes.Keys && forall n :: n in g.nodes ==> indegree[n] == |Deps(g, n)|
    ensures LoopInv(g, [], indegree, Sorted(Free(g.order, indegree))) && Ascending(Sorted(Free(g.order, indegree)))
  {
    FreeDistinct(g.order, indegree);
    SortedSound(Free(g.order, indegree));
    forall n | n in g.nodes
      ensures indegree[n] == Outstanding(Deps(g, n), {}) && (indegree[n] == 0 <==> AllIn(Deps(g, n), {}))
    {
      OutstandingFirst(Deps(g, n));
      OutstandingNone(Deps(g, n), {});
    }
  }

  /** When nothing is ready, everything has been emitted. */
  lemma {:induction false} AllEmitted(g: Graph, layers: Layers, indegree: map<Name, int>, s: seq<Name>, i: nat)
    requires LoopInv(g, layers, indegree, [])
    requires Lists(g, s) && DependenciesFirst(g, s) && i <= |s|
    ensures forall n :: n in s[..i] ==> n in Emitted(layers, |layers|)
  {
    if i > 0 {
      AllEmitted(g, layers, indegree, s, i - 1);
      var done := Emitted(layers, |layers|);
      var n := s[i - 1];
      assert s[..i] == s[..i - 1] + [n];
      assert n in s && n in g.nodes;
      forall d | d in Deps(g, n) ensures d in done {
        assert Edge(g, s[i - 1], d);
      }
      assert AllIn(Deps(g, n), done);
    }
  }

  /** A component is in the layer that is the length of its longest walk along
      dependencies, and in no other. */
  ghost predicate LayerIsDepth(g: Graph, layers: Layers) {
    forall i, n :: 0 <= i < |layers| ==> (n in layers[i] <==> n in g.nodes && LongestWalk(g, n, i))
  }

  ghost predicate AllDistinct(layers: Layers) {
    forall i :: 0 <= i < |layers| ==> Distinct(layers[i])
  }

  ghost predicate AllAscending(layers: Layers) {
    forall i :: 0 <= i < |layers| ==> Ascending(layers[i])
  }

  lemma AscendingAppend(layers: Layers, layer: seq<Name>)
    requires AllAscending(layers) && Ascending(layer)
    ensures AllAscending(layers + [layer])
  {
  }

  lemma LayerDone(g: Graph, layers: Layers, before: map<Name, int>, ready: seq<Name>, indegree: map<Name, int>,
                  next: seq<Name>)
    requires LoopInv(g, layers, before, ready) && ready != []
    requires Ascending(ready) && AllAscending(layers)
    requires BetweenRows(g, indegree, Emitted(layers, |layers|), ready, |ready|, next)
    ensures LoopInv(g, layers + [ready], indegree, Sorted(next))
    ensures Ascending(Sorted(next)) && AllAscending(layers + [ready])
    ensures g.nodes.Keys - Emitted(layers + [ready], |layers + [ready]|) < g.nodes.Keys - Emitted(layers, |layers|)
  {
    NextLayer(g, layers, before, ready, indegree, next);
    FewerLeft(g, layers, before, ready);
    AscendingAppend(layers, ready);
    SortedSound(next);
  }

  /** Kahn's algorithm, counting a dependency as often as it is listed. For an
      accepted graph every component is in exactly one layer, and its layer is
      the length of its longest dependency walk. */
  method StartupLayers(g: Graph) returns (layers: Layers)
    requires WellFormed(g) && NoneMissing(g) && HasOrder(g)
    ensures Layered(g, layers) && Emitted(layers, |layers|) == g.nodes.Keys
    ensures LayerIsDepth(g, layers)
    ensures AllDistinct(layers) && AllAscending(layers)
  {
    var indegree: map<Name, int> := map n | n in g.nodes :: |Deps(g, n)|;
    var dependents := Dependents(g);
    layers := [];
    FirstLayer(g, indegree);
    var ready := Sorted(Free(g.order, indegree));
    while ready != []
      invariant LoopInv(g, layers, indegree, ready)
      invariant Ascending(ready) && AllAscending(layers)
      decreases g.nodes.Keys - Emitted(layers, |layers|)
    {
      ghost var before := indegree;
      var next;
      indegree, next := FinishLayer(g, dependents, indegree, Emitted(layers, |layers|), ready);
      LayerDone(g, layers, before, ready, indegree, next);
      layers, ready := layers + [ready], Sorted(next);
    }
    LayeringComplete(g, layers, indegree);
  }

  lemma LayeringComplete(g: Graph, layers: Layers, indegree: map<Name, int>)
    requires HasOrder(g) && LoopInv(g, layers, indegree, [])
    ensures Emitted(layers, |layers|) == g.nodes.Keys
    ensures LayerIsDepth(g, layers)
    ensures AllDistinct(layers)
  {
    EveryoneEmitted(g, layers, indegree);
    LayersAreLongestWalks(g, layers);
    LayersDistinct(g, layers);
  }

  lemma EveryoneEmitted(g: Graph, layers: Layers, indegree: map<Name, int>)
    requires HasOrder(g) && LoopInv(g, layers, indegree, [])
    ensures Emitted(layers, |layers|) == g.nodes.Keys
  {
    var s :| Lists(g, s) && DependenciesFirst(g, s);
    AllEmitted(g, layers, indegree, s, |s|);
    assert s[..|s|] == s;
    forall n | n in g.nodes.Keys ensures n in Emitted(layers, |layers|) {
      assert n in s;
    }
    EmittedClosed(g, layers, |layers|);
    SameNames(Emitted(layers, |layers|), g.nodes.Keys);
  }

  lemma SameNames(a: set<Name>, b: set<Name>)
    requires forall n :: n in a <==> n in b
    ensures a == b
  {
    forall n | n in a ensures n in b {}
    forall n | n in b ensures n in a {}
  }

  lemma LayersDistinct(g: Graph, layers: Layers)
    requires Layered(g, layers)
    ensures AllDistinct(layers)
  {
    forall i | 0 <= i < |layers| ensures Distinct(layers[i]) {
      assert LayerSound(g, layers, i);
    }
  }

  /** The body of the loop: one layer's components leave the counts. */
  method FinishLayer(g: Graph, dependents: map<Name, seq<Name>>, degrees: map<Name, int>, ghost done: set<Name>,
                     ready: seq<Name>)
    returns (indegree: map<Name, int>, next: seq<Name>)
    requires Mirrors(g, dependents) && ReadySound(g, done, ready) && Counts(g, degrees, done)
    ensures BetweenRows(g, indegree, done, ready, |ready|, next)
  {
    indegree, next := degrees, [];
    forall n | n in g.nodes ensures indegree[n] == 0 ==> AllIn(Deps(g, n), done) {
      OutstandingNone(Deps(g, n), done);
    }
    assert done + Members(ready[..0]) == done;
    var a := 0;
    while a < |ready|
      invariant 0 <= a <= |ready| && BetweenRows(g, indegree, done, ready, a, next)
    {
      var x := ready[a];
      assert x in ready;
      assert forall n :: Count(dependents[x][..0], n) == 0;
      var b := 0;
      while b < |dependents[x]|
        invariant 0 <= b <= |dependents[x]| && InRow(g, dependents, indegree, done, ready, a, b, next)
      {
        var m := dependents[x][b];
        DecrementOne(g, dependents, indegree, done, ready, a, b, next, m);
        indegree := indegree[m := indegree[m] - 1];
        if indegree[m] == 0 {
          next := next + [m];
        }
        b := b + 1;
      }
      RowDone(g, dependents, indegree, done, ready, a, next);
      a := a + 1;
    }
  }

  // ---------------------------------------------------- what the layers mean

  lemma {:induction false} LayerOf(layers: Layers, n: Name, k: nat) returns (i: nat)
    requires k <= |layers| && n in Emitted(layers, k)
    ensures i < k && n in layers[i]
  {
    if n in layers[k - 1] {
      i := k - 1;
    } else {
      i := LayerOf(layers, n, k - 1);
    }
  }

  /** A component of layer `i` starts a walk of `i` edges. */
  lemma {:induction false} WalkOfLayer(g: Graph, layers: Layers, i: nat, n: Name) returns (p: seq<Name>)
    requires Layered(g, layers) && i < |layers| && n in layers[i]
    ensures Walk(g, p) && p[0] == n && |p| == i + 1
  {
    assert LayerSound(g, layers, i);
    p := [n];
    if i > 0 {
      var d :| Edge(g, n, d) && d in layers[i - 1];
      var rest := WalkOfLayer(g, layers, i - 1, d);
      p := [n] + rest;
      assert forall k :: 1 <= k < |p| ==> p[k] == rest[k - 1];
      forall k | 0 <= k < |p| - 1 ensures Edge(g, p[k], p[k + 1]) {
        if k > 0 {
          assert Edge(g, rest[k - 1], rest[k - 1 + 1]);
        }
      }
    }
  }

  /** No walk that starts in layer `i` has more than `i` edges. */
  lemma {:induction false} WalkFitsLayer(g: Graph, layers: Layers, i: nat, p: seq<Name>)
    requires Layered(g, layers) && i < |layers| && Walk(g, p) && p[0] in layers[i]
    ensures |p| <= i + 1
    decreases |p|
  {
    if |p| >= 2 {
      TailWalk(g, p);
      assert LayerSound(g, layers, i);
      var n, d := p[0], p[1];
      assert n in layers[i] && d in Emitted(layers, i);
      var k := LayerOf(layers, d, i);
      WalkFitsLayer(g, layers, k, p[1..]);
    }
  }

  lemma LayersAreLongestWalks(g: Graph, layers: Layers)
    requires Layered(g, layers) && Emitted(layers, |layers|) == g.nodes.Keys
    ensures LayerIsDepth(g, layers)
  {
    forall i: nat, n | i < |layers| ensures n in layers[i] <==> n in g.nodes && LongestWalk(g, n, i) {
      if n in g.nodes {
        var k := LayerOf(layers, n, |layers|);
        LayerIsLongestWalk(g, layers, k, n);
        if LongestWalk(g, n, i) {
          LongestWalkUnique(g, n, i, k);
        }
      } else {
        assert LayerSound(g, layers, i);
      }
    }
  }

  lemma LayerIsLongestWalk(g: Graph, layers: Layers, i: nat, n: Name)
    requires Layered(g, layers) && i < |layers| && n in layers[i]
    ensures LongestWalk(g, n, i)
    ensures forall j :: 0 <= j < |layers| && n in layers[j] ==> j == i
  {
    var p := WalkOfLayer(g, layers, i, n);
    forall q | Walk(g, q) && q[0] == n ensures |q| <= i + 1 {
      WalkFitsLayer(g, layers, i, q);
    }
    forall j | 0 <= j < |layers| && n in layers[j] ensures j == i {
      var q := WalkOfLayer(g, layers, j, n);
      WalkFitsLayer(g, layers, j, p);
      WalkFitsLayer(g, layers, i, q);
    }
  }

  lemma LongestWalkUnique(g: Graph, n: Name, h: nat, k: nat)
    requires LongestWalk(g, n, h) && LongestWalk(g, n, k)
    ensures h == k
  {
  }

  // ------------------------------------------------------------ flat orders

  function Flatten(layers: Layers): seq<Name> {
    if layers == [] then [] else Flatten(layers[..|layers| - 1]) + layers[|layers| - 1]
  }

  function Backwards(s: seq<Name>): seq<Name> {
    seq(|s|, i requires 0 <= i < |s| => s[|s| - 1 - i])
  }

  ghost predicate Before(s: seq<Name>, a: Name, b: Name) {
    exists i, j :: 0 <= i < j < |s| && s[i] == a && s[j] == b
  }

  lemma {:induction false} FlattenSound(g: Graph, layers: Layers)
    requires Layered(g, layers)
    ensures Distinct(Flatten(layers)) && forall n :: n in Flatten(layers) <==> n in Emitted(layers, |layers|)
    ensures DependenciesFirst(g, Flatten(layers))
  {
    if layers != [] {
      var rest, last := layers[..|layers| - 1], layers[|layers| - 1];
      assert layers == rest + [last];
      forall i | 0 <= i < |rest| ensures LayerSound(g, rest, i) {
        EmittedPrefix(rest, [last], i);
        assert LayerSound(g, layers, i);
      }
      FlattenSound(g, rest);
      EmittedPrefix(rest, [last], |rest|);
      assert LayerSound(g, layers, |rest|);
      var flat := Flatten(rest);
      var s := flat + last;
      forall i, d | 0 <= i < |s| && Edge(g, s[i], d) ensures d in s[..i] {
        if i < |flat| {
          assert Edge(g, flat[i], d) && s[..i] == flat[..i];
        } else {
          var n := last[i - |flat|];
          assert n in last && Edge(g, n, d);
          assert s[..i] == flat + last[..i - |flat|];
        }
      }
      assert Distinct(s) by {
        forall i, j | 0 <= i < j < |s| ensures s[i] != s[j] {
          if i < |flat| && j >= |flat| {
            var m, n := flat[i], last[j - |flat|];
            assert m in flat && n in last;
          }
        }
      }
    }
  }

  /** `startup_order`: every component once, dependencies first. */
  method StartupOrder(g: Graph) returns (order: seq<Name>)
    requires WellFormed(g) && NoneMissing(g) && HasOrder(g)
    ensures Lists(g, order) && DependenciesFirst(g, order)
    ensures forall i, j :: 0 <= i < j < |order| ==> Sooner(g, order[i], order[j])
  {
    var layers := StartupLayers(g);
    FlattenSound(g, layers);
    order := Flatten(layers);
    forall i, j | 0 <= i < j < |order| ensures Sooner(g, order[i], order[j]) {
      var a, b := FlattenPlaces(layers, i, j);
      FlattenSooner(g, layers, order[i], order[j], a, b);
    }
  }

  /** Less deep in the graph, or equally deep and smaller by name. */
  ghost predicate Sooner(g: Graph, m: Name, n: Name) {
    forall h: nat, k: nat :: LongestWalk(g, m, h) && LongestWalk(g, n, k) ==> h < k || (h == k && m < n)
  }

  lemma FlattenSooner(g: Graph, layers: Layers, m: Name, n: Name, a: int, b: int)
    requires LayerIsDepth(g, layers) && 0 <= a <= b < |layers| && m in layers[a] && n in layers[b] && (a == b ==> m < n)
    ensures Sooner(g, m, n)
  {
    forall h: nat, k: nat | LongestWalk(g, m, h) && LongestWalk(g, n, k) ensures h < k || (h == k && m < n) {
      LongestWalkUnique(g, m, h, a);
      LongestWalkUnique(g, n, k, b);
    }
  }

  /** The layers of two places in the flat order. */
  lemma {:induction false} FlattenPlaces(layers: Layers, i: nat, j: nat) returns (a: int, b: int)
    requires AllDistinct(layers) && AllAscending(layers) && i < j < |Flatten(layers)|
    ensures 0 <= a <= b < |layers| && Flatten(layers)[i] in layers[a] && Flatten(layers)[j] in layers[b]
    ensures a == b ==> Flatten(layers)[i] < Flatten(layers)[j]
  {
    var rest, last := layers[..|layers| - 1], layers[|layers| - 1];
    var n := |Flatten(rest)|;
    if j < n {
      a, b := FlattenPlaces(rest, i, j);
    } else {
      b := |layers| - 1;
      assert last[j - n] in last;
      if i < n {
        a := FlattenPlace(rest, i);
      } else {
        a := b;
        assert last[i - n] in last;
      }
    }
  }

  lemma {:induction false} FlattenPlace(layers: Layers, i: nat) returns (a: int)
    requires i < |Flatten(layers)|
    ensures 0 <= a < |layers| && Flatten(layers)[i] in layers[a]
  {
    var rest, last := layers[..|layers| - 1], layers[|layers| - 1];
    var n := |Flatten(rest)|;
    if i < n {
      a := FlattenPlace(rest, i);
    } else {
      a := |layers| - 1;
      assert last[i - n] in last;
    }
  }

  /** `shutdown_order`: every component once, and every component before all
      that it depends on, directly or through others. */
  method ShutdownOrder(g: Graph) returns (order: seq<Name>)
    requires WellFormed(g) && NoneMissing(g) && HasOrder(g)
    ensures Lists(g, order)
    ensures forall p :: Walk(g, p) && |p| >= 2 ==> Before(order, p[0], p[|p| - 1])
    ensures forall i, j :: 0 <= i < j < |order| ==> Sooner(g, order[j], order[i])
  {
    var startup := StartupOrder(g);
    order := Backwards(startup);
    BackwardsSound(g, startup);
  }

  lemma BackwardsSound(g: Graph, s: seq<Name>)
    requires Lists(g, s) && DependenciesFirst(g, s)
    ensures Lists(g, Backwards(s))
    ensures forall p :: Walk(g, p) && |p| >= 2 ==> Before(Backwards(s), p[0], p[|p| - 1])
  {
    BackwardsMembers(s);
    forall p | Walk(g, p) && |p| >= 2 ensures Before(Backwards(s), p[0], p[|p| - 1]) {
      var n := p[0];
      assert n in s;
      var i :| 0 <= i < |s| && s[i] == n;
      var j := WalkGoesBack(g, s, p, i);
      assert Backwards(s)[|s| - 1 - i] == s[i] && Backwards(s)[|s| - 1 - j] == s[j];
    }
  }

  lemma BackwardsMembers(s: seq<Name>)
    requires Distinct(s)
    ensures Distinct(Backwards(s)) && forall n :: n in Backwards(s) <==> n in s
  {
    forall n | n in s ensures n in Backwards(s) {
      var i :| 0 <= i < |s| && s[i] == n;
      assert Backwards(s)[|s| - 1 - i] == n;
    }
  }
}
