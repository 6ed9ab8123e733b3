/** The dependency graph: its validation before anything starts, and the start
    and stop orders it yields. */
module DependencyGraph {
  import opened Sequences
  import opened Wrappers

  /** Component names, compared and sorted; numbers stand for the strings. */
  type Name = int

  datatype Lifetime = Process | Scoped

  datatype Node = Node(dependencies: seq<Name>, lifetime: Lifetime)

  /** The configured components; `order` is the order in which they were given,
      each name once. */
  datatype Graph = Graph(order: seq<Name>, nodes: map<Name, Node>)

  /** `s` lists every component exactly once. */
  ghost predicate Lists(g: Graph, s: seq<Name>) {
    Distinct(s) && forall n :: n in s <==> n in g.nodes
  }

  ghost predicate WellFormed(g: Graph) {
    Lists(g, g.order)
  }

  function Deps(g: Graph, n: Name): seq<Name> {
    if n in g.nodes then g.nodes[n].dependencies else []
  }

  /** `n` depends on `d`. */
  ghost predicate Edge(g: Graph, n: Name, d: Name) {
    d in Deps(g, n)
  }

  // ------------------------------------------------------- what is promised

  ghost predicate NoneMissing(g: Graph) {
    forall n, d :: n in g.nodes && Edge(g, n, d) ==> d in g.nodes
  }

  ghost predicate Leaks(g: Graph, n: Name, d: Name) {
    && n in g.nodes && d in g.nodes && Edge(g, n, d)
    && g.nodes[n].lifetime == Process && g.nodes[d].lifetime == Scoped
  }

  ghost predicate NoLeak(g: Graph) {
    forall n, d :: !Leaks(g, n, d)
  }

  /** A walk along dependency edges. */
  ghost predicate Walk(g: Graph, p: seq<Name>) {
    && |p| >= 1
    && (forall i :: 0 <= i < |p| ==> p[i] in g.nodes)
    && forall i :: 0 <= i < |p| - 1 ==> Edge(g, p[i], p[i + 1])
  }

  ghost predicate ClosedWalk(g: Graph, p: seq<Name>) {
    Walk(g, p) && |p| >= 2 && p[0] == p[|p| - 1]
  }

  ghost predicate SimpleCycle(g: Graph, p: seq<Name>) {
    ClosedWalk(g, p) && Distinct(p[1..])
  }

  ghost predicate Acyclic(g: Graph) {
    forall p :: !ClosedWalk(g, p)
  }

  /** Every dependency of a listed component stands before it in the list. */
  ghost predicate DependenciesFirst(g: Graph, s: seq<Name>) {
    forall i, d :: 0 <= i < |s| && Edge(g, s[i], d) ==> d in s[..i]
  }

  ghost predicate HasOrder(g: Graph) {
    exists s :: Lists(g, s) && DependenciesFirst(g, s)
  }

  /** A graph the constructor accepts. */
  ghost predicate Accepted(g: Graph) {
    WellFormed(g) && NoneMissing(g) && NoLeak(g) && HasOrder(g)
  }

  lemma TailWalk(g: Graph, p: seq<Name>)
    requires Walk(g, p) && |p| >= 2
    ensures Walk(g, p[1..]) && Edge(g, p[0], p[1])
  {
  }

  lemma {:induction false} WalkGoesBack(g: Graph, s: seq<Name>, p: seq<Name>, i: nat) returns (j: nat)
    requires DependenciesFirst(g, s) && Walk(g, p) && i < |s| && s[i] == p[0]
    ensures j <= i && s[j] == p[|p| - 1] && (|p| >= 2 ==> j < i)
    decreases |p|
  {
    j := i;
    if |p| >= 2 {
      TailWalk(g, p);
      assert p[1] in s[..i];
      var k :| 0 <= k < i && s[k] == p[1];
      j := WalkGoesBack(g, s, p[1..], k);
    }
  }

  /** An order with dependencies first leaves no room for a cycle. */
  lemma OrderedIsAcyclic(g: Graph)
    requires HasOrder(g)
    ensures Acyclic(g)
  {
    var s :| Lists(g, s) && DependenciesFirst(g, s);
    forall p ensures !ClosedWalk(g, p) {
      if ClosedWalk(g, p) {
        assert p[0] in s;
        var i :| 0 <= i < |s| && s[i] == p[0];
        var j := WalkGoesBack(g, s, p, i);
        assert false;
      }
    }
  }

  /** A number per component that goes down along every dependency. */
  ghost function Rank(g: Graph, n: Name): nat
    requires HasOrder(g) && n in g.nodes
  {
    var s :| Lists(g, s) && DependenciesFirst(g, s);
    var i: nat :| i < |s| && s[i] == n;
    i
  }

  lemma RankDecreases(g: Graph, n: Name, d: Name)
    requires HasOrder(g) && n in g.nodes && Edge(g, n, d)
    ensures d in g.nodes && Rank(g, d) < Rank(g, n)
  {
  }

  // ------------------------------------------------------------ cycle search

  datatype Color = White | Grey | Black

  ghost function Whites(color: map<Name, Color>): set<Name> {
    set n | n in color && color[n] == White
  }

  ghost predicate IsBlack(color: map<Name, Color>, n: Name) {
    n in color && color[n] == Black
  }

  /** Black components stay black. */
  ghost predicate KeepsBlack(before: map<Name, Color>, after: map<Name, Color>) {
    forall n :: IsBlack(before, n) ==> IsBlack(after, n)
  }

  /** The state of the search: the stack is the walk of grey components, and
      `finished` lists the black ones, dependencies first. */
  ghost predicate SearchInv(g: Graph, color: map<Name, Color>, stack: seq<Name>, finished: seq<Name>) {
    && color.Keys == g.nodes.Keys
    && Distinct(stack) && (forall n :: n in stack <==> n in color && color[n] == Grey)
    && (forall i :: 0 <= i < |stack| - 1 ==> Edge(g, stack[i], stack[i + 1]))
    && Distinct(finished) && (forall n :: n in finished <==> IsBlack(color, n))
    && DependenciesFirst(g, finished)
  }

  lemma Push(g: Graph, color: map<Name, Color>, stack: seq<Name>, finished: seq<Name>, name: Name)
    requires SearchInv(g, color, stack, finished) && name in color && color[name] == White
    requires stack == [] || Edge(g, stack[|stack| - 1], name)
    ensures SearchInv(g, color[name := Grey], stack + [name], finished)
    ensures Whites(color[name := Grey]) == Whites(color) - {name} && name in Whites(color)
  {
  }

  lemma Pop(g: Graph, color: map<Name, Color>, stack: seq<Name>, finished: seq<Name>, name: Name)
    requires SearchInv(g, color, stack + [name], finished)
    requires forall d :: Edge(g, name, d) ==> IsBlack(color, d)
    ensures SearchInv(g, color[name := Black], stack, finished + [name])
    ensures Whites(color[name := Black]) == Whites(color)
  {
    var whole := stack + [name];
    assert whole[|stack|] == name && name in whole;
    assert forall n :: n in whole <==> n in stack || n == name;
    assert forall n :: n != name ==> (IsBlack(color[name := Black], n) <==> IsBlack(color, n));
    assert IsBlack(color[name := Black], name) && name !in finished;
    PopStack(g, stack, name);
    PopFinished(g, color, finished, name);
  }

  lemma PopStack(g: Graph, stack: seq<Name>, name: Name)
    requires Distinct(stack + [name])
    requires forall i :: 0 <= i < |stack + [name]| - 1 ==> Edge(g, (stack + [name])[i], (stack + [name])[i + 1])
    ensures Distinct(stack) && name !in stack
    ensures forall i :: 0 <= i < |stack| - 1 ==> Edge(g, stack[i], stack[i + 1])
  {
    var whole := stack + [name];
    assert forall i :: 0 <= i < |stack| ==> stack[i] == whole[i];
    assert whole[|stack|] == name;
    forall i | 0 <= i < |stack| - 1 ensures Edge(g, stack[i], stack[i + 1]) {
      assert Edge(g, whole[i], whole[i + 1]);
    }
  }

  lemma PopFinished(g: Graph, color: map<Name, Color>, finished: seq<Name>, name: Name)
    requires forall n :: n in finished <==> IsBlack(color, n)
    requires DependenciesFirst(g, finished) && forall d :: Edge(g, name, d) ==> IsBlack(color, d)
    ensures DependenciesFirst(g, finished + [name])
  {
    var s := finished + [name];
    forall i, d | 0 <= i < |s| && Edge(g, s[i], d) ensures d in s[..i] {
      if i < |finished| {
        assert Edge(g, finished[i], d) && s[..i] == finished[..i];
      } else {
        assert IsBlack(color, d) && s[..i] == finished;
      }
    }
  }

  /** The depth-first search with its colours and its stack. `finished` is the
      order in which components turned black. */
  class CycleSearch {
    const graph: Graph
    var color: map<Name, Color>
    var stack: seq<Name>
    ghost var finished: seq<Name>

    ghost predicate Valid()
      reads this
    {
      NoneMissing(graph) && SearchInv(graph, color, stack, finished)
    }

    constructor (graph: Graph)
      requires NoneMissing(graph)
      ensures Valid() && this.graph == graph && stack == []
    {
      this.graph := graph;
      color := map n | n in graph.nodes :: White;
      stack, finished := [], [];
    }

    /** Visits a white component below the top of the stack: a cycle, or every
        component reached has been finished and the stack is as before. */
    method Visit(name: Name) returns (cycle: Option<seq<Name>>)
      requires Valid() && name in color && color[name] == White
      requires stack == [] || Edge(graph, stack[|stack| - 1], name)
      modifies this
      ensures cycle.Some? ==> SimpleCycle(graph, cycle.value)
      ensures cycle.None? ==> Valid() && stack == old(stack) && IsBlack(color, name)
      ensures cycle.None? ==> Whites(color) < Whites(old(color)) && KeepsBlack(old(color), color)
      decreases Whites(color)
    {
      Enter(name);
      ghost var path := stack;
      var deps := graph.nodes[name].dependencies;
      var i := 0;
      while i < |deps|
        invariant 0 <= i <= |deps|
        invariant Valid() && stack == path
        invariant Whites(color) < Whites(old(color)) && KeepsBlack(old(color), color)
        invariant forall j :: 0 <= j < i ==> IsBlack(color, deps[j])
      {
        var dep := deps[i];
        assert Edge(graph, name, dep);
        if color[dep] == Grey {
          cycle := CloseCycle(name, dep);
          return;
        }
        if color[dep] == White {
          cycle := Visit(dep);
          if cycle.Some? {
            return;
          }
        }
        i := i + 1;
      }
      Leave(name);
      assert stack == old(stack);
      cycle := None;
    }

    method Enter(name: Name)
      requires Valid() && name in color && color[name] == White
      requires stack == [] || Edge(graph, stack[|stack| - 1], name)
      modifies this
      ensures Valid() && stack == old(stack) + [name]
      ensures Whites(color) < Whites(old(color)) && KeepsBlack(old(color), color)
    {
      Push(graph, color, stack, finished, name);
      color := color[name := Grey];
      stack := stack + [name];
    }

    method Leave(name: Name)
      requires Valid() && stack != [] && stack[|stack| - 1] == name
      requires forall d :: Edge(graph, name, d) ==> IsBlack(color, d)
      modifies this
      ensures Valid() && stack == old(stack)[..|old(stack)| - 1] && IsBlack(color, name)
      ensures Whites(color) == Whites(old(color)) && KeepsBlack(old(color), color)
    {
      ghost var below := stack[..|stack| - 1];
      assert stack == below + [name];
      Pop(graph, color, below, finished, name);
      stack := stack[..|stack| - 1];
      color := color[name := Black];
      finished := finished + [name];
    }

    /** The cycle that a dependency on the stack closes. */
    method CloseCycle(name: Name, dep: Name) returns (cycle: Option<seq<Name>>)
      requires Valid() && stack != [] && stack[|stack| - 1] == name
      requires Edge(graph, name, dep) && dep in color && color[dep] == Grey
      ensures cycle.Some? && SimpleCycle(graph, cycle.value)
    {
      var from := IndexOf(stack, dep);
      CycleFromStack(graph, stack, from);
      cycle := Some(stack[from..] + [dep]);
    }
  }

  method IndexOf(s: seq<Name>, n: Name) returns (i: nat)
    requires n in s
    ensures i < |s| && s[i] == n && n !in s[..i]
  {
    i := 0;
    assert s[0..] == s;
    while s[i] != n
      invariant i <= |s| && n in s[i..] && n !in s[..i]
      decreases |s| - i
    {
      assert s[i..] == [s[i]] + s[i + 1..];
      assert s[..i + 1] == s[..i] + [s[i]];
      i := i + 1;
    }
  }

  lemma CycleFromStack(g: Graph, stack: seq<Name>, from: nat)
    requires Distinct(stack) && from < |stack| && (forall n :: n in stack ==> n in g.nodes)
    requires forall i :: 0 <= i < |stack| - 1 ==> Edge(g, stack[i], stack[i + 1])
    requires Edge(g, stack[|stack| - 1], stack[from])
    ensures SimpleCycle(g, stack[from..] + [stack[from]])
  {
  }

  /** `_check_cycles`: reports a cycle exactly when there is one, and what it
      reports is one, without repetitions. */
  method CheckCycles(g: Graph) returns (cycle: Option<seq<Name>>)
    requires WellFormed(g) && NoneMissing(g)
    ensures cycle.Some? ==> SimpleCycle(g, cycle.value)
    ensures cycle.None? ==> HasOrder(g)
    ensures cycle.None? <==> Acyclic(g)
  {
    var search := new CycleSearch(g);
    var names := Sorted(g.order);
    var i := 0;
    while i < |names|
      invariant 0 <= i <= |names|
      invariant search.graph == g && search.Valid() && search.stack == []
      invariant forall j :: 0 <= j < i ==> IsBlack(search.color, names[j])
    {
      var name := names[i];
      assert name in names && name in g.nodes.Keys && name in search.color.Keys;
      ghost var before := search.color;
      if search.color[name] == White {
        cycle := search.Visit(name);
        if cycle.Some? {
          return;
        }
      }
      assert KeepsBlack(before, search.color);
      assert name !in search.stack;
      i := i + 1;
    }
    assert Lists(g, search.finished) by {
      forall n ensures n in search.finished <==> n in g.nodes {
        if n in g.nodes {
          assert n in names;
        }
      }
    }
    OrderedIsAcyclic(g);
    cycle := None;
  }

  /** What the constructor reports, in the order it checks. */
  datatype Verdict =
    | Missing(component: Name, dependency: Name)
    | Leak(component: Name, dependency: Name)
    | Cycle(path: seq<Name>)
    | Fine

  /** The constructor: the first kind of fault that the graph has, with a
      witness, and `Fine` exactly for a graph without any. */
  method Check(g: Graph) returns (verdict: Verdict)
    requires WellFormed(g)
    ensures verdict.Missing? ==>
      verdict.component in g.nodes && Edge(g, verdict.component, verdict.dependency) && verdict.dependency !in g.nodes
    ensures verdict.Leak? ==> NoneMissing(g) && Leaks(g, verdict.component, verdict.dependency)
    ensures verdict.Cycle? ==> NoneMissing(g) && NoLeak(g) && SimpleCycle(g, verdict.path)
    ensures verdict.Fine? ==> Accepted(g)
    ensures verdict.Fine? <==> NoneMissing(g) && NoLeak(g) && Acyclic(g)
  {
    var missing := FindMissing(g);
    if missing.Some? {
      return Missing(missing.value.0, missing.value.1);
    }
    var leak := FindLeak(g);
    if leak.Some? {
      return Leak(leak.value.0, leak.value.1);
    }
    var cycle := CheckCycles(g);
    verdict := if cycle.Some? then Cycle(cycle.value) else Fine;
  }

  ghost predicate MissingEdge(g: Graph, n: Name, d: Name) {
    Edge(g, n, d) && d !in g.nodes
  }

  /** `_check_missing`. */
  method FindMissing(g: Graph) returns (fault: Option<(Name, Name)>)
    requires WellFormed(g)
    ensures fault.Some? ==> fault.value.0 in g.nodes && MissingEdge(g, fault.value.0, fault.value.1)
    ensures fault.None? <==> NoneMissing(g)
  {
    var i := 0;
    while i < |g.order|
      invariant 0 <= i <= |g.order|
      invariant forall k, d :: 0 <= k < i ==> !MissingEdge(g, g.order[k], d)
    {
      var n := g.order[i];
      assert n in g.order;
      var deps := g.nodes[n].dependencies;
      var j := 0;
      while j < |deps|
        invariant 0 <= j <= |deps|
        invariant forall d :: d in deps[..j] ==> d in g.nodes
      {
        var d := deps[j];
        if d !in g.nodes {
          assert Edge(g, n, d);
          return Some((n, d));
        }
        assert deps[..j + 1] == deps[..j] + [d];
        j := j + 1;
      }
      assert deps[..j] == deps;
      i := i + 1;
    }
    forall n, d | n in g.nodes && Edge(g, n, d) ensures d in g.nodes {
      var k :| 0 <= k < |g.order| && g.order[k] == n;
      assert !MissingEdge(g, g.order[k], d);
    }
    fault := None;
  }

  /** `_check_lifetime`. */
  method FindLeak(g: Graph) returns (fault: Option<(Name, Name)>)
    requires WellFormed(g) && NoneMissing(g)
    ensures fault.Some? ==> Leaks(g, fault.value.0, fault.value.1)
    ensures fault.None? <==> NoLeak(g)
  {
    var i := 0;
    while i < |g.order|
      invariant 0 <= i <= |g.order|
      invariant forall k, d :: 0 <= k < i ==> !Leaks(g, g.order[k], d)
    {
      var n := g.order[i];
      assert n in g.order;
      if g.nodes[n].lifetime == Process {
        var deps := g.nodes[n].dependencies;
        var j := 0;
        while j < |deps|
          invariant 0 <= j <= |deps|
          invariant forall d :: d in deps[..j] ==> !Leaks(g, n, d)
        {
          var d := deps[j];
          assert Edge(g, n, d);
          if g.nodes[d].lifetime == Scoped {
            assert Leaks(g, n, d);
            return Some((n, d));
          }
          assert deps[..j + 1] == deps[..j] + [d];
          j := j + 1;
        }
        assert deps[..j] == deps;
      }
      i := i + 1;
    }
    forall n, d ensures !Leaks(g, n, d) {
      if n in g.nodes {
        var k :| 0 <= k < |g.order| && g.order[k] == n;
        assert !Leaks(g, g.order[k], d);
      }
    }
    fault := None;
  }

  // ---------------------------------------------------------------- sorting

  function Insert(x: Name, s: seq<Name>): seq<Name> {
    if s == [] || x <= s[0] then [x] + s else [s[0]] + Insert(x, s[1..])
  }

  /** Names in ascending order. */
  function Sorted(s: seq<Name>): (r: seq<Name>)
    ensures forall n :: n in r <==> n in s
  {
    if s == [] then [] else
      InsertSound(s[0], Sorted(s[1..]));
      Insert(s[0], Sorted(s[1..]))
  }

  ghost predicate Ascending(s: seq<Name>) {
    forall i, j :: 0 <= i < j < |s| ==> s[i] <= s[j]
  }

  lemma {:induction false} InsertSound(x: Name, s: seq<Name>)
    ensures forall n :: n in Insert(x, s) <==> n == x || n in s
    ensures |Insert(x, s)| == |s| + 1
    ensures Distinct(s) && x !in s ==> Distinct(Insert(x, s))
    ensures Ascending(s) ==> Ascending(Insert(x, s))
  {
    if s != [] && x > s[0] {
      var rest := s[1..];
      InsertSound(x, rest);
      assert s == [s[0]] + rest;
      var inserted := Insert(x, rest);
      assert Insert(x, s) == [s[0]] + inserted;
      forall j | 0 <= j < |inserted|
        ensures Ascending(s) ==> s[0] <= inserted[j]
        ensures Distinct(s) && x !in s ==> s[0] != inserted[j]
      {
        assert inserted[j] in inserted;
      }
    }
  }

  lemma {:induction false} SortedSound(s: seq<Name>)
    ensures Ascending(Sorted(s)) && |Sorted(s)| == |s|
    ensures Distinct(s) ==> Distinct(Sorted(s))
  {
    if s != [] {
      SortedSound(s[1..]);
      InsertSound(s[0], Sorted(s[1..]));
    }
  }
}
