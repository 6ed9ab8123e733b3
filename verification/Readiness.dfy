/** System readiness: each component's own health, carried up the dependency
    graph along required dependencies. */
module Readiness {
  import opened DependencyGraph

  datatype Health = Ok | Degraded | Unhealthy

  datatype Detail = Nothing | Text(text: string) | BrokenDependency(name: Name)

  datatype Status = Status(state: Health, detail: Detail)

  datatype Criticality = Required | Optional

  /** A validated graph with each component's criticality and own health. */
  datatype Setup = Setup(graph: Graph, criticality: map<Name, Criticality>, own: map<Name, Status>)

  ghost predicate WellFormedSetup(u: Setup) {
    && WellFormed(u.graph) && NoneMissing(u.graph) && HasOrder(u.graph)
    && u.criticality.Keys == u.graph.nodes.Keys && u.own.Keys == u.graph.nodes.Keys
  }

  predicate IsOk(s: Status) {
    s.state == Ok
  }

  ghost predicate IsRequired(u: Setup, n: Name) {
    n in u.criticality && u.criticality[n] == Required
  }

  /** A component's status after looking at its first `j` dependencies. */
  ghost function Judged(u: Setup, n: Name, j: nat): Status
    requires WellFormedSetup(u) && n in u.graph.nodes && j <= |Deps(u.graph, n)|
    decreases Rank(u.graph, n), j
  {
    if j == 0 then u.own[n]
    else
      var before := Judged(u, n, j - 1);
      var d := Deps(u.graph, n)[j - 1];
      assert Edge(u.graph, n, d);
      RankDecreases(u.graph, n, d);
      if u.criticality[d] == Required && IsOk(before) && !IsOk(Judged(u, d, |Deps(u.graph, d)|))
      then Status(Unhealthy, BrokenDependency(d))
      else before
  }

  /** A component's effective status. */
  ghost function Effective(u: Setup, n: Name): Status
    requires WellFormedSetup(u) && n in u.graph.nodes
  {
    Judged(u, n, |Deps(u.graph, n)|)
  }

  /** The memo is right as far as it goes. */
  ghost predicate MemoSound(u: Setup, memo: map<Name, Status>)
    requires WellFormedSetup(u)
  {
    forall n :: n in memo ==> n in u.graph.nodes && memo[n] == Effective(u, n)
  }

  /** The recursion with its memo, filled in place. */
  class Resolver {
    const setup: Setup
    var effective: map<Name, Status>

    constructor (setup: Setup)
      ensures this.setup == setup && effective == map[]
    {
      this.setup := setup;
      effective := map[];
    }

    method Resolve(name: Name) returns (status: Status)
      requires WellFormedSetup(setup) && name in setup.graph.nodes && MemoSound(setup, effective)
      modifies this
      ensures status == Effective(setup, name) && MemoSound(setup, effective)
      decreases Rank(setup.graph, name)
    {
      if name in effective {
        return effective[name];
      }
      status := setup.own[name];
      var deps := setup.graph.nodes[name].dependencies;
      var j := 0;
      while j < |deps|
        invariant 0 <= j <= |deps|
        invariant MemoSound(setup, effective) && status == Judged(setup, name, j)
      {
        var d := deps[j];
        assert Edge(setup.graph, name, d);
        RankDecreases(setup.graph, name, d);
        if setup.criticality[d] == Required && IsOk(status) {
          var of := Resolve(d);
          if !IsOk(of) {
            status := Status(Unhealthy, BrokenDependency(d));
          }
        }
        j := j + 1;
      }
      effective := effective[name := status];
    }
  }

  /** `aggregate_readiness`. Whatever the order in which the components are
      visited, the report is the same; and the system is ready exactly when every
      required component reports itself healthy. */
  method AggregateReadiness(u: Setup, names: seq<Name>) returns (ready: bool, components: map<Name, Status>)
    requires WellFormedSetup(u) && Lists(u.graph, names)
    ensures components.Keys == u.graph.nodes.Keys
    ensures forall n :: n in components ==> components[n] == Effective(u, n)
    ensures forall n :: n in components ==> ReportedRightly(u, components, n)
    ensures ready <==> forall n :: IsRequired(u, n) ==> u.own[n].state == Ok
  {
    var resolver := new Resolver(u);
    components := map[];
    var i := 0;
    while i < |names|
      invariant 0 <= i <= |names|
      invariant resolver.setup == u && MemoSound(u, resolver.effective)
      invariant MemoSound(u, components)
      invariant forall k :: 0 <= k < i ==> Reported(components, names[k])
    {
      var n := names[i];
      assert n in names;
      var status := resolver.Resolve(n);
      components := components[n := status];
      i := i + 1;
    }
    forall n | n in u.graph.nodes ensures n in components {
      assert n in names;
      var k :| 0 <= k < |names| && names[k] == n;
      assert Reported(components, names[k]);
    }
    assert forall n :: n in components.Keys <==> n in u.graph.nodes.Keys;
    assert components.Keys == u.graph.nodes.Keys;
    ready := true;
    i := 0;
    while i < |names|
      invariant 0 <= i <= |names|
      invariant ready <==> forall k :: 0 <= k < i ==> Passes(u, components, names[k])
    {
      var n := names[i];
      assert n in names && Reported(components, n);
      if u.criticality[n] == Required && !IsOk(components[n]) {
        ready := false;
      }
      i := i + 1;
    }
    VerdictFromReports(u, names, components);
    forall n | n in components ensures ReportedRightly(u, components, n) {
      ReportIsRight(u, components, n);
    }
  }

  /** The whole report of a component, from its own status and the reports of
      its dependencies: its own status, unless that is healthy and some required
      dependency is not, in which case the first such dependency is blamed. */
  ghost predicate ReportedRightly(u: Setup, components: map<Name, Status>, n: Name)
    requires n in components && n in u.own
  {
    var deps := Deps(u.graph, n);
    if u.own[n].state == Ok && exists k :: Breaks(u, components, deps, k)
    then exists k :: FirstToBreak(u, components, deps, k)
                     && components[n] == Status(Unhealthy, BrokenDependency(deps[k]))
    else components[n] == u.own[n]
  }

  ghost predicate Breaks(u: Setup, components: map<Name, Status>, deps: seq<Name>, k: int) {
    0 <= k < |deps| && IsRequired(u, deps[k]) && deps[k] in components && components[deps[k]].state != Ok
  }

  ghost predicate FirstToBreak(u: Setup, components: map<Name, Status>, deps: seq<Name>, k: int) {
    Breaks(u, components, deps, k) && forall j :: 0 <= j < k ==> !Breaks(u, components, deps, j)
  }

  lemma ReportIsRight(u: Setup, components: map<Name, Status>, n: Name)
    requires WellFormedSetup(u) && components.Keys == u.graph.nodes.Keys && MemoSound(u, components) && n in components
    ensures ReportedRightly(u, components, n)
  {
    var deps := Deps(u.graph, n);
    if !IsOk(u.own[n]) {
      OwnFaultStays(u, n, |deps|);
    } else if exists k :: Breaks(u, components, deps, k) {
      var from :| Breaks(u, components, deps, from);
      var k := FirstFrom(u, components, deps, from);
      assert forall d :: d in deps ==> Edge(u.graph, n, d);
      assert deps[k] in deps;
      forall d | d in deps[..k] && IsRequired(u, d) ensures d in u.graph.nodes && IsOk(Effective(u, d)) {
        var j :| 0 <= j < k && deps[j] == d;
        assert !Breaks(u, components, deps, j);
        assert Edge(u.graph, n, d);
      }
      BlamesTheFirst(u, n, k, |deps|);
    } else {
      SoundStays(u, components, n, |deps|);
    }
  }

  lemma {:induction false} OwnFaultStays(u: Setup, n: Name, j: nat)
    requires WellFormedSetup(u) && n in u.graph.nodes && j <= |Deps(u.graph, n)| && !IsOk(u.own[n])
    ensures Judged(u, n, j) == u.own[n]
  {
    if j > 0 {
      OwnFaultStays(u, n, j - 1);
    }
  }

  lemma {:induction false} SoundStays(u: Setup, components: map<Name, Status>, n: Name, j: nat)
    requires WellFormedSetup(u) && components.Keys == u.graph.nodes.Keys && MemoSound(u, components)
    requires n in u.graph.nodes && j <= |Deps(u.graph, n)|
    requires forall k :: !Breaks(u, components, Deps(u.graph, n), k)
    ensures Judged(u, n, j) == u.own[n]
  {
    if j > 0 {
      SoundStays(u, components, n, j - 1);
      var d := Deps(u.graph, n)[j - 1];
      assert Edge(u.graph, n, d);
      assert !Breaks(u, components, Deps(u.graph, n), j - 1);
    }
  }

  lemma {:induction false} FirstFrom(u: Setup, components: map<Name, Status>, deps: seq<Name>, from: int)
    returns (k: int)
    requires Breaks(u, components, deps, from)
    ensures FirstToBreak(u, components, deps, k)
    decreases from
  {
    if j :| 0 <= j < from && Breaks(u, components, deps, j) {
      k := FirstFrom(u, components, deps, j);
    } else {
      k := from;
    }
  }

  ghost predicate Reported(components: map<Name, Status>, n: Name) {
    n in components
  }

  ghost predicate Passes(u: Setup, components: map<Name, Status>, n: Name) {
    n in components && (IsRequired(u, n) ==> IsOk(components[n]))
  }

  lemma VerdictFromReports(u: Setup, names: seq<Name>, components: map<Name, Status>)
    requires WellFormedSetup(u) && Lists(u.graph, names)
    requires components.Keys == u.graph.nodes.Keys && MemoSound(u, components)
    ensures (forall k :: 0 <= k < |names| ==> Passes(u, components, names[k]))
      <==> forall n :: IsRequired(u, n) ==> IsOk(u.own[n])
  {
    RequiredAllOkIff(u);
    if forall k :: 0 <= k < |names| ==> Passes(u, components, names[k]) {
      forall n | IsRequired(u, n) ensures IsOk(Effective(u, n)) {
        assert n in names;
        var k :| 0 <= k < |names| && names[k] == n;
        assert Passes(u, components, names[k]);
      }
    } else {
      var k :| 0 <= k < |names| && !Passes(u, components, names[k]);
      var n := names[k];
      assert n in names;
      assert IsRequired(u, n) && !IsOk(Effective(u, n));
    }
  }

  // --------------------------------------------------------------- meaning

  /** A walk from a component through required dependencies only. */
  ghost predicate RequiredWalk(u: Setup, p: seq<Name>) {
    Walk(u.graph, p) && forall i :: 1 <= i < |p| ==> IsRequired(u, p[i])
  }

  lemma {:induction false} JudgedOkIff(u: Setup, n: Name, j: nat)
    requires WellFormedSetup(u) && n in u.graph.nodes && j <= |Deps(u.graph, n)|
    ensures IsOk(Judged(u, n, j)) <==>
      IsOk(u.own[n])
      && forall d :: d in Deps(u.graph, n)[..j] && IsRequired(u, d) ==> d in u.graph.nodes && IsOk(Effective(u, d))
  {
    if j > 0 {
      JudgedOkIff(u, n, j - 1);
      var deps := Deps(u.graph, n);
      var d := deps[j - 1];
      assert Edge(u.graph, n, d);
      assert deps[..j] == deps[..j - 1] + [d];
    }
  }

  lemma ConsWalk(u: Setup, n: Name, q: seq<Name>)
    requires WellFormedSetup(u) && n in u.graph.nodes && RequiredWalk(u, q)
    requires Edge(u.graph, n, q[0]) && IsRequired(u, q[0])
    ensures RequiredWalk(u, [n] + q)
  {
  }

  /** A component is effectively healthy exactly when it and everything it can
      reach through required dependencies report themselves healthy. */
  lemma {:induction false} EffectiveOkIff(u: Setup, n: Name)
    requires WellFormedSetup(u) && n in u.graph.nodes
    ensures IsOk(Effective(u, n)) <==> forall p :: RequiredWalk(u, p) && p[0] == n ==> IsOk(u.own[p[|p| - 1]])
    decreases Rank(u.graph, n)
  {
    var deps := Deps(u.graph, n);
    JudgedOkIff(u, n, |deps|);
    assert deps[..|deps|] == deps;
    forall d | Edge(u.graph, n, d)
      ensures d in u.graph.nodes
      ensures IsOk(Effective(u, d)) <==> forall p :: RequiredWalk(u, p) && p[0] == d ==> IsOk(u.own[p[|p| - 1]])
    {
      RankDecreases(u.graph, n, d);
      EffectiveOkIff(u, d);
    }
    if IsOk(Effective(u, n)) {
      forall p | RequiredWalk(u, p) && p[0] == n ensures IsOk(u.own[p[|p| - 1]]) {
        if |p| >= 2 {
          TailWalk(u.graph, p);
          var d, q := p[1], p[1..];
          assert d in deps && IsRequired(u, d);
          assert RequiredWalk(u, q) && q[0] == d && q[|q| - 1] == p[|p| - 1];
        }
      }
    } else {
      var p := BrokenReach(u, n);
    }
  }

  /** The converse, with the walk that ends at the unhealthy component. */
  lemma {:induction false} BrokenReach(u: Setup, n: Name) returns (p: seq<Name>)
    requires WellFormedSetup(u) && n in u.graph.nodes && !IsOk(Effective(u, n))
    ensures RequiredWalk(u, p) && p[0] == n && !IsOk(u.own[p[|p| - 1]])
    decreases Rank(u.graph, n)
  {
    var deps := Deps(u.graph, n);
    JudgedOkIff(u, n, |deps|);
    assert deps[..|deps|] == deps;
    if !IsOk(u.own[n]) {
      p := [n];
    } else {
      var d :| d in deps && IsRequired(u, d) && !(d in u.graph.nodes && IsOk(Effective(u, d)));
      assert Edge(u.graph, n, d);
      RankDecreases(u.graph, n, d);
      var q := BrokenReach(u, d);
      ConsWalk(u, n, q);
      p := [n] + q;
    }
  }

  lemma EffectiveOkMeansOwnOk(u: Setup, n: Name)
    requires WellFormedSetup(u) && n in u.graph.nodes && IsOk(Effective(u, n))
    ensures IsOk(u.own[n])
  {
    JudgedOkIff(u, n, |Deps(u.graph, n)|);
  }

  /** Every required component is effectively healthy exactly when every
      required component reports itself healthy. */
  lemma RequiredAllOkIff(u: Setup)
    requires WellFormedSetup(u)
    ensures (forall n :: IsRequired(u, n) ==> IsOk(Effective(u, n)))
       <==> (forall n :: IsRequired(u, n) ==> IsOk(u.own[n]))
  {
    forall n | IsRequired(u, n) && IsOk(Effective(u, n)) ensures IsOk(u.own[n]) {
      EffectiveOkMeansOwnOk(u, n);
    }
    if forall n :: IsRequired(u, n) ==> IsOk(u.own[n]) {
      forall n | IsRequired(u, n) ensures IsOk(Effective(u, n)) {
        if !IsOk(Effective(u, n)) {
          var p := BrokenReach(u, n);
          assert false;
        }
      }
    }
  }

  /** What the report says of a healthy component that is pulled down: it names
      the first listed required dependency that is not effectively healthy. */
  lemma {:induction false} BlamesTheFirst(u: Setup, n: Name, k: nat, j: nat)
    requires WellFormedSetup(u) && n in u.graph.nodes && k < j <= |Deps(u.graph, n)|
    requires IsOk(u.own[n])
    requires var d := Deps(u.graph, n)[k]; IsRequired(u, d) && !IsOk(Effective(u, d))
    requires forall d :: d in Deps(u.graph, n)[..k] && IsRequired(u, d) ==> d in u.graph.nodes && IsOk(Effective(u, d))
    ensures Judged(u, n, j) == Status(Unhealthy, BrokenDependency(Deps(u.graph, n)[k]))
  {
    if j == k + 1 {
      JudgedOkIff(u, n, k);
    } else {
      BlamesTheFirst(u, n, k, j - 1);
    }
  }
}
