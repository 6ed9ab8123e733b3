/** Starting and stopping the process components of a container.

    The components of a layer start in parallel: `Step` is one event of any of
    them, so a sequence of steps is any interleaving. Starts may be repeated
    after a stop or a failed start. */
module Lifecycle {
  import opened DependencyGraph
  import opened Sequences
  import opened StartupOrder

  /** A validated graph with its startup layers, its shutdown order, the
      components the system cannot run without, and those with a method whose
      call chain cannot be built: its policy overrides a setting with a value
      that the link's settings reject. */
  datatype Setup = Setup(graph: Graph, layers: Layers, shutdown: seq<Name>, required: set<Name>, unwirable: set<Name>)

  ghost predicate ValidSetup(u: Setup) {
    && Accepted(u.graph)
    && Layered(u.graph, u.layers) && Emitted(u.layers, |u.layers|) == u.graph.nodes.Keys
    && Lists(u.graph, u.shutdown)
    && forall p :: Walk(u.graph, p) && |p| >= 2 ==> Before(u.shutdown, p[0], p[|p| - 1])
  }

  /** What the graph's own code computes is such a setup. */
  method Prepare(g: Graph, required: set<Name>, unwirable: set<Name>) returns (u: Setup)
    requires Accepted(g)
    ensures ValidSetup(u) && u.graph == g && u.required == required && u.unwirable == unwirable
  {
    var layers := StartupLayers(g);
    var shutdown := ShutdownOrder(g);
    u := Setup(g, layers, shutdown, required, unwirable);
  }

  ghost predicate IsProcess(u: Setup, n: Name) {
    n in u.graph.nodes && u.graph.nodes[n].lifetime == Process
  }

  // ---------------------------------------------------------------- mutable

  /** The stopping loop: the running components among `order`, in that order. */
  function Among(order: seq<Name>, running: set<Name>): (r: seq<Name>) {
    if order == [] then []
    else Among(order[..|order| - 1], running) + if order[|order| - 1] in running then [order[|order| - 1]] else []
  }

  /** How starting one component ended. */
  datatype StartOutcome = StartedUp | Failed

  /** The container's tables of process components, updated in place. */
  class ProcessTable {
    var process: set<Name>
    var degraded: set<Name>
    var stopped: seq<Name>

    constructor ()
      ensures process == {} && degraded == {} && stopped == []
    {
      process, degraded, stopped := {}, {}, [];
    }

    /** The end of `_start_process`; the result says whether the start of the
        whole container fails. */
    method StartProcess(name: Name, required: bool, outcome: StartOutcome) returns (fatal: bool)
      modifies this`process, this`degraded
      ensures fatal <==> outcome == Failed && required
      ensures process == old(process) + if outcome == StartedUp then {name} else {}
      ensures degraded == old(degraded) + if outcome == Failed && !required then {name} else {}
    {
      fatal := false;
      if outcome == Failed {
        if required {
          return true;
        }
        degraded := degraded + {name};
        return;
      }
      process := process + {name};
    }

    /** `_stop_process_instances`: every running component is stopped once, in
        shutdown order, and none is left. */
    method StopProcessInstances(ghost u: Setup, order: seq<Name>)
      requires ValidSetup(u) && order == u.shutdown && process <= u.graph.nodes.Keys
      modifies this`process, this`stopped
      ensures process == {}
      ensures stopped == old(stopped) + Among(order, old(process))
    {
      var k := 0;
      while k < |order|
        invariant StoppedTo(order, k, old(process), old(stopped), process, stopped)
      {
        var n := order[k];
        StopTurn(order, k, old(process), old(stopped), process, stopped);
        if n in process {
          process := process - {n};
          stopped := stopped + [n];
        }
        k := k + 1;
      }
      assert forall n :: n in process ==> n in u.graph.nodes.Keys && n in order;
      StoppedAll(order, old(process), old(stopped), process, stopped);
    }
  }

  /** The loop after its first `k` components: those of them that were running
      are stopped, in that order. */
  ghost predicate StoppedTo(order: seq<Name>, k: nat, was: set<Name>, log: seq<Name>, process: set<Name>,
                            stopped: seq<Name>)
  {
    k <= |order| && process == was - Members(order[..k]) && stopped == log + Among(order[..k], was)
  }

  lemma StopTurn(order: seq<Name>, k: nat, was: set<Name>, log: seq<Name>, process: set<Name>, stopped: seq<Name>)
    requires Distinct(order) && k < |order| && StoppedTo(order, k, was, log, process, stopped)
    ensures if order[k] in process then StoppedTo(order, k + 1, was, log, process - {order[k]}, stopped + [order[k]])
            else StoppedTo(order, k + 1, was, log, process, stopped)
  {
    OneMore(order, k);
  }

  lemma StoppedAll(order: seq<Name>, was: set<Name>, log: seq<Name>, process: set<Name>, stopped: seq<Name>)
    requires StoppedTo(order, |order|, was, log, process, stopped) && forall n :: n in process ==> n in order
    ensures process == {} && stopped == log + Among(order, was)
  {
    assert order[..|order|] == order;
    assert forall n: Name :: n in process ==> n in Members(order);
  }

  lemma OneMore(order: seq<Name>, k: nat)
    requires Distinct(order) && k < |order|
    ensures order[k] !in Members(order[..k]) && Members(order[..k + 1]) == Members(order[..k]) + {order[k]}
    ensures order[..k + 1] != [] && order[..k + 1][k] == order[k] && order[..k + 1][..k] == order[..k]
  {
  }

  /** What that order means: exactly the running components, each once, and
      every one before anything it depends on. */
  lemma {:induction false} AmongMembers(order: seq<Name>, running: set<Name>)
    requires Distinct(order)
    ensures Distinct(Among(order, running))
    ensures forall n :: n in Among(order, running) <==> n in order && n in running
  {
    if order != [] {
      var rest, last := order[..|order| - 1], order[|order| - 1];
      AmongMembers(rest, running);
      assert order == rest + [last] && last !in rest;
    }
  }

  lemma {:induction false} AmongKeepsOrder(order: seq<Name>, running: set<Name>, a: Name, b: Name)
    requires Distinct(order) && Before(order, a, b) && a in running && b in running
    ensures Before(Among(order, running), a, b)
  {
    var i, j :| 0 <= i < j < |order| && order[i] == a && order[j] == b;
    var rest, last := order[..|order| - 1], order[|order| - 1];
    var kept := Among(rest, running);
    assert order == rest + [last];
    AmongMembers(rest, running);
    if j == |order| - 1 {
      assert rest[i] == a && a in rest && a in kept;
      var k :| 0 <= k < |kept| && kept[k] == a;
      assert (kept + [b])[k] == a && (kept + [b])[|kept|] == b;
    } else {
      assert rest[i] == a && rest[j] == b;
      AmongKeepsOrder(rest, running, a, b);
      var x, y :| 0 <= x < y < |kept| && kept[x] == a && kept[y] == b;
      assert Among(order, running)[x] == a && Among(order, running)[y] == b;
    }
  }

  lemma StopOrderMeans(u: Setup, running: set<Name>, p: seq<Name>)
    requires ValidSetup(u) && running <= u.graph.nodes.Keys
    ensures var stops := Among(u.shutdown, running);
      && Distinct(stops) && (forall n :: n in stops <==> n in running)
      && (Walk(u.graph, p) && |p| >= 2 && p[0] in running && p[|p| - 1] in running ==>
            Before(stops, p[0], p[|p| - 1]))
  {
    AmongMembers(u.shutdown, running);
    assert forall n :: n in running ==> n in u.graph.nodes.Keys && n in u.shutdown;
    if Walk(u.graph, p) && |p| >= 2 && p[0] in running && p[|p| - 1] in running {
      AmongKeepsOrder(u.shutdown, running, p[0], p[|p| - 1]);
    }
  }

  // ----------------------------------------------------------- interleaving

  datatype Phase =
    | Down
    | Starting(layer: nat)
    | Failing(layer: nat)
    | RollingBack(at: nat)
    | Up
    | Draining
    | Stopping(at: nat)

  /** `busy` are the components whose start is under way, `ended` those of the
      current layer whose start has ended without failing the layer. `starts`,
      `stops`, `cuts` and `leaked` record completed starts, completed stops,
      stops that were cut short, and running instances that were overwritten by
      a later start. */
  datatype System = System(
    phase: Phase,
    process: set<Name>,
    degraded: set<Name>,
    busy: set<Name>,
    ended: set<Name>,
    starts: multiset<Name>,
    stops: multiset<Name>,
    cuts: multiset<Name>,
    leaked: multiset<Name>)

  /** `Interrupted` is a cancellation of the starting caller during a layer.
      `StopCut` is a stop that raises, or is cancelled with the caller, and ends
      the loop it is in; `DrainCut` and `CloseCut` are the same cancellation
      before and after the stopping loop of `stop`. */
  datatype Event =
    | Start
    | Launch(name: Name)
    | Completed(name: Name)
    | OptionalFailed(name: Name)
    | RequiredFailed(name: Name)
    | Interrupted
    | Cancelled(name: Name)
    | LayerDone
    | WiringDone
    | WiringFailed
    | LayerUnwound
    | StopNext
    | StopCut
    | Stop
    | Drained
    | DrainCut
    | AllStopped
    | CloseCut

  ghost predicate Init(s: System) {
    s == System(Down, {}, {}, {}, {}, multiset{}, multiset{}, multiset{}, multiset{})
  }

  ghost predicate InLayer(u: Setup, s: System, n: Name) {
    && (s.phase.Starting? || s.phase.Failing?) && s.phase.layer < |u.layers|
    && n in u.layers[s.phase.layer] && IsProcess(u, n)
  }

  ghost function AfterCompleted(s: System, n: Name): System {
    s.(process := s.process + {n}, busy := s.busy - {n}, ended := s.ended + {n}, starts := s.starts + multiset{n},
       leaked := if n in s.process then s.leaked + multiset{n} else s.leaked)
  }

  ghost predicate InLoop(u: Setup, s: System) {
    (s.phase.RollingBack? || s.phase.Stopping?) && s.phase.at < |u.shutdown|
  }

  /** One turn of the stopping loop; the component is taken out of the table
      before its stop is called. */
  ghost function AfterStopNext(u: Setup, s: System): System
    requires InLoop(u, s)
  {
    var n := u.shutdown[s.phase.at];
    var moved := s.(phase := if s.phase.RollingBack? then RollingBack(s.phase.at + 1) else Stopping(s.phase.at + 1));
    if n in s.process then moved.(process := s.process - {n}, stops := s.stops + multiset{n}) else moved
  }

  /** The turn at which the loop is cut: a failed start is over with what still
      runs, a container that was being stopped counts as started. */
  ghost function AfterStopCut(u: Setup, s: System): System
    requires InLoop(u, s)
  {
    var n := u.shutdown[s.phase.at];
    s.(phase := if s.phase.RollingBack? then Down else Up, process := s.process - {n}, cuts := s.cuts + multiset{n})
  }

  ghost predicate Step(u: Setup, s: System, e: Event, s': System) {
    match e
    case Start => s.phase == Down && s' == s.(phase := Starting(0), ended := {})
    case Launch(n) => InLayer(u, s, n) && n !in s.busy + s.ended && s' == s.(busy := s.busy + {n})
    case Completed(n) => n in s.busy && s' == AfterCompleted(s, n)
    case OptionalFailed(n) =>
      && n in s.busy && n !in u.required
      && s' == s.(degraded := s.degraded + {n}, busy := s.busy - {n}, ended := s.ended + {n})
    case RequiredFailed(n) =>
      && n in s.busy && n in u.required && (s.phase.Starting? || s.phase.Failing?)
      && s' == s.(phase := Failing(s.phase.layer), busy := s.busy - {n})
    case Interrupted =>
      s.phase.Starting? && s.phase.layer < |u.layers| && s' == s.(phase := Failing(s.phase.layer))
    case Cancelled(n) => s.phase.Failing? && n in s.busy && s' == s.(busy := s.busy - {n})
    case LayerDone =>
      && s.phase.Starting? && s.phase.layer < |u.layers| && s.busy == {}
      && (forall n :: InLayer(u, s, n) ==> n in s.ended)
      && s' == s.(phase := Starting(s.phase.layer + 1), ended := {})
    case WiringDone =>
      s.phase == Starting(|u.layers|) && s.busy == {} && s.process !! u.unwirable && s' == s.(phase := Up)
    case WiringFailed =>
      s.phase == Starting(|u.layers|) && s.busy == {} && !(s.process !! u.unwirable) && s' == s.(phase := Down)
    case LayerUnwound => s.phase.Failing? && s.busy == {} && s' == s.(phase := RollingBack(0))
    case StopNext => InLoop(u, s) && s' == AfterStopNext(u, s)
    case StopCut => InLoop(u, s) && u.shutdown[s.phase.at] in s.process && s' == AfterStopCut(u, s)
    case Stop => s.phase == Up && s' == s.(phase := Draining)
    case Drained => s.phase == Draining && s' == s.(phase := Stopping(0))
    case DrainCut => s.phase == Draining && s' == s.(phase := Up)
    case AllStopped =>
      (s.phase.RollingBack? || s.phase.Stopping?) && s.phase.at == |u.shutdown| && s' == s.(phase := Down)
    case CloseCut => s.phase == Stopping(|u.shutdown|) && s' == s.(phase := Up)
  }

  // -------------------------------------------------------------- invariant

  ghost predicate UpOrDegraded(s: System, n: Name) {
    n in s.process || n in s.degraded
  }

  /** Whatever runs is a process component, and each of its dependencies runs or
      is degraded. */
  ghost predicate SupportedByDependencies(u: Setup, s: System) {
    forall n :: n in s.process ==> IsProcess(u, n) && forall d :: Edge(u.graph, n, d) ==> UpOrDegraded(s, d)
  }

  /** The layers before the current one are complete. */
  ghost predicate EarlierLayersUp(u: Setup, s: System) {
    s.phase.Starting? || s.phase.Failing? ==>
      && s.phase.layer <= |u.layers|
      && (forall n :: n in Emitted(u.layers, s.phase.layer) && IsProcess(u, n) ==> UpOrDegraded(s, n))
      && (forall n :: n in s.ended ==> UpOrDegraded(s, n))
  }

  ghost predicate BusyInLayer(u: Setup, s: System) {
    if s.phase.Starting? || s.phase.Failing? then forall n :: n in s.busy ==> InLayer(u, s, n)
    else s.busy == {}
  }

  /** While stopping, nothing before the loop's position still runs. */
  ghost predicate StoppedSoFar(u: Setup, s: System) {
    s.phase.RollingBack? || s.phase.Stopping? ==>
      s.phase.at <= |u.shutdown| && forall k :: 0 <= k < s.phase.at ==> u.shutdown[k] !in s.process
  }

  /** Every completed start is accounted for: stopped, cut short in its stop,
      overwritten while running, or still running. */
  ghost predicate StartsBalance(s: System) {
    forall n :: s.starts[n] == s.stops[n] + s.cuts[n] + s.leaked[n] + if n in s.process then 1 else 0
  }

  ghost predicate Inv(u: Setup, s: System) {
    && SupportedByDependencies(u, s)
    && EarlierLayersUp(u, s)
    && BusyInLayer(u, s)
    && StoppedSoFar(u, s)
    && StartsBalance(s)
  }

  /** A process component's dependencies are process components of earlier
      layers. */
  lemma DependenciesEarlier(u: Setup, i: nat, n: Name, d: Name)
    requires ValidSetup(u) && i < |u.layers| && n in u.layers[i] && IsProcess(u, n) && Edge(u.graph, n, d)
    ensures d in Emitted(u.layers, i) && IsProcess(u, d)
  {
    assert LayerSound(u.graph, u.layers, i);
    EmittedClosed(u.graph, u.layers, i);
    assert d in u.graph.nodes.Keys;
    assert !Leaks(u.graph, n, d);
  }

  lemma CompletedKeepsInv(u: Setup, s: System, n: Name)
    requires ValidSetup(u) && Inv(u, s) && n in s.busy
    ensures Inv(u, AfterCompleted(s, n))
  {
    var s' := AfterCompleted(s, n);
    assert InLayer(u, s, n);
    forall m | m in s'.process
      ensures IsProcess(u, m) && forall d :: Edge(u.graph, m, d) ==> UpOrDegraded(s', d)
    {
      forall d | Edge(u.graph, m, d) ensures UpOrDegraded(s', d) {
        if m == n {
          DependenciesEarlier(u, s.phase.layer, n, d);
        }
        assert UpOrDegraded(s, d);
      }
    }
    assert forall m :: UpOrDegraded(s, m) ==> UpOrDegraded(s', m);
  }

  /** When the loop reaches a component, everything that runs and can reach it
      along dependencies has been stopped. */
  lemma DependentsStopped(u: Setup, s: System, m: Name, p: seq<Name>)
    requires ValidSetup(u) && Inv(u, s) && InLoop(u, s)
    requires Walk(u.graph, p) && |p| >= 2 && p[0] == m && p[|p| - 1] == u.shutdown[s.phase.at]
    ensures m !in s.process
  {
    var at := s.phase.at;
    assert Before(u.shutdown, m, u.shutdown[at]);
    var i, j :| 0 <= i < j < |u.shutdown| && u.shutdown[i] == m && u.shutdown[j] == u.shutdown[at];
    assert j == at;
  }

  lemma EdgeIsWalk(g: Graph, n: Name, d: Name)
    requires n in g.nodes && d in g.nodes && Edge(g, n, d)
    ensures Walk(g, [n, d])
  {
  }

  /** Taking out the component that the loop has reached. */
  lemma TakenOutKeepsSupport(u: Setup, s: System, s': System)
    requires ValidSetup(u) && Inv(u, s) && InLoop(u, s)
    requires s'.process == s.process - {u.shutdown[s.phase.at]} && s'.degraded == s.degraded
    ensures SupportedByDependencies(u, s')
  {
    forall m, d | m in s'.process && Edge(u.graph, m, d) ensures UpOrDegraded(s', d) {
      assert UpOrDegraded(s, d);
      if d == u.shutdown[s.phase.at] {
        EdgeIsWalk(u.graph, m, d);
        DependentsStopped(u, s, m, [m, d]);
      }
    }
  }

  lemma StopNextKeepsInv(u: Setup, s: System)
    requires ValidSetup(u) && Inv(u, s) && InLoop(u, s)
    ensures Inv(u, AfterStopNext(u, s))
  {
    TakenOutKeepsSupport(u, s, AfterStopNext(u, s));
    StopNextKeepsCounts(u, s);
  }

  lemma StopNextKeepsCounts(u: Setup, s: System)
    requires Inv(u, s) && InLoop(u, s)
    ensures StoppedSoFar(u, AfterStopNext(u, s)) && StartsBalance(AfterStopNext(u, s))
  {
  }

  lemma StopCutKeepsInv(u: Setup, s: System)
    requires ValidSetup(u) && Inv(u, s) && InLoop(u, s) && u.shutdown[s.phase.at] in s.process
    ensures Inv(u, AfterStopCut(u, s))
  {
    TakenOutKeepsSupport(u, s, AfterStopCut(u, s));
    assert StartsBalance(AfterStopCut(u, s));
  }

  lemma LayerDoneKeepsInv(u: Setup, s: System, s': System)
    requires ValidSetup(u) && Inv(u, s) && Step(u, s, LayerDone, s')
    ensures Inv(u, s')
  {
    var i := s.phase.layer;
    forall n | n in Emitted(u.layers, i + 1) && IsProcess(u, n) ensures UpOrDegraded(s', n) {
      if n in u.layers[i] {
        assert InLayer(u, s, n);
      }
      assert UpOrDegraded(s, n);
    }
    assert forall n :: n in s'.process ==> n in s.process;
    assert forall n :: UpOrDegraded(s, n) ==> UpOrDegraded(s', n);
  }

  lemma OptionalFailedKeepsInv(u: Setup, s: System, n: Name, s': System)
    requires ValidSetup(u) && Inv(u, s) && Step(u, s, OptionalFailed(n), s')
    ensures Inv(u, s')
  {
  }

  lemma QuietStepKeepsInv(u: Setup, s: System, e: Event, s': System)
    requires ValidSetup(u) && Inv(u, s) && Step(u, s, e, s')
    requires !e.Completed? && !e.OptionalFailed? && !e.LayerDone? && !e.StopNext? && !e.StopCut?
    ensures Inv(u, s')
  {
    assert s'.process == s.process && s'.degraded == s.degraded;
    assert forall m :: UpOrDegraded(s, m) <==> UpOrDegraded(s', m);
    assert s'.phase.Starting? && s.phase == Down ==> Emitted(u.layers, 0) == {};
    assert forall m :: ((s.phase.Starting? || s.phase.Failing?) && (s'.phase.Starting? || s'.phase.Failing?)
                        && InLayer(u, s, m)) ==> InLayer(u, s', m);
  }

  /** Every event keeps the invariant. */
  lemma StepKeepsInv(u: Setup, s: System, e: Event, s': System)
    requires ValidSetup(u) && Inv(u, s) && Step(u, s, e, s')
    ensures Inv(u, s')
  {
    match e
    case Completed(n) => CompletedKeepsInv(u, s, n);
    case OptionalFailed(n) => OptionalFailedKeepsInv(u, s, n, s');
    case LayerDone => LayerDoneKeepsInv(u, s, s');
    case StopNext => StopNextKeepsInv(u, s);
    case StopCut => StopCutKeepsInv(u, s);
    case _ => QuietStepKeepsInv(u, s, e, s');
  }

  // ---------------------------------------------------------------- theorems

  ghost predicate Run(u: Setup, states: seq<System>, events: seq<Event>) {
    && ValidSetup(u)
    && |states| == |events| + 1
    && Init(states[0])
    && forall n :: 0 <= n < |events| ==> Step(u, states[n], events[n], states[n + 1])
  }

  lemma {:induction false} RunKeepsInv(u: Setup, states: seq<System>, events: seq<Event>, n: nat)
    requires Run(u, states, events) && n < |states|
    ensures Inv(u, states[n])
  {
    if n == 0 {
      InitSound(u, states[0]);
    } else {
      RunKeepsInv(u, states, events, n - 1);
      StepKeepsInv(u, states[n - 1], events[n - 1], states[n]);
    }
  }

  lemma InitSound(u: Setup, s: System)
    requires Init(s)
    ensures Inv(u, s) && Clean(u, s)
  {
  }

  /** Whenever a process component runs, each of its dependencies runs or is
      degraded: while starting, failing, up, draining and stopping. */
  lemma RunsOnItsDependencies(u: Setup, states: seq<System>, events: seq<Event>, n: nat, c: Name, d: Name)
    requires Run(u, states, events) && n < |states| && c in states[n].process && Edge(u.graph, c, d)
    ensures d in states[n].process || d in states[n].degraded
  {
    RunKeepsInv(u, states, events, n);
    assert UpOrDegraded(states[n], d);
  }

  /** A component is only launched when all its dependencies run or are
      degraded. */
  lemma LaunchedAfterDependencies(u: Setup, states: seq<System>, events: seq<Event>, n: nat, d: Name)
    requires Run(u, states, events) && n < |events| && events[n].Launch? && Edge(u.graph, events[n].name, d)
    ensures d in states[n].process || d in states[n].degraded
  {
    RunKeepsInv(u, states, events, n);
    assert Step(u, states[n], events[n], states[n + 1]);
    DependenciesEarlier(u, states[n].phase.layer, events[n].name, d);
    assert UpOrDegraded(states[n], d);
  }

  /** A component's stop is called, and completed or cut, only when nothing that
      runs can reach it along dependencies. */
  lemma StoppedAfterDependents(u: Setup, states: seq<System>, events: seq<Event>, n: nat, c: Name, p: seq<Name>)
    requires Run(u, states, events) && n < |events|
    requires states[n + 1].stops[c] + states[n + 1].cuts[c] > states[n].stops[c] + states[n].cuts[c]
    requires Walk(u.graph, p) && |p| >= 2 && p[|p| - 1] == c
    ensures p[0] !in states[n].process
  {
    RunKeepsInv(u, states, events, n);
    StopIsNext(u, states[n], events[n], states[n + 1], c);
    DependentsStopped(u, states[n], p[0], p);
  }

  lemma StopIsNext(u: Setup, s: System, e: Event, s': System, c: Name)
    requires Step(u, s, e, s') && s'.stops[c] + s'.cuts[c] > s.stops[c] + s.cuts[c]
    ensures InLoop(u, s) && c == u.shutdown[s.phase.at]
  {
  }

  /** Only an optional component whose start failed is degraded. */
  lemma {:induction false} DegradedMeans(u: Setup, states: seq<System>, events: seq<Event>, n: nat, c: Name)
    requires Run(u, states, events) && n < |states|
    ensures c in states[n].degraded <==> exists m :: 0 <= m < n && events[m] == OptionalFailed(c)
    ensures c in states[n].degraded ==> c !in u.required
  {
    if n > 0 {
      DegradedMeans(u, states, events, n - 1, c);
      assert Step(u, states[n - 1], events[n - 1], states[n]);
    }
  }

  /** A container that comes up has every required component running, and every
      other one running or degraded. */
  lemma UpMeans(u: Setup, states: seq<System>, events: seq<Event>, n: nat, c: Name)
    requires Run(u, states, events) && n < |events| && events[n] == WiringDone && IsProcess(u, c)
    ensures c in states[n + 1].process || c in states[n + 1].degraded
    ensures c in u.required ==> c in states[n + 1].process
    ensures c in states[n + 1].process ==> c !in u.unwirable
  {
    RunKeepsInv(u, states, events, n);
    assert Step(u, states[n], events[n], states[n + 1]);
    DegradedMeans(u, states, events, n, c);
    assert c in Emitted(u.layers, |u.layers|);
    assert UpOrDegraded(states[n], c);
  }

  /** A start that failed never comes up: it goes down, and stays down until the
      next start. */
  lemma {:induction false} FailedStartGoesDown(u: Setup, states: seq<System>, events: seq<Event>, m: nat, n: nat)
    requires Run(u, states, events) && m < n < |states| && (events[m].RequiredFailed? || events[m] == Interrupted)
    requires forall k :: m < k < n ==> events[k] != Start
    ensures states[n].phase.Failing? || states[n].phase.RollingBack? || states[n].phase == Down
  {
    assert Step(u, states[n - 1], events[n - 1], states[n]);
    if n > m + 1 {
      FailedStartGoesDown(u, states, events, m, n - 1);
    }
  }

  /** In every state each completed start of a component was stopped, was cut
      short in its stop, was overwritten by a later start, or still runs. */
  lemma EveryStartAccountedFor(u: Setup, states: seq<System>, events: seq<Event>, n: nat, c: Name)
    requires Run(u, states, events) && n < |states|
    ensures var s := states[n];
      s.starts[c] == s.stops[c] + s.cuts[c] + s.leaked[c] + if c in s.process then 1 else 0
  {
    RunKeepsInv(u, states, events, n);
  }

  /** The two ways in which a container goes down and leaves components running:
      its chains cannot all be built, or its rollback is cut before the last. */
  ghost predicate Forsakes(u: Setup, s: System, e: Event) {
    || e == WiringFailed
    || (e == StopCut && s.phase.RollingBack? && InLoop(u, s) && s.process != {u.shutdown[s.phase.at]})
  }

  /** Exactly when a container that goes down leaves components running. Before
      the event: when the layers are up and some running component cannot be
      wired, or when a rollback is cut with another component still running. */
  lemma LeftRunningIff(u: Setup, states: seq<System>, events: seq<Event>, n: nat)
    requires Run(u, states, events) && n < |events| && states[n].phase != Down && states[n + 1].phase == Down
    ensures states[n + 1].process != {} <==> Forsakes(u, states[n], events[n])
    ensures events[n] == WiringFailed <==>
      states[n].phase == Starting(|u.layers|) && !(states[n].process !! u.unwirable)
  {
    RunKeepsInv(u, states, events, n);
    var s, e, s' := states[n], events[n], states[n + 1];
    assert Step(u, s, e, s');
    if e.AllStopped? {
      StoppedMeansEmpty(u, s);
    } else if e.StopCut? {
      assert s.process == s'.process + {u.shutdown[s.phase.at]};
    }
  }

  /** When the container is down again and was never forsaken, nothing is left
      running and every completed start has been matched by exactly one stop,
      completed or cut short. */
  lemma DownMeansClean(u: Setup, states: seq<System>, events: seq<Event>, n: nat)
    requires Run(u, states, events) && n < |states| && states[n].phase == Down
    requires forall m :: 0 <= m < n ==> !Forsakes(u, states[m], events[m])
    ensures states[n].process == {}
    ensures states[n].starts == states[n].stops + states[n].cuts
  {
    RunKeepsInv(u, states, events, n);
    NothingLeaks(u, states, events, n);
    forall c ensures states[n].starts[c] == (states[n].stops + states[n].cuts)[c] {
      assert states[n].leaked[c] == 0;
    }
  }

  /** Then a start never overwrites a running instance either: a component that
      runs in a starting container was started in this start. */
  lemma {:induction false} NothingLeaks(u: Setup, states: seq<System>, events: seq<Event>, n: nat)
    requires Run(u, states, events) && n < |states|
    requires forall m :: 0 <= m < n ==> !Forsakes(u, states[m], events[m])
    ensures Clean(u, states[n])
  {
    if n == 0 {
      InitSound(u, states[0]);
    } else {
      NothingLeaks(u, states, events, n - 1);
      RunKeepsInv(u, states, events, n - 1);
      assert Step(u, states[n - 1], events[n - 1], states[n]);
      FreshStep(u, states[n - 1], events[n - 1], states[n]);
    }
  }

  ghost predicate Clean(u: Setup, s: System) {
    s.leaked == multiset{} && FreshLayer(u, s) && (s.phase == Down ==> s.process == {})
  }

  /** Components of layers that are still to come do not run, and those of the
      current layer only once their start has ended. */
  ghost predicate FreshLayer(u: Setup, s: System) {
    && (s.phase.Starting? || s.phase.Failing? ==>
          forall n :: n in s.process ==>
            s.phase.layer <= |u.layers| && (n in Emitted(u.layers, s.phase.layer) || n in s.ended))
    && (s.phase.Starting? || s.phase.Failing? ==>
          forall n :: n in s.ended ==> InLayer(u, s, n) && n !in s.busy)
  }

  lemma StoppedMeansEmpty(u: Setup, s: System)
    requires ValidSetup(u) && SupportedByDependencies(u, s) && StoppedSoFar(u, s)
    requires (s.phase.RollingBack? || s.phase.Stopping?) && s.phase.at == |u.shutdown|
    ensures s.process == {}
  {
    forall c | c in u.shutdown ensures c !in s.process {
      var k :| 0 <= k < |u.shutdown| && u.shutdown[k] == c;
    }
    assert forall c :: c in s.process ==> IsProcess(u, c) && c in u.shutdown;
    assert forall c :: c !in s.process;
  }

  lemma FreshCompleted(u: Setup, s: System, n: Name)
    requires ValidSetup(u) && BusyInLayer(u, s) && n in s.busy && FreshLayer(u, s)
    ensures n !in s.process && FreshLayer(u, AfterCompleted(s, n))
  {
    assert InLayer(u, s, n);
    assert LayerSound(u.graph, u.layers, s.phase.layer);
    var s' := AfterCompleted(s, n);
    assert forall m :: InLayer(u, s, m) ==> InLayer(u, s', m);
  }

  lemma FreshLayerDone(u: Setup, s: System, s': System)
    requires Step(u, s, LayerDone, s') && FreshLayer(u, s)
    ensures FreshLayer(u, s')
  {
    var i := s.phase.layer;
    assert Emitted(u.layers, i + 1) == Emitted(u.layers, i) + Members(u.layers[i]);
    assert forall n :: n in s.ended ==> InLayer(u, s, n);
  }

  lemma FreshQuiet(u: Setup, s: System, e: Event, s': System)
    requires BusyInLayer(u, s) && Step(u, s, e, s')
    requires !e.Completed? && !e.StopNext? && !e.StopCut? && !e.AllStopped? && !e.LayerDone? && e != WiringFailed
    requires FreshLayer(u, s) && (s.phase == Down ==> s.process == {})
    ensures FreshLayer(u, s')
  {
    if (s.phase.Starting? || s.phase.Failing?) && (s'.phase.Starting? || s'.phase.Failing?) {
      assert s'.phase.layer == s.phase.layer && s'.process == s.process;
      assert forall m :: InLayer(u, s, m) ==> InLayer(u, s', m);
    }
  }

  lemma FreshStep(u: Setup, s: System, e: Event, s': System)
    requires ValidSetup(u) && Inv(u, s) && Step(u, s, e, s') && !Forsakes(u, s, e)
    requires Clean(u, s)
    ensures Clean(u, s')
  {
    match e
    case Completed(n) =>
      assert InLayer(u, s, n);
      FreshCompleted(u, s, n);
    case AllStopped => StoppedMeansEmpty(u, s);
    case StopNext =>
    case StopCut => assert s.phase.RollingBack? ==> s'.process == {};
    case LayerDone => FreshLayerDone(u, s, s');
    case _ => FreshQuiet(u, s, e, s');
  }

  /** Some run ends here. */
  ghost predicate Reachable(u: Setup, s: System) {
    exists states, events :: Run(u, states, events) && states[|states| - 1] == s
  }

  lemma StartReachable(u: Setup) returns (s: System)
    requires ValidSetup(u)
    ensures Reachable(u, s)
    ensures s == System(Starting(0), {}, {}, {}, {}, multiset{}, multiset{}, multiset{}, multiset{})
  {
    var down := System(Down, {}, {}, {}, {}, multiset{}, multiset{}, multiset{}, multiset{});
    s := down.(phase := Starting(0));
    assert Run(u, [down, s], [Start]);
  }

  lemma StepReachable(u: Setup, s: System, e: Event, s': System)
    requires Reachable(u, s) && Step(u, s, e, s')
    ensures Reachable(u, s')
  {
    var states, events :| Run(u, states, events) && states[|states| - 1] == s;
    var longer, more := states + [s'], events + [e];
    forall n | 0 <= n < |more| ensures Step(u, longer[n], more[n], longer[n + 1]) {
      if n < |events| {
        assert Step(u, states[n], events[n], states[n + 1]);
      }
    }
    assert Run(u, longer, more);
  }

  lemma UpReachable(u: Setup, s: System, c: Name) returns (s': System)
    requires Reachable(u, s) && s.phase.Starting? && InLayer(u, s, c)
    requires s.busy == {} && c !in s.ended && c !in s.process
    ensures Reachable(u, s')
    ensures s' == s.(process := s.process + {c}, ended := s.ended + {c}, starts := s.starts + multiset{c})
  {
    var busy := s.(busy := s.busy + {c});
    StepReachable(u, s, Launch(c), busy);
    s' := AfterCompleted(busy, c);
    assert s'.busy == {};
    StepReachable(u, busy, Completed(c), s');
  }

  /** The first kind can happen: one component is up, and cannot be wired. */
  lemma WiringFailureLeavesRunning() returns (u: Setup, s: System)
    ensures Reachable(u, s) && s.phase == Down
    ensures s.process == {0} && s.starts == multiset{0} && s.stops == multiset{}
  {
    u := Setup(Graph([0], map[0 := Node([], Process)]), [[0]], [0], {0}, {0});
    FlatSetup(u);
    var s0 := StartReachable(u);
    assert InLayer(u, s0, 0);
    var s1 := UpReachable(u, s0, 0);
    var s2 := s1.(phase := Starting(1), ended := {});
    StepReachable(u, s1, LayerDone, s2);
    s := s2.(phase := Down);
    assert 0 in s2.process && 0 in u.unwirable;
    StepReachable(u, s2, WiringFailed, s);
  }

  /** So can the second: a caller that is cancelled during a layer, and cuts the
      first stop of the rollback with its cancellation, leaves all the others. */
  lemma CancelledStartLeavesRest(u: Setup, s: System) returns (s': System)
    requires Reachable(u, s) && s.phase.Starting? && s.phase.layer < |u.layers| && s.busy == {}
    requires u.shutdown != [] && u.shutdown[0] in s.process
    ensures Reachable(u, s') && s'.phase == Down
    ensures s'.process == s.process - {u.shutdown[0]} && s'.starts == s.starts && s'.stops == s.stops
  {
    var s1 := s.(phase := Failing(s.phase.layer));
    StepReachable(u, s, Interrupted, s1);
    var s2 := s1.(phase := RollingBack(0));
    StepReachable(u, s1, LayerUnwound, s2);
    s' := AfterStopCut(u, s2);
    StepReachable(u, s2, StopCut, s');
  }

  lemma CancelledStartLeavesRunning() returns (u: Setup, s: System)
    ensures Reachable(u, s) && s.phase == Down && u.unwirable == {}
    ensures s.process == {0} && s.starts == multiset{0, 1} && s.stops == multiset{}
  {
    u := Setup(Graph([0, 1], map[0 := Node([], Process), 1 := Node([], Process)]), [[0, 1]], [1, 0], {}, {});
    FlatSetup(u);
    s := StartReachable(u);
    s := UpReachable(u, s, 0);
    s := UpReachable(u, s, 1);
    assert s.process == {0, 1};
    s := CancelledStartLeavesRest(u, s);
    assert {0, 1} - {1} == {0};
  }

  lemma FirstEdge(g: Graph, p: seq<Name>)
    requires Walk(g, p)
    ensures |p| >= 2 ==> Edge(g, p[0], p[1])
  {
  }

  /** Components without dependencies make one layer, in any order. */
  lemma FlatSetup(u: Setup)
    requires WellFormed(u.graph) && u.graph.order != [] && u.layers == [u.graph.order] && Lists(u.graph, u.shutdown)
    requires forall n :: n in u.graph.nodes ==> u.graph.nodes[n] == Node([], Process)
    ensures ValidSetup(u)
  {
    assert DependenciesFirst(u.graph, u.graph.order);
    assert Emitted(u.layers, 1) == Emitted(u.layers, 0) + Members(u.layers[0]);
    MembersKnown(u.graph, u.graph.order);
    assert forall n: Name :: n in u.graph.nodes.Keys ==> n in Members(u.graph.order);
    forall p | Walk(u.graph, p) ensures |p| < 2 {
      FirstEdge(u.graph, p);
    }
    assert LayerSound(u.graph, u.layers, 0);
  }
}
