/** Lazy creation of scoped components under one lock per component.

    A request for a component holds that component's store lock while its
    factory resolves the dependencies one after the other, each through the same
    procedure; so a task holds a stack of locks. `Step` is one move of any task.
    Starting and stopping an instance is assumed not to come back here. */
module LazyCreation {
  import opened DependencyGraph

  type TaskId = nat

  /** What a frame is doing: waiting for its lock, resolving dependency number
      `next`, or busy under its lock, making its instance or, as `close` does,
      only stopping old ones. */
  datatype Stage = Waiting | Resolving(next: nat) | Busy(making: bool)

  datatype Frame = Frame(component: Name, stage: Stage)

  /** Tasks with their frames, innermost last, and the owner of each held lock. */
  datatype System = System(tasks: map<TaskId, seq<Frame>>, owner: map<Name, TaskId>)

  datatype Event =
    | Request(task: TaskId, component: Name)
    | Acquire(task: TaskId)
    | Found(task: TaskId)
    | SkipProcess(task: TaskId)
    | Descend(task: TaskId)
    | Build(task: TaskId)
    | Maintain(task: TaskId)
    | Finish(task: TaskId)
    | Fail(task: TaskId)

  ghost predicate IsScoped(g: Graph, n: Name) {
    n in g.nodes && g.nodes[n].lifetime == Scoped
  }

  function Top(stack: seq<Frame>): Frame
    requires stack != []
  {
    stack[|stack| - 1]
  }

  function Below(stack: seq<Frame>): seq<Frame>
    requires stack != []
  {
    stack[..|stack| - 1]
  }

  function WithTop(stack: seq<Frame>, stage: Stage): seq<Frame>
    requires stack != []
  {
    Below(stack) + [Frame(Top(stack).component, stage)]
  }

  /** The innermost frame is done: its caller goes on to the next dependency. */
  function Returned(stack: seq<Frame>): seq<Frame>
    requires stack != []
  {
    var rest := Below(stack);
    if rest != [] && Top(rest).stage.Resolving? then WithTop(rest, Resolving(Top(rest).stage.next + 1)) else rest
  }

  ghost function SetStack(s: System, t: TaskId, stack: seq<Frame>): System {
    s.(tasks := if stack == [] then s.tasks - {t} else s.tasks[t := stack])
  }

  ghost predicate Active(s: System, t: TaskId) {
    t in s.tasks && s.tasks[t] != []
  }

  ghost function Enabled(g: Graph, s: System, e: Event): bool {
    match e
    case Request(t, c) => t !in s.tasks && IsScoped(g, c)
    case Acquire(t) => Active(s, t) && Top(s.tasks[t]).stage.Waiting? && Top(s.tasks[t]).component !in s.owner
    case Found(t) => Active(s, t) && Top(s.tasks[t]).stage == Resolving(0)
    case SkipProcess(t) => Active(s, t) && NextIs(g, Top(s.tasks[t]), false)
    case Descend(t) => Active(s, t) && NextIs(g, Top(s.tasks[t]), true)
    case Build(t) =>
      Active(s, t) && Top(s.tasks[t]).stage.Resolving?
      && Top(s.tasks[t]).stage.next >= |Deps(g, Top(s.tasks[t]).component)|
    case Maintain(t) => Active(s, t) && |s.tasks[t]| == 1 && Top(s.tasks[t]).stage == Resolving(0)
    case Finish(t) => Active(s, t) && Top(s.tasks[t]).stage.Busy?
    case Fail(t) => Active(s, t)
  }

  /** The frame's next dependency exists and is, or is not, a scoped component. */
  ghost predicate NextIs(g: Graph, f: Frame, scoped: bool) {
    && f.stage.Resolving? && f.stage.next < |Deps(g, f.component)|
    && (IsScoped(g, Deps(g, f.component)[f.stage.next]) <==> scoped)
  }

  ghost predicate Step(g: Graph, s: System, e: Event, s': System) {
    && Enabled(g, s, e)
    && match e
       case Request(t, c) => s' == s.(tasks := s.tasks[t := [Frame(c, Waiting)]])
       case Acquire(t) =>
         s' == SetStack(s, t, WithTop(s.tasks[t], Resolving(0))).(owner := s.owner[Top(s.tasks[t]).component := t])
       case Found(t) =>
         s' == SetStack(s, t, Returned(s.tasks[t])).(owner := s.owner - {Top(s.tasks[t]).component})
       case SkipProcess(t) => s' == SetStack(s, t, WithTop(s.tasks[t], Resolving(Top(s.tasks[t]).stage.next + 1)))
       case Descend(t) =>
         var f := Top(s.tasks[t]);
         s' == SetStack(s, t, s.tasks[t] + [Frame(Deps(g, f.component)[f.stage.next], Waiting)])
       case Build(t) => s' == SetStack(s, t, WithTop(s.tasks[t], Busy(true)))
       case Maintain(t) => s' == SetStack(s, t, WithTop(s.tasks[t], Busy(false)))
       case Finish(t) =>
         s' == SetStack(s, t, Returned(s.tasks[t])).(owner := s.owner - {Top(s.tasks[t]).component})
       case Fail(t) =>
         s' == System(s.tasks - {t}, map c | c in s.owner && s.owner[c] != t :: s.owner[c])
  }

  // -------------------------------------------------------------- invariant

  /** Each frame but the innermost is resolving the component of the next one. */
  ghost predicate Link(g: Graph, lower: Frame, upper: Frame) {
    && lower.stage.Resolving? && lower.stage.next < |Deps(g, lower.component)|
    && Deps(g, lower.component)[lower.stage.next] == upper.component
  }

  ghost predicate StackSound(g: Graph, stack: seq<Frame>) {
    && stack != []
    && (forall i :: 0 <= i < |stack| ==> IsScoped(g, stack[i].component))
    && (forall i :: 0 <= i < |stack| - 1 ==> Link(g, stack[i], stack[i + 1]))
  }

  ghost predicate HoldsAt(stack: seq<Frame>, i: nat, c: Name) {
    i < |stack| && stack[i].component == c && !stack[i].stage.Waiting?
  }

  ghost predicate Holds(stack: seq<Frame>, c: Name) {
    exists i :: HoldsAt(stack, i, c)
  }

  /** The lock table and the stacks agree: a component's lock is owned by a task
      exactly when that task has a frame that is past waiting for it. */
  ghost predicate LocksAgree(s: System) {
    && (forall c :: c in s.owner ==> s.owner[c] in s.tasks && Holds(s.tasks[s.owner[c]], c))
    && (forall t, c :: t in s.tasks && Holds(s.tasks[t], c) ==> c in s.owner && s.owner[c] == t)
  }

  ghost predicate Inv(g: Graph, s: System) {
    && (forall t :: t in s.tasks ==> StackSound(g, s.tasks[t]))
    && LocksAgree(s)
  }

  /** Going inwards, ranks go down. */
  lemma {:induction false} RanksDecrease(g: Graph, stack: seq<Frame>, i: nat, j: nat)
    requires HasOrder(g) && StackSound(g, stack) && i < j < |stack|
    ensures Rank(g, stack[j].component) < Rank(g, stack[i].component)
    decreases j
  {
    assert Link(g, stack[j - 1], stack[j - 1 + 1]);
    assert Edge(g, stack[j - 1].component, stack[j].component);
    RankDecreases(g, stack[j - 1].component, stack[j].component);
    if i < j - 1 {
      RanksDecrease(g, stack, i, j - 1);
    }
  }

  lemma StageChangeSound(g: Graph, stack: seq<Frame>, stage: Stage)
    requires StackSound(g, stack)
    ensures StackSound(g, WithTop(stack, stage))
    ensures |WithTop(stack, stage)| == |stack|
    ensures forall i :: 0 <= i < |stack| - 1 ==> WithTop(stack, stage)[i] == stack[i]
    ensures forall c :: c != Top(stack).component ==> (Holds(WithTop(stack, stage), c) <==> Holds(stack, c))
  {
    var changed := WithTop(stack, stage);
    forall i | 0 <= i < |changed| - 1 ensures Link(g, changed[i], changed[i + 1]) {
      assert Link(g, stack[i], stack[i + 1]);
    }
    forall c | c != Top(stack).component ensures Holds(changed, c) <==> Holds(stack, c) {
      assert forall i :: HoldsAt(changed, i, c) <==> HoldsAt(stack, i, c);
    }
  }

  lemma HeldTop(stack: seq<Frame>)
    requires stack != [] && !Top(stack).stage.Waiting?
    ensures Holds(stack, Top(stack).component)
  {
    assert HoldsAt(stack, |stack| - 1, Top(stack).component);
  }

  lemma ReturnSound(g: Graph, stack: seq<Frame>)
    requires HasOrder(g) && StackSound(g, stack)
    ensures Returned(stack) != [] ==> StackSound(g, Returned(stack))
    ensures forall c :: Holds(Returned(stack), c) <==> Holds(stack, c) && c != Top(stack).component
  {
    var rest := Below(stack);
    var out := Returned(stack);
    assert |out| == |rest|;
    forall i | 0 <= i < |rest|
      ensures out[i].component == stack[i].component && !out[i].stage.Waiting? && !stack[i].stage.Waiting?
    {
      assert Link(g, stack[i], stack[i + 1]);
    }
    forall i | 0 <= i < |out| - 1 ensures Link(g, out[i], out[i + 1]) {
      assert Link(g, stack[i], stack[i + 1]);
    }
    forall c ensures Holds(out, c) <==> Holds(stack, c) && c != Top(stack).component {
      if Holds(out, c) {
        var i :| HoldsAt(out, i, c);
        assert HoldsAt(stack, i, c);
        RanksDecrease(g, stack, i, |stack| - 1);
      }
      if Holds(stack, c) && c != Top(stack).component {
        var i :| HoldsAt(stack, i, c);
        assert HoldsAt(out, i, c);
      }
    }
  }

  lemma PushSound(g: Graph, stack: seq<Frame>)
    requires StackSound(g, stack) && NoneMissing(g) && NextIs(g, Top(stack), true)
    ensures var f := Top(stack);
      var out := stack + [Frame(Deps(g, f.component)[f.stage.next], Waiting)];
      StackSound(g, out) && forall c :: Holds(out, c) <==> Holds(stack, c)
  {
    var f := Top(stack);
    var out := stack + [Frame(Deps(g, f.component)[f.stage.next], Waiting)];
    forall i | 0 <= i < |out| - 1 ensures Link(g, out[i], out[i + 1]) {
      if i < |stack| - 1 {
        assert Link(g, stack[i], stack[i + 1]);
      }
    }
    forall c ensures Holds(out, c) <==> Holds(stack, c) {
      assert forall i :: HoldsAt(out, i, c) <==> HoldsAt(stack, i, c);
    }
  }

  /** One task gets a new stack that holds the same locks. */
  lemma SameLocks(g: Graph, s: System, t: TaskId, stack: seq<Frame>)
    requires Inv(g, s) && t in s.tasks && StackSound(g, stack)
    requires forall c :: Holds(stack, c) <==> Holds(s.tasks[t], c)
    ensures Inv(g, SetStack(s, t, stack))
  {
  }

  lemma SameHolds(g: Graph, stack: seq<Frame>, stage: Stage)
    requires StackSound(g, stack) && !Top(stack).stage.Waiting? && !stage.Waiting?
    ensures forall c :: Holds(WithTop(stack, stage), c) <==> Holds(stack, c)
  {
    StageChangeSound(g, stack, stage);
    HeldTop(stack);
    HeldTop(WithTop(stack, stage));
  }

  lemma AcquireKeepsInv(g: Graph, s: System, e: Event, s': System)
    requires HasOrder(g) && Inv(g, s) && Step(g, s, e, s') && e.Acquire?
    ensures Inv(g, s')
  {
    var stack := s.tasks[e.task];
    var changed := WithTop(stack, Resolving(0));
    var own := Top(stack).component;
    StageChangeSound(g, stack, Resolving(0));
    HeldTop(changed);
    assert !Holds(stack, own);
    assert forall c :: Holds(changed, c) <==> Holds(stack, c) || c == own;
  }

  lemma ReturnKeepsInv(g: Graph, s: System, e: Event, s': System)
    requires HasOrder(g) && Inv(g, s) && Step(g, s, e, s') && (e.Found? || e.Finish?)
    ensures Inv(g, s')
  {
    var stack := s.tasks[e.task];
    ReturnSound(g, stack);
    HeldTop(stack);
    var own := Top(stack).component;
    assert own in s.owner && s.owner[own] == e.task;
    forall t, c | t in s'.tasks && Holds(s'.tasks[t], c) ensures c in s'.owner && s'.owner[c] == t {
      assert Holds(s.tasks[t], c);
    }
    forall c | c in s'.owner ensures s'.owner[c] in s'.tasks && Holds(s'.tasks[s'.owner[c]], c) {
      assert Holds(s.tasks[s.owner[c]], c);
      assert s.owner[c] == e.task ==> Holds(Returned(stack), c);
    }
  }

  lemma FailKeepsInv(g: Graph, s: System, e: Event, s': System)
    requires Inv(g, s) && Step(g, s, e, s') && e.Fail?
    ensures Inv(g, s')
  {
  }

  lemma BusyKeepsInv(g: Graph, s: System, e: Event, s': System)
    requires HasOrder(g) && Inv(g, s) && Step(g, s, e, s') && (e.Build? || e.Maintain?)
    ensures Inv(g, s')
  {
    var stack := s.tasks[e.task];
    var stage := Busy(e.Build?);
    StageChangeSound(g, stack, stage);
    SameHolds(g, stack, stage);
    SameLocks(g, s, e.task, WithTop(stack, stage));
  }

  lemma DescendKeepsInv(g: Graph, s: System, e: Event, s': System)
    requires Accepted(g) && Inv(g, s) && Step(g, s, e, s') && e.Descend?
    ensures Inv(g, s')
  {
    var stack := s.tasks[e.task];
    PushSound(g, stack);
    SameLocks(g, s, e.task, stack + [Frame(Deps(g, Top(stack).component)[Top(stack).stage.next], Waiting)]);
  }

  /** Every move keeps the invariant. */
  lemma StepKeepsInv(g: Graph, s: System, e: Event, s': System)
    requires Accepted(g) && Inv(g, s) && Step(g, s, e, s')
    ensures Inv(g, s')
  {
    match e
    case Request(t, c) => assert forall d :: !Holds([Frame(c, Waiting)], d);
    case Acquire(_) => AcquireKeepsInv(g, s, e, s');
    case Found(_) => ReturnKeepsInv(g, s, e, s');
    case Finish(_) => ReturnKeepsInv(g, s, e, s');
    case Descend(_) => DescendKeepsInv(g, s, e, s');
    case SkipProcess(t) =>
      var stage := Resolving(Top(s.tasks[t]).stage.next + 1);
      StageChangeSound(g, s.tasks[t], stage);
      SameHolds(g, s.tasks[t], stage);
      SameLocks(g, s, t, WithTop(s.tasks[t], stage));
    case Build(_) => BusyKeepsInv(g, s, e, s');
    case Maintain(_) => BusyKeepsInv(g, s, e, s');
    case Fail(_) => FailKeepsInv(g, s, e, s');
  }

  // ---------------------------------------------------------------- theorems

  ghost predicate Run(g: Graph, states: seq<System>, events: seq<Event>) {
    && Accepted(g)
    && |states| == |events| + 1
    && states[0] == System(map[], map[])
    && forall n :: 0 <= n < |events| ==> Step(g, states[n], events[n], states[n + 1])
  }

  lemma {:induction false} RunKeepsInv(g: Graph, states: seq<System>, events: seq<Event>, n: nat)
    requires Run(g, states, events) && n < |states|
    ensures Inv(g, states[n])
  {
    if n > 0 {
      RunKeepsInv(g, states, events, n - 1);
      StepKeepsInv(g, states[n - 1], events[n - 1], states[n]);
    }
  }

  /** A waiting task holds only locks of components from which the awaited one
      can be reached along dependencies; in particular never the awaited one. */
  lemma HeldLocksReachAwaited(g: Graph, states: seq<System>, events: seq<Event>, n: nat, t: TaskId, c: Name)
    returns (p: seq<Name>)
    requires Run(g, states, events) && n < |states| && Active(states[n], t)
    requires Top(states[n].tasks[t]).stage.Waiting? && c in states[n].owner && states[n].owner[c] == t
    ensures Walk(g, p) && |p| >= 2 && p[0] == c && p[|p| - 1] == Top(states[n].tasks[t]).component
    ensures c != Top(states[n].tasks[t]).component
  {
    RunKeepsInv(g, states, events, n);
    var stack := states[n].tasks[t];
    assert Holds(stack, c);
    var i :| HoldsAt(stack, i, c);
    p := StackWalk(g, stack, i, |stack| - 1);
    RanksDecrease(g, stack, i, |stack| - 1);
  }

  lemma {:induction false} StackWalk(g: Graph, stack: seq<Frame>, i: nat, j: nat) returns (p: seq<Name>)
    requires StackSound(g, stack) && i < j < |stack|
    ensures Walk(g, p) && |p| == j - i + 1 && p[0] == stack[i].component && p[|p| - 1] == stack[j].component
    decreases j - i
  {
    assert Link(g, stack[i], stack[i + 1]);
    assert Edge(g, stack[i].component, stack[i + 1].component);
    if i + 1 == j {
      p := [stack[i].component, stack[j].component];
    } else {
      var q := StackWalk(g, stack, i + 1, j);
      p := [stack[i].component] + q;
      forall k | 0 <= k < |p| - 1 ensures Edge(g, p[k], p[k + 1]) {
        if k > 0 {
          var l := k - 1;
          assert Edge(g, q[l], q[l + 1]);
        }
      }
    }
  }

  /** A move by which a task gets on, as opposed to giving up or arriving. */
  ghost predicate Progresses(e: Event) {
    !e.Request? && !e.Fail?
  }

  /** No deadlock: as long as some request is unfinished, some task can get on. */
  lemma NoDeadlock(g: Graph, states: seq<System>, events: seq<Event>, n: nat)
    requires Run(g, states, events) && n < |states| && states[n].tasks != map[]
    ensures exists e :: Progresses(e) && Enabled(g, states[n], e)
  {
    RunKeepsInv(g, states, events, n);
    assert states[n].tasks.Keys != {};
    var t :| t in states[n].tasks.Keys;
    var e := Runnable(g, states[n], t);
  }

  /** From a blocked task follow the owner of the awaited lock: the awaited
      components go down in rank, so the search ends at a task that can move. */
  lemma {:induction false} Runnable(g: Graph, s: System, t: TaskId) returns (e: Event)
    requires Accepted(g) && Inv(g, s) && t in s.tasks
    ensures Progresses(e) && Enabled(g, s, e)
    decreases if Top(s.tasks[t]).stage.Waiting? then Rank(g, Top(s.tasks[t]).component) + 1 else 0
  {
    var stack := s.tasks[t];
    assert StackSound(g, stack);
    var f := Top(stack);
    match f.stage
    case Busy(_) => e := Finish(t);
    case Resolving(j) =>
      if j >= |Deps(g, f.component)| {
        e := Build(t);
      } else if IsScoped(g, Deps(g, f.component)[j]) {
        e := Descend(t);
      } else {
        e := SkipProcess(t);
      }
    case Waiting =>
      if f.component !in s.owner {
        e := Acquire(t);
      } else {
        var u := s.owner[f.component];
        var other := s.tasks[u];
        assert Holds(other, f.component);
        var i :| HoldsAt(other, i, f.component);
        if Top(other).stage.Waiting? {
          RanksDecrease(g, other, i, |other| - 1);
        }
        e := Runnable(g, s, u);
      }
  }

  // -- each request ends after finitely many moves

  /** The moves a frame's dependencies from number `j` on can still take. */
  ghost function Ahead(g: Graph, n: Name, j: nat): nat
    requires Accepted(g) && n in g.nodes && j <= |Deps(g, n)|
    decreases Rank(g, n), |Deps(g, n)| - j
  {
    if j == |Deps(g, n)| then 0
    else
      var d := Deps(g, n)[j];
      assert Edge(g, n, d);
      RankDecreases(g, n, d);
      1 + Ahead(g, n, j + 1) + if IsScoped(g, d) then 3 + Ahead(g, d, 0) else 0
  }

  ghost function FrameWork(g: Graph, f: Frame, innermost: bool): nat
    requires Accepted(g)
  {
    if f.component !in g.nodes then 0
    else match f.stage
      case Waiting => 3 + Ahead(g, f.component, 0)
      case Busy(_) => 1
      case Resolving(j) =>
        var next := if innermost then j else j + 1;
        2 + if next <= |Deps(g, f.component)| then Ahead(g, f.component, next) else 0
  }

  /** An upper bound on the moves a task can still make. */
  ghost function Work(g: Graph, stack: seq<Frame>): nat
    requires Accepted(g)
  {
    if stack == [] then 0 else Outer(g, Below(stack)) + FrameWork(g, Top(stack), true)
  }

  ghost function Outer(g: Graph, stack: seq<Frame>): nat
    requires Accepted(g)
  {
    if stack == [] then 0 else Outer(g, Below(stack)) + FrameWork(g, Top(stack), false)
  }

  ghost function WorkOf(g: Graph, s: System, t: TaskId): nat
    requires Accepted(g)
  {
    if t in s.tasks then Work(g, s.tasks[t]) else 0
  }

  lemma StageChangeWork(g: Graph, stack: seq<Frame>, stage: Stage)
    requires Accepted(g) && stack != []
    ensures Work(g, WithTop(stack, stage))
         == Outer(g, Below(stack)) + FrameWork(g, Frame(Top(stack).component, stage), true)
  {
  }

  lemma StageWork(g: Graph, stack: seq<Frame>, stage: Stage)
    requires Accepted(g) && StackSound(g, stack)
    requires if Top(stack).stage.Waiting? then stage == Resolving(0) else Top(stack).stage.Resolving? && stage.Busy?
    ensures Work(g, WithTop(stack, stage)) < Work(g, stack)
  {
    StageChangeWork(g, stack, stage);
    assert IsScoped(g, Top(stack).component);
  }

  lemma ReturnWork(g: Graph, stack: seq<Frame>)
    requires Accepted(g) && StackSound(g, stack) && !Top(stack).stage.Waiting?
    ensures Work(g, Returned(stack)) < Work(g, stack)
  {
  }

  lemma SkipWork(g: Graph, stack: seq<Frame>)
    requires Accepted(g) && StackSound(g, stack) && Top(stack).stage.Resolving? && Top(stack).component in g.nodes
    requires Top(stack).stage.next < |Deps(g, Top(stack).component)|
    ensures Work(g, WithTop(stack, Resolving(Top(stack).stage.next + 1))) < Work(g, stack)
  {
  }

  lemma DescendWork(g: Graph, stack: seq<Frame>)
    requires Accepted(g) && StackSound(g, stack) && Top(stack).stage.Resolving? && Top(stack).component in g.nodes
    requires Top(stack).stage.next < |Deps(g, Top(stack).component)|
    requires IsScoped(g, Deps(g, Top(stack).component)[Top(stack).stage.next])
    ensures Work(g, stack + [Frame(Deps(g, Top(stack).component)[Top(stack).stage.next], Waiting)]) < Work(g, stack)
  {
  }

  /** Every move of progress brings its task nearer to its end and leaves the
      others where they are. */
  lemma ProgressIsBounded(g: Graph, s: System, e: Event, s': System, t: TaskId)
    requires Accepted(g) && Inv(g, s) && Step(g, s, e, s') && Progresses(e)
    ensures t == e.task ==> WorkOf(g, s', t) < WorkOf(g, s, t)
    ensures t != e.task ==> WorkOf(g, s', t) == WorkOf(g, s, t)
  {
    if t == e.task {
      assert StackSound(g, s.tasks[t]);
      if e.Found? || e.Finish? {
        ReturnWork(g, s.tasks[t]);
      } else {
        OwnWork(g, s, e, s');
      }
    } else {
      assert t in s'.tasks <==> t in s.tasks;
    }
  }

  lemma OwnWork(g: Graph, s: System, e: Event, s': System)
    requires Accepted(g) && Step(g, s, e, s') && Progresses(e) && !e.Found? && !e.Finish?
    requires e.task in s.tasks && StackSound(g, s.tasks[e.task])
    ensures WorkOf(g, s', e.task) < WorkOf(g, s, e.task)
  {
    var stack := s.tasks[e.task];
    match e
    case Acquire(_) => StageWork(g, stack, Resolving(0));
    case Build(_) => StageWork(g, stack, Busy(true));
    case Maintain(_) => StageWork(g, stack, Busy(false));
    case SkipProcess(_) => SkipWork(g, stack);
    case Descend(_) => DescendWork(g, stack);
  }

  lemma RequestWork(g: Graph, s: System, t: TaskId, c: Name, s': System)
    requires Accepted(g) && Step(g, s, Request(t, c), s')
    ensures WorkOf(g, s', t) == 3 + Ahead(g, c, 0)
  {
  }

  // -- over a whole run

  /** The moves of progress that a task makes in steps `from` to `to`. */
  ghost function Moves(events: seq<Event>, t: TaskId, from: nat, to: nat): nat
    requires from <= to <= |events|
  {
    if from == to then 0
    else Moves(events, t, from, to - 1) + Cost(events[to - 1], t)
  }

  /** No other move gives a task more to do, but a new request of its own. */
  lemma OtherMovesWork(g: Graph, s: System, e: Event, s': System, t: TaskId)
    requires Accepted(g) && Step(g, s, e, s') && !Progresses(e) && (e.Request? ==> e.task != t)
    ensures WorkOf(g, s', t) <= WorkOf(g, s, t)
  {
    assert t in s'.tasks ==> t in s.tasks && s'.tasks[t] == s.tasks[t];
  }

  /** What one move costs a task. */
  ghost function Cost(e: Event, t: TaskId): nat {
    if Progresses(e) && e.task == t then 1 else 0
  }

  lemma MoveWork(g: Graph, s: System, e: Event, s': System, t: TaskId)
    requires Accepted(g) && Inv(g, s) && Step(g, s, e, s') && (e.Request? ==> e.task != t)
    ensures Cost(e, t) + WorkOf(g, s', t) <= WorkOf(g, s, t)
  {
    if Progresses(e) {
      ProgressIsBounded(g, s, e, s', t);
    } else {
      OtherMovesWork(g, s, e, s', t);
    }
  }

  lemma StepOfRun(g: Graph, states: seq<System>, events: seq<Event>, n: nat)
    requires Run(g, states, events) && n < |events|
    ensures Accepted(g) && Inv(g, states[n]) && Step(g, states[n], events[n], states[n + 1])
  {
    RunKeepsInv(g, states, events, n);
  }

  lemma {:induction false} MovesPay(g: Graph, states: seq<System>, events: seq<Event>, m: nat, n: nat, t: TaskId)
    requires Run(g, states, events) && m <= n <= |events|
    requires forall k :: m <= k < n && events[k].Request? ==> events[k].task != t
    ensures Moves(events, t, m, n) + WorkOf(g, states[n], t) <= WorkOf(g, states[m], t)
  {
    if m < n {
      MovesPay(g, states, events, m, n - 1, t);
      StepOfRun(g, states, events, n - 1);
      MoveWork(g, states[n - 1], events[n - 1], states[n], t);
    }
  }

  /** A request is finished, or given up, after at most `3 + Ahead(component, 0)`
      moves of its task, whatever the other tasks do in between. */
  lemma RequestIsBounded(g: Graph, states: seq<System>, events: seq<Event>, m: nat, n: nat, t: TaskId, c: Name)
    requires Run(g, states, events) && m < n <= |events| && events[m] == Request(t, c)
    requires forall k :: m < k < n && events[k].Request? ==> events[k].task != t
    ensures c in g.nodes && Moves(events, t, m + 1, n) + WorkOf(g, states[n], t) <= 3 + Ahead(g, c, 0)
  {
    StepOfRun(g, states, events, m);
    RequestWork(g, states[m], t, c, states[m + 1]);
    MovesPay(g, states, events, m + 1, n, t);
  }

  // -- what a factory has resolved

  /** The dependencies that the frame at depth `i` of a task has resolved: those
      whose own frame above it returned, and those it passed over. */
  ghost function Resolved(g: Graph, states: seq<System>, events: seq<Event>, n: nat, t: TaskId, i: nat): seq<Name>
    requires n <= |events| < |states|
  {
    if n == 0 then [] else AlsoResolved(g, states[n - 1], events[n - 1], Resolved(g, states, events, n - 1, t, i), t, i)
  }

  ghost function AlsoResolved(g: Graph, s: System, e: Event, before: seq<Name>, t: TaskId, i: nat): seq<Name> {
    if t !in s.tasks || |s.tasks[t]| <= i then []
    else if e.task != t then before
    else if (e.Found? || e.Finish?) && |s.tasks[t]| == i + 2 then before + [s.tasks[t][i + 1].component]
    else if e.SkipProcess? && |s.tasks[t]| == i + 1 then before + NextDep(g, s.tasks[t][i])
    else before
  }

  ghost function NextDep(g: Graph, f: Frame): seq<Name> {
    if f.stage.Resolving? && f.stage.next < |Deps(g, f.component)| then [Deps(g, f.component)[f.stage.next]] else []
  }

  /** How far a frame is, from its stage. */
  ghost predicate InStage(g: Graph, f: Frame, resolved: seq<Name>) {
    match f.stage
    case Waiting => resolved == []
    case Resolving(j) => j <= |Deps(g, f.component)| && resolved == Deps(g, f.component)[..j]
    case Busy(making) => resolved == if making then Deps(g, f.component) else []
  }

  lemma OneMoreDep(g: Graph, n: Name, j: nat)
    requires j < |Deps(g, n)|
    ensures Deps(g, n)[..j] + [Deps(g, n)[j]] == Deps(g, n)[..j + 1]
  {
  }

  lemma ReturnStage(g: Graph, stack: seq<Frame>, i: nat, before: seq<Name>)
    requires StackSound(g, stack) && i < |Returned(stack)| && InStage(g, stack[i], before)
    ensures InStage(g, Returned(stack)[i], if i + 2 == |stack| then before + [stack[i + 1].component] else before)
  {
    if i + 2 == |stack| {
      assert Link(g, stack[i], stack[i + 1]);
      OneMoreDep(g, stack[i].component, stack[i].stage.next);
    }
  }

  lemma TopStage(g: Graph, stack: seq<Frame>, stage: Stage, i: nat, before: seq<Name>, after: seq<Name>)
    requires stack != [] && i < |stack|
    requires i + 1 < |stack| ==> InStage(g, stack[i], before) && after == before
    requires i + 1 == |stack| ==> InStage(g, Frame(stack[i].component, stage), after)
    ensures InStage(g, WithTop(stack, stage)[i], after)
  {
  }

  lemma OwnStage(g: Graph, s: System, e: Event, s': System, i: nat, before: seq<Name>)
    requires Step(g, s, e, s') && e.task in s.tasks && e.task in s'.tasks && StackSound(g, s.tasks[e.task])
    requires i < |s.tasks[e.task]| && i < |s'.tasks[e.task]| && InStage(g, s.tasks[e.task][i], before)
    ensures InStage(g, s'.tasks[e.task][i], AlsoResolved(g, s, e, before, e.task, i))
  {
    var stack := s.tasks[e.task];
    var after := AlsoResolved(g, s, e, before, e.task, i);
    match e
    case Acquire(_) => TopStage(g, stack, Resolving(0), i, before, after);
    case Found(_) => ReturnStage(g, stack, i, before);
    case Finish(_) => ReturnStage(g, stack, i, before);
    case SkipProcess(_) =>
      OneMoreDep(g, Top(stack).component, Top(stack).stage.next);
      TopStage(g, stack, Resolving(Top(stack).stage.next + 1), i, before, after);
    case Build(_) => TopStage(g, stack, Busy(true), i, before, after);
    case Maintain(_) => TopStage(g, stack, Busy(false), i, before, after);
    case Descend(_) =>
  }

  /** A frame resolves the dependencies of its component one after the other, in
      the order listed and without leaving any out. */
  lemma {:induction false} ResolvedInOrder(g: Graph, states: seq<System>, events: seq<Event>, n: nat, t: TaskId, i: nat)
    requires Run(g, states, events) && n < |states| && t in states[n].tasks && i < |states[n].tasks[t]|
    ensures InStage(g, states[n].tasks[t][i], Resolved(g, states, events, n, t, i))
  {
    if n > 0 {
      var s, e, s' := states[n - 1], events[n - 1], states[n];
      StepOfRun(g, states, events, n - 1);
      if t in s.tasks && i < |s.tasks[t]| {
        ResolvedInOrder(g, states, events, n - 1, t, i);
        assert StackSound(g, s.tasks[t]);
        if e.task == t {
          OwnStage(g, s, e, s', i, Resolved(g, states, events, n - 1, t, i));
        }
      } else {
        NewFrameWaits(g, s, e, s', t, i);
      }
    }
  }

  lemma NewFrameWaits(g: Graph, s: System, e: Event, s': System, t: TaskId, i: nat)
    requires Step(g, s, e, s') && t in s'.tasks && i < |s'.tasks[t]|
    requires t !in s.tasks || |s.tasks[t]| <= i
    ensures s'.tasks[t][i].stage.Waiting?
  {
  }

  /** An instance is built only once all its dependencies are resolved. */
  lemma BuiltWithAllDependencies(g: Graph, states: seq<System>, events: seq<Event>, n: nat, t: TaskId)
    requires Run(g, states, events) && n < |events| && events[n] == Build(t)
    ensures Active(states[n], t)
    ensures var stack := states[n].tasks[t];
      Resolved(g, states, events, n, t, |stack| - 1) == Deps(g, Top(stack).component)
  {
    StepOfRun(g, states, events, n);
    var stack := states[n].tasks[t];
    ResolvedInOrder(g, states, events, n, t, |stack| - 1);
  }
}
