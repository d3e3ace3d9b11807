/**
 A run in which a task is submitted before the output that it requires is there: a task returns a flow, its child
 returns a flow again, and the task that requires the first one does not wait for the grandchild. A child runs a flow as
 an invocation of its own, whose output is a flow only if the `output` that the specification sets on its output task is
 one: such an output is recorded in place of what the function returned, and no child is added for it there.
 */
module Grandchild {
  import opened Types
  import opened Projection
  import Cache
  import opened Graph
  import opened Scheduler
  import opened ControlFlow
  import opened Controller
  import opened Engine
  import opened Completion

  const P: Id := "P"
  const N: Id := "N"
  const C: Id := ChildId(P)
  const G: Id := ChildId(C)

  /** Two tasks, of which N requires P. */
  const WF: Workflow := Workflow(
    map[P := Task(P, TaskSpec("f", map[], map[])), N := Task(N, TaskSpec("f", map[], map[P := NilParams]))], N)

  const FLOW: Option<TypedValue> := Some(TypedValue(map[], WorkflowMessage(WorkflowSpec("", map[], ""))))

  function Child(t: Id): Task {
    Task(ChildId(t), TaskSpec("f", map[], map[t := DynamicOutput]))
  }

  lemma Names()
    ensures |P| == 1 && |N| == 1 && |C| == 7 && |G| == 13 && P != N
  {
  }

  // ---------- Snapshots ----------

  /** The snapshot shows these tasks as succeeded with a flow, and these dynamic tasks. */
  ghost predicate Shows(inv: Invocation, key: Aggregate, succeeded: set<Id>, children: map<Id, Task>) {
    && KeyOf(inv) == key && inv.spec == InvocationSpec(Some(WF), None) && inv.status == InProgress
    && inv.dynamicTasks == children && inv.tasks.Keys == succeeded
    && forall id | id in inv.tasks :: inv.tasks[id].status == TaskSucceeded
  }

  function Created(key: Aggregate): Event {
    Event(key, None, 1, InvocationCreated(InvocationSpec(Some(WF), None)), false)
  }

  lemma ShowsCreated(key: Aggregate) returns (inv: Invocation)
    requires key.kind == InvocationType && key.id != ""
    ensures Cache.IsFold(inv, key, [Created(key)]) && Shows(inv, key, {}, map[])
    ensures ProjectEvent(EmptyInvocation(key.id, 0), Created(key), 0) == Ok(inv)
  {
    var base := EmptyInvocation(key.id, 0);
    assert Cache.IsFold(base, key, []);
    Cache.FoldOneMore(base, key, [], Created(key), 0);
    assert [] + [Created(key)] == [Created(key)];
    inv := ProjectEvent(base, Created(key), 0).value;
  }

  lemma ShowsAdded(inv: Invocation, key: Aggregate, log: seq<Event>, succeeded: set<Id>, children: map<Id, Task>, t: Id)
    returns (inv': Invocation)
    requires key.id != "" && Cache.IsFold(inv, key, log) && Shows(inv, key, succeeded, children)
    ensures Cache.IsFold(inv', key, log + [InvocationEvent(key, InvocationTaskAdded(Child(t)), 1)])
    ensures Shows(inv', key, succeeded, children[ChildId(t) := Child(t)])
  {
    var e := InvocationEvent(key, InvocationTaskAdded(Child(t)), 1);
    Cache.FoldOneMore(inv, key, log, e, 0);
    inv' := ProjectEvent(inv, e, 0).value;
  }

  lemma ShowsSucceeded(inv: Invocation, key: Aggregate, log: seq<Event>, succeeded: set<Id>, children: map<Id, Task>, t: Id)
    returns (inv': Invocation)
    requires key.id != "" && t != "" && Cache.IsFold(inv, key, log) && Shows(inv, key, succeeded, children)
    ensures Cache.IsFold(inv', key, log + [RunEvent(key, t, TaskRunSucceeded(FLOW, None), 1)])
    ensures Shows(inv', key, succeeded + {t}, children)
    ensures ProjectEvent(inv, RunEvent(key, t, TaskRunSucceeded(FLOW, None), 1), 0) == Ok(inv')
  {
    var e := RunEvent(key, t, TaskRunSucceeded(FLOW, None), 1);
    Cache.FoldOneMore(inv, key, log, e, 0);
    inv' := ProjectEvent(inv, e, 0).value;
  }

  // ---------- Evaluations ----------

  /** Everything on the horizon is submitted and accepted. */
  function Everything(inv: Invocation, ids: seq<Id>): Evaluation {
    Evaluation(inv, 0, 0, [], HorizonOnly, (set id | id in ids), Runs(ids), ids)
  }

  lemma RunsAre(ids: seq<Id>)
    ensures forall x: Submission :: x in Runs(ids) <==> x.RunTask? && x.id in ids
  {
    forall x: Submission | x.RunTask? && x.id in ids ensures x in Runs(ids) {
      var i :| 0 <= i < |ids| && ids[i] == x.id;
      assert Runs(ids)[i] == x;
    }
  }

  lemma EvaluatesTo(key: Aggregate, inv: Invocation, succeeded: set<Id>, children: map<Id, Task>, ids: seq<Id>, parents: map<Id, Id>)
    requires Shows(inv, key, succeeded, children) && N in OpenDeps(inv) && Distinct(ids)
    requires Chooses(OpenDeps(inv), parents) && SingleParent(OpenDeps(inv))
    requires forall id :: id in ids <==> id in Horizon(inv)
    ensures IsEvaluation(key.id, succeeded, Everything(inv, ids))
  {
    RunsAre(ids);
    ChoiceBounds(OpenDeps(inv), parents);
    assert Plans(HorizonOnly, inv, Runs(ids), parents, map[]);
    assert forall id | id in Horizon(inv) :: id in OpenDeps(inv);
    assert N in inv.Tasks() && N !in inv.tasks;
  }

  // The graphs of the open tasks in the three snapshots that are evaluated.

  lemma FirstGraph(p: Id, n: Id)
    requires p != n
    ensures var open: Deps := map[p := map[], n := map[p := NilParams]];
      Chooses(open, map[]) && SingleParent(open) && forall id :: id in [p] <==> id in RootSet(GraphOf(open))
  {
    var open: Deps := map[p := map[], n := map[p := NilParams]];
    forall id ensures id in [p] <==> id in RootSet(GraphOf(open)) {
      RootIff(open, id);
      assert p in open && open[p] == map[] && p in open[n];
    }
  }

  lemma SecondGraph(p: Id, n: Id, c: Id)
    requires p != n && p != c && n != c
    ensures var open: Deps := map[n := map[p := NilParams], c := map[p := DynamicOutput]];
      Chooses(open, map[c := p]) && SingleParent(open) && forall id :: id in [c] <==> id in RootSet(GraphOf(open))
  {
    var open: Deps := map[n := map[p := NilParams], c := map[p := DynamicOutput]];
    assert IsParent(open, p, c);
    forall id ensures id in [c] <==> id in RootSet(GraphOf(open)) {
      RootIff(open, id);
      assert p in open[n] && p !in open && open[c].Keys == {p};
    }
  }

  lemma ThirdGraph(p: Id, n: Id, c: Id, g: Id)
    requires p != n && p != g && n != c && n != g && c != g && p != c
    ensures var open: Deps := map[n := map[p := NilParams], g := map[c := DynamicOutput]];
      Chooses(open, map[g := c]) && SingleParent(open) && forall id :: id in [n, g] <==> id in RootSet(GraphOf(open))
  {
    var open: Deps := map[n := map[p := NilParams], g := map[c := DynamicOutput]];
    assert IsParent(open, c, g);
    forall id ensures id in [n, g] <==> id in RootSet(GraphOf(open)) {
      RootIff(open, id);
      assert open[n].Keys == {p} && open[g].Keys == {c} && p !in open && c !in open;
    }
  }

  lemma FirstOpen(key: Aggregate, inv: Invocation)
    requires Shows(inv, key, {}, map[])
    ensures OpenDeps(inv) == map[P := map[], N := map[P := NilParams]]
  {
    Names();
  }

  lemma FirstHorizon(key: Aggregate, inv: Invocation)
    requires Shows(inv, key, {}, map[])
    ensures IsEvaluation(key.id, {}, Everything(inv, [P]))
  {
    Names();
    FirstOpen(key, inv);
    FirstGraph(P, N);
    EvaluatesTo(key, inv, {}, map[], [P], map[]);
  }

  lemma SecondOpen(key: Aggregate, inv: Invocation)
    requires Shows(inv, key, {P}, map[C := Child(P)])
    ensures OpenDeps(inv) == map[N := map[P := NilParams], C := map[P := DynamicOutput]]
  {
    Names();
  }

  lemma SecondHorizon(key: Aggregate, inv: Invocation)
    requires Shows(inv, key, {P}, map[C := Child(P)])
    ensures IsEvaluation(key.id, {P}, Everything(inv, [C]))
  {
    Names();
    SecondOpen(key, inv);
    SecondGraph(P, N, C);
    EvaluatesTo(key, inv, {P}, map[C := Child(P)], [C], map[C := P]);
  }

  lemma ThirdOpen(key: Aggregate, inv: Invocation)
    requires Shows(inv, key, {P, C}, map[C := Child(P), G := Child(C)])
    ensures OpenDeps(inv) == map[N := map[P := NilParams], G := map[C := DynamicOutput]]
  {
    Names();
    hide ChildId;
    assert OpenDeps(inv).Keys == {N, G};
  }

  lemma ThirdHorizon(key: Aggregate, inv: Invocation)
    requires Shows(inv, key, {P, C}, map[C := Child(P), G := Child(C)])
    ensures IsEvaluation(key.id, {P, C}, Everything(inv, [N, G]))
  {
    Names();
    ThirdOpen(key, inv);
    ThirdGraph(P, N, C, G);
    EvaluatesTo(key, inv, {P, C}, map[C := Child(P), G := Child(C)], [N, G], map[G := C]);
  }

  // ---------- The run ----------

  /** Outputs are not transformed: what is recorded is a flow exactly when a child was added for it. */
  ghost predicate KeepsFlows(key: Aggregate, s: State, actions: seq<Action>) {
    actions == [] ||
    var before, a := actions[..|actions| - 1], actions[|actions| - 1];
    && KeepsFlows(key, s, before)
    && (a.Succeed? ==> var phase := After(key, s, before).phase;
         a.id in phase && (IsControlFlow(a.output) <==> phase[a.id] == ChildAdded))
  }

  /** The run so far, the state it leads to and the fold of its log. */
  ghost predicate Reaches(key: Aggregate, start: State, actions: seq<Action>, now: State, inv: Invocation) {
    && IsRun(key, start, actions) && KeepsFlows(key, start, actions) && After(key, start, actions) == now
    && KeyOf(inv) == key && Cache.IsFold(inv, key, now.log)
  }

  lemma Evaluating(key: Aggregate, start: State, before: seq<Action>, then_: State, inv: Invocation, t: Id)
    returns (actions: seq<Action>, now: State)
    requires Reaches(key, start, before, then_, inv) && IsEvaluation(key.id, then_.phase.Keys, Everything(inv, [t]))
    ensures Reaches(key, start, actions, now, inv)
    ensures now == then_.(phase := then_.phase[t := Running])
  {
    hide IsEvaluation, Cache.IsFold, IsCached;
    var a := Evaluate(Everything(inv, [t]));
    FoldIsCached(inv, key, then_.log);
    OneMoreAction(key, start, before, a);
    actions := before + [a];
    now := Apply(key, then_, a);
    assert actions[..|actions| - 1] == before;
    assert now.phase == then_.phase[t := Running];
  }

  function Added(key: Aggregate, t: Id): Event {
    InvocationEvent(key, InvocationTaskAdded(Child(t)), 1)
  }

  function Done(key: Aggregate, t: Id): Event {
    RunEvent(key, t, TaskRunSucceeded(FLOW, None), 1)
  }

  lemma OneMoreReached(key: Aggregate, start: State, before: seq<Action>, then_: State, a: Action)
    requires IsRun(key, start, before) && KeepsFlows(key, start, before) && After(key, start, before) == then_
    requires Enabled(key, then_, a)
    requires a.Succeed? ==> (IsControlFlow(a.output) <==> then_.phase[a.id] == ChildAdded)
    ensures IsRun(key, start, before + [a]) && KeepsFlows(key, start, before + [a])
    ensures After(key, start, before + [a]) == Apply(key, then_, a)
  {
    OneMoreAction(key, start, before, a);
    assert (before + [a])[..|before|] == before;
  }

  /** A task that runs returns a flow: its child is added and its success recorded. */
  lemma Flowing(key: Aggregate, start: State, before: seq<Action>, then_: State, inv0: Invocation,
                succeeded: set<Id>, children: map<Id, Task>, t: Id)
    returns (actions: seq<Action>, now: State, inv: Invocation)
    requires Reaches(key, start, before, then_, inv0) && Shows(inv0, key, succeeded, children)
    requires key.id != "" && t != "" && t in then_.phase && then_.phase[t] == Running
    ensures Reaches(key, start, actions, now, inv) && Shows(inv, key, succeeded + {t}, children[ChildId(t) := Child(t)])
    ensures now.log == then_.log + [Added(key, t)] + [Done(key, t)] && now.phase.Keys == then_.phase.Keys
  {
    hide IsRun, After, KeepsFlows, Cache.IsFold, ChildId;
    var add, succeed := AddDynamic(t, Child(t), 1), Succeed(t, FLOW, None, 1);
    OneMoreReached(key, start, before, then_, add);
    OneMoreReached(key, start, before + [add], Apply(key, then_, add), succeed);
    actions := before + [add] + [succeed];
    now := Apply(key, Apply(key, then_, add), succeed);
    var mid := ShowsAdded(inv0, key, then_.log, succeeded, children, t);
    inv := ShowsSucceeded(mid, key, then_.log + [Added(key, t)], succeeded, children[ChildId(t) := Child(t)], t);
  }

  /** A task is submitted and returns a flow. */
  lemma OneTask(key: Aggregate, start: State, before: seq<Action>, then_: State, inv0: Invocation,
                succeeded: set<Id>, children: map<Id, Task>, t: Id)
    returns (actions: seq<Action>, now: State, inv: Invocation)
    requires Reaches(key, start, before, then_, inv0) && Shows(inv0, key, succeeded, children)
    requires IsEvaluation(key.id, then_.phase.Keys, Everything(inv0, [t])) && key.id != "" && t != ""
    ensures Reaches(key, start, actions, now, inv) && Shows(inv, key, succeeded + {t}, children[ChildId(t) := Child(t)])
    ensures now.log == then_.log + [Added(key, t)] + [Done(key, t)] && now.phase.Keys == then_.phase.Keys + {t}
  {
    var evaluated, mid := Evaluating(key, start, before, then_, inv0, t);
    actions, now, inv := Flowing(key, start, evaluated, mid, inv0, succeeded, children, t);
  }

  lemma FirstPart(key: Aggregate) returns (start: State, actions: seq<Action>, now: State, inv: Invocation)
    requires key.kind == InvocationType && key.id != ""
    ensures IsInitial(key, WF, start) && Reaches(key, start, actions, now, inv)
    ensures Shows(inv, key, {P}, map[C := Child(P)])
    ensures now.phase.Keys == {P} && now.log == [Created(key)] + [Added(key, P)] + [Done(key, P)]
  {
    start := State([Created(key)], map[], {});
    var inv0 := ShowsCreated(key);
    FirstHorizon(key, inv0);
    actions, now, inv := OneTask(key, start, [], start, inv0, {}, map[], P);
    assert {} + {P} == {P} && map[][C := Child(P)] == map[C := Child(P)];
  }

  lemma SecondPart(key: Aggregate, start: State, before: seq<Action>, then_: State, inv1: Invocation)
    returns (actions: seq<Action>, now: State, inv: Invocation)
    requires key.kind == InvocationType && key.id != "" && Reaches(key, start, before, then_, inv1)
    requires Shows(inv1, key, {P}, map[C := Child(P)]) && then_.phase.Keys == {P}
    ensures Reaches(key, start, actions, now, inv)
    ensures Shows(inv, key, {P, C}, map[C := Child(P), G := Child(C)])
    ensures now.phase.Keys == {P, C} && now.log == then_.log + [Added(key, C)] + [Done(key, C)]
  {
    Names();
    SecondHorizon(key, inv1);
    actions, now, inv := OneTask(key, start, before, then_, inv1, {P}, map[C := Child(P)], C);
    assert {P} + {C} == {P, C} && map[C := Child(P)][G := Child(C)] == map[C := Child(P), G := Child(C)];
  }

  /** The grandchild has been added and is not recorded. */
  lemma GrandchildAwaited(key: Aggregate, log: seq<Event>)
    requires log == [Created(key)] + [Added(key, P)] + [Done(key, P)] + [Added(key, C)] + [Done(key, C)]
    requires key.kind == InvocationType
    ensures AwaitsBelow(log, P, 2)
  {
    Names();
    assert log[1].data.task.id == C && log[3].data.task.id == G;
    assert AddedIn(log, C) && AddedIn(log, G);
    assert log[2] == Done(key, P) && log[4] == Done(key, C);
    assert FlowIn(log, P) && FlowIn(log, C);
    assert BelowIn(log, G, G, 0) && BelowIn(log, C, G, 1) && BelowIn(log, P, G, 2);
    assert !RecordedIn(log, G);
  }

  /** There is a run in which N is submitted while the output of P, which it requires, is pending. */
  lemma OutputCanBePending(key: Aggregate, order: seq<Id>) returns (start: State, actions: seq<Action>, e: Evaluation)
    requires key.kind == InvocationType && key.id != ""
    ensures IsInitial(key, WF, start) && ValidWorkflow(WF) && IsRun(key, start, actions) && KeepsFlows(key, start, actions)
    ensures Enabled(key, After(key, start, actions), Evaluate(e)) && RunTask(N) in e.submitted
    ensures N in e.inv.Tasks() && P in e.inv.Tasks()[N].spec.requirements
    ensures IsOrder(e.inv, order) ==> ChildrenExtend(e.inv) && Pending(e.inv, order, P)
  {
    hide IsRun, After, KeepsFlows, Pending, AwaitsBelow, Shows, IsInitial;
    var before, then_, inv1, now, inv;
    start, before, then_, inv1 := FirstPart(key);
    actions, now, inv := SecondPart(key, start, before, then_, inv1);
    e := Everything(inv, [N, G]);
    LastEvaluation(key, now, inv);
    if IsOrder(inv, order) {
      GrandchildAwaited(key, now.log);
      OutputPendingIff(key, WF, start, actions, e, N, P, order);
    }
  }

  lemma LastEvaluation(key: Aggregate, now: State, inv: Invocation)
    requires Shows(inv, key, {P, C}, map[C := Child(P), G := Child(C)]) && now.phase.Keys == {P, C}
    requires Cache.IsFold(inv, key, now.log)
    ensures var e := Everything(inv, [N, G]);
      && Enabled(key, now, Evaluate(e)) && RunTask(N) in e.submitted
      && N in inv.Tasks() && inv.Tasks()[N].spec.requirements == map[P := NilParams]
  {
    Names();
    ThirdHorizon(key, inv);
    FoldIsCached(inv, key, now.log);
    RunsAre([N, G]);
  }
}
