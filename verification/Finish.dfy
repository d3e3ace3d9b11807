/**
 Runs of the engine that go round by round come to an end: after as many rounds as there are tasks, every task has
 succeeded, and the next evaluation in time submits the completion.
 */
module Finish {
  import opened Types
  import opened Projection
  import Cache
  import opened Graph
  import opened Validate
  import opened Scheduler
  import opened ControlFlow
  import opened Controller
  import opened Engine
  import opened Rounds
  import Progress

  // ---------- Runs in rounds ----------

  /** An evaluation, and the children and results that its accepted tasks append. */
  datatype Turn = Turn(e: Evaluation, work: seq<Action>)

  function ActionsOf(turns: seq<Turn>): seq<Action> {
    if turns == [] then [] else
    var last := |turns| - 1;
    ActionsOf(turns[..last]) + [Evaluate(turns[last].e)] + turns[last].work
  }

  function Reached(key: Aggregate, s0: State, turns: seq<Turn>): State {
    After(key, s0, ActionsOf(turns))
  }

  /** Turn i evaluates the fold of the log, the executor accepts something if anything is ready, and by the end of the
      turn everything that was accepted is recorded. */
  ghost predicate TurnAt(key: Aggregate, s0: State, turns: seq<Turn>, i: nat) {
    i < |turns| ==>
      && IsWork(turns[i].work)
      && Cache.IsFold(turns[i].e.inv, key, Reached(key, s0, turns[..i]).log)
      && (Horizon(turns[i].e.inv) != {} ==> turns[i].e.accepted != [])
      && Quiet(Reached(key, s0, turns[..i + 1]))
  }

  ghost predicate IsTurns(key: Aggregate, s0: State, turns: seq<Turn>) {
    IsRun(key, s0, ActionsOf(turns)) && forall i: nat :: TurnAt(key, s0, turns, i)
  }

  lemma PrefixIsTurns(key: Aggregate, s0: State, turns: seq<Turn>)
    requires IsTurns(key, s0, turns) && turns != []
    ensures IsTurns(key, s0, turns[..|turns| - 1])
  {
    hide Cache.IsFold, Horizon, Quiet, Reached, IsRun, After;
    var last := |turns| - 1;
    var before, rest := turns[..last], [Evaluate(turns[last].e)] + turns[last].work;
    assert ActionsOf(turns) == ActionsOf(before) + rest;
    RunConcat(key, s0, ActionsOf(before), rest);
    forall i: nat ensures TurnAt(key, s0, before, i) {
      assert TurnAt(key, s0, turns, i);
      if i < last { assert before[..i] == turns[..i] && before[..i + 1] == turns[..i + 1]; }
    }
  }

  // ---------- Nothing fails and nothing ends the invocation ----------

  ghost predicate Orderly(log: seq<Event>) {
    && |log| >= 1 && log[0].data.InvocationCreated?
    && forall i | 1 <= i < |log| :: log[i].data.InvocationTaskAdded? || log[i].data.TaskRunSucceeded?
  }

  lemma {:induction false} WorkIsOrderly(key: Aggregate, s: State, work: seq<Action>)
    requires IsRun(key, s, work) && IsWork(work) && Orderly(s.log)
    ensures Orderly(After(key, s, work).log)
  {
    if work != [] {
      WorkIsOrderly(key, s, work[..|work| - 1]);
    }
  }

  lemma {:induction false} TurnsAreOrderly(key: Aggregate, wf: Workflow, s0: State, turns: seq<Turn>)
    requires IsInitial(key, wf, s0) && IsTurns(key, s0, turns)
    ensures Orderly(Reached(key, s0, turns).log) && NoFailures(Reached(key, s0, turns).log)
    ensures Quiet(Reached(key, s0, turns))
  {
    if turns != [] {
      var last := |turns| - 1;
      var before, e, work := ActionsOf(turns[..last]), turns[last].e, turns[last].work;
      PrefixIsTurns(key, s0, turns);
      TurnsAreOrderly(key, wf, s0, turns[..last]);
      assert TurnAt(key, s0, turns, last) && turns[..last + 1] == turns;
      LastTurnIsOrderly(key, s0, before, e, work);
    }
  }

  lemma LastTurnIsOrderly(key: Aggregate, s0: State, before: seq<Action>, e: Evaluation, work: seq<Action>)
    requires IsRun(key, s0, before + [Evaluate(e)] + work) && IsWork(work) && Orderly(After(key, s0, before).log)
    ensures Orderly(After(key, s0, before + [Evaluate(e)] + work).log)
  {
    RunConcat(key, s0, before + [Evaluate(e)], work);
    OneMoreAction(key, s0, before, Evaluate(e));
    WorkIsOrderly(key, After(key, s0, before + [Evaluate(e)]), work);
  }

  // ---------- The snapshots of the turns are rounds ----------

  function Snapshots(turns: seq<Turn>, inv: Invocation): seq<Invocation> {
    seq(|turns|, i requires 0 <= i < |turns| => turns[i].e.inv) + [inv]
  }

  /** The last turn leads from the snapshot that it evaluates to the fold after it. */
  lemma LastTurnIsRound(key: Aggregate, wf: Workflow, s0: State, turns: seq<Turn>, inv: Invocation)
    requires IsInitial(key, wf, s0) && IsTurns(key, s0, turns) && turns != []
    requires Cache.IsFold(inv, key, Reached(key, s0, turns).log)
    ensures Progress.RoundFollows(wf, turns[|turns| - 1].e.inv, inv)
  {
    var last := |turns| - 1;
    var before, e, work := ActionsOf(turns[..last]), turns[last].e, turns[last].work;
    TurnsAreOrderly(key, wf, s0, turns);
    PrefixIsTurns(key, s0, turns);
    TurnsAreOrderly(key, wf, s0, turns[..last]);
    assert TurnAt(key, s0, turns, last) && turns[..last + 1] == turns;
    hide Cache.IsFold, Horizon, Quiet, Progress.Round, IsInitial, IsRun, After, NoFailures, Orderly;
    var parents := RoundOfRun(key, wf, s0, before, e, work, inv);
  }

  lemma FirstIsFresh(key: Aggregate, spec: WorkflowSpec, wf: Workflow, s0: State, inv: Invocation)
    requires ValidSpec(spec) && Parses(spec, wf)
    requires IsInitial(key, wf, s0) && Cache.IsFold(inv, key, s0.log)
    ensures Progress.IsFresh(wf, inv)
  {
    QuietFold(key, wf, s0, [], inv);
    assert inv.tasks.Keys == {} && inv.dynamicTasks.Keys == {};
    Progress.ValidIsFresh(spec, wf, inv);
  }

  lemma {:induction false} TurnsAreRounds(
    key: Aggregate, spec: WorkflowSpec, wf: Workflow, s0: State, turns: seq<Turn>, inv: Invocation)
    requires ValidSpec(spec) && Parses(spec, wf)
    requires IsInitial(key, wf, s0) && IsTurns(key, s0, turns)
    requires Cache.IsFold(inv, key, Reached(key, s0, turns).log)
    ensures Progress.IsRounds(wf, Snapshots(turns, inv))
  {
    if turns == [] {
      FirstIsFresh(key, spec, wf, s0, inv);
    } else {
      var last := |turns| - 1;
      assert TurnAt(key, s0, turns, last);
      PrefixIsTurns(key, s0, turns);
      TurnsAreRounds(key, spec, wf, s0, turns[..last], turns[last].e.inv);
      LastTurnIsRound(key, wf, s0, turns, inv);
      hide Progress.RoundFollows, Progress.IsFresh, IsTurns, Cache.IsFold;
      OneMoreRound(wf, turns, inv);
    }
  }

  lemma OneMoreRound(wf: Workflow, turns: seq<Turn>, inv: Invocation)
    requires turns != [] && Progress.RoundFollows(wf, turns[|turns| - 1].e.inv, inv)
    requires Progress.IsRounds(wf, Snapshots(turns[..|turns| - 1], turns[|turns| - 1].e.inv))
    ensures Progress.IsRounds(wf, Snapshots(turns, inv))
  {
    hide Progress.RoundFollows, Progress.IsFresh;
    var last := |turns| - 1;
    var before, all := Snapshots(turns[..last], turns[last].e.inv), Snapshots(turns, inv);
    assert all == before + [inv];
  }

  // ---------- Flows without rivals ----------

  /** The specification has n require p dynamically. */
  predicate DynamicIn(wf: Workflow, p: Id, n: Id) {
    n in wf.tasks && p in wf.tasks[n].spec.requirements && wf.tasks[n].spec.requirements[p].DynamicOutput?
  }

  /** No task that returned a flow is required dynamically in the specification, but by a task named like its child. */
  ghost predicate FlowsFreely(wf: Workflow, flowed: set<Id>) {
    forall t, n | t in flowed && DynamicIn(wf, t, n) :: n == ChildId(t)
  }

  lemma ParentInFold(wf: Workflow, inv: Invocation, flowed: set<Id>, p: Id, n: Id)
    requires FoldTasks(wf, inv, flowed) && IsParent(OpenDeps(inv), p, n)
    ensures (p in flowed && n == ChildId(p)) || DynamicIn(wf, p, n)
  {
    FoldBoard(wf, inv, flowed, n);
    assert IsParent(Progress.BoardOf(inv).deps, p, n);
    hide Progress.BoardOf, FoldTasks, OpenDeps;
    if n in Progress.Children(flowed) {
      var t :| t in flowed && n == ChildId(t);
      FoldBoard(wf, inv, flowed, t);
    }
  }

  lemma StaticHaveNoRivals(spec: WorkflowSpec, wf: Workflow, p: Id, a: Id, c: Id)
    requires ValidSpec(spec) && Parses(spec, wf) && DynamicIn(wf, p, a) && DynamicIn(wf, p, c)
    ensures a == c
  {
    AcyclicHasSingleChildren(SpecDeps(spec));
    assert IsParent(SpecDeps(spec), p, a) && IsParent(SpecDeps(spec), p, c);
  }

  lemma FoldHasNoRivals(spec: WorkflowSpec, wf: Workflow, inv: Invocation, flowed: set<Id>)
    requires ValidSpec(spec) && Parses(spec, wf) && FoldTasks(wf, inv, flowed) && FlowsFreely(wf, flowed)
    ensures SingleChild(OpenDeps(inv))
  {
    hide FoldTasks, OpenDeps, ValidSpec, Parses, DynamicIn, IsParent, ChildId;
    forall p, a, c | IsParent(OpenDeps(inv), p, a) && IsParent(OpenDeps(inv), p, c) ensures a == c {
      ParentInFold(wf, inv, flowed, p, a);
      ParentInFold(wf, inv, flowed, p, c);
      if p !in flowed { StaticHaveNoRivals(spec, wf, p, a, c); }
    }
  }

  lemma FlowedGrows(key: Aggregate, wf: Workflow, s0: State, turns: seq<Turn>)
    requires IsInitial(key, wf, s0) && IsTurns(key, s0, turns) && turns != []
    ensures Reached(key, s0, turns[..|turns| - 1]).flowed <= Reached(key, s0, turns).flowed
  {
    var last := |turns| - 1;
    PrefixIsTurns(key, s0, turns);
    TurnsAreOrderly(key, wf, s0, turns[..last]);
    assert TurnAt(key, s0, turns, last);
    hide IsRun, After, Cache.IsFold, Horizon, Quiet;
    RoundStates(key, s0, ActionsOf(turns[..last]), turns[last].e, turns[last].work);
  }

  /** Turns in which flows come only from such tasks leave no two open dynamic children of one task. */
  lemma {:induction false} TurnsHaveNoRivals(
    key: Aggregate, spec: WorkflowSpec, wf: Workflow, s0: State, turns: seq<Turn>, inv: Invocation)
    requires ValidSpec(spec) && Parses(spec, wf)
    requires IsInitial(key, wf, s0) && IsTurns(key, s0, turns)
    requires Cache.IsFold(inv, key, Reached(key, s0, turns).log) && FlowsFreely(wf, Reached(key, s0, turns).flowed)
    ensures Progress.NoRivals(Snapshots(turns, inv))
  {
    hide Cache.IsFold, ValidSpec, Parses, FlowsFreely, OpenDeps, SingleChild;
    FoldOfTurns(key, wf, s0, turns, inv);
    FoldHasNoRivals(spec, wf, inv, Reached(key, s0, turns).flowed);
    if turns != [] {
      var last := |turns| - 1;
      assert TurnAt(key, s0, turns, last);
      PrefixIsTurns(key, s0, turns);
      FewerFlowFreely(key, wf, s0, turns);
      hide IsTurns, Reached, IsInitial;
      TurnsHaveNoRivals(key, spec, wf, s0, turns[..last], turns[last].e.inv);
      assert Snapshots(turns, inv) == Snapshots(turns[..last], turns[last].e.inv) + [inv];
    }
  }

  lemma FoldOfTurns(key: Aggregate, wf: Workflow, s0: State, turns: seq<Turn>, inv: Invocation)
    requires IsInitial(key, wf, s0) && IsTurns(key, s0, turns) && Cache.IsFold(inv, key, Reached(key, s0, turns).log)
    ensures FoldTasks(wf, inv, Reached(key, s0, turns).flowed)
  {
    TurnsAreOrderly(key, wf, s0, turns);
    hide Cache.IsFold, IsRun, After, NoFailures, Quiet, FoldTasks, Orderly;
    QuietFold(key, wf, s0, ActionsOf(turns), inv);
  }

  lemma FewerFlowFreely(key: Aggregate, wf: Workflow, s0: State, turns: seq<Turn>)
    requires IsInitial(key, wf, s0) && IsTurns(key, s0, turns) && turns != []
    requires FlowsFreely(wf, Reached(key, s0, turns).flowed)
    ensures FlowsFreely(wf, Reached(key, s0, turns[..|turns| - 1]).flowed)
  {
    FlowedGrows(key, wf, s0, turns);
    hide IsTurns, Reached, DynamicIn;
  }

  // ---------- They come to an end ----------

  /** If only static tasks return flows, there are at most two tasks per static one. */
  lemma TasksAfterTurns(key: Aggregate, wf: Workflow, s0: State, turns: seq<Turn>, inv: Invocation)
    requires IsInitial(key, wf, s0) && IsTurns(key, s0, turns) && Cache.IsFold(inv, key, Reached(key, s0, turns).log)
    requires Reached(key, s0, turns).flowed <= wf.tasks.Keys
    ensures |inv.Tasks().Keys| <= 2 * |wf.tasks.Keys|
  {
    FoldOfTurns(key, wf, s0, turns, inv);
    hide IsTurns, Cache.IsFold, Reached;
    Progress.AtMostTwice(wf, inv);
  }

  /** After as many rounds as there are tasks, the fold of the log shows every static and dynamic task as succeeded. */
  lemma RunFinishes(key: Aggregate, spec: WorkflowSpec, wf: Workflow, s0: State, turns: seq<Turn>, inv: Invocation)
    requires ValidSpec(spec) && Parses(spec, wf)
    requires IsInitial(key, wf, s0) && IsTurns(key, s0, turns) && |turns| >= |inv.Tasks().Keys|
    requires Cache.IsFold(inv, key, Reached(key, s0, turns).log) && Progress.NoRivals(Snapshots(turns, inv))
    ensures AllSucceeded(inv)
  {
    TurnsAreRounds(key, spec, wf, s0, turns, inv);
    hide IsTurns, Cache.IsFold, Progress.IsRounds, AllSucceeded, Progress.NoRivals;
    Progress.AllTasksFinish(wf, Snapshots(turns, inv));
  }

  lemma InProgressShows(key: Aggregate, inv: Invocation, log: seq<Event>)
    requires Orderly(log) && AllAccepted(key, log) && Cache.IsFold(inv, key, log)
    ensures inv.status == InProgress && inv.metadata.id == key.id
  {
    LastIsFirst(log, StatusField);
    LastIsFirst(log, IdField);
    assert Accepted(key, log[0]);
    assert Read(inv, StatusField) == StatusValue(inv.status) && Read(inv, IdField) == IdValue(inv.metadata.id);
  }

  lemma {:induction false} LastIsFirst(log: seq<Event>, f: Field)
    requires Orderly(log) && (f == StatusField || f == IdField)
    ensures LastWrite(log, f) == Write(log[0], f)
  {
    if |log| > 1 {
      LastIsFirst(log[..|log| - 1], f);
    } else {
      assert log[..0] == [];
    }
  }

  /** Evaluating that fold in time submits the completion of the invocation. */
  lemma RunCompletes(
    key: Aggregate, spec: WorkflowSpec, wf: Workflow, s0: State, turns: seq<Turn>, e: Evaluation)
    requires ValidSpec(spec) && Parses(spec, wf)
    requires IsInitial(key, wf, s0) && IsTurns(key, s0, turns) && |turns| >= |e.inv.Tasks().Keys|
    requires Progress.NoRivals(Snapshots(turns, e.inv))
    requires IsEvaluation(key.id, Reached(key, s0, turns).phase.Keys, e)
    requires Cache.IsFold(e.inv, key, Reached(key, s0, turns).log) && e.groupTasks <= 0 && e.now <= Deadline(e.inv)
    ensures exists x :: x in e.submitted && x.CompleteInvocation?
  {
    RunFinishes(key, spec, wf, s0, turns, e.inv);
    FoldIsInProgress(key, wf, s0, turns, e.inv);
    hide IsTurns, Reached, Cache.IsFold, AllSucceeded, IsEvaluation;
    CompletesOnlyWhenSucceeded(key.id, Reached(key, s0, turns).phase.Keys, e);
  }

  lemma FoldIsInProgress(key: Aggregate, wf: Workflow, s0: State, turns: seq<Turn>, inv: Invocation)
    requires IsInitial(key, wf, s0) && IsTurns(key, s0, turns)
    requires Cache.IsFold(inv, key, Reached(key, s0, turns).log)
    ensures inv.status == InProgress && inv.metadata.id == key.id && inv.spec.workflow == Some(wf)
    ensures Started(inv, Reached(key, s0, turns).phase.Keys)
  {
    TurnsAreOrderly(key, wf, s0, turns);
    hide IsTurns, IsRun, After, NoFailures, Quiet, Cache.IsFold, Orderly;
    QuietFold(key, wf, s0, ActionsOf(turns), inv);
    RunKeepsInv(key, wf, s0, ActionsOf(turns));
    InProgressShows(key, inv, Reached(key, s0, turns).log);
  }
}
