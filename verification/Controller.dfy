/**
 The controller of one invocation. Each evaluation looks at a snapshot, which may be stale, and submits work to the
 executor: complete or fail the invocation, or prewarm and run tasks.
 */
module Controller {
  import opened Types
  import opened Graph
  import opened Scheduler
  import opened ControlFlow

  /** Ten minutes, in seconds. */
  const DEFAULT_MAX_RUNTIME: nat := 600

  datatype FailReason = WorkflowMissing | DeadlineExceeded | ErrorCountExceeded | TasksFailed | ScheduleAborted(msg: string)

  /** The work an evaluation hands to the executor. */
  datatype Submission =
    | FailInvocation(reason: FailReason)
    | CompleteInvocation(output: Option<TypedValue>, outputHeaders: Option<TypedValue>)
    | PrepareTask(id: Id)
    | RunTask(id: Id)

  datatype Policy = HorizonOnly | PrewarmAll | PrewarmHorizon

  datatype EvalResult = EvalErr | EvalSuccess | EvalDone

  // ---------- What an evaluation decides ----------

  datatype Decision = Reject | Busy | AwaitStarted | Terminal | Fail(reason: FailReason) | Complete | Proceed

  predicate Started(inv: Invocation, started: set<Id>) {
    forall id | id in started :: id in inv.tasks && inv.tasks[id].status.Finished()
  }

  predicate AllFinished(inv: Invocation) {
    forall id | id in inv.Tasks() :: id in inv.tasks && inv.tasks[id].status.Finished()
  }

  predicate AllSucceeded(inv: Invocation) {
    forall id | id in inv.Tasks() :: id in inv.tasks && inv.tasks[id].status == TaskSucceeded
  }

  function Deadline(inv: Invocation): nat {
    if inv.spec.deadline.Some? then inv.spec.deadline.value else inv.metadata.createdAt + DEFAULT_MAX_RUNTIME
  }

  /** The checks of an evaluation, in order. */
  function Decide(own: Id, started: set<Id>, errorCount: nat, inv: Invocation, groupTasks: int, now: nat): Decision {
    if inv.metadata.id != own then Reject
    else if inv.spec.workflow.None? then Fail(WorkflowMissing)
    else if groupTasks > 0 then Busy
    else if !Started(inv, started) then AwaitStarted
    else if inv.status.Finished() then Terminal
    else if now > Deadline(inv) then Fail(DeadlineExceeded)
    else if errorCount > 0 then Fail(ErrorCountExceeded)
    else if AllFinished(inv) then if AllSucceeded(inv) then Complete else Fail(TasksFailed)
    else Proceed
  }

  /** The output and output headers an invocation completes with. */
  function FinalOutput(inv: Invocation, order: seq<Id>): (Option<TypedValue>, Option<TypedValue>)
    requires inv.spec.workflow.Some? && ChildrenExtend(inv)
  {
    var outputTask := inv.spec.workflow.value.outputTask;
    if outputTask == "" then (None, None)
    else (ResolveTaskOutput(inv, order, outputTask), ResolveTaskOutputHeaders(inv, outputTask))
  }

  predicate RunsExactly(submitted: seq<Submission>, ids: set<Id>) {
    && (forall id | id in ids :: RunTask(id) in submitted)
    && (forall x | x in submitted && x.RunTask? :: x.id in ids)
  }

  predicate PreparesExactly(submitted: seq<Submission>, ids: set<Id>) {
    && (forall id | id in ids :: PrepareTask(id) in submitted)
    && (forall x | x in submitted && x.PrepareTask? :: x.id in ids)
  }

  /** The tasks that a policy prewarms: none, all that are open and not run, or those that only wait for tasks run now. */
  function Prewarmed(policy: Policy, inv: Invocation, parents: map<Id, Id>, later: map<Id, Id>): set<Id> {
    match policy
    case HorizonOnly => {}
    case PrewarmAll => OpenDeps(inv).Keys - HorizonWith(inv, parents)
    case PrewarmHorizon => RootSet(GraphWith(OpenBeyond(inv, HorizonWith(inv, parents)), later))
  }

  /** The runs are the horizon, and the prewarmed tasks those of the policy, for these choices among several dynamic
      parents. */
  ghost predicate Plans(
    policy: Policy, inv: Invocation, submitted: seq<Submission>, parents: map<Id, Id>, later: map<Id, Id>)
  {
    && Chooses(OpenDeps(inv), parents) && RunsExactly(submitted, HorizonWith(inv, parents))
    && (policy.PrewarmHorizon? ==> Chooses(OpenBeyond(inv, HorizonWith(inv, parents)), later))
    && PreparesExactly(submitted, Prewarmed(policy, inv, parents, later))
  }

  /** What is submitted, and accepted by an executor that is willing to run these tasks, when there is work left. */
  ghost predicate ProceedSpec(
    policy: Policy, willing: set<Id>, inv: Invocation, submitted: seq<Submission>, accepted: seq<Id>)
  {
    if HasFailed(inv) then
      && accepted == []
      && exists msg :: ExplainsFailure(inv, msg) && submitted == [FailInvocation(ScheduleAborted(msg))]
    else
      && Distinct(accepted)
      && (forall id :: id in accepted <==> RunTask(id) in submitted && id in willing)
      && (forall x | x in submitted :: x.RunTask? || x.PrepareTask?)
      && exists parents, later :: Plans(policy, inv, submitted, parents, later)
  }

  /** What an evaluation submits, and which runs the executor accepts, given the tasks started so far. */
  ghost predicate EvalSpec(own: Id, started: set<Id>, policy: Policy, willing: set<Id>, inv: Invocation, groupTasks: int,
                           now: nat, order: seq<Id>, submitted: seq<Submission>, accepted: seq<Id>)
  {
    match Decide(own, started, 0, inv, groupTasks, now)
    case Fail(reason) => submitted == [FailInvocation(reason)] && accepted == []
    case Complete =>
      && accepted == [] && |submitted| == 1 && submitted[0].CompleteInvocation?
      && (ChildrenExtend(inv) ==>
            submitted == [CompleteInvocation(FinalOutput(inv, order).0, FinalOutput(inv, order).1)])
    case Proceed => ProceedSpec(policy, willing, inv, submitted, accepted)
    case _ => submitted == [] && accepted == []
  }

  predicate SubmitsFailure(submitted: seq<Submission>) {
    exists i | 0 <= i < |submitted| :: submitted[i].FailInvocation?
  }

  // ---------- The controller ----------

  method AllTasksFinished(inv: Invocation) returns (finished: bool)
    ensures finished <==> AllFinished(inv)
  {
    finished := true;
    var todo := inv.Tasks().Keys;
    while todo != {}
      invariant todo <= inv.Tasks().Keys && finished
      invariant forall id | id in inv.Tasks() && id !in todo :: id in inv.tasks && inv.tasks[id].status.Finished()
      decreases todo
    {
      var id :| id in todo;
      if id !in inv.tasks || !inv.tasks[id].status.Finished() {
        return false;
      }
      todo := todo - {id};
    }
  }

  /** Only called once every task is recorded. */
  method DetermineTaskOutput(inv: Invocation, order: seq<Id>)
    returns (r: Option<(Option<TypedValue>, Option<TypedValue>)>)
    requires inv.spec.workflow.Some? && ChildrenExtend(inv) && AllFinished(inv)
    ensures r.Some? <==> AllSucceeded(inv)
    ensures r.Some? ==> r.value == FinalOutput(inv, order)
  {
    var success := true;
    var todo := inv.Tasks().Keys;
    while todo != {} && success
      invariant todo <= inv.Tasks().Keys
      invariant success ==> forall id | id in inv.Tasks() && id !in todo :: inv.tasks[id].status == TaskSucceeded
      invariant !success ==> exists id :: id in inv.Tasks() && inv.tasks[id].status != TaskSucceeded
      decreases todo, success
    {
      var id :| id in todo;
      if inv.tasks[id].status != TaskSucceeded {
        success := false;
      }
      todo := todo - {id};
    }
    if !success {
      return None;
    }
    var outputTask := inv.spec.workflow.value.outputTask;
    if outputTask == "" {
      return Some((None, None));
    }
    return Some((ResolveTaskOutput(inv, order, outputTask), ResolveTaskOutputHeaders(inv, outputTask)));
  }

  class InvocationController {
    const invocationId: Id
    const policy: Policy
    var startedTasks: set<Id>

    constructor (id: Id, policy: Policy)
      ensures invocationId == id && this.policy == policy && startedTasks == {}
    {
      invocationId, this.policy := id, policy;
      startedTasks := {};
    }

    /** Evaluates a snapshot. The executor accepts the runs of the tasks in `willing`; the error count of the source is
        never changed from 0. */
    method Eval(inv: Invocation, groupTasks: int, now: nat, order: seq<Id>, willing: set<Id>)
      returns (result: EvalResult, submitted: seq<Submission>, accepted: seq<Id>)
      requires (AllFinished(inv) ==> ChildrenExtend(inv)) && NoSelfDependency(OpenDeps(inv))
      modifies this
      ensures EvalSpec(invocationId, old(startedTasks), policy, willing, inv, groupTasks, now, order, submitted, accepted)
      ensures startedTasks == old(startedTasks) + set id | id in accepted
      ensures result.EvalDone? <==>
        && inv.metadata.id == invocationId && inv.spec.workflow.Some? && groupTasks <= 0
        && Started(inv, old(startedTasks)) && inv.status.Finished()
      ensures result.EvalErr? <==>
        || inv.metadata.id != invocationId || (inv.spec.workflow.Some? && groupTasks > 0)
        || SubmitsFailure(submitted)
    {
      submitted, accepted := [], [];
      if inv.metadata.id != invocationId {
        return EvalErr, [], [];
      }
      if inv.spec.workflow.None? {
        submitted := [FailInvocation(WorkflowMissing)];
        assert submitted[0].FailInvocation?;
        return EvalErr, submitted, [];
      }
      if groupTasks > 0 {
        return EvalErr, [], [];
      }
      if !Started(inv, startedTasks) {
        return EvalSuccess, [], [];
      }
      if inv.status.Finished() {
        return EvalDone, [], [];
      }
      if now > Deadline(inv) {
        submitted := [FailInvocation(DeadlineExceeded)];
        assert submitted[0].FailInvocation?;
        return EvalErr, submitted, [];
      }
      var finished := AllTasksFinished(inv);
      if finished {
        var output := DetermineTaskOutput(inv, order);
        if output.None? {
          submitted := [FailInvocation(TasksFailed)];
          assert submitted[0].FailInvocation?;
          return EvalErr, submitted, [];
        }
        return EvalSuccess, [CompleteInvocation(output.value.0, output.value.1)], [];
      }
      result, submitted, accepted := Schedule(inv, willing);
      startedTasks := startedTasks + set id | id in accepted;
    }

    /** Defers to the policy and submits what it selects. */
    method Schedule(inv: Invocation, willing: set<Id>)
      returns (result: EvalResult, submitted: seq<Submission>, accepted: seq<Id>)
      requires NoSelfDependency(OpenDeps(inv))
      ensures ProceedSpec(policy, willing, inv, submitted, accepted)
      ensures !result.EvalDone? && (result.EvalErr? <==> SubmitsFailure(submitted))
    {
      var schedule;
      ghost var parents: map<Id, Id>, later: map<Id, Id> := map[], map[];
      match policy {
        case HorizonOnly => schedule, parents := HorizonPolicy(inv);
        case PrewarmAll => schedule, parents := PrewarmAllPolicy(inv);
        case PrewarmHorizon => schedule, parents, later := PrewarmHorizonPolicy(inv);
      }
      if schedule.abort.Some? {
        submitted := [FailInvocation(ScheduleAborted(schedule.abort.value))];
        assert submitted[0].FailInvocation?;
        return EvalErr, submitted, [];
      }
      result := EvalSuccess;
      submitted, accepted := Submit(schedule, willing);
      ScheduleIsPlan(policy, willing, inv, schedule, parents, later);
    }

    /** Submits the prewarming tasks and then the runs. */
    method Submit(schedule: Scheduler.Schedule, willing: set<Id>) returns (submitted: seq<Submission>, accepted: seq<Id>)
      ensures submitted == Prepares(schedule.prepare) + Runs(schedule.run)
      ensures accepted == Willing(schedule.run, willing)
    {
      submitted, accepted := [], [];
      var prepare, run := schedule.prepare, schedule.run;
      for i := 0 to |prepare|
        invariant submitted == Prepares(prepare[..i])
      {
        submitted := submitted + [PrepareTask(prepare[i])];
      }
      assert prepare[..|prepare|] == prepare && run[..|run|] == run;
      for i := 0 to |run|
        invariant submitted == Prepares(prepare) + Runs(run[..i]) && accepted == Willing(run[..i], willing)
      {
        assert run[..i + 1][..i] == run[..i];
        submitted := submitted + [RunTask(run[i])];
        if run[i] in willing {
          accepted := accepted + [run[i]];
        }
      }
    }
  }

  function Prepares(ids: seq<Id>): seq<Submission> {
    seq(|ids|, i requires 0 <= i < |ids| => PrepareTask(ids[i]))
  }

  function Runs(ids: seq<Id>): seq<Submission> {
    seq(|ids|, i requires 0 <= i < |ids| => RunTask(ids[i]))
  }

  /** The tasks that the executor is willing to run, in order. */
  function Willing(ids: seq<Id>, willing: set<Id>): seq<Id> {
    if ids == [] then [] else
    Willing(ids[..|ids| - 1], willing) + if ids[|ids| - 1] in willing then [ids[|ids| - 1]] else []
  }

  lemma SubmittedAre(prepare: seq<Id>, run: seq<Id>)
    ensures forall x :: x in Prepares(prepare) + Runs(run) <==>
      (x.PrepareTask? && x.id in prepare) || (x.RunTask? && x.id in run)
  {
    forall x: Submission | (x.PrepareTask? && x.id in prepare) || (x.RunTask? && x.id in run)
      ensures x in Prepares(prepare) + Runs(run)
    {
      if x.PrepareTask? {
        var i :| 0 <= i < |prepare| && prepare[i] == x.id;
        assert Prepares(prepare)[i] == x;
      } else {
        var i :| 0 <= i < |run| && run[i] == x.id;
        assert Runs(run)[i] == x;
      }
    }
  }

  lemma ScheduleIsPlan(policy: Policy, willing: set<Id>, inv: Invocation, schedule: Scheduler.Schedule,
                       parents: map<Id, Id>, later: map<Id, Id>)
    requires !HasFailed(inv) && Distinct(schedule.run) && Chooses(OpenDeps(inv), parents)
    requires policy.PrewarmHorizon? ==> Chooses(OpenBeyond(inv, HorizonWith(inv, parents)), later)
    requires forall id :: id in schedule.run <==> id in HorizonWith(inv, parents)
    requires forall id :: id in schedule.prepare <==> id in Prewarmed(policy, inv, parents, later)
    ensures var submitted := Prepares(schedule.prepare) + Runs(schedule.run);
      && ProceedSpec(policy, willing, inv, submitted, Willing(schedule.run, willing))
      && !SubmitsFailure(submitted)
  {
    var submitted := Prepares(schedule.prepare) + Runs(schedule.run);
    hide Prewarmed, HorizonWith, OpenDeps, OpenBeyond, Chooses, HasFailed;
    SubmittedAre(schedule.prepare, schedule.run);
    WillingAre(schedule.run, willing);
    assert Plans(policy, inv, submitted, parents, later);
    assert forall i | 0 <= i < |submitted| :: submitted[i] in submitted;
  }

  lemma {:induction false} WillingAre(ids: seq<Id>, willing: set<Id>)
    ensures forall id :: id in Willing(ids, willing) <==> id in ids && id in willing
    ensures Distinct(ids) ==> Distinct(Willing(ids, willing))
  {
    if ids != [] {
      WillingAre(ids[..|ids| - 1], willing);
      assert ids == ids[..|ids| - 1] + [ids[|ids| - 1]];
    }
  }

  // ---------- Runs of one controller ----------

  /** One evaluation: what it was given, with the policy of the controller and the tasks the executor was willing to run,
      what it submitted and which runs were accepted. */
  datatype Evaluation = Evaluation(
    inv: Invocation, groupTasks: int, now: nat, order: seq<Id>, policy: Policy, willing: set<Id>,
    submitted: seq<Submission>, accepted: seq<Id>)

  /** The runs accepted in a sequence of evaluations, in order. */
  function AcceptedRuns(evals: seq<Evaluation>): seq<Id> {
    if evals == [] then [] else AcceptedRuns(evals[..|evals| - 1]) + evals[|evals| - 1].accepted
  }

  function StartedBy(evals: seq<Evaluation>): set<Id> {
    set id | id in AcceptedRuns(evals)
  }

  ghost predicate IsEvaluation(own: Id, started: set<Id>, e: Evaluation) {
    EvalSpec(own, started, e.policy, e.willing, e.inv, e.groupTasks, e.now, e.order, e.submitted, e.accepted)
  }

  /** The evaluations of one controller, each with the tasks started by those before it. Nothing is said about the
      snapshots: they may be stale, repeated or out of order. */
  ghost predicate IsControllerRun(own: Id, evals: seq<Evaluation>) {
    evals == [] ||
    var before := evals[..|evals| - 1];
    IsControllerRun(own, before) && IsEvaluation(own, StartedBy(before), evals[|evals| - 1])
  }

  /** A run is only accepted when every task started before has finished in the same snapshot. */
  lemma AcceptedIsNew(own: Id, started: set<Id>, e: Evaluation)
    requires IsEvaluation(own, started, e)
    ensures Distinct(e.accepted)
    ensures forall id | id in e.accepted ::
      id !in started && Started(e.inv, started) && !HasFailed(e.inv) && id in OpenDeps(e.inv)
  {
    forall id | id in e.accepted
      ensures id !in started && Started(e.inv, started) && !HasFailed(e.inv) && id in OpenDeps(e.inv)
    {
      assert RunTask(id) in e.submitted;
      var parents := SubmittedIsOnHorizon(own, started, e, id);
    }
  }

  /** A submitted run is on the horizon of a snapshot without failures that the controller may act on. */
  lemma SubmittedIsOnHorizon(own: Id, started: set<Id>, e: Evaluation, n: Id) returns (parents: map<Id, Id>)
    requires IsEvaluation(own, started, e) && RunTask(n) in e.submitted
    ensures Decide(own, started, 0, e.inv, e.groupTasks, e.now).Proceed? && !HasFailed(e.inv)
    ensures Chooses(OpenDeps(e.inv), parents) && n in HorizonWith(e.inv, parents)
  {
    assert Decide(own, started, 0, e.inv, e.groupTasks, e.now).Proceed?;
    var later;
    parents, later :| Plans(e.policy, e.inv, e.submitted, parents, later);
  }

  /** Over the life of a controller no task is accepted for execution twice, whatever snapshots it evaluates. */
  lemma {:induction false} AtMostOnce(own: Id, evals: seq<Evaluation>)
    requires IsControllerRun(own, evals)
    ensures Distinct(AcceptedRuns(evals))
  {
    if evals != [] {
      var before, e := evals[..|evals| - 1], evals[|evals| - 1];
      AtMostOnce(own, before);
      AcceptedIsNew(own, StartedBy(before), e);
      assert forall id | id in e.accepted :: id !in StartedBy(before);
      DistinctConcat(AcceptedRuns(before), e.accepted);
    }
  }

  lemma DistinctConcat(a: seq<Id>, b: seq<Id>)
    requires Distinct(a) && Distinct(b) && forall id | id in b :: id !in a
    ensures Distinct(a + b)
  {
    forall i, j | 0 <= i < j < |a + b| ensures (a + b)[i] != (a + b)[j] {
      if j >= |a| { assert (a + b)[j] in b; }
    }
  }

  /** Completion is submitted exactly when the gate is open and every static and dynamic task of the snapshot has
      succeeded, in time; and then with an output that is a flow only if some flow was left without a child. */
  lemma CompletesOnlyWhenSucceeded(own: Id, started: set<Id>, e: Evaluation)
    requires IsEvaluation(own, started, e)
    ensures (exists x :: x in e.submitted && x.CompleteInvocation?) <==>
      && e.inv.metadata.id == own && e.inv.spec.workflow.Some? && e.groupTasks <= 0 && Started(e.inv, started)
      && !e.inv.status.Finished() && e.now <= Deadline(e.inv) && AllSucceeded(e.inv)
    ensures ChildrenExtend(e.inv) && IsOrder(e.inv, e.order) ==> forall x | x in e.submitted && x.CompleteInvocation? ::
      IsControlFlow(x.output) ==> exists t :: Dangling(e.inv, t)
  {
    if Decide(own, started, 0, e.inv, e.groupTasks, e.now).Complete? {
      assert e.submitted[0] in e.submitted;
      var outputTask := e.inv.spec.workflow.value.outputTask;
      if ChildrenExtend(e.inv) && IsOrder(e.inv, e.order) && IsControlFlow(FinalOutput(e.inv, e.order).0) {
        FlowOutputDangles(e.inv, e.order, outputTask);
      }
    }
  }

  /** The controller may act on the snapshot: it is of its own invocation, which has a workflow and is not finished, no
      work is outstanding and everything that was started is finished. */
  predicate MayAct(own: Id, started: set<Id>, e: Evaluation) {
    && e.inv.metadata.id == own && e.inv.spec.workflow.Some? && e.groupTasks <= 0
    && Started(e.inv, started) && !e.inv.status.Finished()
  }

  /** Failure of the invocation is submitted exactly when the workflow is missing, or the controller may act and the
      deadline has passed, or all tasks are finished and one did not succeed, or a recorded task failed before; and alone,
      with the reason for it. */
  lemma FailsOnlyWhenFailed(own: Id, started: set<Id>, e: Evaluation)
    requires IsEvaluation(own, started, e)
    ensures SubmitsFailure(e.submitted) <==>
      || (e.inv.metadata.id == own && e.inv.spec.workflow.None?)
      || (MayAct(own, started, e) &&
           (e.now > Deadline(e.inv) || (if AllFinished(e.inv) then !AllSucceeded(e.inv) else HasFailed(e.inv))))
    ensures SubmitsFailure(e.submitted) ==>
      && |e.submitted| == 1 && e.submitted[0].FailInvocation? && e.accepted == []
      && match e.submitted[0].reason
         case WorkflowMissing => e.inv.spec.workflow.None?
         case DeadlineExceeded => e.inv.spec.workflow.Some? && e.now > Deadline(e.inv)
         case ErrorCountExceeded => false
         case TasksFailed =>
           e.inv.spec.workflow.Some? && e.now <= Deadline(e.inv) && AllFinished(e.inv) && !AllSucceeded(e.inv)
         case ScheduleAborted(msg) =>
           e.inv.spec.workflow.Some? && e.now <= Deadline(e.inv) && !AllFinished(e.inv) && ExplainsFailure(e.inv, msg)
  {
    var d := Decide(own, started, 0, e.inv, e.groupTasks, e.now);
    if d.Proceed? && HasFailed(e.inv) {
      var msg :| ExplainsFailure(e.inv, msg) && e.submitted == [FailInvocation(ScheduleAborted(msg))];
      assert e.submitted[0].FailInvocation?;
    } else if d.Fail? {
      assert e.submitted[0].FailInvocation?;
    } else if d.Proceed? {
      assert forall i | 0 <= i < |e.submitted| :: e.submitted[i] in e.submitted;
    }
  }

  /** Nothing is submitted when the snapshot is of another invocation, or has a workflow on which the controller may not
      act. When it may act and the open tasks are acyclic, nothing is submitted exactly when, in time, without a failure
      and before everything is finished, no task is open. */
  lemma IdleOnlyWhenWaiting(own: Id, started: set<Id>, e: Evaluation)
    requires IsEvaluation(own, started, e)
    ensures !MayAct(own, started, e) && !(e.inv.metadata.id == own && e.inv.spec.workflow.None?) ==>
      e.submitted == [] && e.accepted == []
    ensures MayAct(own, started, e) && Acyclic(GraphOf(OpenDeps(e.inv))) ==>
      (e.submitted == [] <==>
        e.now <= Deadline(e.inv) && !AllFinished(e.inv) && !HasFailed(e.inv) && OpenDeps(e.inv) == map[])
  {
    var d := Decide(own, started, 0, e.inv, e.groupTasks, e.now);
    if d.Proceed? && !HasFailed(e.inv) && Acyclic(GraphOf(OpenDeps(e.inv))) {
      var parents, later :| Plans(e.policy, e.inv, e.submitted, parents, later);
      SomethingToRun(e.inv, parents);
      assert OpenDeps(e.inv) == map[] ==> HorizonWith(e.inv, parents) == {} && Prewarmed(e.policy, e.inv, parents, later) == {};
      if e.submitted != [] { assert e.submitted[0] in e.submitted; }
    }
  }

  lemma SomethingToRun(inv: Invocation, parents: map<Id, Id>)
    requires Chooses(OpenDeps(inv), parents) && Acyclic(GraphOf(OpenDeps(inv)))
    ensures OpenDeps(inv) != map[] ==> exists id :: id in HorizonWith(inv, parents)
  {
    var open := OpenDeps(inv);
    ChoiceBounds(open, parents);
    FewerEdges(GraphOf(open), GraphWith(open, parents));
    if open != map[] {
      var id :| id in open;
      assert id in GraphWith(open, parents).nodes;
      RootExists(GraphWith(open, parents));
      var root :| root in RootSet(GraphWith(open, parents));
      assert root in HorizonWith(inv, parents);
    }
  }
}
