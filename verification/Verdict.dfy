/**
 What evaluations make of an invocation in the runs of the engine: its deadline, why it fails, that nothing happens after
 its end, and where its output comes from. All of it is read off the log.
 */
module Verdict {
  import opened Types
  import opened Projection
  import Cache
  import opened Graph
  import opened Scheduler
  import opened ControlFlow
  import opened Controller
  import opened Engine
  import opened Completion
  import Rounds

  // ---------- The deadline ----------

  lemma {:induction false} CreatedOnce(events: seq<Event>, q: nat, t: nat)
    requires q < |events| && events[q].data.InvocationCreated?
    requires forall k | 0 <= k < |events| && events[k].data.InvocationCreated? :: events[k].timestamp == t
    ensures LastCreated(events) == Some(t)
  {
    var last := |events| - 1;
    if !events[last].data.InvocationCreated? {
      CreatedOnce(events[..last], q, t);
    }
  }

  lemma FoldShowsCreation(key: Aggregate, inv: Invocation, events: seq<Event>, created: Event)
    requires Cache.IsFold(inv, key, events) && AllAccepted(key, events) && inv.spec.workflow.Some?
    requires created.data.InvocationCreated?
    requires forall k | 0 <= k < |events| && events[k].data.InvocationCreated? :: events[k] == created
    ensures inv.spec == created.data.spec && inv.metadata.createdAt == created.timestamp
  {
    assert Read(inv, SpecField) == SpecValue(inv.spec);
    var q := LastWriter(events, SpecField);
    assert Accepted(key, events[q]);
    CreatedOnce(events, q, created.timestamp);
  }

  /** A snapshot that shows a workflow shows the specification and the stamp of the creation. */
  lemma CreationShows(key: Aggregate, wf: Workflow, log: seq<Event>, inv: Invocation)
    requires LogShape(key, wf, log) && IsCached(inv, key, log) && inv.spec.workflow.Some?
    ensures inv.spec == log[0].data.spec && inv.metadata.createdAt == log[0].timestamp
  {
    var d: nat :| Cache.HasSnapshot(inv, key, log, d);
    var j: nat, m: nat :| Cache.IsSnapshot(inv, key, log, j, m, d);
    var events := log[..m] + log[j..d];
    hide Cache.IsFold, Accepted;
    forall k | 0 <= k < |events| ensures events[k] == log[LogIndex(j, m, k)] { }
    FoldShowsCreation(key, inv, events, log[0]);
  }

  lemma {:induction false} FirstStays(key: Aggregate, wf: Workflow, s: State, actions: seq<Action>)
    requires IsInitial(key, wf, s) && IsRun(key, s, actions)
    ensures |After(key, s, actions).log| >= 1 && After(key, s, actions).log[0] == s.log[0]
  {
    if actions != [] {
      FirstStays(key, wf, s, actions[..|actions| - 1]);
    }
  }

  /** In every run the deadline of an evaluated snapshot is the one given at the creation, or else ten minutes after the
      stamp of the creation, whenever and wherever the snapshot was built. */
  lemma DeadlineIs(key: Aggregate, wf: Workflow, s: State, actions: seq<Action>, e: Evaluation)
    requires IsInitial(key, wf, s) && IsRun(key, s, actions) && Enabled(key, After(key, s, actions), Evaluate(e))
    requires e.inv.spec.workflow.Some?
    ensures var deadline := s.log[0].data.spec.deadline;
      Deadline(e.inv) == if deadline.Some? then deadline.value else s.log[0].timestamp + 600
  {
    RunKeepsInv(key, wf, s, actions);
    FirstStays(key, wf, s, actions);
    CreationShows(key, wf, After(key, s, actions).log, e.inv);
  }

  // ---------- Failure ----------

  ghost predicate FailedIn(log: seq<Event>, error: string) {
    exists i :: 0 <= i < |log| && log[i].data == TaskRunFailed(error)
  }

  lemma LastFailure(key: Aggregate, events: seq<Event>, inv: Invocation, id: Id)
    requires Cache.IsFold(inv, key, events) && AllAccepted(key, events)
    requires forall k | 0 <= k < |events| :: !events[k].data.TaskRunStarted? && !events[k].data.TaskRunSkipped?
    requires id in inv.tasks && inv.tasks[id].status == TaskFailed
    ensures inv.tasks[id].error.Some? && FailedIn(events, inv.tasks[id].error.value)
  {
    var f, g := RunField(id, StatusPart), RunField(id, ErrorPart);
    assert Read(inv, f) == RunStatusValue(TaskFailed);
    var q := LastWriter(events, f);
    assert Accepted(key, events[q]);
    var w := LastWriterOfError(key, events, id, q);
    assert Read(inv, g) == ErrorValue(inv.tasks[id].error);
  }

  /** The error that shows was written by the last failure. */
  lemma LastWriterOfError(key: Aggregate, events: seq<Event>, id: Id, q: nat) returns (w: nat)
    requires AllAccepted(key, events) && q < |events| && events[q].data.TaskRunFailed?
    requires events[q].aggregate.kind == TaskRunType && events[q].aggregate.id == id
    requires forall k | 0 <= k < |events| :: !events[k].data.TaskRunStarted? && !events[k].data.TaskRunSkipped?
    requires forall k | q < k < |events| :: Write(events[k], RunField(id, StatusPart)).None?
    ensures w < |events| && events[w].data.TaskRunFailed?
    ensures LastWrite(events, RunField(id, ErrorPart)) == Some(ErrorValue(Some(events[w].data.error)))
  {
    var g := RunField(id, ErrorPart);
    WrittenOnce(events, g, q);
    w := LastWriter(events, g);
    assert w >= q;
    assert Accepted(key, events[w]);
    assert w > q ==> Write(events[w], RunField(id, StatusPart)).None?;
  }

  lemma FailureShows(key: Aggregate, wf: Workflow, log: seq<Event>, inv: Invocation, id: Id)
    requires LogShape(key, wf, log) && IsCached(inv, key, log)
    requires id in inv.tasks && inv.tasks[id].status == TaskFailed
    ensures inv.tasks[id].error.Some? && FailedIn(log, inv.tasks[id].error.value)
  {
    var d: nat :| Cache.HasSnapshot(inv, key, log, d);
    var j: nat, m: nat :| Cache.IsSnapshot(inv, key, log, j, m, d);
    var events := log[..m] + log[j..d];
    forall k | 0 <= k < |events| ensures events[k] == log[LogIndex(j, m, k)] { }
    hide Cache.IsFold, Accepted;
    LastFailure(key, events, inv, id);
    var error := inv.tasks[id].error.value;
    var i :| 0 <= i < |events| && events[i].data == TaskRunFailed(error);
    assert log[LogIndex(j, m, i)].data == TaskRunFailed(error);
  }

  /** In every run, when an invocation is failed because of its tasks, a task has failed, and if the schedule was aborted
      the reason is the error of a task that failed. */
  lemma FailureIsRecorded(key: Aggregate, wf: Workflow, s: State, actions: seq<Action>, e: Evaluation)
    requires IsInitial(key, wf, s) && IsRun(key, s, actions) && Enabled(key, After(key, s, actions), Evaluate(e))
    requires SubmitsFailure(e.submitted)
    ensures |e.submitted| == 1 && e.submitted[0].FailInvocation?
    ensures var log, reason := After(key, s, actions).log, e.submitted[0].reason;
      && (reason.TasksFailed? ==> exists error :: FailedIn(log, error))
      && (reason.ScheduleAborted? ==> FailedIn(log, reason.msg))
  {
    var now := After(key, s, actions);
    RunKeepsInv(key, wf, s, actions);
    hide IsRun, After, IsInitial, IsEvaluation, Inv, AllSucceeded, AllFinished, Deadline, Started;
    FailsOnlyWhenFailed(key.id, now.phase.Keys, e);
    var reason := e.submitted[0].reason;
    if reason.ScheduleAborted? {
      var id :| id in e.inv.tasks && e.inv.tasks[id].status == TaskFailed && reason.msg == AbortReason(e.inv.tasks[id]);
      ReasonShows(key, wf, now, e.inv, id);
    } else if reason.TasksFailed? {
      NotAllSucceeded(key, wf, now, e);
    }
  }

  lemma ReasonShows(key: Aggregate, wf: Workflow, now: State, inv: Invocation, id: Id)
    requires Inv(key, wf, now) && IsCached(inv, key, now.log) && id in inv.tasks && inv.tasks[id].status == TaskFailed
    ensures FailedIn(now.log, AbortReason(inv.tasks[id]))
  {
    FailureShows(key, wf, now.log, inv, id);
  }

  lemma NotAllSucceeded(key: Aggregate, wf: Workflow, now: State, e: Evaluation)
    requires Inv(key, wf, now) && IsCached(e.inv, key, now.log) && AllFinished(e.inv) && !AllSucceeded(e.inv)
    ensures exists error :: FailedIn(now.log, error)
  {
    var id :| id in e.inv.Tasks() && !(id in e.inv.tasks && e.inv.tasks[id].status == TaskSucceeded);
    var d: nat :| Cache.HasSnapshot(e.inv, key, now.log, d);
    var j: nat, m: nat :| Cache.IsSnapshot(e.inv, key, now.log, j, m, d);
    var q := RunShows(key, wf, now.log, e.inv, j, m, d, id);
    FailureShows(key, wf, now.log, e.inv, id);
  }

  // ---------- The end ----------

  predicate Ends(e: Event) {
    e.data.InvocationCanceled? || e.data.InvocationCompleted? || e.data.InvocationFailed?
  }

  ghost predicate EndedIn(log: seq<Event>) {
    exists i :: 0 <= i < |log| && Ends(log[i])
  }

  /** The fold of a log shows the invocation as finished exactly when an event ended it, and by the last one how. */
  lemma StatusIs(key: Aggregate, wf: Workflow, inv: Invocation, log: seq<Event>)
    requires LogShape(key, wf, log) && Cache.IsFold(inv, key, log)
    ensures inv.status.Finished() <==> EndedIn(log)
    ensures !EndedIn(log) ==> inv.status == InProgress
    ensures forall i | 0 <= i < |log| && Ends(log[i]) && (forall k | i < k < |log| :: !Ends(log[k])) ::
      inv.status == if log[i].data.InvocationCompleted? then Succeeded
                    else if log[i].data.InvocationFailed? then Failed else Aborted
  {
    assert Accepted(key, log[0]);
    WrittenOnce(log, StatusField, 0);
    var q := LastWriter(log, StatusField);
    assert Accepted(key, log[q]);
    assert Read(inv, StatusField) == StatusValue(inv.status);
    forall k | 0 <= k < |log| && Ends(log[k]) ensures k <= q {
      assert Accepted(key, log[k]);
    }
  }

  /** In every run, evaluating the fold of a log in which the invocation has ended submits nothing. */
  lemma NothingAfterEnd(key: Aggregate, wf: Workflow, s: State, actions: seq<Action>, e: Evaluation)
    requires IsInitial(key, wf, s) && IsRun(key, s, actions) && Enabled(key, After(key, s, actions), Evaluate(e))
    requires Cache.IsFold(e.inv, key, After(key, s, actions).log) && EndedIn(After(key, s, actions).log)
    ensures e.submitted == [] && e.accepted == []
  {
    var now := After(key, s, actions);
    RunKeepsInv(key, wf, s, actions);
    StatusIs(key, wf, e.inv, now.log);
    Rounds.FoldShowsSpec(key, wf, e.inv, now.log);
    IdleOnlyWhenWaiting(key.id, now.phase.Keys, e);
  }

  // ---------- The output ----------

  /** A success is recorded with this output. */
  ghost predicate GaveOutput(log: seq<Event>, id: Id, output: Option<TypedValue>) {
    exists i :: 0 <= i < |log| && IsRunEvent(log[i]) && log[i].aggregate.id == id
      && log[i].data.TaskRunSucceeded? && log[i].data.output == output
  }

  ghost predicate GaveHeaders(log: seq<Event>, id: Id, headers: Option<TypedValue>) {
    exists i :: 0 <= i < |log| && IsRunEvent(log[i]) && log[i].aggregate.id == id
      && log[i].data.TaskRunSucceeded? && log[i].data.outputHeaders == headers
  }

  ghost predicate FlowChain(log: seq<Event>, chain: seq<Id>) {
    forall i | 0 <= i < |chain| - 1 :: FlowIn(log, chain[i]) && chain[i + 1] == ChildId(chain[i])
  }

  lemma SuccessGave(key: Aggregate, wf: Workflow, log: seq<Event>, inv: Invocation, id: Id)
    requires LogShape(key, wf, log) && IsCached(inv, key, log) && id in inv.tasks
    requires inv.tasks[id].status == TaskSucceeded
    ensures GaveOutput(log, id, inv.tasks[id].output) && GaveHeaders(log, id, inv.tasks[id].outputHeaders)
    ensures IsControlFlow(inv.tasks[id].output) ==> FlowIn(log, id)
  {
    var i := SuccessShows(key, wf, log, inv, id);
  }

  lemma ChainIsLogged(key: Aggregate, wf: Workflow, s: State, inv: Invocation, chain: seq<Id>)
    requires Inv(key, wf, s) && IsCached(inv, key, s.log) && inv.spec.workflow == Some(wf) && AllSucceeded(inv)
    requires chain != [] && chain[0] in wf.tasks && FlowsAlong(inv, chain)
    ensures FlowChain(s.log, chain) && chain[|chain| - 1] in inv.Tasks()
  {
    forall i | 0 <= i < |chain| ensures chain[i] in inv.Tasks() {
      if i > 0 { assert IsChild(inv, chain[i - 1], chain[i - 1 + 1]); }
    }
    forall i | 0 <= i < |chain| - 1 ensures FlowIn(s.log, chain[i]) && chain[i + 1] == ChildId(chain[i]) {
      SuccessGave(key, wf, s.log, inv, chain[i]);
      ChildOfSnapshot(key, wf, s, inv, chain[i], chain[i + 1]);
    }
  }

  /** In every run, the output of a completed invocation is what was recorded for the last of a chain of tasks: it starts
      at the output task, and each next one is the child that runs the flow recorded for the one before. If the last gave a
      flow, no child was added for it. The headers are those of the output task itself. */
  lemma OutputIsRecorded(key: Aggregate, wf: Workflow, s: State, actions: seq<Action>, e: Evaluation, x: Submission)
    returns (chain: seq<Id>)
    requires IsInitial(key, wf, s) && IsRun(key, s, actions) && Enabled(key, After(key, s, actions), Evaluate(e))
    requires x in e.submitted && x.CompleteInvocation? && IsOrder(e.inv, e.order)
    requires wf.outputTask in wf.tasks && wf.outputTask != ""
    ensures var log := After(key, s, actions).log;
      && chain != [] && chain[0] == wf.outputTask && FlowChain(log, chain)
      && GaveOutput(log, chain[|chain| - 1], x.output)
      && (IsControlFlow(x.output) ==> !AddedIn(log, ChildId(chain[|chain| - 1])))
      && GaveHeaders(log, wf.outputTask, x.outputHeaders)
  {
    var now := After(key, s, actions);
    RunKeepsInv(key, wf, s, actions);
    CompletionOutput(key, wf, s, actions, e, x, e.order);
    assert Decide(key.id, now.phase.Keys, 0, e.inv, e.groupTasks, e.now).Complete?;
    hide IsRun, After, IsInitial, IsEvaluation, Inv, Decide;
    chain := OutputEndsChain(e.inv, e.order, wf.outputTask);
    ChainIsLogged(key, wf, now, e.inv, chain);
    SuccessGave(key, wf, now.log, e.inv, chain[|chain| - 1]);
    SuccessGave(key, wf, now.log, e.inv, wf.outputTask);
    DanglingNotAdded(key, wf, now, e.inv, chain[|chain| - 1]);
  }

  lemma DanglingNotAdded(key: Aggregate, wf: Workflow, s: State, inv: Invocation, id: Id)
    requires Inv(key, wf, s) && IsCached(inv, key, s.log) && inv.spec.workflow == Some(wf) && id in inv.tasks
    ensures Dangling(inv, id) ==> !AddedIn(s.log, ChildId(id))
  {
    FlowedIffAdded(key, wf, s, id);
    if id in s.flowed {
      ChildShows(key, wf, s, inv, id);
      assert IsChild(inv, id, ChildId(id));
    }
  }
}
