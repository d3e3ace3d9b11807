/**
 How runs of an invocation end: when completion is submitted, every static task and every dynamic task that was ever
 added has succeeded, and the output is the output of the last task of a chain of flows.
 */
module Completion {
  import opened Types
  import opened Projection
  import Cache
  import opened Scheduler
  import opened ControlFlow
  import opened Controller
  import opened Engine

  // ---------- Snapshots have one child per parent ----------

  lemma ChildOfSnapshot(key: Aggregate, wf: Workflow, s: State, inv: Invocation, p: Id, c: Id)
    requires LogShape(key, wf, s.log) && AddedKnown(wf, s)
    requires IsCached(inv, key, s.log) && inv.spec.workflow == Some(wf) && IsChild(inv, p, c)
    ensures c == ChildId(p)
  {
    var parent := ParentShows(key, wf, s, inv, c);
  }

  lemma SnapshotChildren(key: Aggregate, wf: Workflow, s: State, inv: Invocation)
    requires LogShape(key, wf, s.log) && AddedKnown(wf, s)
    requires IsCached(inv, key, s.log) && inv.spec.workflow == Some(wf)
    ensures ChildrenExtend(inv) && OneChildEach(inv)
  {
    forall p, c | IsChild(inv, p, c) ensures c == ChildId(p) { ChildOfSnapshot(key, wf, s, inv, p, c); }
  }

  // ---------- Flow outputs have a child ----------

  /** Every flow output is recorded after its child was added; a transformer of outputs must not make up flows. */
  ghost predicate AddsFlows(key: Aggregate, s: State, actions: seq<Action>) {
    actions == [] ||
    var before, a := actions[..|actions| - 1], actions[|actions| - 1];
    && AddsFlows(key, s, before)
    && (a.Succeed? && IsControlFlow(a.output) ==>
         var phase := After(key, s, before).phase; a.id in phase && phase[a.id] == ChildAdded)
  }

  ghost predicate FlowRecordedAt(s: State, i: nat) {
    i < |s.log| && s.log[i].data.TaskRunSucceeded? && IsControlFlow(s.log[i].data.output) ==>
      s.log[i].aggregate.id in s.flowed
  }

  ghost predicate FlowsRecorded(s: State) {
    && (forall i: nat :: FlowRecordedAt(s, i))
    && (forall t | t in s.phase && s.phase[t] == ChildAdded :: t in s.flowed)
  }

  lemma AppendKeepsFlows(s: State, s': State, e: Event)
    requires FlowsRecorded(s) && s'.log == s.log + [e] && s.flowed <= s'.flowed
    requires forall t | t in s'.phase && s'.phase[t] == ChildAdded :: t in s'.flowed
    requires e.data.TaskRunSucceeded? && IsControlFlow(e.data.output) ==> e.aggregate.id in s'.flowed
    ensures FlowsRecorded(s')
  {
    forall i: nat ensures FlowRecordedAt(s', i) {
      assert FlowRecordedAt(s, i);
      if i < |s.log| { assert s'.log[i] == s.log[i]; }
    }
  }

  lemma ApplyKeepsFlows(key: Aggregate, s: State, a: Action)
    requires FlowsRecorded(s) && Enabled(key, s, a)
    requires a.Succeed? && IsControlFlow(a.output) ==> s.phase[a.id] == ChildAdded
    ensures FlowsRecorded(Apply(key, s, a))
  {
    var s' := Apply(key, s, a);
    match a
    case Evaluate(e) =>
      forall i: nat ensures FlowRecordedAt(s', i) { assert FlowRecordedAt(s, i); }
    case AddDynamic(id, child, at) => AppendKeepsFlows(s, s', InvocationEvent(key, InvocationTaskAdded(child), at));
    case Succeed(id, output, headers, at) =>
      AppendKeepsFlows(s, s', RunEvent(key, id, TaskRunSucceeded(output, headers), at));
    case FailRun(id, error, at) => AppendKeepsFlows(s, s', RunEvent(key, id, TaskRunFailed(error), at));
    case Terminate(e) => AppendKeepsFlows(s, s', e);
  }

  lemma {:induction false} RunKeepsFlows(key: Aggregate, wf: Workflow, s: State, actions: seq<Action>)
    requires IsInitial(key, wf, s) && IsRun(key, s, actions) && AddsFlows(key, s, actions)
    ensures FlowsRecorded(After(key, s, actions))
  {
    if actions == [] {
      assert forall i: nat :: FlowRecordedAt(s, i);
    } else {
      var before := actions[..|actions| - 1];
      RunKeepsFlows(key, wf, s, before);
      ApplyKeepsFlows(key, After(key, s, before), actions[|actions| - 1]);
    }
  }

  /** An output that a snapshot shows was recorded with a success. */
  lemma OutputShows(key: Aggregate, wf: Workflow, log: seq<Event>, inv: Invocation, id: Id) returns (i: nat)
    requires LogShape(key, wf, log) && IsCached(inv, key, log) && id in inv.tasks && inv.tasks[id].output.Some?
    ensures i < |log| && log[i].aggregate.id == id
    ensures log[i].data.TaskRunSucceeded? && log[i].data.output == inv.tasks[id].output
  {
    var d: nat :| Cache.HasSnapshot(inv, key, log, d);
    var j: nat, m: nat :| Cache.IsSnapshot(inv, key, log, j, m, d);
    var events, f := log[..m] + log[j..d], RunField(id, OutputPart);
    assert Read(inv, f) == OutputValue(inv.tasks[id].output, inv.tasks[id].outputHeaders);
    var q := LastWriter(events, f);
    i := LogIndex(j, m, q);
    assert events[q] == log[i] && Accepted(key, log[i]);
  }

  /** No flow output of a snapshot is left without a child. */
  lemma NothingDangles(key: Aggregate, wf: Workflow, s: State, inv: Invocation, id: Id)
    requires LogShape(key, wf, s.log) && AddedKnown(wf, s) && ChildFirst(s) && FlowsRecorded(s)
    requires IsCached(inv, key, s.log) && inv.spec.workflow == Some(wf)
    ensures !Dangling(inv, id)
  {
    if id in inv.tasks && IsControlFlow(inv.tasks[id].output) {
      var i := OutputShows(key, wf, s.log, inv, id);
      assert FlowRecordedAt(s, i);
      ChildShows(key, wf, s, inv, id);
      assert IsChild(inv, id, ChildId(id));
    }
  }

  // ---------- Completion ----------

  lemma ShownSuccess(key: Aggregate, wf: Workflow, log: seq<Event>, inv: Invocation, id: Id)
    requires LogShape(key, wf, log) && IsCached(inv, key, log)
    requires id in inv.tasks && inv.tasks[id].status == TaskSucceeded
    ensures SucceededIn(log, id)
  {
    var d: nat :| Cache.HasSnapshot(inv, key, log, d);
    var j: nat, m: nat :| Cache.IsSnapshot(inv, key, log, j, m, d);
    var q := RunShows(key, wf, log, inv, j, m, d, id);
  }

  /** Once everything that was started shows as finished, every dynamic task ever added shows. */
  lemma AddedTaskShows(key: Aggregate, wf: Workflow, s: State, inv: Invocation, id: Id)
    requires Inv(key, wf, s) && IsCached(inv, key, s.log) && inv.spec.workflow == Some(wf)
    requires Started(inv, s.phase.Keys) && AddedIn(s.log, id)
    ensures id in inv.dynamicTasks
  {
    var i :| 0 <= i < |s.log| && s.log[i].data.InvocationTaskAdded? && s.log[i].data.task.id == id;
    assert ParentKnown(wf, s, i);
    var t :| t in s.flowed && IsChildTask(s.log[i].data.task, t);
    ChildShows(key, wf, s, inv, t);
  }

  /** When completion is submitted, every static task and every dynamic task that was ever added has succeeded. */
  lemma CompletionIsFinal(key: Aggregate, wf: Workflow, s: State, actions: seq<Action>, e: Evaluation, x: Submission, id: Id)
    requires IsInitial(key, wf, s) && IsRun(key, s, actions) && Enabled(key, After(key, s, actions), Evaluate(e))
    requires x in e.submitted && x.CompleteInvocation?
    requires id in wf.tasks || AddedIn(After(key, s, actions).log, id)
    ensures SucceededIn(After(key, s, actions).log, id)
  {
    var now := After(key, s, actions);
    RunKeepsInv(key, wf, s, actions);
    assert Decide(key.id, now.phase.Keys, 0, e.inv, e.groupTasks, e.now).Complete?;
    SpecShows(key, wf, now.log, e.inv);
    if id !in wf.tasks {
      AddedTaskShows(key, wf, now, e.inv, id);
    }
    ShownSuccess(key, wf, now.log, e.inv, id);
  }

  /** The output of a completed invocation is never a flow, and is the same for every iteration order of maps. */
  lemma CompletionOutput(
    key: Aggregate, wf: Workflow, s: State, actions: seq<Action>, e: Evaluation, x: Submission, order: seq<Id>)
    requires IsInitial(key, wf, s) && IsRun(key, s, actions) && Enabled(key, After(key, s, actions), Evaluate(e))
    requires x in e.submitted && x.CompleteInvocation? && IsOrder(e.inv, e.order) && IsOrder(e.inv, order)
    ensures e.inv.spec.workflow == Some(wf) && ChildrenExtend(e.inv)
    ensures (x.output, x.outputHeaders) == FinalOutput(e.inv, order)
    ensures AddsFlows(key, s, actions) ==> !IsControlFlow(x.output)
  {
    var now := After(key, s, actions);
    RunKeepsInv(key, wf, s, actions);
    assert Decide(key.id, now.phase.Keys, 0, e.inv, e.groupTasks, e.now).Complete?;
    SpecShows(key, wf, now.log, e.inv);
    SnapshotChildren(key, wf, now, e.inv);
    OutputIndependentOfOrder(e.inv, e.order, order, wf.outputTask);
    if AddsFlows(key, s, actions) && IsControlFlow(x.output) {
      RunKeepsFlows(key, wf, s, actions);
      FlowOutputDangles(e.inv, e.order, wf.outputTask);
      var t :| Dangling(e.inv, t);
      NothingDangles(key, wf, now, e.inv, t);
    }
  }

  // ---------- When the output of a required task is there ----------

  ghost predicate RecordedIn(log: seq<Event>, id: Id) {
    exists i :: 0 <= i < |log| && IsRunEvent(log[i]) && log[i].aggregate.id == id
  }

  /** A task is recorded with a flow as its output. */
  ghost predicate FlowIn(log: seq<Event>, id: Id) {
    exists i :: 0 <= i < |log| && IsRunEvent(log[i]) && log[i].aggregate.id == id && log[i].data.TaskRunSucceeded?
      && IsControlFlow(log[i].data.output)
  }

  /** `d` is the k-th in the line of children that starts at `a`, and every task before it is recorded with a flow. */
  ghost predicate BelowIn(log: seq<Event>, a: Id, d: Id, k: nat)
    decreases k
  {
    if k == 0 then a == d
    else FlowIn(log, a) && AddedIn(log, ChildId(a)) && BelowIn(log, ChildId(a), d, k - 1)
  }

  ghost predicate AwaitsBelow(log: seq<Event>, a: Id, least: nat) {
    exists d, k: nat :: k >= least && BelowIn(log, a, d, k) && !RecordedIn(log, d)
  }

  /** Following the flows from a task leads to one that is not recorded yet. */
  ghost predicate Pending(inv: Invocation, order: seq<Id>, id: Id)
    requires ChildrenExtend(inv)
    decreases Longer(inv, id)
  {
    id !in inv.tasks ||
    var child := FirstChild(inv, order, id);
    && IsControlFlow(inv.tasks[id].output) && child.Some?
    && (ChildIsLonger(inv, id, child.value);
        Pending(inv, order, child.value))
  }

  /** A pending output reads as missing, and any other is the recorded output of some task. */
  lemma {:induction false} PendingOutput(inv: Invocation, order: seq<Id>, id: Id)
    requires ChildrenExtend(inv)
    ensures Pending(inv, order, id) ==> ResolveTaskOutput(inv, order, id) == None
    ensures !Pending(inv, order, id) ==>
      exists d :: d in inv.tasks && ResolveTaskOutput(inv, order, id) == inv.tasks[d].output
    decreases Longer(inv, id)
  {
    var child := FirstChild(inv, order, id);
    if id in inv.tasks && IsControlFlow(inv.tasks[id].output) && child.Some? {
      ChildIsLonger(inv, id, child.value);
      PendingOutput(inv, order, child.value);
    }
  }

  /** The events at i and j do not record the same task twice. */
  ghost predicate RecordedOnce(log: seq<Event>, i: nat, j: nat) {
    i < |log| && j < |log| && IsRunEvent(log[i]) && IsRunEvent(log[j]) && log[i].aggregate.id == log[j].aggregate.id ==>
      i == j
  }

  ghost predicate OneResultEach(log: seq<Event>) {
    forall i: nat, j: nat :: RecordedOnce(log, i, j)
  }

  lemma AppendKeepsOneResult(s: State, e: Event)
    requires OneResultEach(s.log) && AllRecorded(s)
    requires IsRunEvent(e) && e.aggregate.id in s.phase ==> s.phase[e.aggregate.id] != Recorded
    ensures OneResultEach(s.log + [e])
  {
    forall i: nat, j: nat ensures RecordedOnce(s.log + [e], i, j) {
      assert RecordedOnce(s.log, i, j) && RecordedAt(s, i) && RecordedAt(s, j);
    }
  }

  lemma ApplyKeepsOneResult(key: Aggregate, s: State, a: Action)
    requires OneResultEach(s.log) && AllRecorded(s) && key.kind == InvocationType && Enabled(key, s, a)
    ensures OneResultEach(Apply(key, s, a).log)
  {
    match a
    case Evaluate(_) =>
    case AddDynamic(id, child, at) => AppendKeepsOneResult(s, InvocationEvent(key, InvocationTaskAdded(child), at));
    case Succeed(id, output, headers, at) =>
      AppendKeepsOneResult(s, RunEvent(key, id, TaskRunSucceeded(output, headers), at));
    case FailRun(id, error, at) => AppendKeepsOneResult(s, RunEvent(key, id, TaskRunFailed(error), at));
    case Terminate(e) => AppendKeepsOneResult(s, e);
  }

  /** In every run, each task has at most one result. */
  lemma {:induction false} RunRecordsOnce(key: Aggregate, wf: Workflow, s: State, actions: seq<Action>)
    requires IsInitial(key, wf, s) && IsRun(key, s, actions)
    ensures OneResultEach(After(key, s, actions).log)
  {
    hide Enabled, Apply, LogShape, AllRecorded;
    if actions == [] {
      assert forall i: nat, j: nat :: RecordedOnce(s.log, i, j);
    } else {
      var before := actions[..|actions| - 1];
      RunRecordsOnce(key, wf, s, before);
      RunKeepsInv(key, wf, s, before);
      ApplyKeepsOneResult(key, After(key, s, before), actions[|actions| - 1]);
    }
  }

  /** What a snapshot shows of one task agrees with the log. */
  ghost predicate Agrees(inv: Invocation, log: seq<Event>, x: Id) {
    && (x in inv.tasks <==> RecordedIn(log, x))
    && (IsChild(inv, x, ChildId(x)) <==> AddedIn(log, ChildId(x)))
    && (forall c :: IsChild(inv, x, c) ==> c == ChildId(x))
    && (x in inv.tasks ==> (IsControlFlow(inv.tasks[x].output) <==> FlowIn(log, x)))
  }

  lemma RecordedShows(key: Aggregate, wf: Workflow, s: State, inv: Invocation, x: Id)
    requires Inv(key, wf, s) && IsCached(inv, key, s.log) && Started(inv, s.phase.Keys)
    ensures x in inv.tasks <==> RecordedIn(s.log, x)
  {
    if x in inv.tasks {
      var d: nat :| Cache.HasSnapshot(inv, key, s.log, d);
      var j: nat, m: nat :| Cache.IsSnapshot(inv, key, s.log, j, m, d);
      var q := RunShows(key, wf, s.log, inv, j, m, d, x);
      assert s.log[LogIndex(j, m, q)].aggregate.id == x;
    }
    if RecordedIn(s.log, x) {
      var i :| 0 <= i < |s.log| && IsRunEvent(s.log[i]) && s.log[i].aggregate.id == x;
      assert RecordedAt(s, i);
    }
  }

  /** A task flowed exactly when its child is in the log. */
  lemma FlowedIffAdded(key: Aggregate, wf: Workflow, s: State, x: Id)
    requires Inv(key, wf, s)
    ensures x in s.flowed <==> AddedIn(s.log, ChildId(x))
  {
    if AddedIn(s.log, ChildId(x)) {
      var i :| 0 <= i < |s.log| && s.log[i].data.InvocationTaskAdded? && s.log[i].data.task.id == ChildId(x);
      assert ParentKnown(wf, s, i);
      var t :| t in s.flowed && IsChildTask(s.log[i].data.task, t);
      ChildIdInjective(t, x);
    }
  }

  lemma ChildAgrees(key: Aggregate, wf: Workflow, s: State, inv: Invocation, x: Id)
    requires Inv(key, wf, s) && IsCached(inv, key, s.log) && inv.spec.workflow == Some(wf) && Started(inv, s.phase.Keys)
    ensures IsChild(inv, x, ChildId(x)) <==> x in s.flowed
    ensures forall c :: IsChild(inv, x, c) ==> c == ChildId(x)
  {
    forall c | IsChild(inv, x, c) ensures c == ChildId(x) { ChildOfSnapshot(key, wf, s, inv, x, c); }
    if IsChild(inv, x, ChildId(x)) {
      var parent := ParentShows(key, wf, s, inv, ChildId(x));
    }
    if x in s.flowed {
      ChildShows(key, wf, s, inv, x);
    }
  }

  lemma OutputAgrees(key: Aggregate, wf: Workflow, s: State, inv: Invocation, x: Id)
    requires Inv(key, wf, s) && OneResultEach(s.log) && IsCached(inv, key, s.log)
    requires x in inv.tasks && inv.tasks[x].status == TaskSucceeded
    ensures IsControlFlow(inv.tasks[x].output) <==> FlowIn(s.log, x)
  {
    var i := SuccessShows(key, wf, s.log, inv, x);
    if FlowIn(s.log, x) {
      var j :| 0 <= j < |s.log| && IsRunEvent(s.log[j]) && s.log[j].aggregate.id == x
        && s.log[j].data.TaskRunSucceeded? && IsControlFlow(s.log[j].data.output);
      assert RecordedOnce(s.log, i, j);
    }
  }

  /** The event that a fold shows as a success also gave it its output. */
  lemma LastSuccess(key: Aggregate, events: seq<Event>, inv: Invocation, id: Id) returns (q: nat)
    requires Cache.IsFold(inv, key, events) && AllAccepted(key, events)
    requires forall k | 0 <= k < |events| :: !events[k].data.TaskRunStarted? && !events[k].data.TaskRunSkipped?
    requires id in inv.tasks && inv.tasks[id].status == TaskSucceeded
    ensures q < |events| && IsRunEvent(events[q]) && events[q].aggregate.id == id
    ensures events[q].data.TaskRunSucceeded? && events[q].data.output == inv.tasks[id].output
    ensures events[q].data.outputHeaders == inv.tasks[id].outputHeaders
  {
    var f, g := RunField(id, StatusPart), RunField(id, OutputPart);
    assert Read(inv, f) == RunStatusValue(TaskSucceeded);
    q := LastWriter(events, f);
    assert Accepted(key, events[q]);
    forall k | q < k < |events| ensures Write(events[k], g).None? {
      assert Accepted(key, events[k]) && Write(events[k], f).None?;
    }
    LastWriteAt(events, g, q);
    assert Read(inv, g) == OutputValue(inv.tasks[id].output, inv.tasks[id].outputHeaders);
  }

  /** A success that a snapshot shows was recorded with the output that it shows. */
  lemma SuccessShows(key: Aggregate, wf: Workflow, log: seq<Event>, inv: Invocation, id: Id) returns (i: nat)
    requires LogShape(key, wf, log) && IsCached(inv, key, log) && id in inv.tasks
    requires inv.tasks[id].status == TaskSucceeded
    ensures i < |log| && IsRunEvent(log[i]) && log[i].aggregate.id == id
    ensures log[i].data.TaskRunSucceeded? && log[i].data.output == inv.tasks[id].output
    ensures log[i].data.outputHeaders == inv.tasks[id].outputHeaders
  {
    hide Cache.IsFold, Accepted;
    var d: nat :| Cache.HasSnapshot(inv, key, log, d);
    var j: nat, m: nat :| Cache.IsSnapshot(inv, key, log, j, m, d);
    var events := log[..m] + log[j..d];
    forall k | 0 <= k < |events| ensures events[k] == log[LogIndex(j, m, k)] { }
    var q := LastSuccess(key, events, inv, id);
    i := LogIndex(j, m, q);
  }

  lemma SnapshotAgrees(key: Aggregate, wf: Workflow, s: State, inv: Invocation, x: Id)
    requires Inv(key, wf, s) && OneResultEach(s.log) && IsCached(inv, key, s.log) && inv.spec.workflow == Some(wf)
    requires Started(inv, s.phase.Keys) && !HasFailed(inv)
    ensures Agrees(inv, s.log, x)
  {
    RecordedShows(key, wf, s, inv, x);
    FlowedIffAdded(key, wf, s, x);
    ChildAgrees(key, wf, s, inv, x);
    if x in inv.tasks {
      RunSucceeded(key, wf, s, inv, x);
      OutputAgrees(key, wf, s, inv, x);
    }
  }

  lemma RunSucceeded(key: Aggregate, wf: Workflow, s: State, inv: Invocation, id: Id)
    requires Inv(key, wf, s) && IsCached(inv, key, s.log) && id in inv.tasks && !HasFailed(inv)
    ensures inv.tasks[id].status == TaskSucceeded
  {
    var d: nat :| Cache.HasSnapshot(inv, key, s.log, d);
    var j: nat, m: nat :| Cache.IsSnapshot(inv, key, s.log, j, m, d);
    var q := RunShows(key, wf, s.log, inv, j, m, d, id);
  }

  lemma FirstChildAgrees(inv: Invocation, order: seq<Id>, log: seq<Event>, x: Id)
    requires IsOrder(inv, order) && Agrees(inv, log, x)
    ensures FirstChild(inv, order, x) == if AddedIn(log, ChildId(x)) then Some(ChildId(x)) else None
  {
    var child := FirstChild(inv, order, x);
    if AddedIn(log, ChildId(x)) {
      assert ChildId(x) in order;
    }
  }

  lemma {:induction false} BelowIsPending(inv: Invocation, order: seq<Id>, log: seq<Event>, x: Id, d: Id, k: nat)
    requires ChildrenExtend(inv) && IsOrder(inv, order) && forall y :: Agrees(inv, log, y)
    requires BelowIn(log, x, d, k) && !RecordedIn(log, d)
    ensures Pending(inv, order, x)
    decreases k
  {
    assert Agrees(inv, log, x);
    if k > 0 {
      BelowIsPending(inv, order, log, ChildId(x), d, k - 1);
      FirstChildAgrees(inv, order, log, x);
    }
  }

  lemma {:induction false} PendingIsBelow(inv: Invocation, order: seq<Id>, log: seq<Event>, x: Id) returns (d: Id, k: nat)
    requires ChildrenExtend(inv) && IsOrder(inv, order) && forall y :: Agrees(inv, log, y)
    requires Pending(inv, order, x)
    ensures BelowIn(log, x, d, k) && !RecordedIn(log, d)
    decreases Longer(inv, x)
  {
    assert Agrees(inv, log, x);
    if x !in inv.tasks {
      d, k := x, 0;
    } else {
      FirstChildAgrees(inv, order, log, x);
      ChildIsLonger(inv, x, ChildId(x));
      var k';
      d, k' := PendingIsBelow(inv, order, log, ChildId(x));
      k := k' + 1;
    }
  }

  /** In every run, when a task is submitted, the output of a task that it requires is pending if and only if the
      recorded flows lead from it to a task that is not recorded; its own child is never the one. */
  lemma OutputPendingIff(
    key: Aggregate, wf: Workflow, s: State, actions: seq<Action>, e: Evaluation, n: Id, p: Id, order: seq<Id>)
    requires IsInitial(key, wf, s) && ValidWorkflow(wf)
    requires IsRun(key, s, actions) && Enabled(key, After(key, s, actions), Evaluate(e)) && IsOrder(e.inv, order)
    requires RunTask(n) in e.submitted && p in e.inv.Tasks()[n].spec.requirements
    ensures ChildrenExtend(e.inv)
    ensures Pending(e.inv, order, p) <==>
      AwaitsBelow(After(key, s, actions).log, p, if n == ChildId(p) then 1 else 2)
  {
    var now := After(key, s, actions);
    RunKeepsInv(key, wf, s, actions);
    RunRecordsOnce(key, wf, s, actions);
    var parents := SubmittedIsOnHorizon(key.id, now.phase.Keys, e, n);
    SpecShows(key, wf, now.log, e.inv);
    SnapshotChildren(key, wf, now, e.inv);
    forall y ensures Agrees(e.inv, now.log, y) { SnapshotAgrees(key, wf, now, e.inv, y); }
    DependencySafety(key, wf, s, actions, e, n, p);
    FlowedIffAdded(key, wf, now, p);
    if Pending(e.inv, order, p) {
      var d, k := PendingIsBelow(e.inv, order, now.log, p);
      NotTheFirst(now.log, p, d, k);
    } else if AwaitsBelow(now.log, p, if n == ChildId(p) then 1 else 2) {
      var d, k: nat :| BelowIn(now.log, p, d, k) && !RecordedIn(now.log, d);
      BelowIsPending(e.inv, order, now.log, p, d, k);
    }
  }

  /** A task that succeeded is recorded, so what is not recorded is further down. */
  lemma NotTheFirst(log: seq<Event>, p: Id, d: Id, k: nat)
    requires SucceededIn(log, p) && BelowIn(log, p, d, k) && !RecordedIn(log, d)
    ensures k >= 1
    ensures SucceededIn(log, ChildId(p)) ==> k >= 2
  {
  }

  /** When no dynamic task returns a flow, the outputs that a submitted task requires are always there. */
  lemma OutputAvailable(
    key: Aggregate, wf: Workflow, s: State, actions: seq<Action>, e: Evaluation, n: Id, p: Id, order: seq<Id>)
    requires IsInitial(key, wf, s) && ValidWorkflow(wf)
    requires IsRun(key, s, actions) && Enabled(key, After(key, s, actions), Evaluate(e)) && IsOrder(e.inv, order)
    requires RunTask(n) in e.submitted && p in e.inv.Tasks()[n].spec.requirements
    requires n != ChildId(p)
    requires forall t | t in After(key, s, actions).flowed :: !AddedIn(After(key, s, actions).log, t)
    ensures ChildrenExtend(e.inv) && !Pending(e.inv, order, p)
  {
    var now := After(key, s, actions);
    RunKeepsInv(key, wf, s, actions);
    OutputPendingIff(key, wf, s, actions, e, n, p, order);
    FlowedIffAdded(key, wf, now, ChildId(p));
    forall d, k: nat | k >= 2 ensures !BelowIn(now.log, p, d, k) { }
  }
}
