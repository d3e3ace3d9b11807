/**
 Whole runs of one invocation: the controller evaluates snapshots from the cache, the executor runs the tasks it
 accepted, and the task API appends their results. A task whose function returns a flow first appends its dynamic
 child and only then its own result.

 The main result is dependency safety: in every run, a task is submitted only after every task it requires has
 succeeded, together with the dynamic child of that task if it has one.
 */
module Engine {
  import opened Types
  import opened Projection
  import opened Cache
  import opened Graph
  import opened Scheduler
  import opened ControlFlow
  import opened Controller
  import Validate

  /** How far an accepted run has got: the flow of the task, if any, is added before its result is recorded. */
  datatype Phase = Running | ChildAdded | Recorded

  /** `flowed` holds the tasks whose function returned a flow. */
  datatype State = State(log: seq<Event>, phase: map<Id, Phase>, flowed: set<Id>)

  datatype Action =
    | Evaluate(evaluation: Evaluation)
    | AddDynamic(id: Id, child: Task, at: nat)
    | Succeed(id: Id, output: Option<TypedValue>, headers: Option<TypedValue>, at: nat)
    | FailRun(id: Id, error: string, at: nat)
    | Terminate(event: Event)

  function RunEvent(key: Aggregate, id: Id, data: EventData, at: nat): Event {
    Event(Aggregate(id, TaskRunType), Some(key), at, data, false)
  }

  function InvocationEvent(key: Aggregate, data: EventData, at: nat): Event {
    Event(key, None, at, data, false)
  }

  // ---------- Steps ----------

  /** The proxy task that runs the flow of `parent`. */
  predicate IsChildTask(child: Task, parent: Id) {
    child.id == ChildId(parent) && child.spec.requirements == map[parent := DynamicOutput]
  }

  /** `inv` is what the cache may show for this log, now or earlier, as long as every refresh was written in time: see
      `LateRefresh` for the others. */
  ghost predicate IsCached(inv: Invocation, key: Aggregate, log: seq<Event>) {
    exists d: nat :: HasSnapshot(inv, key, log, d)
  }

  /** The plain fold of the whole log is what an up-to-date cache shows. */
  lemma FoldIsCached(inv: Invocation, key: Aggregate, log: seq<Event>)
    requires IsFold(inv, key, log)
    ensures IsSnapshot(inv, key, log, |log|, |log|, |log|) && IsCached(inv, key, log)
  {
    assert log[..|log|] + log[|log|..|log|] == log;
    assert IsSnapshot(inv, key, log, |log|, |log|, |log|);
    assert HasSnapshot(inv, key, log, |log|);
  }

  ghost predicate Enabled(key: Aggregate, s: State, a: Action) {
    match a
    case Evaluate(e) => IsCached(e.inv, key, s.log) && IsEvaluation(key.id, s.phase.Keys, e)
    case AddDynamic(id, child, _) => id in s.phase && s.phase[id] == Running && IsChildTask(child, id)
    case Succeed(id, _, _, _) => id != "" && id in s.phase && s.phase[id] != Recorded
    case FailRun(id, _, _) => id != "" && id in s.phase && s.phase[id] != Recorded
    case Terminate(e) =>
      Accepted(key, e) && (e.data.InvocationCanceled? || e.data.InvocationCompleted? || e.data.InvocationFailed?)
  }

  function Apply(key: Aggregate, s: State, a: Action): State {
    match a
    case Evaluate(e) => s.(phase := s.phase + map id | id in e.accepted :: Running)
    case AddDynamic(id, child, at) =>
      State(s.log + [InvocationEvent(key, InvocationTaskAdded(child), at)], s.phase[id := ChildAdded], s.flowed + {id})
    case Succeed(id, output, headers, at) =>
      s.(log := s.log + [RunEvent(key, id, TaskRunSucceeded(output, headers), at)], phase := s.phase[id := Recorded])
    case FailRun(id, error, at) =>
      s.(log := s.log + [RunEvent(key, id, TaskRunFailed(error), at)], phase := s.phase[id := Recorded])
    case Terminate(e) => s.(log := s.log + [e])
  }

  /** The invocation has just been created. */
  ghost predicate IsInitial(key: Aggregate, wf: Workflow, s: State) {
    && key.kind == InvocationType && key.id != ""
    && |s.log| == 1 && Accepted(key, s.log[0])
    && s.log[0].data.InvocationCreated? && s.log[0].data.spec.workflow == Some(wf)
    && s.phase == map[] && s.flowed == {}
  }

  function After(key: Aggregate, s: State, actions: seq<Action>): State {
    if actions == [] then s
    else Apply(key, After(key, s, actions[..|actions| - 1]), actions[|actions| - 1])
  }

  ghost predicate IsRun(key: Aggregate, s: State, actions: seq<Action>) {
    actions == [] ||
    var before := actions[..|actions| - 1];
    IsRun(key, s, before) && Enabled(key, After(key, s, before), actions[|actions| - 1])
  }

  lemma OneMoreAction(key: Aggregate, s: State, actions: seq<Action>, a: Action)
    ensures After(key, s, actions + [a]) == Apply(key, After(key, s, actions), a)
    ensures IsRun(key, s, actions + [a]) <==> IsRun(key, s, actions) && Enabled(key, After(key, s, actions), a)
  {
    assert (actions + [a])[..|actions|] == actions;
  }

  // ---------- What validation guarantees of the static tasks ----------

  ghost predicate ValidWorkflow(wf: Workflow) {
    forall id | id in wf.tasks :: wf.tasks[id].spec.requirements.Keys <= wf.tasks.Keys
  }

  /** What validation accepts, whichever dynamic parents it looked at, is good enough. */
  lemma AcceptedIsValid(spec: WorkflowSpec, wf: Workflow)
    requires Validate.LocallyValid(spec) && Validate.Parses(spec, wf)
    ensures ValidWorkflow(wf)
  {
  }

  // ---------- The log ----------

  predicate IsRunEvent(e: Event) {
    e.aggregate.kind == TaskRunType
  }

  /** A dynamic task with this identifier has been added. */
  ghost predicate AddedIn(log: seq<Event>, id: Id) {
    exists i :: 0 <= i < |log| && log[i].data.InvocationTaskAdded? && log[i].data.task.id == id
  }

  ghost predicate SucceededIn(log: seq<Event>, id: Id) {
    exists i :: 0 <= i < |log| && IsRunEvent(log[i]) && log[i].aggregate.id == id && log[i].data.TaskRunSucceeded?
  }

  /** Only the first event creates the invocation, and no event starts or skips a task. */
  ghost predicate LogShape(key: Aggregate, wf: Workflow, log: seq<Event>) {
    && |log| >= 1 && AllAccepted(key, log)
    && log[0].data.InvocationCreated? && log[0].data.spec.workflow == Some(wf)
    && forall i | 1 <= i < |log| ::
         !log[i].data.InvocationCreated? && !log[i].data.TaskRunStarted? && !log[i].data.TaskRunSkipped?
  }

  /** A dynamic task added at i is the child of a task that was known before it. */
  ghost predicate ParentKnown(wf: Workflow, s: State, i: nat) {
    i < |s.log| && s.log[i].data.InvocationTaskAdded? ==>
      exists t :: t in s.flowed && IsChildTask(s.log[i].data.task, t) && (t in wf.tasks || AddedIn(s.log[..i], t))
  }

  ghost predicate AddedKnown(wf: Workflow, s: State) {
    forall i: nat :: ParentKnown(wf, s, i)
  }

  /** If the task recorded at i flowed, its child is in the log before i. */
  ghost predicate ChildBefore(s: State, i: nat) {
    i < |s.log| && IsRunEvent(s.log[i]) && s.log[i].aggregate.id in s.flowed ==>
      AddedIn(s.log[..i], ChildId(s.log[i].aggregate.id))
  }

  ghost predicate ChildFirst(s: State) {
    && (forall t | t in s.flowed :: t in s.phase && s.phase[t] != Running && AddedIn(s.log, ChildId(t)))
    && (forall i: nat :: ChildBefore(s, i))
  }

  ghost predicate RecordedAt(s: State, i: nat) {
    i < |s.log| && IsRunEvent(s.log[i]) ==>
      s.log[i].aggregate.id in s.phase && s.phase[s.log[i].aggregate.id] == Recorded
  }

  ghost predicate AllRecorded(s: State) {
    forall i: nat :: RecordedAt(s, i)
  }

  ghost predicate StartedKnown(wf: Workflow, s: State) {
    forall t | t in s.phase :: t in wf.tasks || AddedIn(s.log, t)
  }

  ghost predicate Inv(key: Aggregate, wf: Workflow, s: State) {
    && key.kind == InvocationType && key.id != ""
    && LogShape(key, wf, s.log) && AddedKnown(wf, s) && ChildFirst(s) && AllRecorded(s) && StartedKnown(wf, s)
  }

  // ---------- What a snapshot shows of the log ----------

  lemma {:induction false} LastWriter(events: seq<Event>, f: Field) returns (q: nat)
    requires LastWrite(events, f).Some?
    ensures q < |events| && Write(events[q], f) == LastWrite(events, f)
    ensures forall k | q < k < |events| :: Write(events[k], f).None?
  {
    var last := |events| - 1;
    if Write(events[last], f).Some? {
      q := last;
    } else {
      q := LastWriter(events[..last], f);
      assert events[..last][q] == events[q];
      forall k | q < k < |events| ensures Write(events[k], f).None? {
        if k < last { assert events[..last][k] == events[k]; }
      }
    }
  }

  lemma {:induction false} WrittenOnce(events: seq<Event>, f: Field, q: nat)
    requires q < |events| && Write(events[q], f).Some?
    ensures LastWrite(events, f).Some?
  {
    if q < |events| - 1 {
      assert events[..|events| - 1][q] == events[q];
      WrittenOnce(events[..|events| - 1], f, q);
    }
  }

  /** The log index of a position in the events of a snapshot. */
  function LogIndex(j: nat, m: nat, q: nat): nat {
    if q < m then q else j + (q - m)
  }

  ghost predicate NotCreatedSince(events: seq<Event>, q: nat) {
    forall k | q <= k < |events| :: !events[k].data.InvocationCreated?
  }

  /** If an event still shows in a snapshot, then so does every event before it in the log. */
  lemma EarlierShows(key: Aggregate, wf: Workflow, log: seq<Event>, j: nat, m: nat, d: nat, q: nat, c: nat) returns (r: nat)
    requires LogShape(key, wf, log) && j <= m <= |log| && j <= d <= |log|
    requires var events := log[..m] + log[j..d]; q < |events| && NotCreatedSince(events, q)
    requires 1 <= c < LogIndex(j, m, q)
    ensures var events := log[..m] + log[j..d]; r < |events| && events[r] == log[c] && NotCreatedSince(events, r)
  {
    var events := log[..m] + log[j..d];
    assert events[q] == log[LogIndex(j, m, q)];
    if j == 0 < d {
      assert events[m] == log[0];
    }
    if q >= m && c >= j {
      r := m + (c - j);
    } else {
      r := c;
    }
    forall k | r <= k < |events| ensures !events[k].data.InvocationCreated? {
      assert events[k] == log[LogIndex(j, m, k)];
    }
  }

  lemma {:induction false} LastWriteAt(events: seq<Event>, f: Field, q: nat)
    requires q < |events| && Write(events[q], f).Some?
    requires forall k | q < k < |events| :: Write(events[k], f).None?
    ensures LastWrite(events, f) == Write(events[q], f)
  {
    WrittenOnce(events, f, q);
    var w := LastWriter(events, f);
  }

  /** A recorded task run shows its last event, which is a success or a failure. */
  lemma RunShows(key: Aggregate, wf: Workflow, log: seq<Event>, inv: Invocation, j: nat, m: nat, d: nat, id: Id)
    returns (q: nat)
    requires LogShape(key, wf, log) && IsSnapshot(inv, key, log, j, m, d) && id in inv.tasks
    ensures var events := log[..m] + log[j..d];
      && q < |events| && NotCreatedSince(events, q)
      && IsRunEvent(events[q]) && events[q].aggregate.id == id && events[q] == log[LogIndex(j, m, q)]
    ensures inv.tasks[id].status == TaskSucceeded || inv.tasks[id].status == TaskFailed
    ensures inv.tasks[id].status == TaskSucceeded ==> SucceededIn(log, id)
  {
    var events := log[..m] + log[j..d];
    var presence, status := RunField(id, Presence), RunField(id, StatusPart);
    assert Read(inv, presence) == PresenceValue(true);
    q := LastWriter(events, presence);
    assert events[q] == log[LogIndex(j, m, q)];
    assert IsRunEvent(events[q]) && events[q].aggregate.id == id;
    forall k | q < k < |events|
      ensures Write(events[k], status).None? && !events[k].data.InvocationCreated?
    {
      assert Write(events[k], presence).None?;
      assert Accepted(key, log[LogIndex(j, m, k)]) && events[k] == log[LogIndex(j, m, k)];
    }
    assert Accepted(key, log[LogIndex(j, m, q)]);
    LastWriteAt(events, status, q);
    assert Read(inv, status) == RunStatusValue(inv.tasks[id].status);
  }

  /** A dynamic task that shows was added by an event that shows. */
  lemma DynamicShows(key: Aggregate, wf: Workflow, log: seq<Event>, inv: Invocation, j: nat, m: nat, d: nat, id: Id)
    returns (q: nat)
    requires LogShape(key, wf, log) && IsSnapshot(inv, key, log, j, m, d) && id in inv.dynamicTasks
    ensures var events := log[..m] + log[j..d];
      && q < |events| && NotCreatedSince(events, q) && events[q] == log[LogIndex(j, m, q)]
      && events[q].data == InvocationTaskAdded(inv.dynamicTasks[id]) && inv.dynamicTasks[id].id == id
  {
    var events := log[..m] + log[j..d];
    var f := DynamicField(id);
    assert Read(inv, f) == DynamicValue(Some(inv.dynamicTasks[id]));
    q := LastWriter(events, f);
    assert events[q] == log[LogIndex(j, m, q)];
    forall k | q < k < |events| ensures !events[k].data.InvocationCreated? {
      assert Write(events[k], f).None?;
      assert Accepted(key, log[LogIndex(j, m, k)]) && events[k] == log[LogIndex(j, m, k)];
    }
  }

  /** A dynamic task that was added since the creation shows. */
  lemma AddedShows(key: Aggregate, wf: Workflow, log: seq<Event>, inv: Invocation, j: nat, m: nat, d: nat, r: nat)
    requires LogShape(key, wf, log) && IsSnapshot(inv, key, log, j, m, d)
    requires var events := log[..m] + log[j..d];
      r < |events| && NotCreatedSince(events, r) && events[r].data.InvocationTaskAdded?
    ensures (log[..m] + log[j..d])[r].data.task.id in inv.dynamicTasks
  {
    var events := log[..m] + log[j..d];
    var f := DynamicField(events[r].data.task.id);
    assert events[r] == log[LogIndex(j, m, r)] && Accepted(key, log[LogIndex(j, m, r)]);
    WrittenOnce(events, f, r);
    var q := LastWriter(events, f);
    assert q >= r;
    assert events[q] == log[LogIndex(j, m, q)] && Accepted(key, log[LogIndex(j, m, q)]);
    assert Read(inv, f) == Write(events[q], f).value;
  }

  /** A dynamic task that was added before an event that shows, shows too. */
  lemma AddedBeforeShows(key: Aggregate, wf: Workflow, log: seq<Event>, inv: Invocation, j: nat, m: nat, d: nat, q: nat, id: Id)
    requires LogShape(key, wf, log) && IsSnapshot(inv, key, log, j, m, d)
    requires var events := log[..m] + log[j..d]; q < |events| && NotCreatedSince(events, q)
    requires LogIndex(j, m, q) < |log| && AddedIn(log[..LogIndex(j, m, q)], id)
    ensures id in inv.dynamicTasks
  {
    var before := log[..LogIndex(j, m, q)];
    var c :| 0 <= c < |before| && before[c].data.InvocationTaskAdded? && before[c].data.task.id == id;
    assert log[c] == before[c];
    var r := EarlierShows(key, wf, log, j, m, d, q, c);
    AddedShows(key, wf, log, inv, j, m, d, r);
  }

  lemma ChildIdInjective(p: Id, q: Id)
    requires ChildId(p) == ChildId(q)
    ensures p == q
  {
    assert ChildId(p)[..|p|] == p && ChildId(q)[..|q|] == q;
  }

  // ---------- Consistency of snapshots ----------

  /** A snapshot knows the parent of each dynamic task it shows. */
  lemma ParentShows(key: Aggregate, wf: Workflow, s: State, inv: Invocation, id: Id) returns (parent: Id)
    requires LogShape(key, wf, s.log) && AddedKnown(wf, s)
    requires IsCached(inv, key, s.log) && inv.spec.workflow == Some(wf) && id in inv.dynamicTasks
    ensures parent in s.flowed && IsChildTask(inv.dynamicTasks[id], parent) && inv.dynamicTasks[id].id == id
    ensures parent in inv.Tasks()
  {
    var d: nat :| HasSnapshot(inv, key, s.log, d);
    var j: nat, m: nat :| IsSnapshot(inv, key, s.log, j, m, d);
    var q := DynamicShows(key, wf, s.log, inv, j, m, d, id);
    var i := LogIndex(j, m, q);
    assert ParentKnown(wf, s, i);
    parent :| parent in s.flowed && IsChildTask(s.log[i].data.task, parent) &&
      (parent in wf.tasks || AddedIn(s.log[..i], parent));
    if parent !in wf.tasks {
      AddedBeforeShows(key, wf, s.log, inv, j, m, d, q, parent);
    }
  }

  /** A snapshot that shows the result of a task that flowed also shows its child: the child was appended first. */
  lemma ChildShows(key: Aggregate, wf: Workflow, s: State, inv: Invocation, id: Id)
    requires LogShape(key, wf, s.log) && AddedKnown(wf, s) && ChildFirst(s)
    requires IsCached(inv, key, s.log) && inv.spec.workflow == Some(wf) && id in inv.tasks && id in s.flowed
    ensures ChildId(id) in inv.dynamicTasks && IsChildTask(inv.dynamicTasks[ChildId(id)], id)
  {
    ChildIsDynamic(key, wf, s, inv, id);
    var parent := ParentShows(key, wf, s, inv, ChildId(id));
    ChildIdInjective(id, parent);
  }

  lemma ChildIsDynamic(key: Aggregate, wf: Workflow, s: State, inv: Invocation, id: Id)
    requires LogShape(key, wf, s.log) && ChildFirst(s)
    requires IsCached(inv, key, s.log) && id in inv.tasks && id in s.flowed
    ensures ChildId(id) in inv.dynamicTasks
  {
    var d: nat :| HasSnapshot(inv, key, s.log, d);
    var j: nat, m: nat :| IsSnapshot(inv, key, s.log, j, m, d);
    var q := RunShows(key, wf, s.log, inv, j, m, d, id);
    assert ChildBefore(s, LogIndex(j, m, q));
    AddedBeforeShows(key, wf, s.log, inv, j, m, d, q, ChildId(id));
  }

  lemma RunRecorded(key: Aggregate, wf: Workflow, s: State, inv: Invocation, id: Id)
    requires Inv(key, wf, s) && IsCached(inv, key, s.log) && id in inv.tasks && !HasFailed(inv)
    ensures SucceededIn(s.log, id)
  {
    var d: nat :| HasSnapshot(inv, key, s.log, d);
    var j: nat, m: nat :| IsSnapshot(inv, key, s.log, j, m, d);
    var q := RunShows(key, wf, s.log, inv, j, m, d, id);
  }

  lemma SpecShows(key: Aggregate, wf: Workflow, log: seq<Event>, inv: Invocation)
    requires LogShape(key, wf, log) && IsCached(inv, key, log) && inv.spec.workflow.Some?
    ensures inv.spec.workflow == Some(wf)
  {
    var d: nat :| HasSnapshot(inv, key, log, d);
    var j: nat, m: nat :| IsSnapshot(inv, key, log, j, m, d);
    var events := log[..m] + log[j..d];
    assert Read(inv, SpecField) == SpecValue(inv.spec);
    var q := LastWriter(events, SpecField);
    assert events[q] == log[LogIndex(j, m, q)];
  }

  // ---------- Every step keeps the invariant ----------

  lemma AddedInGrows(log: seq<Event>, e: Event, id: Id)
    ensures AddedIn(log, id) ==> AddedIn(log + [e], id)
    ensures e.data.InvocationTaskAdded? ==> AddedIn(log + [e], e.data.task.id)
  {
    if AddedIn(log, id) {
      var i :| 0 <= i < |log| && log[i].data.InvocationTaskAdded? && log[i].data.task.id == id;
      assert (log + [e])[i] == log[i];
    }
    if e.data.InvocationTaskAdded? {
      assert (log + [e])[|log|] == e;
    }
  }

  lemma AddedKnownGrows(wf: Workflow, s: State, s': State, e: Event)
    requires AddedKnown(wf, s) && s'.log == s.log + [e] && s.flowed <= s'.flowed
    requires e.data.InvocationTaskAdded? ==>
      exists t :: t in s'.flowed && IsChildTask(e.data.task, t) && (t in wf.tasks || AddedIn(s.log, t))
    ensures AddedKnown(wf, s')
  {
    forall i: nat ensures ParentKnown(wf, s', i) {
      if i <= |s.log| {
        assert ParentKnown(wf, s, i) && s'.log[..i] == s.log[..i];
        if i < |s.log| { assert s'.log[i] == s.log[i]; } else { assert s.log[..i] == s.log; }
      }
    }
  }

  /** A run that is recorded has its child in the log already; a task that flows is not recorded yet. */
  lemma ChildFirstGrows(s: State, s': State, e: Event)
    requires ChildFirst(s) && AllRecorded(s) && s'.log == s.log + [e] && s.flowed <= s'.flowed
    requires forall t | t in s'.flowed ::
      && t in s'.phase && s'.phase[t] != Running
      && (t in s.flowed || (t in s.phase && s.phase[t] != Recorded && AddedIn(s'.log, ChildId(t))))
    requires IsRunEvent(e) ==> s'.flowed == s.flowed
    ensures ChildFirst(s')
  {
    forall t | t in s'.flowed ensures AddedIn(s'.log, ChildId(t)) { AddedInGrows(s.log, e, ChildId(t)); }
    forall i: nat ensures ChildBefore(s', i) {
      if i <= |s.log| {
        assert ChildBefore(s, i) && RecordedAt(s, i) && s'.log[..i] == s.log[..i];
        if i < |s.log| { assert s'.log[i] == s.log[i]; } else { assert s.log[..i] == s.log; }
      }
    }
  }

  /** What an appended event must satisfy. */
  ghost predicate MayFollow(key: Aggregate, e: Event) {
    Accepted(key, e) && !e.data.InvocationCreated? && !e.data.TaskRunStarted? && !e.data.TaskRunSkipped?
  }

  lemma AppendKeepsInv(key: Aggregate, wf: Workflow, s: State, s': State, e: Event)
    requires Inv(key, wf, s) && s'.log == s.log + [e] && s'.flowed == s.flowed
    requires MayFollow(key, e) && !e.data.InvocationTaskAdded?
    requires s'.phase.Keys == s.phase.Keys && forall t | t in s.phase :: s'.phase[t] == s.phase[t] || s'.phase[t] == Recorded
    requires IsRunEvent(e) ==> e.aggregate.id in s'.phase && s'.phase[e.aggregate.id] == Recorded
    ensures Inv(key, wf, s')
  {
    AddedKnownGrows(wf, s, s', e);
    ChildFirstGrows(s, s', e);
    StartedKnownGrows(wf, s, s', e);
    RecordedGrows(s, s', e);
  }

  lemma StartedKnownGrows(wf: Workflow, s: State, s': State, e: Event)
    requires StartedKnown(wf, s) && s'.log == s.log + [e] && s'.phase.Keys == s.phase.Keys
    ensures StartedKnown(wf, s')
  {
    forall t | t in s'.phase ensures t in wf.tasks || AddedIn(s'.log, t) { AddedInGrows(s.log, e, t); }
  }

  lemma RecordedGrows(s: State, s': State, e: Event)
    requires AllRecorded(s) && s'.log == s.log + [e] && s'.phase.Keys == s.phase.Keys
    requires forall t | t in s.phase && s.phase[t] == Recorded :: s'.phase[t] == Recorded
    requires IsRunEvent(e) ==> e.aggregate.id in s'.phase && s'.phase[e.aggregate.id] == Recorded
    ensures AllRecorded(s')
  {
    forall i: nat ensures RecordedAt(s', i) {
      assert RecordedAt(s, i);
      if i < |s.log| { assert s'.log[i] == s.log[i]; }
    }
  }

  lemma LogShapeGrows(key: Aggregate, wf: Workflow, log: seq<Event>, e: Event)
    requires LogShape(key, wf, log) && MayFollow(key, e)
    ensures LogShape(key, wf, log + [e])
  {
  }

  /** The child is added while its parent is running. */
  lemma AddedChildFirst(s: State, s': State, e: Event, id: Id)
    requires ChildFirst(s) && AllRecorded(s) && id in s.phase && s.phase[id] == Running
    requires s'.log == s.log + [e] && s'.phase == s.phase[id := ChildAdded] && s'.flowed == s.flowed + {id}
    requires !IsRunEvent(e) && e.data.InvocationTaskAdded? && e.data.task.id == ChildId(id)
    ensures ChildFirst(s')
  {
    AddedInGrows(s.log, e, ChildId(id));
    ChildFirstGrows(s, s', e);
  }

  lemma AddDynamicKeepsInv(key: Aggregate, wf: Workflow, s: State, id: Id, child: Task, at: nat)
    requires Inv(key, wf, s) && Enabled(key, s, AddDynamic(id, child, at))
    ensures Inv(key, wf, Apply(key, s, AddDynamic(id, child, at)))
  {
    var s' := Apply(key, s, AddDynamic(id, child, at));
    var e := InvocationEvent(key, InvocationTaskAdded(child), at);
    LogShapeGrows(key, wf, s.log, e);
    assert id in s'.flowed && IsChildTask(e.data.task, id) && (id in wf.tasks || AddedIn(s.log, id));
    AddedKnownGrows(wf, s, s', e);
    AddedChildFirst(s, s', e, id);
    StartedKnownGrows(wf, s, s', e);
    RecordedGrows(s, s', e);
  }

  lemma StartKeepsInv(key: Aggregate, wf: Workflow, s: State, accepted: seq<Id>)
    requires Inv(key, wf, s)
    requires forall t | t in accepted :: t !in s.phase && (t in wf.tasks || AddedIn(s.log, t))
    ensures Inv(key, wf, s.(phase := s.phase + map id | id in accepted :: Running))
  {
    var s' := s.(phase := s.phase + map id | id in accepted :: Running);
    forall i: nat ensures ParentKnown(wf, s', i) && ChildBefore(s', i) && RecordedAt(s', i) {
      assert ParentKnown(wf, s, i) && ChildBefore(s, i) && RecordedAt(s, i);
    }
  }

  lemma EvaluateKeepsInv(key: Aggregate, wf: Workflow, s: State, e: Evaluation)
    requires Inv(key, wf, s) && IsCached(e.inv, key, s.log) && IsEvaluation(key.id, s.phase.Keys, e)
    ensures Inv(key, wf, Apply(key, s, Evaluate(e)))
  {
    AcceptedIsNew(key.id, s.phase.Keys, e);
    forall t | t in e.accepted ensures t !in s.phase && (t in wf.tasks || AddedIn(s.log, t)) {
      TaskShows(key, wf, s.log, e.inv, t);
    }
    StartKeepsInv(key, wf, s, e.accepted);
  }

  lemma TaskShows(key: Aggregate, wf: Workflow, log: seq<Event>, inv: Invocation, t: Id)
    requires LogShape(key, wf, log) && IsCached(inv, key, log) && t in inv.Tasks()
    ensures t in wf.tasks || AddedIn(log, t)
  {
    if t in inv.dynamicTasks {
      var d: nat :| HasSnapshot(inv, key, log, d);
      var j: nat, m: nat :| IsSnapshot(inv, key, log, j, m, d);
      var q := DynamicShows(key, wf, log, inv, j, m, d, t);
      assert log[LogIndex(j, m, q)].data.InvocationTaskAdded?;
    } else {
      SpecShows(key, wf, log, inv);
    }
  }

  lemma ResultKeepsInv(key: Aggregate, wf: Workflow, s: State, id: Id, data: EventData, at: nat)
    requires Inv(key, wf, s) && id != "" && id in s.phase && (data.TaskRunSucceeded? || data.TaskRunFailed?)
    ensures Inv(key, wf, State(s.log + [RunEvent(key, id, data, at)], s.phase[id := Recorded], s.flowed))
  {
    AppendKeepsInv(key, wf, s, State(s.log + [RunEvent(key, id, data, at)], s.phase[id := Recorded], s.flowed),
                   RunEvent(key, id, data, at));
  }

  lemma TerminateKeepsInv(key: Aggregate, wf: Workflow, s: State, e: Event)
    requires Inv(key, wf, s) && Enabled(key, s, Terminate(e))
    ensures Inv(key, wf, Apply(key, s, Terminate(e)))
  {
    AppendKeepsInv(key, wf, s, Apply(key, s, Terminate(e)), e);
  }

  lemma ApplyKeepsInv(key: Aggregate, wf: Workflow, s: State, a: Action)
    requires Inv(key, wf, s) && Enabled(key, s, a)
    ensures Inv(key, wf, Apply(key, s, a))
  {
    match a
    case Evaluate(e) => EvaluateKeepsInv(key, wf, s, e);
    case AddDynamic(id, child, at) => AddDynamicKeepsInv(key, wf, s, id, child, at);
    case Succeed(id, output, headers, at) => ResultKeepsInv(key, wf, s, id, TaskRunSucceeded(output, headers), at);
    case FailRun(id, error, at) => ResultKeepsInv(key, wf, s, id, TaskRunFailed(error), at);
    case Terminate(e) => TerminateKeepsInv(key, wf, s, e);
  }

  lemma {:induction false} RunKeepsInv(key: Aggregate, wf: Workflow, s: State, actions: seq<Action>)
    requires IsInitial(key, wf, s) && IsRun(key, s, actions)
    ensures Inv(key, wf, After(key, s, actions))
  {
    if actions != [] {
      var before := actions[..|actions| - 1];
      RunKeepsInv(key, wf, s, before);
      ApplyKeepsInv(key, wf, After(key, s, before), actions[|actions| - 1]);
    }
  }

  // ---------- Dependency safety ----------

  /** What a task on the horizon of a snapshot may rely on. */
  lemma HorizonIsSafe(
    key: Aggregate, wf: Workflow, s: State, inv: Invocation, parents: map<Id, Id>, n: Id, p: Id)
    requires ValidWorkflow(wf) && Inv(key, wf, s) && IsCached(inv, key, s.log) && inv.spec.workflow == Some(wf)
    requires !HasFailed(inv) && Chooses(OpenDeps(inv), parents) && n in HorizonWith(inv, parents)
    requires p in inv.Tasks()[n].spec.requirements
    ensures SucceededIn(s.log, p)
    ensures p in s.flowed && n != ChildId(p) ==> SucceededIn(s.log, ChildId(p))
  {
    var open := OpenDeps(inv);
    EdgeWith(open, parents, p, n);
    assert p in inv.Tasks() by {
      if n in inv.dynamicTasks { var parent := ParentShows(key, wf, s, inv, n); }
    }
    assert p !in open;
    RunRecorded(key, wf, s, inv, p);
    var c := ChildId(p);
    if p in s.flowed && n != c {
      ChildShows(key, wf, s, inv, p);
      EdgeWith(open, parents, c, n);
      assert c in open ==> IsParent(open, p, c) && forall q :: IsParent(open, q, c) ==> q == p;
      assert c !in open;
      RunRecorded(key, wf, s, inv, c);
    }
  }

  /** In every run of an invocation of a valid workflow, whatever cached snapshots are evaluated: when a task is
      submitted for execution, every task it requires has already succeeded, and if the function of a required task
      returned a flow then its dynamic child has succeeded too. */
  lemma DependencySafety(key: Aggregate, wf: Workflow, s: State, actions: seq<Action>, e: Evaluation, n: Id, p: Id)
    requires IsInitial(key, wf, s) && ValidWorkflow(wf)
    requires IsRun(key, s, actions) && Enabled(key, After(key, s, actions), Evaluate(e))
    requires RunTask(n) in e.submitted && p in e.inv.Tasks()[n].spec.requirements
    ensures var now := After(key, s, actions);
      SucceededIn(now.log, p) && (p in now.flowed && n != ChildId(p) ==> SucceededIn(now.log, ChildId(p)))
  {
    var now := After(key, s, actions);
    RunKeepsInv(key, wf, s, actions);
    var parents := SubmittedIsOnHorizon(key.id, now.phase.Keys, e, n);
    SpecShows(key, wf, now.log, e.inv);
    HorizonIsSafe(key, wf, now, e.inv, parents, n, p);
  }
}
