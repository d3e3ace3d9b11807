/**
 Event sourcing of invocations: an invocation is the fold of its event stream. Task events are folded into the task
 run they address, inside the invocation.

 The main result is about re-application: folding a prefix of a stream and then re-applying any later or overlapping
 stretch of it gives the same invocation as folding the stream once, up to the generation counters and the wall-clock
 creation stamps.
 */
module Projection {
  import opened Types

  datatype ProjectError = UnsupportedEvent | ForeignParent | InvalidAggregate

  /** The checks on an event that do not look at its payload. */
  predicate ValidEvent(e: Event) {
    e.aggregate.id != "" && (e.parent.Some? ==> e.parent.value.id != "")
  }

  predicate IsTaskData(d: EventData) {
    d.TaskRunStarted? || d.TaskRunSucceeded? || d.TaskRunFailed? || d.TaskRunSkipped?
  }

  predicate IsInvocationData(d: EventData) {
    d.InvocationCreated? || d.InvocationCanceled? || d.InvocationCompleted? || d.InvocationTaskAdded? || d.InvocationFailed?
  }

  function KeyOf(inv: Invocation): Aggregate {
    Aggregate(inv.metadata.id, InvocationType)
  }

  // ---------- The projectors ----------

  function NewTaskProjection(id: Id, now: nat): TaskRun {
    TaskRun(Metadata(id, now, 0), TaskRunSpec("", ""), TaskUnknown, None, None, None, 0)
  }

  function NewProjection(key: Aggregate, now: nat): Result<Invocation, ProjectError> {
    if key.kind != InvocationType then Err(InvalidAggregate)
    else Ok(EmptyInvocation(key.id, now))
  }

  function EmptyInvocation(id: Id, now: nat): Invocation {
    Invocation(Metadata(id, now, 0), InvocationSpec(None, None), Unknown, map[], map[], None, None, None, 0)
  }

  function ProjectTaskEvent(run: TaskRun, e: Event): Result<TaskRun, ProjectError> {
    if !ValidEvent(e) || e.aggregate.kind != TaskRunType then Err(UnsupportedEvent) else
    match e.data
    case TaskRunStarted(spec) =>
      Ok(TouchRun(TaskRun(Metadata(spec.taskId, e.timestamp, 1), spec, TaskInProgress, None, None, None, 0), e))
    case TaskRunSucceeded(output, headers) =>
      Ok(TouchRun(run.(output := output, outputHeaders := headers, status := TaskSucceeded), e))
    case TaskRunFailed(error) =>
      Ok(TouchRun(run.(error := Some(error), status := TaskFailed), e))
    case TaskRunSkipped =>
      Ok(TouchRun(run.(status := TaskSkipped), e))
    case _ => Err(UnsupportedEvent)
  }

  function TouchRun(run: TaskRun, e: Event): TaskRun {
    run.(metadata := run.metadata.(generation := run.metadata.generation + 1), updatedAt := e.timestamp)
  }

  function Touch(inv: Invocation, e: Event): Invocation {
    inv.(metadata := inv.metadata.(generation := inv.metadata.generation + 1), updatedAt := e.timestamp)
  }

  /** A task event whose parent is missing dereferences nil in the source; it is an error here. */
  function ApplyTaskEvent(inv: Invocation, e: Event, now: nat): Result<Invocation, ProjectError> {
    if e.parent != Some(KeyOf(inv)) then Err(ForeignParent) else
    var id := e.aggregate.id;
    var run := if id in inv.tasks then inv.tasks[id] else NewTaskProjection(id, now);
    match ProjectTaskEvent(run, e)
    case Ok(updated) => Ok(inv.(tasks := inv.tasks[id := updated]))
    case Err(error) => Err(error)
  }

  /** Applies one event. A terminal status does not block a later one from replacing it. */
  function ProjectEvent(inv: Invocation, e: Event, now: nat): Result<Invocation, ProjectError> {
    if e.aggregate.kind == TaskRunType then ApplyTaskEvent(inv, e, now) else
    if !ValidEvent(e) || e.aggregate.kind != InvocationType then Err(UnsupportedEvent) else
    match e.data
    case InvocationCreated(spec) =>
      Ok(Touch(Invocation(Metadata(e.aggregate.id, e.timestamp, 0), spec, InProgress, map[], map[],
                          None, None, None, 0), e))
    case InvocationCanceled(error) =>
      Ok(Touch(inv.(status := Aborted, error := Some(error)), e))
    case InvocationCompleted(output, headers) =>
      Ok(Touch(inv.(status := Succeeded, output := output, outputHeaders := headers), e))
    case InvocationTaskAdded(task) =>
      Ok(Touch(inv.(dynamicTasks := inv.dynamicTasks[task.id := task]), e))
    case InvocationFailed(error) =>
      Ok(Touch(inv.(status := Failed, error := Some(error)), e))
    case _ => Err(UnsupportedEvent)
  }

  /** The fold of a stretch of events; the first event that cannot be applied fails the whole fold. */
  function Replay(inv: Invocation, events: seq<Event>, now: nat): Result<Invocation, ProjectError> {
    if events == [] then Ok(inv) else
    var last := |events| - 1;
    match Replay(inv, events[..last], now)
    case Ok(sofar) => ProjectEvent(sofar, events[last], now)
    case Err(error) => Err(error)
  }

  method Project(base: Invocation, events: seq<Event>, now: nat) returns (r: Result<Invocation, ProjectError>)
    ensures r == Replay(base, events, now)
  {
    var inv := base;
    for i := 0 to |events|
      invariant Replay(base, events[..i], now) == Ok(inv)
    {
      assert events[..i + 1][..i] == events[..i];
      var next := ProjectEvent(inv, events[i], now);
      if next.Err? {
        ReplayStopsAtError(base, events, i + 1, now);
        return next;
      }
      inv := next.value;
    }
    assert events[..|events|] == events;
    return Ok(inv);
  }

  lemma {:induction false} ReplayStopsAtError(inv: Invocation, events: seq<Event>, n: nat, now: nat)
    requires n <= |events| && Replay(inv, events[..n], now).Err?
    ensures Replay(inv, events, now) == Replay(inv, events[..n], now)
    decreases |events| - n
  {
    if n < |events| {
      assert events[..n + 1][..n] == events[..n];
      ReplayStopsAtError(inv, events, n + 1, now);
    } else {
      assert events[..n] == events;
    }
  }

  // ---------- Which events a stream may hold ----------

  /** The payloads a projector understands, for an entity with key `key`. */
  predicate Supported(key: Aggregate, e: Event) {
    ValidEvent(e) &&
    if e.aggregate.kind == TaskRunType then e.parent == Some(key) && IsTaskData(e.data)
    else e.aggregate.kind == InvocationType && IsInvocationData(e.data)
  }

  /** A supported event of the stream of `key`. */
  predicate Accepted(key: Aggregate, e: Event) {
    Supported(key, e) && (e.aggregate.kind == InvocationType ==> e.aggregate == key)
  }

  ghost predicate AllAccepted(key: Aggregate, events: seq<Event>) {
    forall i | 0 <= i < |events| :: Accepted(key, events[i])
  }

  /** Whether an event can be applied does not depend on what was applied before it. */
  lemma ProjectEventSucceeds(inv: Invocation, e: Event, now: nat)
    ensures ProjectEvent(inv, e, now).Ok? <==> Supported(KeyOf(inv), e)
    ensures Accepted(KeyOf(inv), e) ==> KeyOf(ProjectEvent(inv, e, now).value) == KeyOf(inv)
  {
  }

  // ---------- Fields, and the events that write them ----------

  datatype RunPart = Presence | SpecPart | StatusPart | OutputPart | ErrorPart | UpdatedPart

  /** The fields of an invocation, except for the generation counters and the creation stamps. */
  datatype Field =
    | IdField
    | SpecField
    | StatusField
    | OutputField
    | ErrorField
    | UpdatedField
    | DynamicField(id: Id)
    | RunField(id: Id, part: RunPart)

  datatype FieldValue =
    | IdValue(Id)
    | SpecValue(InvocationSpec)
    | StatusValue(InvocationStatus)
    | OutputValue(Option<TypedValue>, Option<TypedValue>)
    | ErrorValue(Option<string>)
    | TimeValue(nat)
    | DynamicValue(Option<Task>)
    | PresenceValue(bool)
    | RunSpecValue(Id, TaskRunSpec)
    | RunStatusValue(TaskStatus)

  function ReadRun(run: TaskRun, part: RunPart): FieldValue {
    match part
    case Presence => PresenceValue(true)
    case SpecPart => RunSpecValue(run.metadata.id, run.spec)
    case StatusPart => RunStatusValue(run.status)
    case OutputPart => OutputValue(run.output, run.outputHeaders)
    case ErrorPart => ErrorValue(run.error)
    case UpdatedPart => TimeValue(run.updatedAt)
  }

  /** What the parts of a task run read as before the first event of that task. */
  function NoRun(id: Id, part: RunPart): FieldValue {
    if part.Presence? then PresenceValue(false) else ReadRun(NewTaskProjection(id, 0), part)
  }

  function Read(inv: Invocation, f: Field): FieldValue {
    match f
    case IdField => IdValue(inv.metadata.id)
    case SpecField => SpecValue(inv.spec)
    case StatusField => StatusValue(inv.status)
    case OutputField => OutputValue(inv.output, inv.outputHeaders)
    case ErrorField => ErrorValue(inv.error)
    case UpdatedField => TimeValue(inv.updatedAt)
    case DynamicField(id) => DynamicValue(if id in inv.dynamicTasks then Some(inv.dynamicTasks[id]) else None)
    case RunField(id, part) => if id in inv.tasks then ReadRun(inv.tasks[id], part) else NoRun(id, part)
  }

  /** Equality up to generations and creation stamps. */
  ghost predicate SameView(x: Invocation, y: Invocation) {
    forall f :: Read(x, f) == Read(y, f)
  }

  /** Two invocations with the same view differ at most in the stamps that the view leaves out. */
  lemma SameViewMeans(x: Invocation, y: Invocation)
    requires SameView(x, y)
    ensures x.spec == y.spec && x.status == y.status && x.dynamicTasks == y.dynamicTasks
    ensures x.output == y.output && x.outputHeaders == y.outputHeaders && x.error == y.error
    ensures x.updatedAt == y.updatedAt && KeyOf(x) == KeyOf(y) && x.tasks.Keys == y.tasks.Keys
    ensures forall id | id in x.tasks ::
      y.tasks[id] == x.tasks[id].(metadata := y.tasks[id].metadata) && y.tasks[id].metadata.id == x.tasks[id].metadata.id
  {
    assert Read(x, IdField) == Read(y, IdField) && Read(x, SpecField) == Read(y, SpecField);
    assert Read(x, StatusField) == Read(y, StatusField) && Read(x, OutputField) == Read(y, OutputField);
    assert Read(x, ErrorField) == Read(y, ErrorField) && Read(x, UpdatedField) == Read(y, UpdatedField);
    forall id
      ensures id in x.dynamicTasks <==> id in y.dynamicTasks
      ensures id in x.dynamicTasks ==> x.dynamicTasks[id] == y.dynamicTasks[id]
    {
      assert Read(x, DynamicField(id)) == Read(y, DynamicField(id));
    }
    forall id
      ensures id in x.tasks <==> id in y.tasks
    {
      assert Read(x, RunField(id, Presence)) == Read(y, RunField(id, Presence));
    }
    forall id | id in x.tasks
      ensures y.tasks[id] == x.tasks[id].(metadata := y.tasks[id].metadata) && y.tasks[id].metadata.id == x.tasks[id].metadata.id
    {
      assert Read(x, RunField(id, SpecPart)) == Read(y, RunField(id, SpecPart));
      assert Read(x, RunField(id, StatusPart)) == Read(y, RunField(id, StatusPart));
      assert Read(x, RunField(id, OutputPart)) == Read(y, RunField(id, OutputPart));
      assert Read(x, RunField(id, ErrorPart)) == Read(y, RunField(id, ErrorPart));
      assert Read(x, RunField(id, UpdatedPart)) == Read(y, RunField(id, UpdatedPart));
    }
  }

  /** What an event of a task writes into a part of its run, if anything. */
  function WriteRun(e: Event, part: RunPart): Option<FieldValue> {
    if part.Presence? then Some(PresenceValue(true)) else
    if part.UpdatedPart? then Some(TimeValue(e.timestamp)) else
    match e.data
    case TaskRunStarted(spec) =>
      Some(if part.SpecPart? then RunSpecValue(spec.taskId, spec)
           else if part.StatusPart? then RunStatusValue(TaskInProgress)
           else if part.OutputPart? then OutputValue(None, None)
           else ErrorValue(None))
    case TaskRunSucceeded(output, headers) =>
      if part.StatusPart? then Some(RunStatusValue(TaskSucceeded))
      else if part.OutputPart? then Some(OutputValue(output, headers)) else None
    case TaskRunFailed(error) =>
      if part.StatusPart? then Some(RunStatusValue(TaskFailed))
      else if part.ErrorPart? then Some(ErrorValue(Some(error))) else None
    case _ =>
      if part.StatusPart? then Some(RunStatusValue(TaskSkipped)) else None
  }

  /** What an accepted event writes into a field, if anything. The creation event writes every field. */
  function Write(e: Event, f: Field): Option<FieldValue> {
    if e.aggregate.kind == TaskRunType then
      if f.RunField? && f.id == e.aggregate.id then WriteRun(e, f.part) else None
    else if e.data.InvocationCreated? then
      Some(match f
           case IdField => IdValue(e.aggregate.id)
           case SpecField => SpecValue(e.data.spec)
           case StatusField => StatusValue(InProgress)
           case OutputField => OutputValue(None, None)
           case ErrorField => ErrorValue(None)
           case UpdatedField => TimeValue(e.timestamp)
           case DynamicField(_) => DynamicValue(None)
           case RunField(id, part) => NoRun(id, part))
    else if f.UpdatedField? then Some(TimeValue(e.timestamp))
    else match e.data
      case InvocationCanceled(error) =>
        if f.StatusField? then Some(StatusValue(Aborted)) else if f.ErrorField? then Some(ErrorValue(Some(error))) else None
      case InvocationCompleted(output, headers) =>
        if f.StatusField? then Some(StatusValue(Succeeded))
        else if f.OutputField? then Some(OutputValue(output, headers)) else None
      case InvocationFailed(error) =>
        if f.StatusField? then Some(StatusValue(Failed)) else if f.ErrorField? then Some(ErrorValue(Some(error))) else None
      case InvocationTaskAdded(task) =>
        if f.DynamicField? && f.id == task.id then Some(DynamicValue(Some(task))) else None
      case _ => None
  }

  /** The value the last writer of a field left there. */
  function LastWrite(events: seq<Event>, f: Field): Option<FieldValue> {
    if events == [] then None else
    var w := Write(events[|events| - 1], f);
    if w.Some? then w else LastWrite(events[..|events| - 1], f)
  }

  function Overwrite(before: FieldValue, w: Option<FieldValue>): FieldValue {
    if w.Some? then w.value else before
  }

  lemma ReadAfterTaskEvent(inv: Invocation, e: Event, now: nat, f: Field)
    requires Accepted(KeyOf(inv), e) && e.aggregate.kind == TaskRunType
    ensures ProjectEvent(inv, e, now).Ok?
    ensures Read(ProjectEvent(inv, e, now).value, f) == Overwrite(Read(inv, f), Write(e, f))
  {
  }

  lemma ReadAfterInvocationEvent(inv: Invocation, e: Event, now: nat, f: Field)
    requires Accepted(KeyOf(inv), e) && e.aggregate.kind != TaskRunType
    ensures ProjectEvent(inv, e, now).Ok?
    ensures Read(ProjectEvent(inv, e, now).value, f) == Overwrite(Read(inv, f), Write(e, f))
  {
  }

  /** After an event every field holds what the event wrote, if anything. */
  lemma ReadAfterEvent(inv: Invocation, e: Event, now: nat, f: Field)
    requires Accepted(KeyOf(inv), e)
    ensures ProjectEvent(inv, e, now).Ok?
    ensures Read(ProjectEvent(inv, e, now).value, f) == Overwrite(Read(inv, f), Write(e, f))
  {
    if e.aggregate.kind == TaskRunType {
      ReadAfterTaskEvent(inv, e, now, f);
    } else {
      ReadAfterInvocationEvent(inv, e, now, f);
    }
  }

  /** Replaying accepted events always succeeds, and every field holds what its last writer wrote. */
  lemma {:induction false} LastWriterWins(inv: Invocation, events: seq<Event>, now: nat, f: Field)
    requires AllAccepted(KeyOf(inv), events)
    ensures Replay(inv, events, now).Ok? && KeyOf(Replay(inv, events, now).value) == KeyOf(inv)
    ensures Read(Replay(inv, events, now).value, f) == Overwrite(Read(inv, f), LastWrite(events, f))
  {
    if events != [] {
      var last := |events| - 1;
      LastWriterWins(inv, events[..last], now, f);
      var sofar := Replay(inv, events[..last], now).value;
      ReadAfterEvent(sofar, events[last], now, f);
      ProjectEventSucceeds(sofar, events[last], now);
    }
  }

  // ---------- Creation stamps ----------

  /** The stamp of the last creation. */
  function LastCreated(events: seq<Event>): Option<nat> {
    if events == [] then None
    else if events[|events| - 1].data.InvocationCreated? then Some(events[|events| - 1].timestamp)
    else LastCreated(events[..|events| - 1])
  }

  /** After a creation, an invocation carries the stamp of the last one, whatever the clock of the fold reads. */
  lemma {:induction false} CreatedWhenCreated(inv: Invocation, events: seq<Event>, now: nat)
    requires AllAccepted(KeyOf(inv), events)
    ensures Replay(inv, events, now).Ok?
    ensures Replay(inv, events, now).value.metadata.createdAt ==
      if LastCreated(events).Some? then LastCreated(events).value else inv.metadata.createdAt
  {
    LastWriterWins(inv, events, now, IdField);
    if events != [] {
      var last := |events| - 1;
      CreatedWhenCreated(inv, events[..last], now);
      LastWriterWins(inv, events[..last], now, IdField);
    }
  }

  lemma {:induction false} LastCreatedConcat(a: seq<Event>, b: seq<Event>)
    ensures LastCreated(a + b) == if LastCreated(b).Some? then LastCreated(b) else LastCreated(a)
  {
    if b == [] {
      assert a + b == a;
    } else {
      assert (a + b)[..|a + b| - 1] == a + b[..|b| - 1];
      LastCreatedConcat(a, b[..|b| - 1]);
    }
  }

  lemma LastCreatedReapplied(log: seq<Event>, k: nat, m: nat, n: nat)
    requires k <= m <= n <= |log|
    ensures LastCreated(log[..m] + log[k..n]) == LastCreated(log[..n])
  {
    hide LastCreated;
    LastCreatedConcat(log[..m], log[k..n]);
    LastCreatedConcat(log[..k], log[k..m]);
    LastCreatedConcat(log[k..m], log[m..n]);
    LastCreatedConcat(log[..m], log[m..n]);
    assert log[..k] + log[k..m] == log[..m];
    assert log[k..m] + log[m..n] == log[k..n];
    assert log[..m] + log[m..n] == log[..n];
  }

  // ---------- Re-application ----------

  lemma {:induction false} LastWriteConcat(a: seq<Event>, b: seq<Event>, f: Field)
    ensures LastWrite(a + b, f) == if LastWrite(b, f).Some? then LastWrite(b, f) else LastWrite(a, f)
  {
    if b == [] {
      assert a + b == a;
    } else {
      assert (a + b)[..|a + b| - 1] == a + b[..|b| - 1];
      LastWriteConcat(a, b[..|b| - 1], f);
    }
  }

  lemma LastWriteReapplied(log: seq<Event>, k: nat, m: nat, n: nat, f: Field)
    requires k <= m <= n <= |log|
    ensures LastWrite(log[..m] + log[k..n], f) == LastWrite(log[..n], f)
  {
    LastWriteConcat(log[..m], log[k..n], f);
    LastWriteConcat(log[..k], log[k..m], f);
    LastWriteConcat(log[k..m], log[m..n], f);
    LastWriteConcat(log[..m], log[m..n], f);
    assert log[..k] + log[k..m] == log[..m];
    assert log[k..m] + log[m..n] == log[k..n];
    assert log[..m] + log[m..n] == log[..n];
  }

  /** Folding the first m events and then re-applying events k to n leaves the view that folding the first n events
      leaves, whatever the clocks of the two folds read. */
  lemma Reapply(base: Invocation, log: seq<Event>, k: nat, m: nat, n: nat, now: nat, now': nat)
    requires k <= m <= n <= |log| && AllAccepted(KeyOf(base), log)
    ensures Replay(base, log[..m] + log[k..n], now).Ok? && Replay(base, log[..n], now').Ok?
    ensures SameView(Replay(base, log[..m] + log[k..n], now).value, Replay(base, log[..n], now').value)
  {
    LastWriterWins(base, log[..m] + log[k..n], now, IdField);
    LastWriterWins(base, log[..n], now', IdField);
    forall f
      ensures Read(Replay(base, log[..m] + log[k..n], now).value, f) == Read(Replay(base, log[..n], now').value, f)
    {
      LastWriterWins(base, log[..m] + log[k..n], now, f);
      LastWriterWins(base, log[..n], now', f);
      LastWriteReapplied(log, k, m, n, f);
    }
  }
}
