/**
 The entities shared by every component: typed values, task and workflow specifications, invocations and
 events. Pointers that may be nil are `Option`; maps that may be nil are ordinary (possibly empty) maps, as on the
 protobuf wire.
 */
module Types {

  datatype Option<+T> = None | Some(value: T)

  datatype Result<+T, +E> = Ok(value: T) | Err(error: E)

  newtype Int32 = x: int | -0x8000_0000 <= x < 0x8000_0000
  newtype Int64 = x: int | -0x8000_0000_0000_0000 <= x < 0x8000_0000_0000_0000
  newtype Uint32 = x: int | 0 <= x < 0x1_0000_0000
  newtype Uint64 = x: int | 0 <= x < 0x1_0000_0000_0000_0000
  newtype Byte = x: int | 0 <= x < 256

  /** Identifiers of tasks and invocations. */
  type Id = string

  /** No element occurs twice. */
  predicate Distinct<T(==)>(s: seq<T>) {
    forall i, j | 0 <= i < j < |s| :: s[i] != s[j]
  }

  // ---------- Typed values ----------

  /** A protobuf message with annotations. */
  datatype TypedValue = TypedValue(metadata: map<string, string>, value: Message)

  /** The messages a typed value can hold. Floats are opaque IEEE-754 bit patterns. */
  datatype Message =
    | NilValue
    | BoolValue(truth: bool)
    | FloatValue(bits32: Uint32)
    | DoubleValue(bits64: Uint64)
    | Int32Value(int32: Int32)
    | Int64Value(int64: Int64)
    | UInt32Value(uint32: Uint32)
    | UInt64Value(uint64: Uint64)
    | StringValue(str: string)
    | BytesValue(bytes: seq<Byte>)
    | Expression(expr: string)
    | MapValue(entries: map<string, TypedValue>)
    | ArrayValue(elements: seq<TypedValue>)
    | TaskMessage(task: TaskSpec)
    | WorkflowMessage(workflow: WorkflowSpec)
    | FlowMessage(flow: Flow)

  datatype Flow = Flow(workflow: Option<WorkflowSpec>, task: Option<TaskSpec>)

  // ---------- Workflows ----------

  /** The parameters of one entry of `Requires`; `NilParams` is a nil pointer. */
  datatype Dependency = NilParams | Data | Control | DynamicOutput

  type Requirements = map<Id, Dependency>

  datatype TaskSpec = TaskSpec(
    functionRef: string,
    inputs: map<string, TypedValue>,
    requirements: Requirements)

  datatype WorkflowSpec = WorkflowSpec(
    apiVersion: string,
    tasks: map<Id, TaskSpec>,
    outputTask: Id)

  datatype Task = Task(id: Id, spec: TaskSpec)

  datatype Workflow = Workflow(tasks: map<Id, Task>, outputTask: Id)

  // ---------- Task runs ----------

  datatype TaskStatus = TaskUnknown | TaskScheduled | TaskInProgress | TaskSucceeded | TaskFailed | TaskAborted | TaskSkipped
  {
    predicate Finished() {
      TaskFailed? || TaskAborted? || TaskSkipped? || TaskSucceeded?
    }
  }

  datatype Metadata = Metadata(id: Id, createdAt: nat, generation: nat)

  datatype TaskRunSpec = TaskRunSpec(taskId: Id, fnRef: string)

  datatype TaskRun = TaskRun(
    metadata: Metadata,
    spec: TaskRunSpec,
    status: TaskStatus,
    output: Option<TypedValue>,
    outputHeaders: Option<TypedValue>,
    error: Option<string>,
    updatedAt: nat)

  // ---------- Invocations ----------

  datatype InvocationStatus = Unknown | Scheduled | InProgress | Succeeded | Failed | Aborted
  {
    predicate Finished() {
      Aborted? || Succeeded? || Failed?
    }
  }

  datatype InvocationSpec = InvocationSpec(workflow: Option<Workflow>, deadline: Option<nat>)

  datatype Invocation = Invocation(
    metadata: Metadata,
    spec: InvocationSpec,
    status: InvocationStatus,
    tasks: map<Id, TaskRun>,
    dynamicTasks: map<Id, Task>,
    output: Option<TypedValue>,
    outputHeaders: Option<TypedValue>,
    error: Option<string>,
    updatedAt: nat)
  {
    /** All tasks of the invocation; a dynamic task overlays a static task with the same identifier. */
    function Tasks(): map<Id, Task> {
      (if spec.workflow.Some? then spec.workflow.value.tasks else map[]) + dynamicTasks
    }
  }

  // ---------- Events ----------

  datatype AggregateType = WorkflowType | InvocationType | TaskRunType

  datatype Aggregate = Aggregate(id: Id, kind: AggregateType)

  datatype EventData =
    | InvocationCreated(spec: InvocationSpec)
    | InvocationCanceled(error: string)
    | InvocationCompleted(output: Option<TypedValue>, outputHeaders: Option<TypedValue>)
    | InvocationTaskAdded(task: Task)
    | InvocationFailed(error: string)
    | TaskRunStarted(run: TaskRunSpec)
    | TaskRunSucceeded(output: Option<TypedValue>, outputHeaders: Option<TypedValue>)
    | TaskRunFailed(error: string)
    | TaskRunSkipped
    | OtherData

  datatype Event = Event(
    aggregate: Aggregate,
    parent: Option<Aggregate>,
    timestamp: nat,
    data: EventData,
    completed: bool)
  {
    /** Task events carry the invocation as parent and are routed to its stream. */
    function Key(): Aggregate {
      if parent.Some? then parent.value else aggregate
    }
  }
}
