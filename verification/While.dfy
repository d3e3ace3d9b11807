/**
 The `while` function: each invocation either ends the loop or compiles one turn of it into a workflow that runs the
 action and then invokes `while` again with a higher count.
 */
module While {
  import opened Types
  import opened TypedValues
  import opened Graph
  import opened Validate
  import opened ControlFlow
  import opened Inputs
  import opened Dag

  const WHILE := "while"
  const EXPR := "expr"
  const LIMIT := "limit"
  const DELAY := "delay"
  const DO := "do"
  const COUNT := "_count"
  const PREV := "_prev"
  const MAIN := "default"
  const ACTION := "action"
  const CONDITION := "condition"
  const WAIT := "wait"
  const PREV_PATH := " $.Tasks.action.Output "
  const PREV_EXPR := "{" + PREV_PATH + "}"

  datatype Error =
    | InputNotSet(key: string)
    | InvalidType(key: string)
    | SourceUnknown
    | InvalidDuration
    | LimitExceeded

  /** Conversions of the host language: floats to integers, bytes to text, and durations from and to text. */
  datatype Platform = Platform(
    floatToInt: Uint32 -> Int64,
    doubleToInt: Uint64 -> Int64,
    text: seq<Byte> -> string,
    parseDuration: string -> Option<Int64>,
    formatDuration: Int64 -> string)

  // ---------- Reading the inputs ----------

  /** An invocation of `while` whose inputs have been read. */
  datatype Call = Call(
    holds: bool,
    src: string,
    limitValue: TypedValue,
    limit: Int64,
    count: Int64,
    delay: Int64,
    action: TypedValue,
    prev: Option<TypedValue>)

  function UnwrapInt64(p: Platform, tv: TypedValue): Option<Int64> {
    match tv.value
    case Int64Value(i) => Some(i)
    case Int32Value(i) => Some(i as Int64)
    case UInt32Value(u) => Some(u as Int64)
    case UInt64Value(u) =>
      Some(if u < 0x8000_0000_0000_0000 then u as Int64 else (u as int - 0x1_0000_0000_0000_0000) as Int64)
    case FloatValue(bits) => Some(p.floatToInt(bits))
    case DoubleValue(bits) => Some(p.doubleToInt(bits))
    case _ => None
  }

  function UnwrapString(p: Platform, tv: TypedValue): Option<string> {
    match tv.value
    case StringValue(s) => Some(s)
    case Expression(s) => Some(s)
    case BytesValue(bs) => Some(p.text(bs))
    case _ => None
  }

  function ReadDelay(p: Platform, inputs: map<string, TypedValue>): Result<Int64, Error> {
    if DELAY !in inputs then Ok(0) else
    var s := UnwrapString(p, inputs[DELAY]);
    if s.None? then Err(InvalidType(DELAY)) else
    var d := p.parseDuration(s.value);
    if d.None? then Err(InvalidDuration) else Ok(d.value)
  }

  function ReadCount(p: Platform, inputs: map<string, TypedValue>): Option<Int64> {
    if COUNT in inputs then UnwrapInt64(p, inputs[COUNT]) else Some(0)
  }

  function Read(p: Platform, inputs: map<string, TypedValue>): Result<Call, Error> {
    if EXPR !in inputs then Err(InputNotSet(EXPR))
    else if !inputs[EXPR].value.BoolValue? then Err(InvalidType(EXPR))
    else if "src" !in inputs[EXPR].metadata then Err(SourceUnknown)
    else if LIMIT !in inputs then Err(InputNotSet(LIMIT))
    else
      var limit, count, delay := UnwrapInt64(p, inputs[LIMIT]), ReadCount(p, inputs), ReadDelay(p, inputs);
      if limit.None? then Err(InvalidType(LIMIT))
      else if count.None? then Err(InvalidType(COUNT))
      else if delay.Err? then Err(delay.error)
      else if DO !in inputs then Err(InputNotSet(DO))
      else
        Ok(Call(inputs[EXPR].value.truth, inputs[EXPR].metadata["src"], inputs[LIMIT], limit.value, count.value,
                delay.value, inputs[DO], if PREV in inputs then Some(inputs[PREV]) else None))
  }

  /** Reading an integer keeps its value as far as 64 bits can hold it. */
  lemma UnwrapKeepsValue(p: Platform, tv: TypedValue)
    ensures tv.value.Int64Value? ==> UnwrapInt64(p, tv) == Some(tv.value.int64)
    ensures tv.value.Int32Value? ==> UnwrapInt64(p, tv).Some? && UnwrapInt64(p, tv).value as int == tv.value.int32 as int
    ensures tv.value.UInt32Value? ==> UnwrapInt64(p, tv).Some? && UnwrapInt64(p, tv).value as int == tv.value.uint32 as int
    ensures tv.value.UInt64Value? ==>
      && UnwrapInt64(p, tv).Some?
      && (tv.value.uint64 as int - UnwrapInt64(p, tv).value as int) % 0x1_0000_0000_0000_0000 == 0
  {
  }

  predicate IsReadable(p: Platform, inputs: map<string, TypedValue>) {
    && EXPR in inputs && inputs[EXPR].value.BoolValue? && "src" in inputs[EXPR].metadata
    && LIMIT in inputs && UnwrapInt64(p, inputs[LIMIT]).Some?
    && (COUNT in inputs ==> UnwrapInt64(p, inputs[COUNT]).Some?)
    && (DELAY in inputs ==> UnwrapString(p, inputs[DELAY]).Some? && p.parseDuration(UnwrapString(p, inputs[DELAY]).value).Some?)
    && DO in inputs
  }

  /** An invocation is read exactly when its condition is a boolean that names its source, its limit and, if given, its
      count are numbers, its delay, if given, is a duration, and there is an action; and then as what is given. An error
      names an input that is missing or has the wrong type. */
  lemma ReadMeans(p: Platform, inputs: map<string, TypedValue>)
    ensures Read(p, inputs).Ok? <==> IsReadable(p, inputs)
    ensures Read(p, inputs).Ok? ==>
      var c := Read(p, inputs).value;
      && inputs[EXPR].value == BoolValue(c.holds) && inputs[EXPR].metadata["src"] == c.src
      && c.limitValue == inputs[LIMIT] && UnwrapInt64(p, inputs[LIMIT]) == Some(c.limit)
      && (if COUNT in inputs then UnwrapInt64(p, inputs[COUNT]) == Some(c.count) else c.count == 0)
      && (if DELAY in inputs then p.parseDuration(UnwrapString(p, inputs[DELAY]).value) == Some(c.delay) else c.delay == 0)
      && c.action == inputs[DO] && c.prev == (if PREV in inputs then Some(inputs[PREV]) else None)
    ensures Read(p, inputs).Err? ==>
      match Read(p, inputs).error
      case InputNotSet(k) => k in {EXPR, LIMIT, DO} && k !in inputs
      case InvalidType(k) => k in {EXPR, LIMIT, COUNT, DELAY} && k in inputs
      case SourceUnknown => EXPR in inputs && "src" !in inputs[EXPR].metadata
      case InvalidDuration => DELAY in inputs
      case LimitExceeded => false
  {
  }

  // ---------- One invocation ----------

  datatype Outcome =
    | Output(value: Option<TypedValue>)
    | Turn(workflow: WorkflowSpec)
    | Failure(error: Error)

  function Prioritised(v: GoValue): TypedValue
    requires Supported(v)
  {
    WrapSupported(v);
    WithMetadata(Wrap(v).value, "priority", "100")
  }

  function FlowOf(tv: TypedValue): Flow
    requires IsControlFlow(Some(tv))
  {
    match tv.value
    case TaskMessage(t) => Flow(None, Some(t))
    case WorkflowMessage(wf) => Flow(Some(wf), None)
    case FlowMessage(f) => f
  }

  /** Adds an input to the task of a flow; workflows take no inputs. */
  function FlowInput(f: Flow, key: string, tv: TypedValue): Flow {
    if f.task.None? then f
    else f.(task := Some(f.task.value.(inputs := f.task.value.inputs[key := tv])))
  }

  /** The action of a turn: a task is told the number of the turn and, after the first, the previous output. */
  function TurnAction(action: TypedValue, count: Int64): TypedValue
    requires count < 0x7fff_ffff_ffff_ffff
  {
    if !IsControlFlow(Some(action)) then action else
    var f := if count > 0 then FlowInput(FlowOf(action), PREV, Prioritised(GoString(PREV_EXPR))) else FlowOf(action);
    Pack(FlowMessage(FlowInput(f, COUNT, Prioritised(GoInt64(count + 1)))))
  }

  function DelayValue(p: Platform, delay: Int64): TypedValue {
    Wrap(GoString(p.formatDuration(delay))).value
  }

  function LoopInputs(
    expr: TypedValue, delay: TypedValue, limit: TypedValue, action: TypedValue, count: TypedValue, prev: TypedValue)
    : map<string, TypedValue>
  {
    map[EXPR := expr, DELAY := delay, LIMIT := limit, DO := action, COUNT := count, PREV := prev]
  }

  function ConditionInputs(p: Platform, c: Call): map<string, TypedValue>
    requires c.count < c.limit
  {
    LoopInputs(
      Wrap(GoString(c.src)).value,
      DelayValue(p, c.delay),
      c.limitValue,
      TurnAction(c.action, c.count),
      Prioritised(GoInt64(c.count + 1)),
      Prioritised(GoString(PREV_EXPR)))
  }

  /** The tasks of a turn: wait if there is a delay, do the action, check the condition again. */
  function TurnTasks(action: TaskSpec, condition: TaskSpec, wait: TaskSpec, delayed: bool): map<Id, TaskSpec> {
    var checked := condition.(requirements := map[ACTION := NilParams]);
    if delayed then map[ACTION := action.(requirements := map[WAIT := NilParams]), CONDITION := checked, WAIT := wait]
    else map[ACTION := action, CONDITION := checked]
  }

  function TurnSpec(p: Platform, c: Call): WorkflowSpec
    requires c.count < c.limit
  {
    var action := TaskSpec("noop", map[MAIN := TurnAction(c.action, c.count)], map[]);
    var condition := TaskSpec(WHILE, ConditionInputs(p, c), map[]);
    var wait := TaskSpec("sleep", map[MAIN := DelayValue(p, c.delay)], map[]);
    WorkflowSpec("", TurnTasks(action, condition, wait, c.delay > 0), CONDITION)
  }

  function Decide(p: Platform, c: Call): Outcome {
    if !c.holds then Output(c.prev)
    else if c.count >= c.limit then Failure(LimitExceeded)
    else Turn(TurnSpec(p, c))
  }

  method Invoke(p: Platform, inputs: map<string, TypedValue>) returns (r: Outcome)
    ensures r == var c := Read(p, inputs); if c.Err? then Failure(c.error) else Decide(p, c.value)
  {
    var read := Read(p, inputs);
    if read.Err? {
      return Failure(read.error);
    }
    var c := read.value;
    if !c.holds {
      return Output(c.prev);
    }
    if c.count >= c.limit {
      return Failure(LimitExceeded);
    }
    var action := BuildAction(c.action, c.count);
    var wf := BuildTurn(p, c, action);
    return Turn(wf);
  }

  method BuildAction(action: TypedValue, count: Int64) returns (r: TypedValue)
    requires count < 0x7fff_ffff_ffff_ffff
    ensures r == TurnAction(action, count)
  {
    r := action;
    if IsControlFlow(Some(action)) {
      var cf := FlowOf(action);
      if count > 0 {
        cf := FlowInput(cf, PREV, Prioritised(GoString(PREV_EXPR)));
      }
      cf := FlowInput(cf, COUNT, Prioritised(GoInt64(count + 1)));
      r := Pack(FlowMessage(cf));
    }
  }

  method BuildTurn(p: Platform, c: Call, action: TypedValue) returns (wf: WorkflowSpec)
    requires c.count < c.limit && action == TurnAction(c.action, c.count)
    ensures wf == TurnSpec(p, c)
  {
    var delay := DelayValue(p, c.delay);
    var tasks := map[
      ACTION := TaskSpec("noop", map[MAIN := action], map[]),
      CONDITION := TaskSpec(WHILE, ConditionInputs(p, c), map[ACTION := NilParams])];
    if c.delay > 0 {
      tasks := tasks[WAIT := TaskSpec("sleep", map[MAIN := delay], map[])];
      tasks := tasks[ACTION := tasks[ACTION].(requirements := tasks[ACTION].requirements[WAIT := NilParams])];
    }
    wf := WorkflowSpec("", tasks, CONDITION);
  }

  // ---------- One turn as a workflow ----------

  /** The order of a turn. */
  function TurnChain(delayed: bool): seq<Id> {
    if delayed then [WAIT, ACTION, CONDITION] else [ACTION, CONDITION]
  }

  lemma TasksAreChain(action: TaskSpec, condition: TaskSpec, wait: TaskSpec, delayed: bool)
    requires action.requirements == wait.requirements == map[]
    ensures IsChain(TurnTasks(action, condition, wait, delayed), TurnChain(delayed))
  {
  }

  lemma TasksAreValid(action: TaskSpec, condition: TaskSpec, wait: TaskSpec, delayed: bool)
    requires action.requirements == wait.requirements == map[]
    requires action.functionRef != "" && condition.functionRef != "" && wait.functionRef != ""
    ensures ValidSpec(WorkflowSpec("", TurnTasks(action, condition, wait, delayed), CONDITION))
  {
    TasksAreChain(action, condition, wait, delayed);
    ChainIsAcyclic(WorkflowSpec("", TurnTasks(action, condition, wait, delayed), CONDITION), TurnChain(delayed));
  }

  /** A turn is a valid workflow, and the horizon lets its tasks run in one order only: wait, action, condition. */
  lemma TurnIsSequential(p: Platform, c: Call, order: seq<Id>)
    requires c.count < c.limit
    ensures ValidSpec(TurnSpec(p, c))
    ensures IsHorizonOrder(TurnSpec(p, c), order) ==> order == TurnChain(c.delay > 0)
  {
    var spec := TurnSpec(p, c);
    var action := TaskSpec("noop", map[MAIN := TurnAction(c.action, c.count)], map[]);
    var condition := TaskSpec(WHILE, ConditionInputs(p, c), map[]);
    var wait := TaskSpec("sleep", map[MAIN := DelayValue(p, c.delay)], map[]);
    TasksAreChain(action, condition, wait, c.delay > 0);
    TasksAreValid(action, condition, wait, c.delay > 0);
    if IsHorizonOrder(spec, order) {
      HorizonIsTopological(spec, order);
      ChainIsLine(spec.tasks, TurnChain(c.delay > 0));
      LineOrder(spec.tasks, TurnChain(c.delay > 0), order);
    }
  }

  /** What the tasks of a turn are: the action is passed through, the condition is another `while`, and if there is a
      delay the wait sleeps for it. The output is that of the condition. */
  lemma TurnDoes(p: Platform, c: Call)
    requires c.count < c.limit
    ensures var spec := TurnSpec(p, c);
      && spec.outputTask == "condition"
      && spec.tasks.Keys == {"action", "condition"} + (if c.delay > 0 then {"wait"} else {})
      && spec.tasks["action"].functionRef == "noop"
      && spec.tasks["action"].inputs == map["default" := TurnAction(c.action, c.count)]
      && spec.tasks["condition"].functionRef == "while" && spec.tasks["condition"].inputs == ConditionInputs(p, c)
      && (c.delay > 0 ==>
            && spec.tasks["wait"].functionRef == "sleep" && spec.tasks["wait"].inputs.Keys == {"default"}
            && UnwrapString(p, spec.tasks["wait"].inputs["default"]) == Some(p.formatDuration(c.delay)))
  {
    hide TurnAction, ConditionInputs;
  }

  // ---------- The compiled loop means the loop ----------

  /** The world that actions change and conditions look at. */
  datatype Machine<!W> = Machine(act: (W, TypedValue) -> (W, TypedValue), scripts: W -> Runtime)

  /** What evaluator, sort and durations promise: a result names its source, the previous output is looked up, inputs
      come in the order of their priorities, and a duration that was read can be printed and read back. */
  ghost predicate Lawful<W(!new)>(p: Platform, m: Machine<W>) {
    && (forall w :: LawfulScripts(m.scripts(w)))
    && LawfulDurations(p)
  }

  ghost predicate LawfulDurations(p: Platform) {
    && PrintsBack(p, 0)
    && (forall text {:trigger PrintsBack(p, p.parseDuration(text).value)} ::
          p.parseDuration(text).Some? ==> PrintsBack(p, p.parseDuration(text).value))
  }

  predicate PrintsBack(p: Platform, d: Int64) {
    p.parseDuration(p.formatDuration(d)) == Some(d) && !IsExpression(p.formatDuration(d))
  }

  /** The delay of an invocation is none or was parsed. */
  lemma DelayPrintsBack(p: Platform, inputs: map<string, TypedValue>, c: Call)
    requires LawfulDurations(p) && Read(p, inputs) == Ok(c)
    ensures PrintsBack(p, c.delay)
  {
    assert ReadDelay(p, inputs) == Ok(c.delay);
    if DELAY in inputs {
      var text := UnwrapString(p, inputs[DELAY]).value;
      assert PrintsBack(p, p.parseDuration(text).value);
    }
  }

  ghost predicate LawfulScripts(rt: Runtime) {
    && Prioritizes(rt)
    && (forall e, scope :: HasSource(rt.eval(e, scope), e))
    && (forall scope: Scope | ACTION in scope.outputs ::
          rt.eval(PREV_EXPR, scope) == rt.read(PREV_EXPR, scope.outputs[ACTION]))
  }

  predicate HasSource(tv: TypedValue, e: string) {
    "src" in tv.metadata && tv.metadata["src"] == e
  }

  predicate Holds(tv: TypedValue) {
    tv.value.BoolValue? && tv.value.truth
  }

  lemma TurnParts(p: Platform, c: Call)
    requires c.count < c.limit
    ensures var tasks := TurnSpec(p, c).tasks;
      && ACTION in tasks && tasks[ACTION].inputs == map[MAIN := TurnAction(c.action, c.count)]
      && CONDITION in tasks && tasks[CONDITION].inputs == ConditionInputs(p, c)
  {
  }

  // The inputs of the next invocation.

  lemma LoopInputsAre(
    expr: TypedValue, delay: TypedValue, limit: TypedValue, action: TypedValue, count: TypedValue, prev: TypedValue)
    ensures var inputs := LoopInputs(expr, delay, limit, action, count, prev);
      && inputs.Keys == {EXPR, DELAY, LIMIT, DO, COUNT, PREV}
      && inputs[EXPR] == expr && inputs[DELAY] == delay && inputs[LIMIT] == limit
      && inputs[DO] == action && inputs[COUNT] == count && inputs[PREV] == prev
  {
    assert EXPR[0] == 'e' && DELAY[0] == 'd' && LIMIT[0] == 'l' && DO[0] == 'd' && COUNT[0] == '_' && PREV[0] == '_';
    assert |DELAY| == 5 && |DO| == 2 && |COUNT| == 6 && |PREV| == 5;
  }

  lemma ConditionInputsAre(p: Platform, c: Call)
    requires c.count < c.limit
    ensures var inputs := ConditionInputs(p, c);
      && inputs.Keys == {EXPR, DELAY, LIMIT, DO, COUNT, PREV}
      && inputs[EXPR] == Wrap(GoString(c.src)).value && inputs[DELAY] == DelayValue(p, c.delay)
      && inputs[LIMIT] == c.limitValue && inputs[DO] == TurnAction(c.action, c.count)
      && inputs[COUNT] == Prioritised(GoInt64(c.count + 1)) && inputs[PREV] == Prioritised(GoString(PREV_EXPR))
  {
    hide LoopInputs, TurnAction, DelayValue, Prioritised;
    LoopInputsAre(Wrap(GoString(c.src)).value, DelayValue(p, c.delay), c.limitValue, TurnAction(c.action, c.count),
                  Prioritised(GoInt64(c.count + 1)), Prioritised(GoString(PREV_EXPR)));
  }

  lemma PrevIsExpression()
    ensures IsExpression(PREV_EXPR)
  {
    ExpressionDelimiters("", PREV_PATH);
  }

  /** What the inputs of the condition resolve to without looking at each other. */
  lemma PlainInputsResolve(p: Platform, rt: Runtime, c: Call, out: TypedValue, own: map<string, GoValue>)
    requires c.count < c.limit && LawfulScripts(rt) && UnwrapInt64(p, c.limitValue).Some?
    requires !IsExpression(p.formatDuration(c.delay))
    ensures var scope := Scope(CONDITION, own, map[ACTION := out]);
      && Resolve(rt, DelayValue(p, c.delay), scope) == DelayValue(p, c.delay)
      && Resolve(rt, c.limitValue, scope) == c.limitValue
      && Resolve(rt, Prioritised(GoInt64(c.count + 1)), scope) == Prioritised(GoInt64(c.count + 1))
      && Resolve(rt, Prioritised(GoString(PREV_EXPR)), scope) == rt.read(PREV_EXPR, out)
  {
    PrevIsExpression();
  }

  /** The resolved inputs of the next invocation, after the action has given `out`. What is read of `out` is given as
      the previous output, in sight of the other inputs. */
  function Checked(p: Platform, rt: Runtime, c: Call, out: TypedValue): map<string, TypedValue>
    requires c.count < c.limit
  {
    ResolveInputs(rt, CONDITION, ConditionInputs(p, c), map[ACTION := out], map[PREV := rt.read(PREV_EXPR, out)])
  }

  lemma CheckedAnyway(p: Platform, rt: Runtime, c: Call, out: TypedValue)
    requires c.count < c.limit && LawfulScripts(rt)
    ensures ResolveInputs(rt, CONDITION, ConditionInputs(p, c), map[ACTION := out]) == Checked(p, rt, c, out)
  {
    var inputs, env := ConditionInputs(p, c), map[ACTION := out];
    assert IsPriorityOrder(inputs, rt.order(CONDITION, inputs));
    ConditionInputsAre(p, c);
    PrevIsExpression();
    assert PREV in inputs.Keys;
    GivenAnyway(rt, CONDITION, inputs, env, map[], rt.order(CONDITION, inputs), PREV, rt.read(PREV_EXPR, out));
  }

  /** One of the inputs that do not look at the others. */
  lemma CheckedPlain(p: Platform, rt: Runtime, c: Call, out: TypedValue, k: string, tv: TypedValue)
    requires c.count < c.limit && LawfulScripts(rt) && k in ConditionInputs(p, c)
    requires forall own :: Resolve(rt, ConditionInputs(p, c)[k], Scope(CONDITION, own, map[ACTION := out])) == tv
    ensures k in Checked(p, rt, c, out) && Checked(p, rt, c, out)[k] == tv
  {
    var inputs, env := ConditionInputs(p, c), map[ACTION := out];
    assert IsPriorityOrder(inputs, rt.order(CONDITION, inputs));
    CheckedAnyway(p, rt, c, out);
    ResolvedAs(rt, CONDITION, inputs, env, map[], map[], rt.order(CONDITION, inputs), k, tv);
  }

  lemma CheckedKeys(p: Platform, rt: Runtime, c: Call, out: TypedValue, k: string)
    requires c.count < c.limit && LawfulScripts(rt)
    ensures k in Checked(p, rt, c, out) <==> k in ConditionInputs(p, c)
  {
    var inputs := ConditionInputs(p, c);
    assert IsPriorityOrder(inputs, rt.order(CONDITION, inputs));
    ResolvedKeys(rt, CONDITION, inputs, map[ACTION := out], map[PREV := rt.read(PREV_EXPR, out)], map[],
                 rt.order(CONDITION, inputs), k);
  }

  /** The next invocation finds the same limit and delay, the next count and what was read of the output. */
  lemma CheckedAre(p: Platform, rt: Runtime, c: Call, out: TypedValue)
    requires c.count < c.limit && LawfulScripts(rt) && UnwrapInt64(p, c.limitValue).Some?
    requires !IsExpression(p.formatDuration(c.delay))
    ensures var next := Checked(p, rt, c, out);
      && EXPR in next && DO in next
      && DELAY in next && next[DELAY] == DelayValue(p, c.delay)
      && LIMIT in next && next[LIMIT] == c.limitValue
      && COUNT in next && next[COUNT] == Prioritised(GoInt64(c.count + 1))
      && PREV in next && next[PREV] == rt.read(PREV_EXPR, out)
  {
    ConditionInputsAre(p, c);
    var inputs := ConditionInputs(p, c);
    assert EXPR in inputs.Keys && DO in inputs.Keys && DELAY in inputs.Keys && LIMIT in inputs.Keys;
    assert COUNT in inputs.Keys && PREV in inputs.Keys;
    forall own
      ensures Resolve(rt, inputs[DELAY], Scope(CONDITION, own, map[ACTION := out])) == DelayValue(p, c.delay)
      ensures Resolve(rt, inputs[LIMIT], Scope(CONDITION, own, map[ACTION := out])) == c.limitValue
      ensures Resolve(rt, inputs[COUNT], Scope(CONDITION, own, map[ACTION := out])) == Prioritised(GoInt64(c.count + 1))
      ensures Resolve(rt, inputs[PREV], Scope(CONDITION, own, map[ACTION := out])) == rt.read(PREV_EXPR, out)
    {
      PlainInputsResolve(p, rt, c, out, own);
    }
    CheckedKeys(p, rt, c, out, EXPR);
    CheckedKeys(p, rt, c, out, DO);
    CheckedPlain(p, rt, c, out, DELAY, DelayValue(p, c.delay));
    CheckedPlain(p, rt, c, out, LIMIT, c.limitValue);
    CheckedPlain(p, rt, c, out, COUNT, Prioritised(GoInt64(c.count + 1)));
    CheckedPlain(p, rt, c, out, PREV, rt.read(PREV_EXPR, out));
  }

  lemma PriorityOfHundred(v: GoValue)
    requires Supported(v)
    ensures Priority(Prioritised(v)) == 100
  {
    assert Atoi("1") == 1 by { assert "1"[..0] == ""; }
    assert Atoi("10") == 10 by { assert "10"[..1] == "1"; }
    assert Atoi("100") == 100 by { assert "100"[..2] == "10"; }
  }

  /** The condition is evaluated from its source, in sight of the count and of what was read of the last output. */
  lemma ConditionInSight(p: Platform, rt: Runtime, c: Call, out: TypedValue) returns (own: map<string, GoValue>)
    requires c.count < c.limit && LawfulScripts(rt) && UnwrapInt64(p, c.limitValue).Some?
    requires !IsExpression(p.formatDuration(c.delay))
    ensures EXPR in Checked(p, rt, c, out)
    ensures Checked(p, rt, c, out)[EXPR] ==
      Resolve(rt, Wrap(GoString(c.src)).value, Scope(CONDITION, own, map[ACTION := out]))
    ensures PREV in own && own[PREV] == Unwrap(rt.read(PREV_EXPR, out)) && COUNT in own && own[COUNT] == GoInt64(c.count + 1)
  {
    hide Checked, ConditionInputs, ResolveFrom, Resolve, TurnAction, Priority, IsPriorityOrder, Wrap, DelayValue;
    var inputs, env := ConditionInputs(p, c), map[ACTION := out];
    ConditionInputsAre(p, c);
    assert EXPR in inputs.Keys && PREV in inputs.Keys && COUNT in inputs.Keys;
    CheckedAnyway(p, rt, c, out);
    CheckedAre(p, rt, c, out);
    var r := Checked(p, rt, c, out);
    assert IsPriorityOrder(inputs, rt.order(CONDITION, inputs));
    ValuesInSight(rt, CONDITION, inputs, env, rt.order(CONDITION, inputs), EXPR);
    own :| ShowsAbove(inputs, EXPR, own, r) && r[EXPR] == Resolve(rt, inputs[EXPR], Scope(CONDITION, own, env));
    CountAndPrevLead(p, c);
    NumberUnwraps(c.count + 1);
  }

  lemma NumberUnwraps(n: Int64)
    ensures Unwrap(Prioritised(GoInt64(n))) == GoInt64(n)
  {
  }

  lemma CountAndPrevLead(p: Platform, c: Call)
    requires c.count < c.limit
    ensures var inputs := ConditionInputs(p, c);
      && EXPR in inputs && PREV in inputs && COUNT in inputs
      && Priority(inputs[PREV]) > Priority(inputs[EXPR]) && Priority(inputs[COUNT]) > Priority(inputs[EXPR])
  {
    ConditionInputsAre(p, c);
    var inputs := ConditionInputs(p, c);
    assert EXPR in inputs.Keys && PREV in inputs.Keys && COUNT in inputs.Keys;
    PriorityOfHundred(GoString(PREV_EXPR));
    PriorityOfHundred(GoInt64(c.count + 1));
  }

  lemma ConditionNamesSource(p: Platform, rt: Runtime, c: Call, out: TypedValue)
    requires c.count < c.limit && LawfulScripts(rt) && UnwrapInt64(p, c.limitValue).Some?
    requires !IsExpression(p.formatDuration(c.delay))
    ensures EXPR in Checked(p, rt, c, out)
    ensures Checked(p, rt, c, out)[EXPR].value.BoolValue? ==> HasSource(Checked(p, rt, c, out)[EXPR], c.src)
  {
    var own := ConditionInSight(p, rt, c, out);
  }

  /** What the next invocation is given. */
  ghost predicate IsNext(p: Platform, c: Call, next: map<string, TypedValue>, prev: TypedValue) {
    && EXPR in next && (next[EXPR].value.BoolValue? ==> HasSource(next[EXPR], c.src)) && DO in next
    && LIMIT in next && next[LIMIT] == c.limitValue
    && COUNT in next && UnwrapInt64(p, next[COUNT]) == Some(c.count)
    && DELAY in next && UnwrapString(p, next[DELAY]) == Some(p.formatDuration(c.delay))
    && PREV in next && next[PREV] == prev
  }

  lemma ReadsAs(p: Platform, c: Call, next: map<string, TypedValue>, prev: TypedValue)
    requires IsNext(p, c, next, prev) && UnwrapInt64(p, c.limitValue) == Some(c.limit)
    requires p.parseDuration(p.formatDuration(c.delay)) == Some(c.delay)
    ensures Read(p, next) ==
      if !next[EXPR].value.BoolValue? then Err(InvalidType(EXPR))
      else Ok(c.(holds := Holds(next[EXPR]), action := next[DO], prev := Some(prev)))
  {
    assert ReadCount(p, next) == Some(c.count);
    assert ReadDelay(p, next) == Ok(c.delay);
  }

  lemma CheckedIsNext(p: Platform, rt: Runtime, c: Call, out: TypedValue)
    requires LawfulScripts(rt) && c.count < c.limit && UnwrapInt64(p, c.limitValue).Some?
    requires !IsExpression(p.formatDuration(c.delay))
    ensures IsNext(p, c.(count := c.count + 1), Checked(p, rt, c, out), rt.read(PREV_EXPR, out))
  {
    hide Checked, ResolveFrom, Resolve;
    CheckedAre(p, rt, c, out);
    ConditionNamesSource(p, rt, c, out);
  }

  /** The next invocation reads back what the turn wrote: the same loop, one turn further. */
  lemma ReadNext(p: Platform, rt: Runtime, c: Call, out: TypedValue)
    requires LawfulScripts(rt) && c.count < c.limit && UnwrapInt64(p, c.limitValue) == Some(c.limit)
    requires PrintsBack(p, c.delay)
    ensures var next := Checked(p, rt, c, out);
      && EXPR in next && DO in next
      && Read(p, next) ==
           if !next[EXPR].value.BoolValue? then Err(InvalidType(EXPR))
           else Ok(NextCall(c, next[EXPR], next[DO], rt.read(PREV_EXPR, out)))
  {
    hide Checked;
    CheckedIsNext(p, rt, c, out);
    ReadsAs(p, c.(count := c.count + 1), Checked(p, rt, c, out), rt.read(PREV_EXPR, out));
  }

  // The runs of the compiled loop and of the loop.

  /** The number of turns that are left. */
  function Remaining(p: Platform, inputs: map<string, TypedValue>): nat {
    var c := Read(p, inputs);
    if c.Ok? && c.value.count < c.value.limit then c.value.limit as int - c.value.count as int else 0
  }

  lemma FewerTurns(p: Platform, rt: Runtime, inputs: map<string, TypedValue>, c: Call, out: TypedValue)
    requires LawfulScripts(rt) && Read(p, inputs) == Ok(c) && c.count < c.limit
    requires PrintsBack(p, c.delay)
    ensures Remaining(p, ResolveInputs(rt, CONDITION, ConditionInputs(p, c), map[ACTION := out])) < Remaining(p, inputs)
  {
    ReadLimit(p, inputs, c);
    hide Checked, ResolveInputs, Read;
    CheckedAnyway(p, rt, c, out);
    ReadNext(p, rt, c, out);
  }

  /** Invoking `while` and, turn after turn, what it compiles to. */
  ghost function RunWhile<W(!new)>(p: Platform, m: Machine<W>, w: W, inputs: map<string, TypedValue>)
    : (W, Result<Option<TypedValue>, Error>)
    requires Lawful(p, m)
    decreases Remaining(p, inputs)
  {
    var read := Read(p, inputs);
    if read.Err? then (w, Err(read.error)) else
    match Decide(p, read.value)
    case Output(v) => (w, Ok(v))
    case Failure(e) => (w, Err(e))
    case Turn(wf) =>
      TurnParts(p, read.value);
      var (w', out) := m.act(w, wf.tasks[ACTION].inputs[MAIN]);
      DelayPrintsBack(p, inputs, read.value);
      FewerTurns(p, m.scripts(w'), inputs, read.value, out);
      RunWhile(p, m, w', ResolveInputs(m.scripts(w'), CONDITION, wf.tasks[CONDITION].inputs, map[ACTION := out]))
  }

  /** The loop itself: the world, what the condition says there, and what the loop carries along. */
  datatype Loop<W> = Loop(world: W, cond: TypedValue, call: Call)

  function Entry(inputs: map<string, TypedValue>, k: string): TypedValue {
    if k in inputs then inputs[k] else Pack(NilValue)
  }

  /** One turn: the action changes the world, then the condition and the action are looked at again. */
  function DoTurn<W>(p: Platform, m: Machine<W>, s: Loop<W>): Loop<W>
    requires s.call.count < s.call.limit
  {
    var (w, out) := m.act(s.world, TurnAction(s.call.action, s.call.count));
    var next := Checked(p, m.scripts(w), s.call, out);
    Loop(w, Entry(next, EXPR), NextCall(s.call, Entry(next, EXPR), Entry(next, DO), m.scripts(w).read(PREV_EXPR, out)))
  }

  /** What the loop carries into the next turn. */
  function NextCall(c: Call, cond: TypedValue, action: TypedValue, prev: TypedValue): Call
    requires c.count < c.limit
  {
    c.(holds := Holds(cond), count := c.count + 1, action := action, prev := Some(prev))
  }

  /** The loop after k turns. */
  function DoTurns<W>(p: Platform, m: Machine<W>, s: Loop<W>, k: nat): Loop<W>
    requires k <= Bound(s.call)
    decreases k
  {
    if k == 0 then s else DoTurns(p, m, DoTurn(p, m, s), k - 1)
  }

  /** How many turns there can be. */
  function Bound(c: Call): nat {
    if c.count < c.limit then c.limit as int - c.count as int else 0
  }

  lemma Unfold<W(!new)>(p: Platform, m: Machine<W>, w: W, inputs: map<string, TypedValue>, c: Call)
    requires Lawful(p, m) && Read(p, inputs) == Ok(c) && c.holds && c.count < c.limit
    ensures var (w', out) := m.act(w, TurnAction(c.action, c.count));
      RunWhile(p, m, w, inputs) == RunWhile(p, m, w', Checked(p, m.scripts(w'), c, out))
  {
    TurnParts(p, c);
    var (w', out) := m.act(w, TurnAction(c.action, c.count));
    CheckedAnyway(p, m.scripts(w'), c, out);
  }

  lemma ReadLimit(p: Platform, inputs: map<string, TypedValue>, c: Call)
    requires Read(p, inputs) == Ok(c)
    ensures EXPR in inputs && UnwrapInt64(p, c.limitValue) == Some(c.limit)
  {
  }

  /** One turn of the compiled loop is one turn of the loop. */
  lemma Advance<W(!new)>(p: Platform, m: Machine<W>, w: W, inputs: map<string, TypedValue>, c: Call)
    returns (next: map<string, TypedValue>)
    requires Lawful(p, m) && Read(p, inputs) == Ok(c) && c.holds && c.count < c.limit
    ensures var s := DoTurn(p, m, Loop(w, inputs[EXPR], c));
      && RunWhile(p, m, w, inputs) == RunWhile(p, m, s.world, next)
      && EXPR in next && next[EXPR] == s.cond
      && Read(p, next) == if !s.cond.value.BoolValue? then Err(InvalidType(EXPR)) else Ok(s.call)
  {
    ReadLimit(p, inputs, c);
    DelayPrintsBack(p, inputs, c);
    hide Checked, RunWhile, Read;
    var (w', out) := m.act(w, TurnAction(c.action, c.count));
    next := Checked(p, m.scripts(w'), c, out);
    Unfold(p, m, w, inputs, c);
    ReadNext(p, m.scripts(w'), c, out);
  }

  /** The loop after k turns, for an invocation that reads as `c`. */
  function LoopAfter<W>(p: Platform, m: Machine<W>, w: W, inputs: map<string, TypedValue>, c: Call, k: nat)
    : Loop<W>
    requires EXPR in inputs && k <= Bound(c)
  {
    DoTurns(p, m, Loop(w, inputs[EXPR], c), k)
  }

  /** An invocation that compiles no turn. */
  lemma NoTurn<W(!new)>(p: Platform, m: Machine<W>, w: W, inputs: map<string, TypedValue>)
    requires Lawful(p, m)
    ensures var read := Read(p, inputs);
      && (read.Err? ==> RunWhile(p, m, w, inputs) == (w, Err(read.error)))
      && (read.Ok? ==> EXPR in inputs && inputs[EXPR].value.BoolValue? && read.value.holds == Holds(inputs[EXPR]))
      && (read.Ok? && !read.value.holds ==> RunWhile(p, m, w, inputs) == (w, Ok(read.value.prev)))
      && (read.Ok? && read.value.holds && Bound(read.value) == 0 ==>
            RunWhile(p, m, w, inputs) == (w, Err(LimitExceeded)))
  {
  }

  /** The loop before any turn, and after one turn more. */
  lemma LoopStarts<W>(p: Platform, m: Machine<W>, w: W, inputs: map<string, TypedValue>, c: Call)
    requires EXPR in inputs
    ensures LoopAfter(p, m, w, inputs, c, 0) == Loop(w, inputs[EXPR], c)
    ensures c.count < c.limit ==>
      var s := DoTurn(p, m, Loop(w, inputs[EXPR], c));
      Bound(s.call) == Bound(c) - 1 && s.call.holds == Holds(s.cond)
  {
  }

  lemma LoopGoesOn<W>(
    p: Platform, m: Machine<W>, w: W, inputs: map<string, TypedValue>, c: Call, next: map<string, TypedValue>, i: nat)
    requires EXPR in inputs && EXPR in next && i < Bound(c)
    requires next[EXPR] == DoTurn(p, m, Loop(w, inputs[EXPR], c)).cond
    ensures var s := DoTurn(p, m, Loop(w, inputs[EXPR], c));
      i <= Bound(s.call) && LoopAfter(p, m, w, inputs, c, i + 1) == LoopAfter(p, m, s.world, next, s.call, i)
  {
    var s := DoTurn(p, m, Loop(w, inputs[EXPR], c));
    assert Loop(s.world, next[EXPR], s.call) == s;
  }

  /** How a run ends that stops with the loop in this state. */
  ghost predicate StopsAs<W(!new)>(result: (W, Result<Option<TypedValue>, Error>), s: Loop<W>, atLimit: bool) {
    && (s.cond.value == BoolValue(false) ==> result == (s.world, Ok(s.call.prev)))
    && (!s.cond.value.BoolValue? ==> result == (s.world, Err(InvalidType(EXPR))))
    && (Holds(s.cond) && atLimit ==> result == (s.world, Err(LimitExceeded)))
  }

  lemma StopsAtOnce<W(!new)>(p: Platform, m: Machine<W>, w: W, inputs: map<string, TypedValue>, s: Loop<W>)
    requires Lawful(p, m) && EXPR in inputs && s.world == w && s.cond == inputs[EXPR]
    requires Read(p, inputs) == if !s.cond.value.BoolValue? then Err(InvalidType(EXPR)) else Ok(s.call)
    ensures StopsAs(RunWhile(p, m, w, inputs), s, Bound(s.call) == 0)
  {
    NoTurn(p, m, w, inputs);
    hide RunWhile, Read, Lawful, Bound;
  }

  /** The compiled loop stops after the first k turns after which the condition no longer holds, with what was read of
      the last output; the bound stops it with an error. The world has seen exactly k actions. */
  lemma {:induction false} WhileMeansLoop<W(!new)>(
    p: Platform, m: Machine<W>, w: W, inputs: map<string, TypedValue>, k: nat)
    requires Lawful(p, m) && Read(p, inputs).Ok? && k <= Bound(Read(p, inputs).value)
    requires forall i: nat | i < k :: Holds(LoopAfter(p, m, w, inputs, Read(p, inputs).value, i).cond)
    ensures var c := Read(p, inputs).value;
      StopsAs(RunWhile(p, m, w, inputs), LoopAfter(p, m, w, inputs, c, k), k == Bound(c))
    decreases k
  {
    NoTurn(p, m, w, inputs);
    var c := Read(p, inputs).value;
    LoopStarts(p, m, w, inputs, c);
    hide RunWhile, Read, DoTurn, LoopAfter, Lawful, StopsAs;
    if k == 0 {
      StopsAtOnce(p, m, w, inputs, Loop(w, inputs[EXPR], c));
    } else {
      assert Holds(LoopAfter(p, m, w, inputs, c, 0).cond);
      var s := DoTurn(p, m, Loop(w, inputs[EXPR], c));
      var next := Advance(p, m, w, inputs, c);
      LoopGoesOn(p, m, w, inputs, c, next, k - 1);
      LoopStarts(p, m, s.world, next, s.call);
      assert k > 1 ==> s.cond.value.BoolValue? by {
        LoopGoesOn(p, m, w, inputs, c, next, 0);
        assert k > 1 ==> Holds(LoopAfter(p, m, w, inputs, c, 1).cond);
      }
      if s.cond.value.BoolValue? {
        forall i: nat | i < k - 1 ensures Holds(LoopAfter(p, m, s.world, next, s.call, i).cond) {
          LoopGoesOn(p, m, w, inputs, c, next, i);
          assert Holds(LoopAfter(p, m, w, inputs, c, i + 1).cond);
        }
        WhileMeansLoop(p, m, s.world, next, k - 1);
      } else {
        StopsAtOnce(p, m, s.world, next, s);
      }
    }
  }

  /** What the condition says at the start and after each turn that the limit allows. */
  function Conditions<W>(p: Platform, m: Machine<W>, w: W, inputs: map<string, TypedValue>, c: Call)
    : (cs: seq<TypedValue>)
    requires EXPR in inputs
    ensures |cs| == Bound(c) + 1
    ensures forall i: nat | i < |cs| :: cs[i] == LoopAfter(p, m, w, inputs, c, i).cond
  {
    seq(Bound(c) + 1, i requires 0 <= i <= Bound(c) => LoopAfter(p, m, w, inputs, c, i).cond)
  }

  /** The first condition that does not hold, or the last one. */
  lemma FirstStop(cs: seq<TypedValue>) returns (k: nat)
    requires cs != []
    ensures k < |cs| && forall i: nat | i < k :: Holds(cs[i])
    ensures Holds(cs[k]) <==> forall i: nat | i < |cs| :: Holds(cs[i])
    ensures Holds(cs[k]) ==> k == |cs| - 1
  {
    k := 0;
    while k < |cs| - 1 && Holds(cs[k])
      invariant k < |cs| && forall i: nat | i < k :: Holds(cs[i])
    {
      k := k + 1;
    }
  }

  /** The limit is exceeded exactly when the condition holds at the start and after every turn that the limit allows. */
  lemma LimitExceededIff<W(!new)>(p: Platform, m: Machine<W>, w: W, inputs: map<string, TypedValue>)
    requires Lawful(p, m) && Read(p, inputs).Ok?
    ensures var cs := Conditions(p, m, w, inputs, Read(p, inputs).value);
      RunWhile(p, m, w, inputs).1 == Err(LimitExceeded) <==> forall i: nat | i < |cs| :: Holds(cs[i])
  {
    var c := Read(p, inputs).value;
    var cs := Conditions(p, m, w, inputs, c);
    var k := FirstStop(cs);
    forall i: nat | i < k ensures Holds(LoopAfter(p, m, w, inputs, c, i).cond) { assert Holds(cs[i]); }
    WhileMeansLoop(p, m, w, inputs, k);
  }

  // ---------- Nested loops ----------

  lemma FlowInputSets(f: Flow, key: string, tv: TypedValue)
    requires f.task.Some?
    ensures var task := FlowInput(f, key, tv).task;
      task.Some? && task.value.functionRef == f.task.value.functionRef
      && task.value.inputs == f.task.value.inputs[key := tv]
  {
  }

  /** The inputs that a turn adds to a task. */
  lemma TurnInputs(action: TypedValue, count: Int64)
    requires count < 0x7fff_ffff_ffff_ffff
    requires IsControlFlow(Some(action)) && FlowOf(action).task.Some?
    ensures var given, task := FlowOf(action).task.value, FlowOf(TurnAction(action, count)).task;
      && task.Some? && task.value.functionRef == given.functionRef
      && task.value.inputs ==
           (if count > 0 then given.inputs[PREV := Prioritised(GoString(PREV_EXPR))] else given.inputs)
             [COUNT := Prioritised(GoInt64(count + 1))]
  {
    var f, prev, number := FlowOf(action), Prioritised(GoString(PREV_EXPR)), Prioritised(GoInt64(count + 1));
    hide Prioritised, Wrap, FlowInput;
    FlowInputSets(f, PREV, prev);
    FlowInputSets(f, COUNT, number);
    FlowInputSets(FlowInput(f, PREV, prev), COUNT, number);
  }

  lemma OthersStay<T>(given: map<string, T>, a: string, x: T, b: string, y: T)
    requires a != b
    ensures given[a := x][b := y] - {b, a} == given - {b, a} && given[b := y] - {b, a} == given - {b, a}
    ensures given[b := y] - {b} == given - {b} && given[a := x][b := y][a] == x
  {
  }

  lemma NumberHolds(n: Int64)
    ensures Prioritised(GoInt64(n)).value == Int64Value(n)
  {
  }

  /** A task that is the action of a loop is told the number of the turn and, after the first, the previous output, and
      keeps its other inputs. */
  lemma NestedInputs(action: TypedValue, count: Int64)
    requires count < 0x7fff_ffff_ffff_ffff
    requires IsControlFlow(Some(action)) && FlowOf(action).task.Some?
    ensures var given, task := FlowOf(action).task.value, FlowOf(TurnAction(action, count)).task;
      && task.Some? && task.value.functionRef == given.functionRef
      && COUNT in task.value.inputs && task.value.inputs[COUNT].value == Int64Value(count + 1)
      && task.value.inputs - {COUNT, PREV} == given.inputs - {COUNT, PREV}
      && (if count > 0 then PREV in task.value.inputs && task.value.inputs[PREV] == Prioritised(GoString(PREV_EXPR))
          else task.value.inputs - {COUNT} == given.inputs - {COUNT})
  {
    TurnInputs(action, count);
    NumberHolds(count + 1);
    var given, prev, number := FlowOf(action).task.value.inputs, Prioritised(GoString(PREV_EXPR)), Prioritised(GoInt64(count + 1));
    hide TurnAction, Prioritised, Wrap;
    OthersStay(given, PREV, prev, COUNT, number);
  }

  /** The previous output is an expression that is resolved before the other inputs, and other actions are left alone. */
  lemma ActionIsKept(action: TypedValue, count: Int64)
    requires count < 0x7fff_ffff_ffff_ffff
    ensures Prioritised(GoString(PREV_EXPR)).value == Expression("{ $.Tasks.action.Output }")
    ensures !IsControlFlow(Some(action)) ==> TurnAction(action, count) == action
    ensures IsControlFlow(Some(action)) && FlowOf(action).task.None? ==>
      TurnAction(action, count).value == FlowMessage(FlowOf(action))
  {
    PrevIsWrapped();
    hide Wrap, Prioritised, IsExpression;
  }

  lemma PrevIsWrapped()
    ensures Prioritised(GoString(PREV_EXPR)).value == Expression("{ $.Tasks.action.Output }")
  {
    PrevIsExpression();
    PrevText();
  }

  lemma PrevText()
    ensures PREV_EXPR == "{ $.Tasks.action.Output }"
  {
  }

  /** The inputs of a task that is the action of a loop, resolved when the task runs. */
  function NestedResolved(rt: Runtime, task: Id, action: TypedValue, count: Int64, env: Outputs): map<string, TypedValue>
    requires count < 0x7fff_ffff_ffff_ffff && IsControlFlow(Some(action)) && FlowOf(action).task.Some?
  {
    NestedInputs(action, count);
    ResolveInputs(rt, task, FlowOf(TurnAction(action, count)).task.value.inputs, env)
  }

  /** The count survives that. */
  lemma NestedCount(p: Platform, rt: Runtime, task: Id, action: TypedValue, count: Int64, env: Outputs)
    requires count < 0x7fff_ffff_ffff_ffff && IsControlFlow(Some(action)) && FlowOf(action).task.Some?
    requires Prioritizes(rt)
    ensures ReadCount(p, NestedResolved(rt, task, action, count, env)) == Some(count + 1)
  {
    hide ResolveFrom;
    NestedInputs(action, count);
    var inputs := FlowOf(TurnAction(action, count)).task.value.inputs;
    assert IsPriorityOrder(inputs, rt.order(task, inputs));
    ResolvedAs(rt, task, inputs, env, map[], map[], rt.order(task, inputs), COUNT, inputs[COUNT]);
  }

  /** What an input of the task is resolved to, if it is given. */
  lemma NestedEntry(rt: Runtime, task: Id, action: TypedValue, count: Int64, env: Outputs, k: string)
    requires count < 0x7fff_ffff_ffff_ffff && IsControlFlow(Some(action)) && FlowOf(action).task.Some?
    requires Prioritizes(rt) && k != COUNT && k != PREV
    ensures var given, resolved := FlowOf(action).task.value.inputs, NestedResolved(rt, task, action, count, env);
      && (k in resolved <==> k in given)
      && (k in given ==> exists own :: resolved[k] == Resolve(rt, given[k], Scope(task, own, env)))
  {
    hide ResolveFrom, Resolve;
    NestedInputs(action, count);
    var given, inputs := FlowOf(action).task.value.inputs, FlowOf(TurnAction(action, count)).task.value.inputs;
    assert k in inputs - {COUNT, PREV} <==> k in given - {COUNT, PREV};
    assert k in given ==> (inputs - {COUNT, PREV})[k] == (given - {COUNT, PREV})[k];
    var keys := rt.order(task, inputs);
    assert IsPriorityOrder(inputs, keys);
    ResolvedKeys(rt, task, inputs, env, map[], map[], keys, k);
    if k in given {
      var i :| 0 <= i < |keys| && keys[i] == k;
      var own := ResolvedIn(rt, task, inputs, env, map[], keys, i);
    }
  }

  /** A nested loop whose condition is an expression can be read exactly when the condition gives a boolean and its
      delay, if it has one, gives a duration. A delay that is plain text is read as it was written. */
  lemma NestedReads(p: Platform, rt: Runtime, task: Id, action: TypedValue, count: Int64, env: Outputs)
    requires count < 0x7fff_ffff_ffff_ffff && IsControlFlow(Some(action)) && FlowOf(action).task.Some?
    requires LawfulScripts(rt)
    requires var given := FlowOf(action).task.value.inputs;
      && EXPR in given && given[EXPR].value.Expression? && DO in given
      && LIMIT in given && UnwrapInt64(p, given[LIMIT]).Some?
    ensures var resolved := NestedResolved(rt, task, action, count, env);
      && EXPR in resolved && LIMIT in resolved && resolved[LIMIT] == FlowOf(action).task.value.inputs[LIMIT]
      && (Read(p, resolved).Ok? <==> resolved[EXPR].value.BoolValue? && ReadDelay(p, resolved).Ok?)
    ensures var given := FlowOf(action).task.value.inputs;
      (DELAY in given ==> given[DELAY].value.StringValue?) ==>
        ReadDelay(p, NestedResolved(rt, task, action, count, env)) == ReadDelay(p, given)
  {
    hide NestedResolved, TurnAction;
    NestedEntry(rt, task, action, count, env, EXPR);
    NestedEntry(rt, task, action, count, env, DO);
    NestedEntry(rt, task, action, count, env, DELAY);
    NestedEntry(rt, task, action, count, env, LIMIT);
    NestedCount(p, rt, task, action, count, env);
  }

  lemma ReadsCount(p: Platform, inputs: map<string, TypedValue>, count: Int64)
    requires count < 0x7fff_ffff_ffff_ffff && ReadCount(p, inputs) == Some(count + 1) && Read(p, inputs).Ok?
    ensures var c := Read(p, inputs).value;
      EXPR in inputs && c.count == count + 1 &&
      Bound(c) == (if c.limit > count then c.limit as int - count as int - 1 else 0)
  {
  }

  /** A loop that is given a count. */
  lemma CountsOn<W(!new)>(p: Platform, m: Machine<W>, w: W, inputs: map<string, TypedValue>, count: Int64)
    requires count < 0x7fff_ffff_ffff_ffff && Lawful(p, m) && ReadCount(p, inputs) == Some(count + 1)
    ensures var read := Read(p, inputs);
      read.Ok? ==>
        && EXPR in inputs && read.value.count == count + 1
        && Bound(read.value) == (if read.value.limit > count then read.value.limit as int - count as int - 1 else 0)
        && (RunWhile(p, m, w, inputs).1 == Err(LimitExceeded) <==>
              forall i: nat | i <= Bound(read.value) :: Holds(LoopAfter(p, m, w, inputs, read.value, i).cond))
        && (read.value.holds && read.value.limit <= count + 1 ==> RunWhile(p, m, w, inputs) == (w, Err(LimitExceeded)))
  {
    hide RunWhile, Read, ReadCount, LoopAfter, Lawful, Holds, Bound;
    var read := Read(p, inputs);
    if read.Ok? {
      ReadsCount(p, inputs, count);
      NoTurn(p, m, w, inputs);
      LimitExceededIff(p, m, w, inputs);
      var cs := Conditions(p, m, w, inputs, read.value);
      assert (forall i: nat | i < |cs| :: Holds(cs[i])) <==>
        forall i: nat | i <= Bound(read.value) :: Holds(LoopAfter(p, m, w, inputs, read.value, i).cond);
    }
  }

  /** A loop that is the action of a loop counts on from it instead of from zero. Once its inputs are resolved, whatever
      its condition and limit are, it has max(limit - count - 1, 0) turns left; and where its condition holds and its
      limit is no higher than the number of the outer turn, it fails at once without a turn. */
  lemma NestedCountsOn<W(!new)>(
    p: Platform, m: Machine<W>, w: W, task: Id, action: TypedValue, count: Int64, env: Outputs)
    requires count < 0x7fff_ffff_ffff_ffff && IsControlFlow(Some(action)) && FlowOf(action).task.Some?
    requires Lawful(p, m)
    ensures var inputs := NestedResolved(m.scripts(w), task, action, count, env);
      var read := Read(p, inputs);
      read.Ok? ==>
        && read.value.count == count + 1
        && Bound(read.value) == (if read.value.limit > count then read.value.limit as int - count as int - 1 else 0)
        && (RunWhile(p, m, w, inputs).1 == Err(LimitExceeded) <==>
              forall i: nat | i <= Bound(read.value) :: Holds(LoopAfter(p, m, w, inputs, read.value, i).cond))
        && (read.value.holds && read.value.limit <= count + 1 ==> RunWhile(p, m, w, inputs) == (w, Err(LimitExceeded)))
  {
    NestedCount(p, m.scripts(w), task, action, count, env);
    var inputs := NestedResolved(m.scripts(w), task, action, count, env);
    hide *;
    CountsOn(p, m, w, inputs, count);
  }
}
