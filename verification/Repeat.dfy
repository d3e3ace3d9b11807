/** The `repeat` function: unrolls a fixed number of iterations of a task into a chain of tasks. */
module Repeat {
  import opened Types
  import opened TypedValues
  import opened Graph
  import opened Validate
  import opened Inputs
  import opened Dag

  const PREV := "_prev"

  // ---------- The generated workflow ----------

  /** The previous iteration's output as an input. */
  function PrevInput(i: nat): TypedValue
    requires i > 0
  {
    TaskIdInverse(i - 1);
    OutputExprIsExpression(TaskId(i - 1));
    WithMetadata(Wrap(GoString(OutputExpr(TaskId(i - 1)))).value, "priority", "100")
  }

  function RepeatTask(body: TaskSpec, i: nat): TaskSpec {
    if i == 0 then body
    else body.(requirements := body.requirements[TaskId(i - 1) := NilParams], inputs := body.inputs[PREV := PrevInput(i)])
  }

  function RepeatTasks(body: TaskSpec, n: nat): map<Id, TaskSpec> {
    Numbered((i: nat) => RepeatTask(body, i), n)
  }

  function RepeatSpec(body: TaskSpec, n: nat): WorkflowSpec
    requires n > 0
  {
    WorkflowSpec("", RepeatTasks(body, n), TaskId(n - 1))
  }

  method CreateRepeatTasks(body: TaskSpec, times: nat) returns (tasks: map<Id, TaskSpec>)
    ensures tasks == RepeatTasks(body, times)
  {
    tasks := map[];
    for n := 0 to times
      invariant tasks == RepeatTasks(body, n)
    {
      var do_ := body;
      if n > 0 {
        do_ := do_.(requirements := do_.requirements[TaskId(n - 1) := NilParams]);
        do_ := do_.(inputs := do_.inputs[PREV := PrevInput(n)]);
      }
      tasks := tasks[TaskId(n) := do_];
    }
  }

  /** Repeating zero or fewer times gives nothing to do. The task's own requirements are dropped. */
  method Invoke(times: Int64, doTask: TaskSpec) returns (flow: Option<WorkflowSpec>)
    ensures flow.Some? <==> times > 0
    ensures flow.Some? ==> flow.value == RepeatSpec(doTask.(requirements := map[]), times as nat)
  {
    if times <= 0 {
      return None;
    }
    var tasks := CreateRepeatTasks(doTask.(requirements := map[]), times as nat);
    return Some(WorkflowSpec("", tasks, TaskId(times as nat - 1)));
  }

  // ---------- The generated workflow is valid ----------

  lemma TasksAre(body: TaskSpec, n: nat, id: Id)
    ensures id in RepeatTasks(body, n) <==> 0 <= TaskIndex(id) < n && id == TaskId(TaskIndex(id))
    ensures id in RepeatTasks(body, n) ==> RepeatTasks(body, n)[id] == RepeatTask(body, TaskIndex(id))
  {
    NumberedAre((i: nat) => RepeatTask(body, i), n, id);
  }

  lemma RequirementsAre(body: TaskSpec, n: nat, id: Id)
    requires body.requirements == map[] && id in RepeatTasks(body, n)
    ensures TaskIndex(id) >= 0
    ensures RepeatTasks(body, n)[id].requirements ==
      if TaskIndex(id) == 0 then map[] else map[TaskId(TaskIndex(id) - 1) := NilParams]
    ensures RepeatTasks(body, n)[id].requirements.Keys <= RepeatTasks(body, n).Keys
  {
    TasksAre(body, n, id);
    if TaskIndex(id) > 0 {
      TaskIdInverse(TaskIndex(id) - 1);
      TasksAre(body, n, TaskId(TaskIndex(id) - 1));
    }
  }

  /** The iterations form a chain. */
  lemma IterationsAreChain(body: TaskSpec, n: nat)
    requires body.requirements == map[]
    ensures IsChain(RepeatTasks(body, n), TaskNames(n))
  {
    var tasks, names := RepeatTasks(body, n), TaskNames(n);
    forall i: nat ensures RequiresPrevious(tasks, names, i) {
      if i < n {
        TaskIdInverse(i);
        TasksAre(body, n, TaskId(i));
      }
    }
    forall i, j | 0 <= i < j < n ensures names[i] != names[j] {
      TaskIdInverse(i);
      TaskIdInverse(j);
    }
    forall id ensures id in names <==> id in tasks {
      TasksAre(body, n, id);
      NamesAre(n, id);
    }
  }

  /** The unrolled loop is a valid workflow exactly when the task has a function. */
  lemma RepeatIsValid(body: TaskSpec, n: nat)
    requires n > 0 && body.requirements == map[]
    ensures ValidSpec(RepeatSpec(body, n)) <==> body.functionRef != ""
  {
    var tasks := RepeatTasks(body, n);
    TaskIdInverse(n - 1);
    TasksAre(body, n, TaskId(n - 1));
    IterationsAreChain(body, n);
    ChainIsAcyclic(RepeatSpec(body, n), TaskNames(n));
    forall id | id in tasks
      ensures tasks[id].functionRef == body.functionRef && id != "" && tasks[id].requirements.Keys <= tasks.Keys
    {
      TasksAre(body, n, id);
      RequirementsAre(body, n, id);
      TaskIdInverse(TaskIndex(id));
    }
  }

  // ---------- The generated workflow means the loop ----------

  /** The inputs of the task, and after the first iteration the previous output. */
  function InputsAt(body: TaskSpec, i: nat): map<string, TypedValue> {
    if i == 0 then body.inputs else body.inputs[PREV := PrevInput(i)]
  }

  /** One iteration: the task with what is read of the previous output given as `_prev`, if there is a previous one.
      The other inputs are resolved in sight of it. */
  function Iteration(rt: Runtime, body: TaskSpec, i: nat, env: Outputs): TypedValue
    requires i > 0 ==> TaskId(i - 1) in env
  {
    var given: map<string, TypedValue> :=
      if i == 0 then map[] else map[PREV := rt.read(OutputExpr(TaskId(i - 1)), env[TaskId(i - 1)])];
    rt.run(body.functionRef, ResolveInputs(rt, TaskId(i), InputsAt(body, i), env, given))
  }

  /** The outputs of a plain loop of n iterations. */
  function LoopOutputs(rt: Runtime, body: TaskSpec, n: nat): (env: Outputs)
    ensures n > 0 ==> TaskId(n - 1) in env
  {
    if n == 0 then map[] else
    var env := LoopOutputs(rt, body, n - 1);
    env[TaskId(n - 1) := Iteration(rt, body, n - 1, env)]
  }

  /** In the generated task the previous output is looked up. */
  lemma PrevResolves(rt: Runtime, i: nat, scope: Scope)
    requires LooksUpOutputs(rt) && i > 0 && TaskId(i - 1) in scope.outputs
    ensures Resolve(rt, PrevInput(i), scope) == rt.read(OutputExpr(TaskId(i - 1)), scope.outputs[TaskId(i - 1)])
  {
    TaskIdInverse(i - 1);
    OutputExprIsExpression(TaskId(i - 1));
  }

  lemma TaskIsIteration(rt: Runtime, body: TaskSpec, i: nat, env: Outputs)
    requires Prioritizes(rt) && LooksUpOutputs(rt) && (i > 0 ==> TaskId(i - 1) in env)
    ensures RunTask(rt, TaskId(i), RepeatTask(body, i), env) == Iteration(rt, body, i, env)
  {
    if i > 0 {
      var task, inputs := TaskId(i), InputsAt(body, i);
      var prev := rt.read(OutputExpr(TaskId(i - 1)), env[TaskId(i - 1)]);
      assert IsPriorityOrder(inputs, rt.order(task, inputs));
      forall own ensures Resolve(rt, inputs[PREV], Scope(task, own, env)) == prev {
        PrevResolves(rt, i, Scope(task, own, env));
      }
      GivenAnyway(rt, task, inputs, env, map[], rt.order(task, inputs), PREV, prev);
    }
  }

  lemma IterationStep(rt: Runtime, body: TaskSpec, n: nat, i: nat, env: Outputs)
    requires Prioritizes(rt) && LooksUpOutputs(rt) && i < n && (i > 0 ==> TaskId(i - 1) in env)
    ensures Steps(rt, RepeatTasks(body, n))(TaskId(i), env) == Iteration(rt, body, i, env)
  {
    TaskIdInverse(i);
    TasksAre(body, n, TaskId(i));
    TaskIsIteration(rt, body, i, env);
  }

  lemma {:induction false} PrefixIsLoop(rt: Runtime, body: TaskSpec, n: nat, i: nat)
    requires Prioritizes(rt) && LooksUpOutputs(rt) && i <= n
    ensures Execute(Steps(rt, RepeatTasks(body, n)), TaskNames(i)) == LoopOutputs(rt, body, i)
  {
    hide RepeatTasks, Steps, Iteration, LooksUpOutputs, Prioritizes, TaskId;
    if i > 0 {
      PrefixIsLoop(rt, body, n, i - 1);
      assert TaskNames(i)[..i - 1] == TaskNames(i - 1);
      IterationStep(rt, body, n, i - 1, LoopOutputs(rt, body, i - 1));
    }
  }

  /** The horizon leaves one order only, and the outputs of the unrolled loop are those of the plain loop. Nothing is
      asked of the task: its inputs may read the previous output, the other inputs and all earlier iterations. */
  lemma RepeatMeansLoop(rt: Runtime, body: TaskSpec, n: nat, order: seq<Id>)
    requires Prioritizes(rt) && LooksUpOutputs(rt) && n > 0 && body.requirements == map[]
    requires IsHorizonOrder(RepeatSpec(body, n), order)
    ensures order == TaskNames(n)
    ensures Execute(Steps(rt, RepeatSpec(body, n).tasks), order) == LoopOutputs(rt, body, n)
    ensures RepeatSpec(body, n).outputTask == order[n - 1] && order[n - 1] in LoopOutputs(rt, body, n)
  {
    IterationsAreChain(body, n);
    HorizonIsTopological(RepeatSpec(body, n), order);
    ChainIsLine(RepeatTasks(body, n), TaskNames(n));
    LineOrder(RepeatTasks(body, n), TaskNames(n), order);
    PrefixIsLoop(rt, body, n, n);
  }

  /** When no other input has a priority as high as `_prev`, every other input is resolved with the previous output in
      sight. */
  lemma PrevIsInScope(rt: Runtime, body: TaskSpec, i: nat, env: Outputs, x: string) returns (own: map<string, GoValue>)
    requires Prioritizes(rt) && i > 0 && TaskId(i - 1) in env && x in body.inputs && x != PREV
    requires forall y | y in body.inputs && y != PREV :: Priority(body.inputs[y]) < 100
    ensures var prev := rt.read(OutputExpr(TaskId(i - 1)), env[TaskId(i - 1)]);
      var resolved := ResolveInputs(rt, TaskId(i), InputsAt(body, i), env, map[PREV := prev]);
      && Iteration(rt, body, i, env) == rt.run(body.functionRef, resolved)
      && PREV in resolved && resolved[PREV] == prev
      && x in resolved && resolved[x] == Resolve(rt, body.inputs[x], Scope(TaskId(i), own, env))
      && PREV in own && own[PREV] == Unwrap(prev)
  {
    PriorityOfPrev(i);
    own := SeesLeader(rt, TaskId(i), InputsAt(body, i), env, PREV,
                      rt.read(OutputExpr(TaskId(i - 1)), env[TaskId(i - 1)]), x);
  }

  lemma PriorityOfPrev(i: nat)
    requires i > 0
    ensures Priority(PrevInput(i)) == 100
  {
    assert Atoi("1") == 1 by { assert "1"[..0] == ""; }
    assert Atoi("10") == 10 by { assert "10"[..1] == "1"; }
    assert Atoi("100") == 100 by { assert "100"[..2] == "10"; }
  }

  /** The task as a function of the previous output alone. */
  function OneTurn(rt: Runtime, body: TaskSpec, i: nat, prev: Option<TypedValue>): TypedValue {
    var given: map<string, TypedValue> := if i == 0 || prev.None? then map[] else map[PREV := prev.value];
    rt.run(body.functionRef, ResolveInputs(rt, TaskId(i), InputsAt(body, i), map[], given))
  }

  /** The task applied n times, each time to what is read of the result before. */
  function Iterate(rt: Runtime, body: TaskSpec, n: nat): TypedValue
    requires n > 0
  {
    OneTurn(rt, body, n - 1,
            if n == 1 then None else Some(rt.read(OutputExpr(TaskId(n - 2)), Iterate(rt, body, n - 1))))
  }

  lemma LocalIteration(rt: Runtime, body: TaskSpec, i: nat, env: Outputs)
    requires Prioritizes(rt) && LocalInputs(rt, body.inputs) && (i > 0 ==> TaskId(i - 1) in env)
    ensures Iteration(rt, body, i, env) == OneTurn(rt, body, i,
      if i == 0 then None else Some(rt.read(OutputExpr(TaskId(i - 1)), env[TaskId(i - 1)])))
  {
    var task, inputs := TaskId(i), InputsAt(body, i);
    assert IsPriorityOrder(inputs, rt.order(task, inputs));
    var given: map<string, TypedValue> :=
      if i == 0 then map[] else map[PREV := rt.read(OutputExpr(TaskId(i - 1)), env[TaskId(i - 1)])];
    LocalResolve(rt, task, inputs, env, map[], given, map[], rt.order(task, inputs));
  }

  /** If the inputs of the task read no other task of the workflow, then the output of the workflow is the task applied n
      times, each time to what is read of the result before. */
  lemma RepeatMeansIterate(rt: Runtime, body: TaskSpec, n: nat, order: seq<Id>)
    requires Prioritizes(rt) && LooksUpOutputs(rt) && n > 0 && body.requirements == map[] && LocalInputs(rt, body.inputs)
    requires IsHorizonOrder(RepeatSpec(body, n), order)
    ensures var spec := RepeatSpec(body, n); var env := Execute(Steps(rt, spec.tasks), order);
      spec.outputTask in env && env[spec.outputTask] == Iterate(rt, body, n)
  {
    RepeatMeansLoop(rt, body, n, order);
    LoopIterates(rt, body, n);
  }

  lemma {:induction false} LoopIterates(rt: Runtime, body: TaskSpec, n: nat)
    requires Prioritizes(rt) && LocalInputs(rt, body.inputs) && n > 0
    ensures LoopOutputs(rt, body, n)[TaskId(n - 1)] == Iterate(rt, body, n)
  {
    if n > 1 {
      LoopIterates(rt, body, n - 1);
    }
    LocalIteration(rt, body, n - 1, LoopOutputs(rt, body, n - 1));
  }
}
