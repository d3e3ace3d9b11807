/**
 A small semantics of workflows: tasks are run one after the other in any order that the scheduling horizon allows, each
 with its inputs resolved against the outputs so far.
 */
module Dag {
  import opened Types
  import opened TypedValues
  import opened Graph
  import opened Validate
  import opened Inputs

  // ---------- Running a workflow ----------

  function RunTask(rt: Runtime, id: Id, task: TaskSpec, env: Outputs): TypedValue {
    rt.run(task.functionRef, ResolveInputs(rt, id, task.inputs, env))
  }

  /** What each task makes of the outputs before it. */
  type Step = (Id, Outputs) -> TypedValue

  function Steps(rt: Runtime, tasks: map<Id, TaskSpec>): Step {
    (id: Id, env: Outputs) => if id in tasks then RunTask(rt, id, tasks[id], env) else Pack(NilValue)
  }

  /** The outputs after running the tasks in `order`. */
  function Execute(f: Step, order: seq<Id>): Outputs {
    if order == [] then map[] else
    var last := |order| - 1;
    var env := Execute(f, order[..last]);
    env[order[last] := f(order[last], env)]
  }

  /** Every task is run while it is on the horizon of the tasks that have not run yet, and all tasks are run. */
  ghost predicate IsHorizonOrder(spec: WorkflowSpec, order: seq<Id>) {
    && (forall id :: id in order <==> id in spec.tasks)
    && forall i | 0 <= i < |order| :: OnHorizon(spec, order, i)
  }

  ghost predicate OnHorizon(spec: WorkflowSpec, order: seq<Id>, i: nat)
    requires i < |order|
  {
    order[i] in RootSet(GraphOf(Restrict(SpecDeps(spec), spec.tasks.Keys - set id | id in order[..i])))
  }

  /** Task i has not been run before, and everything it requires has. */
  ghost predicate Follows(tasks: map<Id, TaskSpec>, order: seq<Id>, i: nat) {
    i < |order| ==>
      order[i] in tasks && order[i] !in order[..i] &&
      forall p | p in tasks[order[i]].requirements && p in tasks :: p in order[..i]
  }

  ghost predicate IsTopological(tasks: map<Id, TaskSpec>, order: seq<Id>) {
    forall i: nat :: Follows(tasks, order, i)
  }

  lemma HorizonIsTopological(spec: WorkflowSpec, order: seq<Id>)
    requires IsHorizonOrder(spec, order)
    ensures IsTopological(spec.tasks, order)
  {
    var deps := SpecDeps(spec);
    forall i: nat ensures Follows(spec.tasks, order, i) {
      if i < |order| {
        var open := Restrict(deps, spec.tasks.Keys - set id | id in order[..i]);
        assert OnHorizon(spec, order, i);
        forall p | p in spec.tasks[order[i]].requirements && p in spec.tasks ensures p in order[..i] {
          EdgeOfGraph(open, p, order[i]);
        }
      }
    }
  }

  // ---------- The outputs do not depend on the order ----------

  ghost predicate Agree(ids: set<Id>, env: Outputs, env': Outputs) {
    forall id | id in ids :: id in env && id in env' && env[id] == env'[id]
  }

  /** The output of a task depends only on the outputs of the tasks in `ids`. */
  ghost predicate DependsOn(f: Step, id: Id, ids: set<Id>) {
    forall env, env' {:trigger Agree(ids, env, env')} | Agree(ids, env, env') :: f(id, env) == f(id, env')
  }

  /** Every task requires tasks of the workflow, and depends on those only. */
  ghost predicate ReadsRequired(f: Step, tasks: map<Id, TaskSpec>) {
    forall id | id in tasks :: tasks[id].requirements.Keys <= tasks.Keys && DependsOn(f, id, tasks[id].requirements.Keys)
  }

  /** Running a task again after all others have run would give the same output. */
  ghost predicate Solves(f: Step, env: Outputs) {
    forall id | id in env :: env[id] == f(id, env)
  }

  /** However the horizon orders the tasks, the outputs satisfy one set of equations: the output of each task is its
      function applied to the final outputs. */
  lemma {:induction false} ExecuteSolves(f: Step, tasks: map<Id, TaskSpec>, order: seq<Id>)
    requires IsTopological(tasks, order) && ReadsRequired(f, tasks)
    ensures forall id :: id in Execute(f, order) <==> id in order
    ensures Solves(f, Execute(f, order))
  {
    TopologicalTasks(tasks, order);
    if order != [] {
      var last := |order| - 1;
      var before, x := order[..last], order[last];
      TopologicalPrefix(tasks, order);
      ExecuteSolves(f, tasks, before);
      var env := Execute(f, before);
      assert order == before + [x] && Follows(tasks, order, last);
      forall id | id in order ensures Agree(tasks[id].requirements.Keys, env, env[x := f(x, env)]) {
        RequiredAreOlder(tasks, order, id);
      }
      OneMoreSolves(f, tasks, env, x);
    }
  }

  lemma OneMoreSolves(f: Step, tasks: map<Id, TaskSpec>, env: Outputs, x: Id)
    requires Solves(f, env) && x !in env
    requires forall id | id in env || id == x :: id in tasks && DependsOn(f, id, tasks[id].requirements.Keys)
    requires forall id | id in env || id == x :: Agree(tasks[id].requirements.Keys, env, env[x := f(x, env)])
    ensures Solves(f, env[x := f(x, env)])
  {
    var env' := env[x := f(x, env)];
    forall id | id in env' ensures env'[id] == f(id, env') {
      assert DependsOn(f, id, tasks[id].requirements.Keys) && Agree(tasks[id].requirements.Keys, env, env');
    }
  }

  lemma {:induction false} SolutionsAgree(
    f: Step, tasks: map<Id, TaskSpec>, order: seq<Id>, env: Outputs, env': Outputs, n: nat)
    requires IsTopological(tasks, order) && n <= |order| && ReadsRequired(f, tasks)
    requires Solves(f, env) && Solves(f, env') && env.Keys == env'.Keys == set id | id in order
    ensures forall i | 0 <= i < n :: env[order[i]] == env'[order[i]]
  {
    if n > 0 {
      SolutionsAgree(f, tasks, order, env, env', n - 1);
      var id := order[n - 1];
      assert Follows(tasks, order, n - 1);
      forall p | p in tasks[id].requirements ensures p in env && p in env' && env[p] == env'[p] {
        var j :| 0 <= j < n - 1 && order[..n - 1][j] == p;
        assert order[j] == p;
      }
      assert Agree(tasks[id].requirements.Keys, env, env');
    }
  }

  /** All orders that the horizon allows give the same outputs. */
  lemma OrderDoesNotMatter(f: Step, spec: WorkflowSpec, order: seq<Id>, order': seq<Id>)
    requires IsHorizonOrder(spec, order) && IsHorizonOrder(spec, order') && ReadsRequired(f, spec.tasks)
    ensures Execute(f, order) == Execute(f, order')
  {
    HorizonIsTopological(spec, order);
    HorizonIsTopological(spec, order');
    ExecuteSolves(f, spec.tasks, order);
    ExecuteSolves(f, spec.tasks, order');
    var env, env' := Execute(f, order), Execute(f, order');
    SolutionsAgree(f, spec.tasks, order, env, env', |order|);
    assert forall id | id in env :: id in order;
  }

  lemma TopologicalPrefix(tasks: map<Id, TaskSpec>, order: seq<Id>)
    requires IsTopological(tasks, order) && order != []
    ensures IsTopological(tasks, order[..|order| - 1])
  {
    var before := order[..|order| - 1];
    forall i: nat ensures Follows(tasks, before, i) {
      if i < |before| {
        assert Follows(tasks, order, i) && before[..i] == order[..i];
      }
    }
  }

  /** Everything a task requires runs before the last task does. */
  lemma RequiredAreOlder(tasks: map<Id, TaskSpec>, order: seq<Id>, id: Id)
    requires IsTopological(tasks, order) && order != [] && id in order && id in tasks
    requires tasks[id].requirements.Keys <= tasks.Keys
    ensures forall p | p in tasks[id].requirements :: p in order[..|order| - 1] && p != order[|order| - 1]
  {
    var i :| 0 <= i < |order| && order[i] == id;
    assert Follows(tasks, order, i) && Follows(tasks, order, |order| - 1);
    forall p | p in tasks[id].requirements ensures p in order[..|order| - 1] && p != order[|order| - 1] {
      var j :| 0 <= j < i && order[..i][j] == p;
      assert order[..|order| - 1][j] == p;
    }
  }

  lemma TopologicalTasks(tasks: map<Id, TaskSpec>, order: seq<Id>)
    requires IsTopological(tasks, order)
    ensures forall i | 0 <= i < |order| :: order[i] in tasks
  {
    forall i | 0 <= i < |order| ensures order[i] in tasks { assert Follows(tasks, order, i); }
  }

  // ---------- Inputs of generated tasks ----------

  /** The source of an expression that looks up the output of a task. */
  function OutputExpr(id: Id): string {
    "{output('" + id + "')}"
  }

  /** What the evaluator promises of the function `output` on generated names: it sees the output of the task and
      nothing else. A name with a quote in it would be taken for code. */
  ghost predicate LooksUpOutputs(rt: Runtime) {
    forall k: nat, scope: Scope | TaskId(k) in scope.outputs ::
      rt.eval(OutputExpr(TaskId(k)), scope) == rt.read(OutputExpr(TaskId(k)), scope.outputs[TaskId(k)])
  }

  /** An output lookup is recognised as an expression. */
  lemma OutputExprIsExpression(id: Id)
    requires '\n' !in id
    ensures Wrap(GoString(OutputExpr(id))) == Ok(Pack(Expression(OutputExpr(id))))
  {
    var text := "output('" + id + "')";
    assert OutputExpr(id) == "{" + text + "}";
    ExpressionDelimiters("", text);
  }

  // ---------- Task names ----------

  function TaskId(n: nat): Id {
    "do_" + Itoa(n)
  }

  /** The number in a generated task name. */
  function TaskIndex(id: Id): int {
    if |id| < 3 then 0 else Atoi(id[3..])
  }

  /** Generated task names are distinct. */
  lemma TaskIdInverse(n: nat)
    ensures TaskIndex(TaskId(n)) == n
    ensures TaskId(n) != "collector" && TaskId(n) != "" && '\n' !in TaskId(n)
  {
    AtoiItoa(n);
    assert TaskId(n)[3..] == Itoa(n);
    assert TaskId(n)[0] == 'd';
  }

  /** The tasks numbered from zero. */
  function Numbered(task: nat -> TaskSpec, n: nat): map<Id, TaskSpec> {
    if n == 0 then map[] else Numbered(task, n - 1)[TaskId(n - 1) := task(n - 1)]
  }

  lemma {:induction false} NumberedAre(task: nat -> TaskSpec, n: nat, id: Id)
    ensures id in Numbered(task, n) <==> 0 <= TaskIndex(id) < n && id == TaskId(TaskIndex(id))
    ensures id in Numbered(task, n) ==> Numbered(task, n)[id] == task(TaskIndex(id))
  {
    if n > 0 {
      NumberedAre(task, n - 1, id);
      TaskIdInverse(n - 1);
    }
  }

  function TaskNames(n: nat): seq<Id> {
    seq(n, k requires 0 <= k => TaskId(k))
  }

  lemma NamesAre(n: nat, id: Id)
    ensures id in TaskNames(n) <==> 0 <= TaskIndex(id) < n && id == TaskId(TaskIndex(id))
  {
    if id in TaskNames(n) {
      var k :| 0 <= k < n && TaskNames(n)[k] == id;
      TaskIdInverse(k);
    }
    if 0 <= TaskIndex(id) < n && id == TaskId(TaskIndex(id)) {
      assert TaskNames(n)[TaskIndex(id)] == id;
    }
  }

  // ---------- Chains of tasks ----------

  /** The tasks form the chain, each requiring the one before. */
  ghost predicate IsChain(tasks: map<Id, TaskSpec>, chain: seq<Id>) {
    && (forall id :: id in chain <==> id in tasks)
    && (forall i, j | 0 <= i < j < |chain| :: chain[i] != chain[j])
    && forall i: nat :: RequiresPrevious(tasks, chain, i)
  }

  ghost predicate RequiresPrevious(tasks: map<Id, TaskSpec>, chain: seq<Id>, i: nat) {
    i < |chain| ==>
      && chain[i] in tasks
      && tasks[chain[i]].requirements == if i == 0 then map[] else map[chain[i - 1] := NilParams]
  }

  lemma ChainEdge(spec: WorkflowSpec, chain: seq<Id>, a: Id, b: Id)
    requires IsChain(spec.tasks, chain) && Edge(SpecDeps(spec), a, b)
    ensures exists i :: 0 < i < |chain| && a == chain[i - 1] && b == chain[i]
  {
    var deps := SpecDeps(spec);
    assert a in chain && b in chain;
    var k :| 0 <= k < |chain| && chain[k] == a;
    var i :| 0 <= i < |chain| && chain[i] == b;
    assert RequiresPrevious(spec.tasks, chain, k) && RequiresPrevious(spec.tasks, chain, i);
    assert forall p :: !IsParent(deps, p, a);
    assert RequiresEdge(deps, a, b);
  }

  lemma ChainIsAcyclic(spec: WorkflowSpec, chain: seq<Id>)
    requires IsChain(spec.tasks, chain)
    ensures Acyclic(GraphOf(SpecDeps(spec)))
  {
    var deps := SpecDeps(spec);
    var g := GraphOf(deps);
    forall w | Walk(g, w) && |w| >= 2 ensures w[0] != w[|w| - 1] {
      var i := WalkAlongChain(spec, chain, w);
    }
  }

  /** A walk follows the chain. */
  lemma {:induction false} WalkAlongChain(spec: WorkflowSpec, chain: seq<Id>, w: seq<Id>) returns (i: nat)
    requires IsChain(spec.tasks, chain) && Walk(GraphOf(SpecDeps(spec)), w) && |w| >= 2
    ensures i + |w| <= |chain| && w[0] == chain[i] && w[|w| - 1] == chain[i + |w| - 1]
  {
    var last := |w| - 1;
    EdgeOfGraph(SpecDeps(spec), w[last - 1], w[last]);
    ChainEdge(spec, chain, w[last - 1], w[last]);
    var k :| 0 < k < |chain| && w[last - 1] == chain[k - 1] && w[last] == chain[k];
    if |w| == 2 {
      i := k - 1;
    } else {
      i := WalkAlongChain(spec, chain, w[..last]);
    }
  }

  /** The tasks stand in one line: each requires the one before, and perhaps others. */
  ghost predicate IsLine(tasks: map<Id, TaskSpec>, line: seq<Id>) {
    && (forall id :: id in line <==> id in tasks)
    && (forall i, j | 0 <= i < j < |line| :: line[i] != line[j])
    && forall i: nat :: AfterPrevious(tasks, line, i)
  }

  ghost predicate AfterPrevious(tasks: map<Id, TaskSpec>, line: seq<Id>, i: nat) {
    0 < i < |line| ==> line[i] in tasks && line[i - 1] in tasks[line[i]].requirements
  }

  lemma ChainIsLine(tasks: map<Id, TaskSpec>, chain: seq<Id>)
    requires IsChain(tasks, chain)
    ensures IsLine(tasks, chain)
  {
    forall i: nat ensures AfterPrevious(tasks, chain, i) { assert RequiresPrevious(tasks, chain, i); }
  }

  lemma {:induction false} PrefixOfLine(tasks: map<Id, TaskSpec>, line: seq<Id>, order: seq<Id>, n: nat)
    requires IsLine(tasks, line) && IsTopological(tasks, order) && n <= |order|
    ensures n <= |line| && order[..n] == line[..n]
  {
    if n > 0 {
      PrefixOfLine(tasks, line, order, n - 1);
      assert Follows(tasks, order, n - 1);
      var j :| 0 <= j < |line| && line[j] == order[n - 1];
      assert AfterPrevious(tasks, line, j);
      assert forall m | 0 <= m < n - 1 :: order[..n - 1][m] == line[m];
      assert j > 0 ==> line[j - 1] in tasks && line[j - 1] in order[..n - 1];
    }
  }

  /** Tasks that stand in a line run in that order. */
  lemma LineOrder(tasks: map<Id, TaskSpec>, line: seq<Id>, order: seq<Id>)
    requires IsLine(tasks, line) && IsTopological(tasks, order) && forall id :: id in order <==> id in tasks
    ensures order == line
  {
    PrefixOfLine(tasks, line, order, |order|);
    assert order[..|order|] == order && forall k | 0 <= k < |order| :: order[k] == line[k];
    if line != [] {
      assert line[|line| - 1] in line;
      var m :| 0 <= m < |order| && order[m] == line[|line| - 1];
    }
  }
}
