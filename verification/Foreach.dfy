/** The `foreach` function: one task per item, in parallel or in sequence, and a task that collects their outputs. */
module Foreach {
  import opened Types
  import opened TypedValues
  import opened Graph
  import opened Validate
  import opened Inputs
  import opened Dag

  const ITEM := "_item"
  const COLLECTOR := "collector"
  const COMPOSE := "compose"
  const COMPOSE_INPUT := "default"

  // ---------- The generated workflow ----------

  /** The item as an input that is resolved before the others. */
  function ItemInput(item: GoValue): TypedValue
    requires Supported(item)
  {
    WrapSupported(item);
    WithMetadata(Wrap(item).value, "priority", "1000")
  }

  function ItemTask(body: TaskSpec, item: GoValue, k: nat, sequential: bool): TaskSpec
    requires Supported(item)
  {
    TaskSpec(
      body.functionRef,
      body.inputs[ITEM := ItemInput(item)],
      if sequential && k != 0 then body.requirements[TaskId(k - 1) := NilParams] else body.requirements)
  }

  function ItemTasks(body: TaskSpec, items: seq<GoValue>, sequential: bool): map<Id, TaskSpec>
    requires AllSupported(items)
  {
    if items == [] then map[] else
    var k := |items| - 1;
    ItemTasks(body, items[..k], sequential)[TaskId(k) := ItemTask(body, items[k], k, sequential)]
  }

  predicate AllSupported(items: seq<GoValue>) {
    forall i | 0 <= i < |items| :: Supported(items[i])
  }

  /** What the collector composes: lookups of the outputs in the order of the items, or nothing. */
  function CollectedInput(n: nat, collect: bool): GoValue {
    GoList(if collect then seq(n, k requires 0 <= k => GoString(OutputExpr(TaskId(k)))) else [])
  }

  function Collector(n: nat, collect: bool): TaskSpec {
    WrapSupported(CollectedInput(n, collect));
    TaskSpec(
      COMPOSE,
      map[COMPOSE_INPUT := Wrap(CollectedInput(n, collect)).value],
      map id | id in TaskNames(n) :: NilParams)
  }

  function ForeachSpec(body: TaskSpec, items: seq<GoValue>, sequential: bool, collect: bool): WorkflowSpec
    requires AllSupported(items)
  {
    WorkflowSpec("", ItemTasks(body, items, sequential)[COLLECTOR := Collector(|items|, collect)], COLLECTOR)
  }

  /** Builds the tasks item by item, keeping the names in order. */
  method CreateTasks(items: seq<GoValue>, body: TaskSpec, sequential: bool)
    returns (tasks: map<Id, TaskSpec>, names: seq<Id>)
    requires AllSupported(items)
    ensures tasks == ItemTasks(body, items, sequential) && names == TaskNames(|items|)
  {
    tasks, names := map[], [];
    for k := 0 to |items|
      invariant tasks == ItemTasks(body, items[..k], sequential) && names == TaskNames(k)
    {
      var t := body.(inputs := body.inputs[ITEM := ItemInput(items[k])]);
      var name := TaskId(k);
      names := names + [name];
      if sequential && k != 0 {
        t := t.(requirements := t.requirements[names[k - 1] := NilParams]);
      }
      tasks := tasks[name := t];
      assert items[..k + 1][..k] == items[..k];
    }
    assert items[..|items|] == items;
  }

  method Invoke(items: seq<GoValue>, body: TaskSpec, sequential: bool, collect: bool) returns (wf: WorkflowSpec)
    requires AllSupported(items)
    ensures wf == ForeachSpec(body, items, sequential, collect)
  {
    var tasks, names := CreateTasks(items, body, sequential);
    var output: seq<GoValue> := [];
    for k := 0 to |names|
      invariant output == if collect then seq(k, i requires 0 <= i => GoString(OutputExpr(TaskId(i)))) else []
    {
      if collect {
        output := output + [GoString(OutputExpr(names[k]))];
      }
    }
    WrapSupported(GoList(output));
    var requirements := map id | id in names :: NilParams;
    var collector := TaskSpec(COMPOSE, map[COMPOSE_INPUT := Wrap(GoList(output)).value], requirements);
    wf := WorkflowSpec("", tasks[COLLECTOR := collector], COLLECTOR);
  }

  // ---------- The generated workflow is valid ----------

  lemma {:induction false} ItemTasksAre(body: TaskSpec, items: seq<GoValue>, sequential: bool, id: Id)
    requires AllSupported(items)
    ensures id in ItemTasks(body, items, sequential) <==> 0 <= TaskIndex(id) < |items| && id == TaskId(TaskIndex(id))
    ensures id in ItemTasks(body, items, sequential) ==>
      ItemTasks(body, items, sequential)[id] == ItemTask(body, items[TaskIndex(id)], TaskIndex(id), sequential)
  {
    if items != [] {
      var k := |items| - 1;
      ItemTasksAre(body, items[..k], sequential, id);
      TaskIdInverse(k);
    }
  }

  /** The requirements of the generated tasks when the body has none. */
  lemma RequirementsAre(body: TaskSpec, items: seq<GoValue>, sequential: bool, collect: bool, id: Id)
    requires AllSupported(items) && body.requirements == map[]
    requires id in ForeachSpec(body, items, sequential, collect).tasks
    ensures var tasks := ForeachSpec(body, items, sequential, collect).tasks;
      && (id != COLLECTOR ==> 0 <= TaskIndex(id) < |items| && id == TaskId(TaskIndex(id)))
      && forall p | p in tasks[id].requirements ::
           p in tasks && p != COLLECTOR && 0 <= TaskIndex(p) < |items| && (id != COLLECTOR ==> TaskIndex(p) == TaskIndex(id) - 1)
  {
    var tasks := ForeachSpec(body, items, sequential, collect).tasks;
    ItemTasksAre(body, items, sequential, id);
    if id != COLLECTOR {
      if TaskIndex(id) > 0 {
        TaskIdInverse(TaskIndex(id) - 1);
        ItemTasksAre(body, items, sequential, TaskId(TaskIndex(id) - 1));
      }
    } else {
      forall p | p in tasks[id].requirements ensures p in tasks && p != COLLECTOR && 0 <= TaskIndex(p) < |items| {
        NamesAre(|items|, p);
        TaskIdInverse(TaskIndex(p));
        ItemTasksAre(body, items, sequential, p);
      }
    }
  }

  lemma ForeachIsAcyclic(body: TaskSpec, items: seq<GoValue>, sequential: bool, collect: bool)
    requires AllSupported(items) && body.requirements == map[]
    ensures Acyclic(GraphOf(SpecDeps(ForeachSpec(body, items, sequential, collect))))
  {
    var spec := ForeachSpec(body, items, sequential, collect);
    var deps := SpecDeps(spec);
    forall id | id in deps && id != COLLECTOR ensures TaskIndex(id) >= 0 {
      RequirementsAre(body, items, sequential, collect, id);
    }
    var rank: map<Id, nat> := map id | id in deps :: if id == COLLECTOR then |items| else TaskIndex(id);
    var g := GraphOf(deps);
    forall a, b | (a, b) in g.edges ensures a in rank && b in rank && rank[a] < rank[b] {
      EdgeOfGraph(deps, a, b);
      RequirementsAre(body, items, sequential, collect, b);
      NoDynamicRequirements(body, items, sequential, collect, a);
    }
    RankedIsAcyclic(g, rank);
  }

  lemma NoDynamicRequirements(body: TaskSpec, items: seq<GoValue>, sequential: bool, collect: bool, id: Id)
    requires AllSupported(items) && body.requirements == map[]
    ensures forall p :: !IsParent(SpecDeps(ForeachSpec(body, items, sequential, collect)), p, id)
  {
    ItemTasksAre(body, items, sequential, id);
  }

  /** The first task and the collector when the body requires something. */
  lemma FirstTask(body: TaskSpec, items: seq<GoValue>, sequential: bool, collect: bool)
    requires AllSupported(items) && items != []
    ensures var tasks := ForeachSpec(body, items, sequential, collect).tasks;
      && TaskId(0) in tasks && TaskId(0) != COLLECTOR && tasks[TaskId(0)].functionRef == body.functionRef
      && tasks[TaskId(0)].requirements == body.requirements && TaskId(0) in tasks[COLLECTOR].requirements
  {
    TaskIdInverse(0);
    ItemTasksAre(body, items, sequential, TaskId(0));
    NamesAre(|items|, TaskId(0));
  }

  lemma CycleThroughCollector(body: TaskSpec, items: seq<GoValue>, sequential: bool, collect: bool)
    requires AllSupported(items) && items != [] && COLLECTOR in body.requirements
    ensures !Acyclic(GraphOf(SpecDeps(ForeachSpec(body, items, sequential, collect))))
  {
    var deps := SpecDeps(ForeachSpec(body, items, sequential, collect));
    FirstTask(body, items, sequential, collect);
    TwoCycle(deps, COLLECTOR, TaskId(0));
  }

  /** An item's task then requires itself. The graph library of the source panics on such an edge, so there the workflow
      is not rejected with an error: validation is aborted. */
  lemma CycleThroughItem(body: TaskSpec, items: seq<GoValue>, sequential: bool, collect: bool, r: Id)
    requires AllSupported(items) && r in body.requirements && r in ItemTasks(body, items, sequential)
    ensures !Acyclic(GraphOf(SpecDeps(ForeachSpec(body, items, sequential, collect))))
  {
    ItemTasksAre(body, items, sequential, r);
    TaskIdInverse(TaskIndex(r));
    TwoCycle(SpecDeps(ForeachSpec(body, items, sequential, collect)), r, r);
  }

  /** A task that requires something for each item makes the workflow invalid: the requirement is either no task of the
      workflow or part of a cycle. */
  lemma BodyRequirementsInvalid(body: TaskSpec, items: seq<GoValue>, sequential: bool, collect: bool)
    requires AllSupported(items) && items != [] && body.requirements != map[]
    ensures !ValidSpec(ForeachSpec(body, items, sequential, collect))
  {
    var r :| r in body.requirements;
    FirstTask(body, items, sequential, collect);
    if r == COLLECTOR {
      CycleThroughCollector(body, items, sequential, collect);
    } else if r in ItemTasks(body, items, sequential) {
      CycleThroughItem(body, items, sequential, collect, r);
    }
  }

  lemma EachTaskIsValid(body: TaskSpec, items: seq<GoValue>, sequential: bool, collect: bool, id: Id)
    requires AllSupported(items) && body.requirements == map[]
    requires id in ForeachSpec(body, items, sequential, collect).tasks
    ensures var tasks := ForeachSpec(body, items, sequential, collect).tasks;
      && id != "" && tasks[id].requirements.Keys <= tasks.Keys
      && tasks[id].functionRef == if id == COLLECTOR then COMPOSE else body.functionRef
  {
    RequirementsAre(body, items, sequential, collect, id);
    ItemTasksAre(body, items, sequential, id);
    if id != COLLECTOR { TaskIdInverse(TaskIndex(id)); }
  }

  lemma ValidWithoutRequirements(body: TaskSpec, items: seq<GoValue>, sequential: bool, collect: bool)
    requires AllSupported(items) && body.requirements == map[] && (items != [] ==> body.functionRef != "")
    ensures ValidSpec(ForeachSpec(body, items, sequential, collect))
  {
    ForeachIsAcyclic(body, items, sequential, collect);
    var tasks := ForeachSpec(body, items, sequential, collect).tasks;
    forall id | id in tasks
      ensures id != "" && tasks[id].requirements.Keys <= tasks.Keys && tasks[id].functionRef != ""
    {
      EachTaskIsValid(body, items, sequential, collect, id);
    }
  }

  /** The workflow is valid exactly when there is nothing to do, or the task has a function and requires nothing. */
  lemma ForeachIsValid(body: TaskSpec, items: seq<GoValue>, sequential: bool, collect: bool)
    requires AllSupported(items)
    ensures ValidSpec(ForeachSpec(body, items, sequential, collect)) <==>
      items == [] || (body.functionRef != "" && body.requirements == map[])
  {
    if items == [] {
      ValidWithoutRequirements(body.(requirements := map[]), items, sequential, collect);
    } else if body.requirements != map[] {
      BodyRequirementsInvalid(body, items, sequential, collect);
    } else if body.functionRef == "" {
      FirstTask(body, items, sequential, collect);
    } else {
      ValidWithoutRequirements(body, items, sequential, collect);
    }
  }

  // ---------- The generated workflow maps the task over the items ----------

  /** What the function `compose` does with a single unnamed input. */
  ghost predicate Composes(rt: Runtime) {
    forall tv :: rt.run(COMPOSE, map[COMPOSE_INPUT := tv]) == tv
  }

  /** The task applied to item k: the item is one of its inputs, and the others are resolved in sight of it and of the
      outputs that are given. */
  function ForItem(rt: Runtime, body: TaskSpec, item: GoValue, k: nat, env: Outputs := map[]): TypedValue
    requires Supported(item)
  {
    rt.run(body.functionRef, ResolveInputs(rt, TaskId(k), body.inputs[ITEM := ItemInput(item)], env))
  }

  /** What is read of the results for the items, in the order of the items; nothing if they are not collected. */
  function Mapped(rt: Runtime, body: TaskSpec, items: seq<GoValue>, collect: bool): TypedValue
    requires AllSupported(items)
  {
    if !collect then Pack(ArrayValue([])) else
    Pack(ArrayValue(seq(|items|, k requires 0 <= k < |items| =>
      Rewrap(rt.read(OutputExpr(TaskId(k)), ForItem(rt, body, items[k], k))))))
  }

  ghost predicate LocalItems(rt: Runtime, items: seq<GoValue>)
    requires AllSupported(items)
  {
    forall k | 0 <= k < |items| :: Local(rt, ItemInput(items[k]))
  }

  lemma PriorityOfItem(item: GoValue)
    requires Supported(item)
    ensures Priority(ItemInput(item)) == 1000
  {
    assert Atoi("1") == 1 by { assert "1"[..0] == ""; }
    assert Atoi("10") == 10 by { assert "10"[..1] == "1"; }
    assert Atoi("100") == 100 by { assert "100"[..2] == "10"; }
    assert Atoi("1000") == 1000 by { assert "1000"[..3] == "100"; }
  }

  /** What the input holds is the item itself, up to the truncation of Go ints and the unwrapping of what was typed. */
  lemma ItemInputHolds(item: GoValue)
    requires Supported(item)
    ensures Unwrap(ItemInput(item)) == Normal(item)
    ensures PlainData(item) ==> Unwrap(ItemInput(item)) == TruncateInts(item)
    ensures item.GoTypedValue? || item.GoMessage? ==>
      ItemInput(item).value == match item case GoTypedValue(tv) => tv.value case GoMessage(msg) => msg case _ => NilValue
  {
    UnwrapWrapNormal(item);
    if PlainData(item) { NormalOfPlain(item); }
    assert Unwrap(ItemInput(item)) == Unwrap(Wrap(item).value) by { SameMessage(ItemInput(item), Wrap(item).value); }
  }

  lemma SameMessage(a: TypedValue, b: TypedValue)
    requires a.value == b.value
    ensures Unwrap(a) == Unwrap(b)
  {
  }

  /** The item holds no expression at any depth. */
  predicate Literal(item: GoValue) {
    NoExpression(Normal(item)) && !DenotesExpression(item)
  }

  lemma LiteralIsNoExpression(item: GoValue)
    requires Supported(item) && Literal(item)
    ensures NoExpression(Unwrap(ItemInput(item))) && !ItemInput(item).value.Expression?
  {
    hide Wrap, Unwrap, Normal, Supported, NoExpression, DenotesExpression, ItemInput, TruncateInts, PlainData;
    ItemInputHolds(item);
    ItemInputMessage(item);
    WrapsAsExpression(item);
  }

  lemma ItemInputMessage(item: GoValue)
    requires Supported(item)
    ensures Wrap(item).Ok? && ItemInput(item).value == Wrap(item).value.value
  {
    hide Wrap, Supported;
    WrapSupported(item);
  }

  /** An item that holds no expression is given to its task as it is, whatever the other inputs are. */
  lemma ItemIsGiven(rt: Runtime, body: TaskSpec, item: GoValue, k: nat, env: Outputs)
    requires Prioritizes(rt) && Supported(item) && Literal(item)
    ensures var resolved := ResolveInputs(rt, TaskId(k), body.inputs[ITEM := ItemInput(item)], env);
      && ForItem(rt, body, item, k, env) == rt.run(body.functionRef, resolved)
      && ITEM in resolved && Unwrap(resolved[ITEM]) == Normal(item)
  {
    var task, inputs := TaskId(k), body.inputs[ITEM := ItemInput(item)];
    var keys := rt.order(task, inputs);
    assert IsPriorityOrder(inputs, keys) && ITEM in keys;
    hide Wrap, Priority;
    var i :| 0 <= i < |keys| && keys[i] == ITEM;
    var own := ResolvedIn(rt, task, inputs, env, map[], keys, i);
    ItemInputHolds(item);
    LiteralIsNoExpression(item);
    ResolvedUnchanged(rt, ItemInput(item), Scope(task, own, env));
  }

  /** When no other input has a priority as high as `_item`, the item is resolved first, and every other input with the
      item in sight: the item itself, if it holds no expression. */
  lemma ItemIsInScope(rt: Runtime, body: TaskSpec, item: GoValue, k: nat, env: Outputs, x: string)
    returns (own: map<string, GoValue>)
    requires Prioritizes(rt) && Supported(item) && x in body.inputs && x != ITEM
    requires forall y | y in body.inputs && y != ITEM :: Priority(body.inputs[y]) < 1000
    ensures var inputs := body.inputs[ITEM := ItemInput(item)];
      var resolved := ResolveInputs(rt, TaskId(k), inputs, env);
      && ForItem(rt, body, item, k, env) == rt.run(body.functionRef, resolved)
      && ITEM in resolved
      && resolved[ITEM] == Resolve(rt, ItemInput(item), ScopeOf(TaskId(k), inputs, map[], env))
      && x in resolved && resolved[x] == Resolve(rt, body.inputs[x], Scope(TaskId(k), own, env))
      && ITEM in own && own[ITEM] == Unwrap(resolved[ITEM])
      && (Literal(item) ==> own[ITEM] == Normal(item))
  {
    if Literal(item) { ItemIsGiven(rt, body, item, k, env); }
    PriorityOfItem(item);
    own := SeesFirst(rt, TaskId(k), body.inputs[ITEM := ItemInput(item)], env, ITEM, x);
  }

  /** The task of an item gives the same in every environment. */
  lemma ItemRuns(rt: Runtime, body: TaskSpec, item: GoValue, k: nat, sequential: bool, env: Outputs)
    requires Prioritizes(rt) && Supported(item) && LocalInputs(rt, body.inputs) && Local(rt, ItemInput(item))
    ensures RunTask(rt, TaskId(k), ItemTask(body, item, k, sequential), env) == ForItem(rt, body, item, k)
  {
    var task, inputs := TaskId(k), body.inputs[ITEM := ItemInput(item)];
    LocalResolve(rt, task, inputs, env, map[], map[], map[], rt.order(task, inputs));
  }

  /** The outputs of the items in order, as the collector's list holds them. */
  function Collected(rt: Runtime, n: nat, collect: bool, env: Outputs): TypedValue
    requires forall k: nat | k < n :: TaskId(k) in env
  {
    if !collect then Pack(ArrayValue([])) else
    Pack(ArrayValue(seq(n, k requires 0 <= k < n => Rewrap(rt.read(OutputExpr(TaskId(k)), env[TaskId(k)])))))
  }

  function LookupsFor(n: nat, collect: bool): seq<GoValue> {
    if collect then seq(n, k requires 0 <= k => GoString(OutputExpr(TaskId(k)))) else []
  }

  lemma LookupIsExpression(k: nat)
    ensures IsExpression(OutputExpr(TaskId(k)))
    ensures Wrap(GoString(OutputExpr(TaskId(k)))) == Ok(Pack(Expression(OutputExpr(TaskId(k)))))
  {
    TaskIdInverse(k);
    OutputExprIsExpression(TaskId(k));
  }

  /** The collector's input is a list of lookups. */
  lemma CollectorLookups(n: nat, collect: bool)
    ensures Wrap(CollectedInput(n, collect)).Ok?
    ensures Wrap(CollectedInput(n, collect)).value.value.ArrayValue?
    ensures Unwrap(Wrap(CollectedInput(n, collect)).value) == GoList(LookupsFor(n, collect))
  {
    var vs := CollectedInput(n, collect).items;
    forall k | 0 <= k < |vs| ensures Wrap(vs[k]) == Ok(Pack(Expression(OutputExpr(TaskId(k))))) {
      LookupIsExpression(k);
    }
    WrapItems(vs);
    assert Unwrap(Wrap(GoList(vs)).value).items == LookupsFor(n, collect);
  }

  lemma LookupsResolve(rt: Runtime, n: nat, collect: bool, scope: Scope)
    requires LooksUpOutputs(rt) && forall k: nat | k < n :: TaskId(k) in scope.outputs
    ensures Supported(GoList(LookupsFor(n, collect)))
    ensures Wrap(ResolveGo(rt, GoList(LookupsFor(n, collect)), scope)) == Ok(Collected(rt, n, collect, scope.outputs))
  {
    var vs := LookupsFor(n, collect);
    var r := ResolveGo(rt, GoList(vs), scope).items;
    forall k | 0 <= k < |vs|
      ensures r[k] == Unwrap(rt.read(OutputExpr(TaskId(k)), scope.outputs[TaskId(k)])) && Wrap(r[k]).Ok?
    {
      LookupIsExpression(k);
      assert r[k] == ResolveGo(rt, vs[k], scope) && vs[k] == GoString(OutputExpr(TaskId(k)));
      assert rt.eval(OutputExpr(TaskId(k)), scope) == rt.read(OutputExpr(TaskId(k)), scope.outputs[TaskId(k)]);
      RoundTripTypedValue(rt.read(OutputExpr(TaskId(k)), scope.outputs[TaskId(k)]));
    }
    WrapItems(r);
    assert Wrap(GoList(r)).value.value.elements == Collected(rt, n, collect, scope.outputs).value.elements;
  }

  /** The collector gives the outputs in the order of the items. */
  lemma CollectorRuns(rt: Runtime, n: nat, collect: bool, env: Outputs)
    requires Prioritizes(rt) && LooksUpOutputs(rt) && Composes(rt) && forall k: nat | k < n :: TaskId(k) in env
    ensures RunTask(rt, COLLECTOR, Collector(n, collect), env) == Collected(rt, n, collect, env)
  {
    var inputs := Collector(n, collect).inputs;
    ResolveOnly(rt, COLLECTOR, inputs, env, COMPOSE_INPUT);
    CollectorLookups(n, collect);
    LookupsResolve(rt, n, collect, ScopeOf(COLLECTOR, inputs, map[], env));
  }

  lemma ItemDependsOnNothing(rt: Runtime, body: TaskSpec, items: seq<GoValue>, sequential: bool, collect: bool, id: Id)
    requires Prioritizes(rt) && AllSupported(items) && LocalInputs(rt, body.inputs) && LocalItems(rt, items)
    requires id in ItemTasks(body, items, sequential) && id != COLLECTOR
    ensures var f := Steps(rt, ForeachSpec(body, items, sequential, collect).tasks);
      0 <= TaskIndex(id) < |items| && forall env :: f(id, env) == ForItem(rt, body, items[TaskIndex(id)], TaskIndex(id))
  {
    ItemTasksAre(body, items, sequential, id);
    var k := TaskIndex(id);
    var f := Steps(rt, ForeachSpec(body, items, sequential, collect).tasks);
    forall env ensures f(id, env) == ForItem(rt, body, items[k], k) {
      ItemRuns(rt, body, items[k], k, sequential, env);
    }
  }

  lemma CollectorDependsOnItems(rt: Runtime, body: TaskSpec, items: seq<GoValue>, sequential: bool, collect: bool)
    requires Prioritizes(rt) && AllSupported(items) && LooksUpOutputs(rt) && Composes(rt)
    ensures var tasks := ForeachSpec(body, items, sequential, collect).tasks;
      DependsOn(Steps(rt, tasks), COLLECTOR, tasks[COLLECTOR].requirements.Keys)
  {
    var tasks := ForeachSpec(body, items, sequential, collect).tasks;
    var f, n := Steps(rt, tasks), |items|;
    forall env, env' | Agree(tasks[COLLECTOR].requirements.Keys, env, env') ensures f(COLLECTOR, env) == f(COLLECTOR, env') {
      forall k: nat | k < n ensures TaskId(k) in env && TaskId(k) in env' && env[TaskId(k)] == env'[TaskId(k)] {
        assert TaskNames(n)[k] in tasks[COLLECTOR].requirements.Keys;
      }
      CollectorRuns(rt, n, collect, env);
      CollectorRuns(rt, n, collect, env');
      assert Collected(rt, n, collect, env).value.elements == Collected(rt, n, collect, env').value.elements;
    }
  }

  lemma EachReadsRequired(rt: Runtime, body: TaskSpec, items: seq<GoValue>, sequential: bool, collect: bool)
    requires Prioritizes(rt) && AllSupported(items) && body.requirements == map[] && LooksUpOutputs(rt) && Composes(rt)
    requires LocalInputs(rt, body.inputs) && LocalItems(rt, items)
    ensures var tasks := ForeachSpec(body, items, sequential, collect).tasks; ReadsRequired(Steps(rt, tasks), tasks)
  {
    var tasks := ForeachSpec(body, items, sequential, collect).tasks;
    var f := Steps(rt, tasks);
    forall id | id in tasks
      ensures tasks[id].requirements.Keys <= tasks.Keys && DependsOn(f, id, tasks[id].requirements.Keys)
    {
      EachTaskIsValid(body, items, sequential, collect, id);
      if id == COLLECTOR {
        CollectorDependsOnItems(rt, body, items, sequential, collect);
      } else {
        ItemDependsOnNothing(rt, body, items, sequential, collect, id);
      }
    }
  }

  /** However the horizon orders the tasks, and whether they run in parallel or in sequence, every item's task gives the
      function applied to the item, and the output is the list of these in the order of the items. */
  lemma ForeachMeansMap(
    rt: Runtime, body: TaskSpec, items: seq<GoValue>, sequential: bool, collect: bool, order: seq<Id>)
    requires Prioritizes(rt) && AllSupported(items) && body.requirements == map[] && LooksUpOutputs(rt) && Composes(rt)
    requires LocalInputs(rt, body.inputs) && LocalItems(rt, items)
    requires IsHorizonOrder(ForeachSpec(body, items, sequential, collect), order)
    ensures var spec := ForeachSpec(body, items, sequential, collect);
      var env := Execute(Steps(rt, spec.tasks), order);
      && (forall k: nat | k < |items| :: TaskId(k) in env && env[TaskId(k)] == ForItem(rt, body, items[k], k))
      && spec.outputTask in env
      && env[spec.outputTask] == Mapped(rt, body, items, collect)
  {
    var spec := ForeachSpec(body, items, sequential, collect);
    var f := Steps(rt, spec.tasks);
    EachReadsRequired(rt, body, items, sequential, collect);
    HorizonIsTopological(spec, order);
    ExecuteSolves(f, spec.tasks, order);
    var env := Execute(f, order);
    forall k: nat | k < |items| ensures TaskId(k) in env && env[TaskId(k)] == ForItem(rt, body, items[k], k) {
      TaskIdInverse(k);
      ItemTasksAre(body, items, sequential, TaskId(k));
      ItemDependsOnNothing(rt, body, items, sequential, collect, TaskId(k));
    }
    CollectorOutput(rt, body, items, sequential, collect, env);
  }

  lemma CollectorOutput(
    rt: Runtime, body: TaskSpec, items: seq<GoValue>, sequential: bool, collect: bool, env: Outputs)
    requires Prioritizes(rt) && AllSupported(items) && LooksUpOutputs(rt) && Composes(rt)
    requires Solves(Steps(rt, ForeachSpec(body, items, sequential, collect).tasks), env) && COLLECTOR in env
    requires forall k: nat | k < |items| :: TaskId(k) in env && env[TaskId(k)] == ForItem(rt, body, items[k], k)
    ensures env[COLLECTOR] == Mapped(rt, body, items, collect)
  {
    CollectorRuns(rt, |items|, collect, env);
    assert Collected(rt, |items|, collect, env).value.elements == Mapped(rt, body, items, collect).value.elements;
  }

  /** In parallel all items can run at once: they are what is on the horizon at the start. Without items the collector
      is. */
  lemma ParallelAtOnce(body: TaskSpec, items: seq<GoValue>, collect: bool, id: Id)
    requires AllSupported(items) && body.requirements == map[]
    ensures id in RootSet(GraphOf(SpecDeps(ForeachSpec(body, items, false, collect)))) <==>
      if items == [] then id == COLLECTOR else id in TaskNames(|items|)
  {
    var spec := ForeachSpec(body, items, false, collect);
    RootIff(SpecDeps(spec), id);
    NamesAre(|items|, id);
    ItemTasksAre(body, items, false, id);
    NoDynamicRequirements(body, items, false, collect, id);
    if id in TaskNames(|items|) { TaskIdInverse(TaskIndex(id)); }
    if items != [] {
      FirstTask(body, items, false, collect);
    } else {
      assert TaskNames(0) == [];
    }
  }

  // ---------- In sequence, the generated workflow is a loop over the items ----------

  /** The outputs of a plain loop over the items, in which each item sees the outputs of those before it. */
  function LoopOutputs(rt: Runtime, body: TaskSpec, items: seq<GoValue>): Outputs
    requires AllSupported(items)
  {
    if items == [] then map[] else
    var k := |items| - 1;
    var env := LoopOutputs(rt, body, items[..k]);
    env[TaskId(k) := ForItem(rt, body, items[k], k, env)]
  }

  lemma {:induction false} LoopNames(rt: Runtime, body: TaskSpec, items: seq<GoValue>, k: nat)
    requires AllSupported(items)
    ensures k < |items| ==> TaskId(k) in LoopOutputs(rt, body, items)
  {
    if items != [] {
      LoopNames(rt, body, items[..|items| - 1], k);
    }
  }

  lemma RequiresPreviousItem(body: TaskSpec, items: seq<GoValue>, collect: bool, i: nat)
    requires AllSupported(items) && 0 < i <= |items|
    ensures var tasks, name := ForeachSpec(body, items, true, collect).tasks, if i < |items| then TaskId(i) else COLLECTOR;
      name in tasks && TaskId(i - 1) in tasks[name].requirements
  {
    TaskIdInverse(i);
    ItemTasksAre(body, items, true, TaskId(i));
    assert TaskNames(|items|)[i - 1] == TaskId(i - 1);
  }

  lemma LineNames(body: TaskSpec, items: seq<GoValue>, collect: bool, id: Id)
    requires AllSupported(items)
    ensures id in TaskNames(|items|) + [COLLECTOR] <==> id in ForeachSpec(body, items, true, collect).tasks
  {
    NamesAre(|items|, id);
    ItemTasksAre(body, items, true, id);
  }

  /** Every item's task requires the one before, and the collector requires the last. */
  lemma SequenceIsLine(body: TaskSpec, items: seq<GoValue>, collect: bool)
    requires AllSupported(items)
    ensures IsLine(ForeachSpec(body, items, true, collect).tasks, TaskNames(|items|) + [COLLECTOR])
  {
    hide ForeachSpec, TaskId;
    var tasks, line := ForeachSpec(body, items, true, collect).tasks, TaskNames(|items|) + [COLLECTOR];
    forall id ensures id in line <==> id in tasks { LineNames(body, items, collect, id); }
    forall i, j | 0 <= i < j < |line| ensures line[i] != line[j] {
      TaskIdInverse(i);
      TaskIdInverse(j);
    }
    forall i: nat ensures AfterPrevious(tasks, line, i) {
      if 0 < i < |line| { RequiresPreviousItem(body, items, collect, i); }
    }
  }

  lemma ItemStep(rt: Runtime, body: TaskSpec, items: seq<GoValue>, collect: bool, k: nat, env: Outputs)
    requires AllSupported(items) && k < |items|
    ensures Steps(rt, ForeachSpec(body, items, true, collect).tasks)(TaskId(k), env) ==
            ForItem(rt, body, items[k], k, env)
  {
    TaskIdInverse(k);
    ItemTasksAre(body, items, true, TaskId(k));
  }

  lemma {:induction false} PrefixIsLoop(rt: Runtime, body: TaskSpec, items: seq<GoValue>, collect: bool, i: nat)
    requires AllSupported(items) && i <= |items|
    ensures Execute(Steps(rt, ForeachSpec(body, items, true, collect).tasks), TaskNames(i)) ==
            LoopOutputs(rt, body, items[..i])
  {
    hide ForeachSpec, Steps, ForItem;
    if i > 0 {
      PrefixIsLoop(rt, body, items, collect, i - 1);
      assert TaskNames(i)[..i - 1] == TaskNames(i - 1) && items[..i][..i - 1] == items[..i - 1];
      ItemStep(rt, body, items, collect, i - 1, LoopOutputs(rt, body, items[..i - 1]));
    }
  }

  /** In sequence the horizon leaves one order only, and the outputs are those of the plain loop, collected in the order
      of the items. Nothing is asked of the task: its inputs may read the item, the other inputs and all earlier items. */
  lemma SequentialMeansLoop(rt: Runtime, body: TaskSpec, items: seq<GoValue>, collect: bool, order: seq<Id>)
    requires Prioritizes(rt) && AllSupported(items) && LooksUpOutputs(rt) && Composes(rt)
    requires IsHorizonOrder(ForeachSpec(body, items, true, collect), order)
    ensures order == TaskNames(|items|) + [COLLECTOR]
    ensures forall k: nat | k < |items| :: TaskId(k) in LoopOutputs(rt, body, items)
    ensures var spec, loop := ForeachSpec(body, items, true, collect), LoopOutputs(rt, body, items);
      Execute(Steps(rt, spec.tasks), order) == loop[spec.outputTask := Collected(rt, |items|, collect, loop)]
  {
    var n, spec := |items|, ForeachSpec(body, items, true, collect);
    SequenceIsLine(body, items, collect);
    HorizonIsTopological(spec, order);
    LineOrder(spec.tasks, TaskNames(n) + [COLLECTOR], order);
    PrefixIsLoop(rt, body, items, collect, n);
    assert items[..n] == items && order[..n] == TaskNames(n);
    forall k: nat | k < n ensures TaskId(k) in LoopOutputs(rt, body, items) { LoopNames(rt, body, items, k); }
    CollectorRuns(rt, n, collect, LoopOutputs(rt, body, items));
  }
}
