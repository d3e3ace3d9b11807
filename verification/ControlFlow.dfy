/**
 Flows as task outputs. A task whose function returns a flow (a task or a workflow) gets a dynamic child that runs the
 flow, and the output of the task is then the output of that child.
 */
module ControlFlow {
  import opened Types

  predicate IsControlFlow(tv: Option<TypedValue>) {
    tv.Some? && (tv.value.value.TaskMessage? || tv.value.value.WorkflowMessage? || tv.value.value.FlowMessage?)
  }

  /** `child` is a recorded dynamic task whose parent is `parent`. */
  predicate IsChild(inv: Invocation, parent: Id, child: Id) {
    && child in inv.dynamicTasks
    && parent in inv.dynamicTasks[child].spec.requirements
    && inv.dynamicTasks[child].spec.requirements[parent].DynamicOutput?
  }

  /** The identifier of a dynamic child; it is longer than that of its parent. */
  function ChildId(parent: Id): Id {
    parent + "_child"
  }

  /** Identifiers grow from parent to child, as `ChildId` makes them. Without this the source may recurse for ever. */
  ghost predicate ChildrenExtend(inv: Invocation) {
    forall p, c | IsChild(inv, p, c) :: |p| < |c|
  }

  /** The first child that iterating the dynamic tasks in `order` finds. */
  function FirstChild(inv: Invocation, order: seq<Id>, parent: Id): (c: Option<Id>)
    ensures c.Some? ==> c.value in order && IsChild(inv, parent, c.value)
    ensures c.None? ==> forall id | id in order :: !IsChild(inv, parent, id)
  {
    if order == [] then None
    else if IsChild(inv, parent, order[0]) then Some(order[0])
    else FirstChild(inv, order[1..], parent)
  }

  function Longer(inv: Invocation, id: Id): set<Id> {
    set c | c in inv.dynamicTasks && |c| > |id|
  }

  lemma ChildIsLonger(inv: Invocation, parent: Id, child: Id)
    requires ChildrenExtend(inv) && IsChild(inv, parent, child)
    ensures Longer(inv, child) < Longer(inv, parent)
  {
    assert child in Longer(inv, parent) && child !in Longer(inv, child);
  }

  /** The output of a task; `order` is the iteration order of the map of dynamic tasks. */
  function ResolveTaskOutput(inv: Invocation, order: seq<Id>, id: Id): Option<TypedValue>
    requires ChildrenExtend(inv)
    decreases Longer(inv, id)
  {
    if id !in inv.tasks then None else
    var output := inv.tasks[id].output;
    var child := FirstChild(inv, order, id);
    if IsControlFlow(output) && child.Some? then
      ChildIsLonger(inv, id, child.value);
      ResolveTaskOutput(inv, order, child.value)
    else output
  }

  function ResolveTaskOutputHeaders(inv: Invocation, id: Id): Option<TypedValue> {
    if id in inv.tasks then inv.tasks[id].outputHeaders else None
  }

  /** `order` lists the dynamic tasks. */
  ghost predicate IsOrder(inv: Invocation, order: seq<Id>) {
    forall id :: id in order <==> id in inv.dynamicTasks
  }

  ghost predicate OneChildEach(inv: Invocation) {
    forall p, c, d :: IsChild(inv, p, c) && IsChild(inv, p, d) ==> c == d
  }

  /** A recorded task whose output is a flow that no dynamic task runs. */
  ghost predicate Dangling(inv: Invocation, id: Id) {
    id in inv.tasks && IsControlFlow(inv.tasks[id].output) && forall c :: !IsChild(inv, id, c)
  }

  /** The child that a lookup follows is the same for every iteration order exactly when parents have one child each. */
  lemma FirstChildUnique(inv: Invocation, listing: seq<Id>)
    requires IsOrder(inv, listing)
    ensures OneChildEach(inv) <==>
      forall p, order, order' :: IsOrder(inv, order) && IsOrder(inv, order') ==>
        FirstChild(inv, order, p) == FirstChild(inv, order', p)
  {
    if !OneChildEach(inv) {
      var p, c, d :| IsChild(inv, p, c) && IsChild(inv, p, d) && c != d;
      var order, order' := [c] + listing, [d] + listing;
      assert IsOrder(inv, order) && IsOrder(inv, order');
      assert FirstChild(inv, order, p) == Some(c) && FirstChild(inv, order', p) == Some(d);
    } else {
      forall p, order, order' | IsOrder(inv, order) && IsOrder(inv, order')
        ensures FirstChild(inv, order, p) == FirstChild(inv, order', p)
      {
        var c, c' := FirstChild(inv, order, p), FirstChild(inv, order', p);
        if c.Some? { assert c.value in order'; }
        if c'.Some? { assert c'.value in order; }
      }
    }
  }

  /** With one child per parent the output does not depend on the iteration order. */
  lemma {:induction false} OutputIndependentOfOrder(inv: Invocation, order: seq<Id>, order': seq<Id>, id: Id)
    requires ChildrenExtend(inv) && OneChildEach(inv) && IsOrder(inv, order) && IsOrder(inv, order')
    ensures ResolveTaskOutput(inv, order, id) == ResolveTaskOutput(inv, order', id)
    decreases Longer(inv, id)
  {
    FirstChildUnique(inv, order);
    var child := FirstChild(inv, order, id);
    if id in inv.tasks && IsControlFlow(inv.tasks[id].output) && child.Some? {
      ChildIsLonger(inv, id, child.value);
      OutputIndependentOfOrder(inv, order, order', child.value);
    }
  }

  /** The output is a flow only if some recorded flow output has no child; so it never is when every flow has one. */
  lemma {:induction false} FlowOutputDangles(inv: Invocation, order: seq<Id>, id: Id)
    requires ChildrenExtend(inv) && IsOrder(inv, order)
    requires IsControlFlow(ResolveTaskOutput(inv, order, id))
    ensures exists t :: Dangling(inv, t)
    decreases Longer(inv, id)
  {
    var child := FirstChild(inv, order, id);
    if child.Some? {
      ChildIsLonger(inv, id, child.value);
      FlowOutputDangles(inv, order, child.value);
    } else {
      assert forall c :: IsChild(inv, id, c) ==> c in order;
      assert Dangling(inv, id);
    }
  }

  /** The tasks follow each other as flows and the children that run them. */
  ghost predicate FlowsAlong(inv: Invocation, chain: seq<Id>) {
    forall i | 0 <= i < |chain| - 1 ::
      chain[i] in inv.tasks && IsControlFlow(inv.tasks[chain[i]].output) && IsChild(inv, chain[i], chain[i + 1])
  }

  /** The output of a task is what is recorded for the last task of a chain of flows that starts at it: nothing if that
      one is not recorded, and a flow only if no child runs it. */
  lemma {:induction false} OutputEndsChain(inv: Invocation, order: seq<Id>, id: Id) returns (chain: seq<Id>)
    requires ChildrenExtend(inv) && IsOrder(inv, order)
    ensures chain != [] && chain[0] == id && FlowsAlong(inv, chain)
    ensures var last, output := chain[|chain| - 1], ResolveTaskOutput(inv, order, id);
      if last in inv.tasks then output == inv.tasks[last].output && (IsControlFlow(output) ==> Dangling(inv, last))
      else output == None
    decreases Longer(inv, id)
  {
    var child := FirstChild(inv, order, id);
    if id in inv.tasks && IsControlFlow(inv.tasks[id].output) && child.Some? {
      ChildIsLonger(inv, id, child.value);
      var rest := OutputEndsChain(inv, order, child.value);
      chain := [id] + rest;
      forall i | 0 <= i < |chain| - 1
        ensures chain[i] in inv.tasks && IsControlFlow(inv.tasks[chain[i]].output) && IsChild(inv, chain[i], chain[i + 1])
      {
        if i > 0 { assert chain[i] == rest[i - 1] && chain[i + 1] == rest[i]; }
      }
    } else {
      chain := [id];
      assert forall c :: IsChild(inv, id, c) ==> c in order;
    }
  }

  /** Conversely a dangling flow is its own output. */
  lemma DanglingOutput(inv: Invocation, order: seq<Id>, id: Id)
    requires ChildrenExtend(inv) && Dangling(inv, id)
    ensures IsControlFlow(ResolveTaskOutput(inv, order, id))
  {
    assert FirstChild(inv, order, id).None?;
  }
}
