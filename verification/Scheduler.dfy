/**
 The scheduling policies. A policy looks at a snapshot of an invocation and either aborts it, because a task failed,
 or selects the tasks to run and to prewarm.
 */
module Scheduler {
  import opened Types
  import opened Graph

  datatype Schedule = Schedule(abort: Option<string>, prepare: seq<Id>, run: seq<Id>)

  // ---------- What a snapshot says ----------

  predicate IsOpen(inv: Invocation, id: Id) {
    id in inv.Tasks() && (id in inv.tasks ==> inv.tasks[id].status == TaskUnknown)
  }

  /** The requirements of the tasks that have not been started. */
  function OpenDeps(inv: Invocation): Deps {
    map id | id in inv.Tasks() && IsOpen(inv, id) :: inv.Tasks()[id].spec.requirements
  }

  predicate HasFailed(inv: Invocation) {
    exists id | id in inv.tasks :: inv.tasks[id].status == TaskFailed
  }

  /** The open tasks that no open task holds up. */
  ghost function Horizon(inv: Invocation): set<Id> {
    RootSet(GraphOf(OpenDeps(inv)))
  }

  /** The horizon for one choice among several dynamic parents; the horizon itself when there is no choice. */
  function HorizonWith(inv: Invocation, parents: map<Id, Id>): set<Id> {
    RootSet(GraphWith(OpenDeps(inv), parents))
  }

  /** The open tasks that are left once `first` are scheduled. */
  function OpenBeyond(inv: Invocation, first: set<Id>): Deps {
    Restrict(OpenDeps(inv), OpenDeps(inv).Keys - first)
  }

  /** A task is on the horizon exactly when it is open, nothing it requires is open, and no other dynamic child of
      something it requires is open. */
  lemma HorizonIff(inv: Invocation, n: Id)
    ensures n in Horizon(inv) <==>
      && IsOpen(inv, n)
      && forall p | p in inv.Tasks()[n].spec.requirements ::
           !IsOpen(inv, p) && forall c :: IsParent(OpenDeps(inv), p, c) ==> c == n
  {
    RootIff(OpenDeps(inv), n);
  }

  /** The open tasks that only tasks on the horizon hold up. */
  ghost function SecondLayer(inv: Invocation): set<Id> {
    LayerAfter(OpenDeps(inv), Horizon(inv))
  }

  function AbortReason(run: TaskRun): string {
    if run.error.Some? then run.error.value else "Task '" + run.metadata.id + "' failed"
  }

  /** The message is that of a task that failed. */
  ghost predicate ExplainsFailure(inv: Invocation, msg: string) {
    exists id :: id in inv.tasks && inv.tasks[id].status == TaskFailed && msg == AbortReason(inv.tasks[id])
  }

  // ---------- The policies ----------

  /** Keeps the reason of the last failed task in the iteration order of a map. */
  method FindFailure(inv: Invocation) returns (abort: Option<string>)
    ensures abort.Some? <==> HasFailed(inv)
    ensures abort.Some? ==> ExplainsFailure(inv, abort.value)
  {
    abort := None;
    var todo := inv.tasks.Keys;
    while todo != {}
      invariant todo <= inv.tasks.Keys
      invariant abort.None? ==> forall id :: id in inv.tasks && id !in todo ==> inv.tasks[id].status != TaskFailed
      invariant abort.Some? ==> ExplainsFailure(inv, abort.value)
      decreases todo
    {
      var id :| id in todo;
      if inv.tasks[id].status == TaskFailed {
        abort := Some(AbortReason(inv.tasks[id]));
      }
      todo := todo - {id};
    }
  }

  method GetOpenTasks(inv: Invocation) returns (open: Deps)
    ensures open == OpenDeps(inv)
  {
    open := map[];
    var tasks := inv.Tasks();
    var todo := tasks.Keys;
    while todo != {}
      invariant todo <= tasks.Keys
      invariant open == map id | id in tasks.Keys - todo && IsOpen(inv, id) :: tasks[id].spec.requirements
      decreases todo
    {
      var id :| id in todo;
      var status := if id in inv.tasks then inv.tasks[id].status else TaskUnknown;
      if status == TaskUnknown {
        open := open[id := tasks[id].spec.requirements];
      }
      todo := todo - {id};
    }
  }

  method HorizonPolicy(inv: Invocation) returns (s: Schedule, ghost parents: map<Id, Id>)
    requires NoSelfDependency(OpenDeps(inv))
    ensures s.abort.Some? <==> HasFailed(inv)
    ensures s.abort.Some? ==> s.run == [] && s.prepare == [] && ExplainsFailure(inv, s.abort.value)
    ensures s.prepare == [] && Distinct(s.run)
    ensures s.abort.None? ==>
      Chooses(OpenDeps(inv), parents) && forall id :: id in s.run <==> id in HorizonWith(inv, parents)
  {
    var abort := FindFailure(inv);
    parents := map[];
    if abort.Some? {
      return Schedule(abort, [], []), parents;
    }
    var open := GetOpenTasks(inv);
    var g;
    g, parents := Parse(open);
    var run := Roots(g);
    s := Schedule(None, [], run);
  }

  method PrewarmAllPolicy(inv: Invocation) returns (s: Schedule, ghost parents: map<Id, Id>)
    requires NoSelfDependency(OpenDeps(inv))
    ensures s.abort.Some? <==> HasFailed(inv)
    ensures s.abort.Some? ==> s.run == [] && s.prepare == [] && ExplainsFailure(inv, s.abort.value)
    ensures s.abort.None? ==>
      Chooses(OpenDeps(inv), parents) && forall id :: id in s.run <==> id in HorizonWith(inv, parents)
    ensures Distinct(s.run) && Distinct(s.prepare)
    ensures s.abort.None? ==> forall id :: id in OpenDeps(inv) <==> id in s.run || id in s.prepare
    ensures forall id :: !(id in s.run && id in s.prepare)
  {
    var abort := FindFailure(inv);
    parents := map[];
    if abort.Some? {
      return Schedule(abort, [], []), parents;
    }
    var open := GetOpenTasks(inv);
    var g;
    g, parents := Parse(open);
    var horizon := Roots(g);
    var rest := RemoveAll(open, horizon);
    var prepare := Keys(rest);
    s := Schedule(None, prepare, horizon);
  }

  method PrewarmHorizonPolicy(inv: Invocation)
    returns (s: Schedule, ghost parents: map<Id, Id>, ghost later: map<Id, Id>)
    requires NoSelfDependency(OpenDeps(inv))
    ensures s.abort.Some? <==> HasFailed(inv)
    ensures s.abort.Some? ==> s.run == [] && s.prepare == [] && ExplainsFailure(inv, s.abort.value)
    ensures s.abort.None? ==>
      Chooses(OpenDeps(inv), parents) && forall id :: id in s.run <==> id in HorizonWith(inv, parents)
    ensures Distinct(s.run) && Distinct(s.prepare)
    ensures forall id :: !(id in s.run && id in s.prepare)
    ensures s.abort.None? ==>
      var rest := OpenBeyond(inv, HorizonWith(inv, parents));
      Chooses(rest, later) && forall id :: id in s.prepare <==> id in RootSet(GraphWith(rest, later))
    ensures s.abort.None? && SingleParent(OpenDeps(inv)) ==> forall id :: id in s.prepare <==> id in SecondLayer(inv)
  {
    var abort := FindFailure(inv);
    parents, later := map[], map[];
    if abort.Some? {
      return Schedule(abort, [], []), parents, later;
    }
    var open := GetOpenTasks(inv);
    var g, prewarmGraph;
    g, parents := Parse(open);
    var horizon := Roots(g);
    var rest := RemoveAll(open, horizon);
    prewarmGraph, later := Parse(rest);
    var prewarmHorizon := Roots(prewarmGraph);
    assert (set id | id in horizon) == HorizonWith(inv, parents);
    if SingleParent(open) {
      ChoiceBounds(open, parents);
      LayerAfterIsRoots(open, Horizon(inv));
      ChoiceBounds(rest, later);
    }
    s := Schedule(None, prewarmHorizon, horizon);
  }

  /** Deletes the scheduled tasks from the open tasks. */
  method RemoveAll(open: Deps, ids: seq<Id>) returns (rest: Deps)
    ensures rest == Restrict(open, open.Keys - set id | id in ids)
  {
    rest := open;
    for i := 0 to |ids|
      invariant rest == map id | id in open && id !in ids[..i] :: open[id]
    {
      rest := rest - {ids[i]};
    }
    assert ids[..|ids|] == ids;
  }

  method Keys(deps: Deps) returns (ids: seq<Id>)
    ensures Distinct(ids) && forall id :: id in ids <==> id in deps
  {
    ids := [];
    var todo := deps.Keys;
    while todo != {}
      invariant todo <= deps.Keys && Distinct(ids)
      invariant forall id :: id in ids <==> id in deps && id !in todo
      decreases todo
    {
      var id :| id in todo;
      ids := ids + [id];
      todo := todo - {id};
    }
  }

  /** Without failures the three policies run the same tasks, and what PrewarmHorizon prepares is part of what
      PrewarmAll prepares: an open task outside the horizon. */
  lemma PoliciesAgree(inv: Invocation)
    ensures SecondLayer(inv) <= OpenDeps(inv).Keys - Horizon(inv)
    ensures Horizon(inv) <= OpenDeps(inv).Keys
    ensures Acyclic(GraphOf(OpenDeps(inv))) && OpenDeps(inv).Keys != {} ==> Horizon(inv) != {}
    ensures Acyclic(GraphOf(OpenDeps(inv))) && OpenDeps(inv).Keys != Horizon(inv) ==> SecondLayer(inv) != {}
  {
    var open := OpenDeps(inv);
    RestrictInduces(open, {});
    if Acyclic(GraphOf(open)) {
      if open.Keys != {} { RootExists(GraphOf(open)); }
      if open.Keys != Horizon(inv) {
        var rest := Restrict(open, open.Keys - Horizon(inv));
        LayerAfterIsRoots(open, Horizon(inv));
        RestrictInduces(open, open.Keys - Horizon(inv));
        InducedAcyclic(GraphOf(open), open.Keys - Horizon(inv));
        RootExists(GraphOf(rest));
      }
    }
  }
}
