/**
 What a refresh of the cache that writes late does to the order of tasks. A refresh that writes before more events are
 delivered than it read leaves every evaluation safe; otherwise the controller may evaluate a snapshot with a gap, and
 run a task before the dynamic child that it has to wait for.
 */
module LateRefresh {
  import opened Types
  import opened Projection
  import Cache
  import opened Graph
  import opened Scheduler
  import opened ControlFlow
  import opened Controller
  import opened Engine
  import opened Completion
  import opened Grandchild

  // ---------- In time ----------

  /** A cached snapshot of the stream of an invocation may be evaluated. */
  lemma CachedMayBeEvaluated(sys: Cache.System, key: Aggregate)
    requires Cache.StreamInv(sys, key) && key in sys.contents
    ensures IsCached(sys.contents[key], key, Cache.Stream(sys.log, key))
  {
    var d: nat := Cache.Delivered(sys, key);
    assert Cache.HasSnapshot(sys.contents[key], key, Cache.Stream(sys.log, key), d);
  }

  /** `inv` is in the cache when, after a refresh that read m events, further steps have led to this stream. */
  predicate CachedAfter(
    inv: Invocation, key: Aggregate, log: seq<Event>, sys: Cache.System, m: nat, now: nat, steps: seq<Cache.Step>)
    requires m <= |Cache.Stream(sys.log, key)|
  {
    var later := Cache.Run(Cache.LateRefreshed(sys, key, m, now), steps);
    Cache.Stream(later.log, key) == log && key in later.contents && later.contents[key] == inv
  }

  /** Dependency safety of an engine whose cache was refreshed in time, at any later moment. */
  lemma SafeIfInTime(
    key: Aggregate, wf: Workflow, s: State, actions: seq<Action>, sys: Cache.System, m: nat, now: nat,
    steps: seq<Cache.Step>, e: Evaluation, n: Id, p: Id)
    requires IsInitial(key, wf, s) && ValidWorkflow(wf) && IsRun(key, s, actions)
    requires IsEvaluation(key.id, After(key, s, actions).phase.Keys, e)
    requires RunTask(n) in e.submitted && p in e.inv.Tasks()[n].spec.requirements
    requires Cache.Inv(sys) && 0 < m <= |Cache.Stream(sys.log, key)| && Cache.Delivered(sys, key) <= m
    requires CachedAfter(e.inv, key, After(key, s, actions).log, sys, m, now, steps)
    ensures var log := After(key, s, actions).log;
      SucceededIn(log, p) && (p in After(key, s, actions).flowed && n != ChildId(p) ==> SucceededIn(log, ChildId(p)))
  {
    hide IsEvaluation, IsRun, After, Cache.Run, Cache.Inv, Cache.StreamInv, Cache.LateRefreshed;
    Cache.RefreshInTime(sys, key, m, now, steps, key);
    CachedMayBeEvaluated(Cache.Run(Cache.LateRefreshed(sys, key, m, now), steps), key);
    DependencySafety(key, wf, s, actions, e, n, p);
  }

  // ---------- What a late refresh can lose ----------

  /** What is left of the log when a refresh that read m events is written after g were delivered, and then the
      deliveries go on up to k. */
  function Kept(log: seq<Event>, m: nat, g: nat, k: nat): seq<Event>
    requires m <= g <= k <= |log|
  {
    log[..m] + log[g..k]
  }

  /** Applying the deliveries to what the refresh wrote gives the fold of the kept events. */
  lemma KeptIsFold(key: Aggregate, log: seq<Event>, m: nat, g: nat, k: nat, now: nat)
    requires key.kind == InvocationType && AllAccepted(key, log) && m <= g <= k <= |log|
    ensures var read := Replay(EmptyInvocation(key.id, now), log[..m], now);
      read.Ok? && var inv := Replay(read.value, log[g..k], now); inv.Ok? && Cache.IsFold(inv.value, key, Kept(log, m, g, k))
  {
    Cache.ReplayIsFold(key, Kept(log, m, g, k), now);
    Cache.ReplayIsFold(key, log[..m], now);
    ReplayConcat(EmptyInvocation(key.id, now), log[..m], log[g..k], now);
  }

  lemma {:induction false} ReplayConcat(base: Invocation, a: seq<Event>, b: seq<Event>, now: nat)
    requires Replay(base, a + b, now).Ok?
    ensures Replay(base, a, now).Ok? && Replay(Replay(base, a, now).value, b, now) == Replay(base, a + b, now)
  {
    if b == [] {
      assert a + b == a;
    } else {
      assert (a + b)[..|a + b| - 1] == a + b[..|b| - 1];
      ReplayConcat(base, a, b[..|b| - 1], now);
    }
  }

  lemma KeptIsLog(key: Aggregate, wf: Workflow, log: seq<Event>, m: nat, g: nat, k: nat)
    requires LogShape(key, wf, log) && 0 < m <= g <= k <= |log|
    ensures LogShape(key, wf, Kept(log, m, g, k))
    ensures forall q | 0 <= q < |Kept(log, m, g, k)| :: Kept(log, m, g, k)[q] == log[LogIndex(g, m, q)]
    ensures NotCreatedSince(Kept(log, m, g, k), 1)
  {
  }

  lemma KeptSuccess(key: Aggregate, wf: Workflow, s: State, inv: Invocation, m: nat, g: nat, k: nat, id: Id) returns (q: nat)
    requires Inv(key, wf, s) && 0 < m <= g <= k <= |s.log| && Cache.IsFold(inv, key, Kept(s.log, m, g, k))
    requires id in inv.tasks && !HasFailed(inv)
    ensures SucceededIn(s.log, id)
    ensures q < |Kept(s.log, m, g, k)| && IsRunEvent(s.log[LogIndex(g, m, q)]) && s.log[LogIndex(g, m, q)].aggregate.id == id
  {
    var kept := Kept(s.log, m, g, k);
    var n := |kept|;
    KeptIsLog(key, wf, s.log, m, g, k);
    FoldIsCached(inv, key, kept);
    q := RunShows(key, wf, kept, inv, n, n, n, id);
    assert kept[..n] + kept[n..n] == kept;
    assert SucceededIn(kept, id);
  }

  /** A dynamic task that shows is the child of a task that flowed. */
  lemma KeptParent(key: Aggregate, wf: Workflow, s: State, inv: Invocation, m: nat, g: nat, k: nat, id: Id)
    returns (t: Id)
    requires Inv(key, wf, s) && 0 < m <= g <= k <= |s.log| && Cache.IsFold(inv, key, Kept(s.log, m, g, k))
    requires id in inv.dynamicTasks
    ensures t in s.flowed && t in s.phase && IsChildTask(inv.dynamicTasks[id], t) && inv.dynamicTasks[id].id == id
  {
    var kept := Kept(s.log, m, g, k);
    var n := |kept|;
    KeptIsLog(key, wf, s.log, m, g, k);
    FoldIsCached(inv, key, kept);
    var q := DynamicShows(key, wf, kept, inv, n, n, n, id);
    assert kept[..n] + kept[n..n] == kept;
    var i := LogIndex(g, m, q);
    assert s.log[i] == kept[q] && ParentKnown(wf, s, i);
    t :| t in s.flowed && IsChildTask(s.log[i].data.task, t);
  }

  /** The child of a task whose result shows also shows, unless it was lost. */
  lemma KeptChild(key: Aggregate, wf: Workflow, s: State, inv: Invocation, m: nat, g: nat, k: nat, p: Id, q: nat)
    requires Inv(key, wf, s) && 0 < m <= g <= k <= |s.log| && Cache.IsFold(inv, key, Kept(s.log, m, g, k))
    requires q < |Kept(s.log, m, g, k)| && p in s.flowed
    requires IsRunEvent(s.log[LogIndex(g, m, q)]) && s.log[LogIndex(g, m, q)].aggregate.id == p
    ensures ChildId(p) in inv.dynamicTasks || AddedIn(s.log[m..g], ChildId(p))
  {
    hide ChildId, Cache.IsFold, LogShape;
    var i, c := LogIndex(g, m, q), ChildId(p);
    assert ChildBefore(s, i);
    var a :| 0 <= a < |s.log[..i]| && s.log[..i][a].data.InvocationTaskAdded? && s.log[..i][a].data.task.id == c;
    assert s.log[a] == s.log[..i][a];
    if m <= a < g {
      assert s.log[m..g][a - m] == s.log[a];
    } else {
      KeptAddition(key, wf, s.log, inv, m, g, k, a);
    }
  }

  /** An addition that was kept shows. */
  lemma KeptAddition(key: Aggregate, wf: Workflow, log: seq<Event>, inv: Invocation, m: nat, g: nat, k: nat, a: nat)
    requires LogShape(key, wf, log) && 0 < m <= g <= k <= |log| && Cache.IsFold(inv, key, Kept(log, m, g, k))
    requires (a < m || g <= a < k) && log[a].data.InvocationTaskAdded?
    ensures log[a].data.task.id in inv.dynamicTasks
  {
    var kept, r := Kept(log, m, g, k), if a < m then a else m + (a - g);
    var n := |kept|;
    KeptIsLog(key, wf, log, m, g, k);
    FoldIsCached(inv, key, kept);
    hide Cache.IsFold, LogShape, IsCached;
    assert kept[r] == log[a] && kept[..n] + kept[n..n] == kept && r > 0;
    AddedShows(key, wf, kept, inv, n, n, n, r);
  }

  /** A task on the horizon requires only tasks that have a result. */
  lemma KeptRequired(key: Aggregate, wf: Workflow, s: State, inv: Invocation, parents: map<Id, Id>, m: nat, g: nat, k: nat,
                     n: Id, p: Id)
    requires ValidWorkflow(wf) && Inv(key, wf, s) && inv.spec.workflow == Some(wf)
    requires 0 < m <= g <= k <= |s.log| && Cache.IsFold(inv, key, Kept(s.log, m, g, k))
    requires Started(inv, s.phase.Keys) && n in HorizonWith(inv, parents) && p in inv.Tasks()[n].spec.requirements
    ensures p in inv.tasks
  {
    if n in inv.dynamicTasks {
      var t := KeptParent(key, wf, s, inv, m, g, k, n);
    } else {
      EdgeWith(OpenDeps(inv), parents, p, n);
      assert p in inv.Tasks();
    }
  }

  lemma ChildHoldsUp(inv: Invocation, parents: map<Id, Id>, n: Id, p: Id, c: Id)
    requires Chooses(OpenDeps(inv), parents) && n in HorizonWith(inv, parents) && p in inv.Tasks()[n].spec.requirements
    requires c in inv.Tasks() && inv.Tasks()[c].spec.requirements == map[p := DynamicOutput] && c != n
    ensures c in inv.tasks
  {
    var open := OpenDeps(inv);
    EdgeWith(open, parents, c, n);
    assert c in open ==> IsParent(open, p, c);
  }

  lemma KeptIsSafe(key: Aggregate, wf: Workflow, s: State, inv: Invocation, parents: map<Id, Id>, m: nat, g: nat, k: nat,
                   n: Id, p: Id)
    requires ValidWorkflow(wf) && Inv(key, wf, s) && inv.spec.workflow == Some(wf)
    requires 0 < m <= g <= k <= |s.log| && Cache.IsFold(inv, key, Kept(s.log, m, g, k))
    requires Started(inv, s.phase.Keys) && !HasFailed(inv) && Chooses(OpenDeps(inv), parents)
    requires n in HorizonWith(inv, parents) && p in inv.Tasks()[n].spec.requirements
    ensures SucceededIn(s.log, p)
    ensures p in s.flowed && n != ChildId(p) ==> SucceededIn(s.log, ChildId(p)) || AddedIn(s.log[m..g], ChildId(p))
  {
    var c := ChildId(p);
    KeptRequired(key, wf, s, inv, parents, m, g, k, n, p);
    var q := KeptSuccess(key, wf, s, inv, m, g, k, p);
    if p in s.flowed && n != c {
      KeptChild(key, wf, s, inv, m, g, k, p, q);
      if c in inv.dynamicTasks {
        var t := KeptParent(key, wf, s, inv, m, g, k, c);
        ChildIdInjective(t, p);
        ChildHoldsUp(inv, parents, n, p, c);
        var r := KeptSuccess(key, wf, s, inv, m, g, k, c);
      }
    }
  }

  /** However late a refresh is written, in every run a task is submitted only after what it requires; and it can be
      submitted before the dynamic child of what it requires only if the addition of that child is among the events that
      the refresh lost. */
  lemma UnsafeOnlyIfLost(
    key: Aggregate, wf: Workflow, s: State, actions: seq<Action>, e: Evaluation, m: nat, g: nat, k: nat, n: Id, p: Id)
    requires IsInitial(key, wf, s) && ValidWorkflow(wf) && IsRun(key, s, actions)
    requires 0 < m <= g <= k <= |After(key, s, actions).log|
    requires Cache.IsFold(e.inv, key, Kept(After(key, s, actions).log, m, g, k))
    requires IsEvaluation(key.id, After(key, s, actions).phase.Keys, e)
    requires RunTask(n) in e.submitted && p in e.inv.Tasks()[n].spec.requirements
    ensures var now := After(key, s, actions);
      && SucceededIn(now.log, p)
      && (p in now.flowed && n != ChildId(p) ==>
            SucceededIn(now.log, ChildId(p)) || AddedIn(now.log[m..g], ChildId(p)))
  {
    var now := After(key, s, actions);
    RunKeepsInv(key, wf, s, actions);
    var parents := SubmittedIsOnHorizon(key.id, now.phase.Keys, e, n);
    KeptSpec(key, wf, now.log, e.inv, m, g, k);
    hide IsRun, After, IsEvaluation, Inv, Cache.IsFold, IsInitial;
    KeptIsSafe(key, wf, now, e.inv, parents, m, g, k, n, p);
  }

  lemma KeptSpec(key: Aggregate, wf: Workflow, log: seq<Event>, inv: Invocation, m: nat, g: nat, k: nat)
    requires LogShape(key, wf, log) && 0 < m <= g <= k <= |log| && Cache.IsFold(inv, key, Kept(log, m, g, k))
    requires inv.spec.workflow.Some?
    ensures inv.spec.workflow == Some(wf)
  {
    KeptIsLog(key, wf, log, m, g, k);
    FoldIsCached(inv, key, Kept(log, m, g, k));
    SpecShows(key, wf, Kept(log, m, g, k), inv);
  }

  // ---------- Too late ----------

  lemma LoneGraph(p: Id, n: Id)
    requires p != n
    ensures var open: Deps := map[n := map[p := NilParams]];
      Chooses(open, map[]) && SingleParent(open) && forall id :: id in [n] <==> id in RootSet(GraphOf(open))
  {
    var open: Deps := map[n := map[p := NilParams]];
    forall id ensures id in [n] <==> id in RootSet(GraphOf(open)) {
      RootIff(open, id);
      assert open[n].Keys == {p} && p !in open;
    }
  }

  lemma LoneOpen(key: Aggregate, inv: Invocation)
    requires Shows(inv, key, {P}, map[])
    ensures OpenDeps(inv) == map[N := map[P := NilParams]]
  {
    Names();
  }

  /** Without its child in sight, P looks done and N is submitted. */
  lemma ChildOverlooked(key: Aggregate, inv: Invocation)
    requires Shows(inv, key, {P}, map[])
    ensures IsEvaluation(key.id, {P}, Everything(inv, [N])) && RunTask(N) in Everything(inv, [N]).submitted
    ensures N in inv.Tasks() && P in inv.Tasks()[N].spec.requirements
  {
    Names();
    LoneOpen(key, inv);
    LoneGraph(P, N);
    EvaluatesTo(key, inv, {P}, map[], [N], map[]);
    RunsAre([N]);
  }

  /** The creation and the child of P are appended and delivered. */
  function Before(key: Aggregate): Cache.System {
    Cache.Run(Cache.INITIAL,
              [Cache.Append(Created(key)), Cache.Append(Added(key, P)), Cache.Deliver(0), Cache.Deliver(0)])
  }

  /** After a refresh that read only the creation, the success of P is appended and delivered. */
  function Steps(key: Aggregate): seq<Cache.Step> {
    [Cache.Append(Done(key, P)), Cache.Deliver(0)]
  }

  lemma RefreshedShows(key: Aggregate) returns (sys: Cache.System, inv: Invocation)
    requires key.kind == InvocationType && key.id != ""
    ensures Cache.Stream(Before(key).log, key) == [Created(key), Added(key, P)] && Before(key).pending == []
    ensures sys == Cache.LateRefreshed(Before(key), key, 1, 0)
    ensures sys.pending == [] && Cache.Stream(sys.log, key) == [Created(key), Added(key, P)]
    ensures key in sys.contents && sys.contents[key] == inv
    ensures Cache.IsFold(inv, key, [Created(key)]) && Shows(inv, key, {}, map[])
  {
    inv := ShowsCreated(key);
    Cache.TwoDelivered(Created(key), Added(key, P), 0);
    assert [Created(key), Added(key, P)][..1] == [Created(key)] && [Created(key)][..0] == [];
    assert Replay(EmptyInvocation(key.id, 0), [Created(key)], 0) == Ok(inv);
    sys := Cache.LateRefreshed(Before(key), key, 1, 0);
  }

  lemma DeliveredShows(key: Aggregate) returns (inv: Invocation)
    requires key.kind == InvocationType && key.id != ""
    ensures 1 <= |Cache.Stream(Before(key).log, key)| && Cache.Delivered(Before(key), key) > 1
    ensures CachedAfter(inv, key, [Created(key), Added(key, P), Done(key, P)], Before(key), 1, 0, Steps(key))
    ensures Shows(inv, key, {P}, map[])
  {
    var sys, before := RefreshedShows(key);
    inv := ShowsSucceeded(before, key, [Created(key)], {}, map[], P);
    hide Before, Shows, Cache.IsFold;
    var append := Cache.Append(Done(key, P));
    Cache.RunOneMore(sys, [], append);
    assert [] + [append] == [append];
    Cache.RunOneMore(sys, [append], Cache.Deliver(0));
    assert [append] + [Cache.Deliver(0)] == Steps(key);
    Cache.AppendEffect(sys, Done(key, P));
    assert {} + {P} == {P};
  }

  /** There is a run in which, after a refresh that wrote when more events were delivered than it had read, N is
      submitted although the child that the required P returned has been added and has not succeeded. */
  lemma TooLateIsUnsafe(key: Aggregate) returns (start: State, actions: seq<Action>, e: Evaluation)
    requires key.kind == InvocationType && key.id != ""
    ensures IsInitial(key, WF, start) && ValidWorkflow(WF) && IsRun(key, start, actions)
    ensures 1 <= |Cache.Stream(Before(key).log, key)| && Cache.Delivered(Before(key), key) > 1
    ensures CachedAfter(e.inv, key, After(key, start, actions).log, Before(key), 1, 0, Steps(key))
    ensures IsEvaluation(key.id, After(key, start, actions).phase.Keys, e) && RunTask(N) in e.submitted
    ensures N in e.inv.Tasks() && P in e.inv.Tasks()[N].spec.requirements && N != ChildId(P)
    ensures P in After(key, start, actions).flowed && !SucceededIn(After(key, start, actions).log, ChildId(P))
  {
    hide Before, CachedAfter, IsRun, IsEvaluation, Cache.IsFold, KeepsFlows, Shows;
    Names();
    var now, inv1;
    start, actions, now, inv1 := FirstPart(key);
    var inv := DeliveredShows(key);
    ChildOverlooked(key, inv);
    e := Everything(inv, [N]);
    assert now.log == [Created(key), Added(key, P), Done(key, P)];
    NotYet(key, start, actions, now);
  }

  lemma NotYet(key: Aggregate, start: State, actions: seq<Action>, now: State)
    requires key.kind == InvocationType && IsInitial(key, WF, start) && IsRun(key, start, actions)
    requires After(key, start, actions) == now && now.log == [Created(key)] + [Added(key, P)] + [Done(key, P)]
    ensures P in now.flowed && !SucceededIn(now.log, C)
  {
    hide IsRun, After, IsInitial, Inv;
    RunKeepsInv(key, WF, start, actions);
    FlowedIffAdded(key, WF, now, P);
    AddedNotSucceeded(key, now.log);
  }

  lemma AddedNotSucceeded(key: Aggregate, log: seq<Event>)
    requires key.kind == InvocationType && log == [Created(key)] + [Added(key, P)] + [Done(key, P)]
    ensures AddedIn(log, C) && !SucceededIn(log, C)
  {
    Names();
    assert log[1] == Added(key, P);
  }
}
