/**
 The rounds of `Progress` are what happens in runs of the engine: when nothing is running, the fold of the log is
 evaluated and the accepted tasks come back with a result, the new fold is one round further.
 */
module Rounds {
  import opened Types
  import opened Projection
  import Cache
  import opened Graph
  import opened Scheduler
  import opened ControlFlow
  import opened Controller
  import opened Engine
  import opened Completion
  import Progress

  // ---------- Every recorded task has an event ----------

  ghost predicate HasEvents(s: State) {
    forall t | t in s.phase && s.phase[t] == Recorded :: RecordedIn(s.log, t)
  }

  lemma RecordedGrowsOn(log: seq<Event>, e: Event, t: Id)
    ensures RecordedIn(log, t) ==> RecordedIn(log + [e], t)
    ensures IsRunEvent(e) ==> RecordedIn(log + [e], e.aggregate.id)
  {
    if RecordedIn(log, t) {
      var i :| 0 <= i < |log| && IsRunEvent(log[i]) && log[i].aggregate.id == t;
      assert (log + [e])[i] == log[i];
    }
    assert (log + [e])[|log|] == e;
  }

  lemma ApplyKeepsEvents(key: Aggregate, s: State, a: Action)
    requires HasEvents(s) && Enabled(key, s, a)
    ensures HasEvents(Apply(key, s, a))
  {
    var s' := Apply(key, s, a);
    if !a.Evaluate? {
      var e := s'.log[|s.log|];
      assert s'.log == s.log + [e];
      forall t | t in s'.phase && s'.phase[t] == Recorded ensures RecordedIn(s'.log, t) {
        RecordedGrowsOn(s.log, e, t);
      }
    }
  }

  lemma {:induction false} RunKeepsEvents(key: Aggregate, wf: Workflow, s: State, actions: seq<Action>)
    requires IsInitial(key, wf, s) && IsRun(key, s, actions)
    ensures HasEvents(After(key, s, actions))
  {
    if actions != [] {
      var before := actions[..|actions| - 1];
      RunKeepsEvents(key, wf, s, before);
      ApplyKeepsEvents(key, After(key, s, before), actions[|actions| - 1]);
    }
  }

  // ---------- The fold of the log when nothing is running ----------

  ghost predicate Quiet(s: State) {
    forall t | t in s.phase :: s.phase[t] == Recorded
  }

  ghost predicate NoFailures(log: seq<Event>) {
    forall i | 0 <= i < |log| :: !log[i].data.TaskRunFailed?
  }

  /** A recorded task shows in the fold of the whole log. */
  lemma FoldShowsRecorded(key: Aggregate, wf: Workflow, inv: Invocation, log: seq<Event>, t: Id)
    requires LogShape(key, wf, log) && Cache.IsFold(inv, key, log) && RecordedIn(log, t)
    ensures t in inv.tasks
  {
    var i :| 0 <= i < |log| && IsRunEvent(log[i]) && log[i].aggregate.id == t;
    var f := RunField(t, Presence);
    assert Accepted(key, log[i]) && Accepted(key, log[0]);
    WrittenOnce(log, f, i);
    var q := LastWriter(log, f);
    assert q >= i;
    assert Accepted(key, log[q]);
    assert Read(inv, f) == PresenceValue(true);
  }

  lemma FoldShowsSpec(key: Aggregate, wf: Workflow, inv: Invocation, log: seq<Event>)
    requires LogShape(key, wf, log) && Cache.IsFold(inv, key, log)
    ensures inv.spec.workflow == Some(wf)
  {
    assert Accepted(key, log[0]);
    WrittenOnce(log, SpecField, 0);
    var q := LastWriter(log, SpecField);
    assert Read(inv, SpecField) == SpecValue(inv.spec);
  }

  /** The fold shows exactly the started tasks, all of them succeeded. */
  lemma QuietTasks(key: Aggregate, wf: Workflow, s: State, inv: Invocation)
    requires Inv(key, wf, s) && HasEvents(s) && Quiet(s) && NoFailures(s.log) && Cache.IsFold(inv, key, s.log)
    ensures inv.tasks.Keys == s.phase.Keys && Progress.NoneFailed(inv) && Started(inv, s.phase.Keys)
  {
    FoldIsCached(inv, key, s.log);
    var n := |s.log|;
    forall t | t in s.phase ensures t in inv.tasks { FoldShowsRecorded(key, wf, inv, s.log, t); }
    forall t | t in inv.tasks ensures t in s.phase && inv.tasks[t].status == TaskSucceeded {
      var q := RunShows(key, wf, s.log, inv, n, n, n, t);
      assert RecordedAt(s, LogIndex(n, n, q));
      SucceededStatus(key, wf, s.log, inv, t);
    }
  }

  lemma SucceededStatus(key: Aggregate, wf: Workflow, log: seq<Event>, inv: Invocation, t: Id)
    requires LogShape(key, wf, log) && Cache.IsFold(inv, key, log) && NoFailures(log) && t in inv.tasks
    ensures inv.tasks[t].status == TaskSucceeded
  {
    FoldIsCached(inv, key, log);
    var n := |log|;
    var q := RunShows(key, wf, log, inv, n, n, n, t);
    var f := RunField(t, StatusPart);
    assert log[..n] + log[n..n] == log;
    assert Accepted(key, log[LogIndex(n, n, q)]);
    WrittenOnce(log, f, LogIndex(n, n, q));
    var w := LastWriter(log, f);
    assert Accepted(key, log[w]);
    assert Read(inv, f) == RunStatusValue(inv.tasks[t].status);
  }

  /** The fold shows exactly the children of the tasks that flowed. */
  lemma QuietChildren(key: Aggregate, wf: Workflow, s: State, inv: Invocation)
    requires Inv(key, wf, s) && Cache.IsFold(inv, key, s.log) && Started(inv, s.phase.Keys)
    requires inv.spec.workflow == Some(wf)
    ensures inv.dynamicTasks.Keys == Progress.Children(s.flowed)
    ensures forall t | t in s.flowed :: inv.dynamicTasks[ChildId(t)].spec.requirements == map[t := DynamicOutput]
  {
    FoldIsCached(inv, key, s.log);
    forall id | id in inv.dynamicTasks ensures id in Progress.Children(s.flowed) {
      var parent := ParentShows(key, wf, s, inv, id);
    }
    forall t | t in s.flowed
      ensures ChildId(t) in inv.dynamicTasks
      ensures inv.dynamicTasks[ChildId(t)].spec.requirements == map[t := DynamicOutput]
    {
      ChildShows(key, wf, s, inv, t);
    }
  }

  // ---------- Work ----------

  predicate IsWork(actions: seq<Action>) {
    forall i | 0 <= i < |actions| :: actions[i].AddDynamic? || actions[i].Succeed?
  }

  /** Work changes only the tasks that are running. */
  lemma {:induction false} WorkKeeps(key: Aggregate, s: State, work: seq<Action>)
    requires IsRun(key, s, work) && IsWork(work)
    ensures var s' := After(key, s, work);
      && s'.phase.Keys == s.phase.Keys
      && s.flowed <= s'.flowed
      && (forall t | t in s'.flowed && t !in s.flowed :: t in s.phase && s.phase[t] == Running)
      && (forall t | t in s.phase && s.phase[t] == Recorded :: s'.phase[t] == Recorded)
      && (forall t | t in s.phase && s'.phase[t] == Running :: s.phase[t] == Running)
  {
    if work != [] {
      WorkKeeps(key, s, work[..|work| - 1]);
    }
  }

  lemma {:induction false} RunConcat(key: Aggregate, s: State, a: seq<Action>, b: seq<Action>)
    requires IsRun(key, s, a + b)
    ensures IsRun(key, s, a) && IsRun(key, After(key, s, a), b)
    ensures After(key, s, a + b) == After(key, After(key, s, a), b)
  {
    if b == [] {
      assert a + b == a;
    } else {
      assert (a + b)[..|a + b| - 1] == a + b[..|b| - 1];
      RunConcat(key, s, a, b[..|b| - 1]);
    }
  }

  // ---------- One round ----------

  /** The tasks of a fold and their requirements. */
  ghost predicate FoldTasks(wf: Workflow, inv: Invocation, flowed: set<Id>) {
    && inv.spec.workflow == Some(wf)
    && inv.dynamicTasks.Keys == Progress.Children(flowed)
    && forall t | t in flowed :: inv.dynamicTasks[ChildId(t)].spec.requirements == map[t := DynamicOutput]
  }

  lemma FoldBoard(wf: Workflow, inv: Invocation, flowed: set<Id>, id: Id)
    requires FoldTasks(wf, inv, flowed)
    ensures var deps := Progress.BoardOf(inv).deps;
      && (id in deps <==> id in wf.tasks || id in Progress.Children(flowed))
      && (id in wf.tasks && id !in Progress.Children(flowed) ==> deps[id] == wf.tasks[id].spec.requirements)
      && (id in flowed ==> ChildId(id) in deps && deps[ChildId(id)] == map[id := DynamicOutput])
  {
    assert id in flowed ==> ChildId(id) in inv.dynamicTasks;
  }

  lemma FoldsExtend(wf: Workflow, inv: Invocation, inv': Invocation, flowed: set<Id>, flowed': set<Id>)
    requires FoldTasks(wf, inv, flowed) && FoldTasks(wf, inv', flowed') && flowed <= flowed'
    ensures Progress.Extends(Progress.BoardOf(inv).deps, flowed' - flowed, Progress.BoardOf(inv').deps)
  {
    hide Progress.BoardOf, FoldTasks;
    var deps, deps' := Progress.BoardOf(inv).deps, Progress.BoardOf(inv').deps;
    var flows := flowed' - flowed;
    assert Progress.Children(flowed') == Progress.Children(flowed) + Progress.Children(flows);
    forall id ensures id in deps' <==> id in deps || id in Progress.Children(flows) {
      FoldBoard(wf, inv, flowed, id);
      FoldBoard(wf, inv', flowed', id);
    }
    forall id | id in deps && id !in Progress.Children(flows) ensures deps'[id] == deps[id] {
      FoldBoard(wf, inv, flowed, id);
      FoldBoard(wf, inv', flowed', id);
      if id in Progress.Children(flowed) {
        var t :| t in flowed && id == ChildId(t);
        FoldBoard(wf, inv, flowed, t);
        FoldBoard(wf, inv', flowed', t);
      }
    }
    forall t | t in flows ensures deps'[ChildId(t)] == map[t := DynamicOutput] { FoldBoard(wf, inv', flowed', t); }
  }

  lemma FoldsAreRound(wf: Workflow, inv: Invocation, inv': Invocation, parents: map<Id, Id>, accepted: seq<Id>,
                      flowed: set<Id>, flowed': set<Id>)
    requires FoldTasks(wf, inv, flowed) && FoldTasks(wf, inv', flowed') && flowed <= flowed'
    requires Progress.NoneFailed(inv) && Progress.NoneFailed(inv')
    requires Chooses(OpenDeps(inv), parents) && forall id | id in accepted :: id in HorizonWith(inv, parents)
    requires Horizon(inv) != {} ==> accepted != []
    requires inv'.tasks.Keys == inv.tasks.Keys + set id | id in accepted
    requires forall t | t in flowed' && t !in flowed :: t in accepted
    ensures Progress.Round(wf, inv, parents, (set id | id in accepted), flowed' - flowed, inv')
  {
    FoldsExtend(wf, inv, inv', flowed, flowed');
    hide Progress.Extends, Progress.BoardOf, Horizon, HorizonWith, OpenDeps, Progress.NoneFailed, Chooses;
    if Horizon(inv) != {} { assert accepted[0] in accepted; }
  }

  /** What an evaluation accepts is on the horizon, for one choice among several dynamic parents. */
  lemma AcceptedOnHorizon(key: Aggregate, s: State, e: Evaluation) returns (parents: map<Id, Id>)
    requires IsEvaluation(key.id, s.phase.Keys, e)
    ensures Chooses(OpenDeps(e.inv), parents) && forall id | id in e.accepted :: id in HorizonWith(e.inv, parents)
  {
    if e.accepted == [] {
      parents := ChoiceExists(OpenDeps(e.inv));
    } else {
      assert RunTask(e.accepted[0]) in e.submitted;
      assert Decide(key.id, s.phase.Keys, 0, e.inv, e.groupTasks, e.now).Proceed? && !HasFailed(e.inv);
      var later;
      parents, later :| Plans(e.policy, e.inv, e.submitted, parents, later);
      forall id | id in e.accepted ensures id in HorizonWith(e.inv, parents) { assert RunTask(id) in e.submitted; }
    }
  }

  lemma QuietFold(key: Aggregate, wf: Workflow, s0: State, actions: seq<Action>, inv: Invocation)
    requires IsInitial(key, wf, s0) && IsRun(key, s0, actions)
    requires var s := After(key, s0, actions); Quiet(s) && NoFailures(s.log) && Cache.IsFold(inv, key, s.log)
    ensures var s := After(key, s0, actions);
      FoldTasks(wf, inv, s.flowed) && inv.tasks.Keys == s.phase.Keys && Progress.NoneFailed(inv)
  {
    var s := After(key, s0, actions);
    RunKeepsInv(key, wf, s0, actions);
    RunKeepsEvents(key, wf, s0, actions);
    QuietTasks(key, wf, s, inv);
    FoldShowsSpec(key, wf, inv, s.log);
    QuietChildren(key, wf, s, inv);
  }

  /** Evaluating the fold of the whole log when nothing is running, and then adding children and recording successes
      until nothing is running again, is a round. */
  lemma RoundOfRun(key: Aggregate, wf: Workflow, s0: State, before: seq<Action>, e: Evaluation, work: seq<Action>,
                   inv': Invocation)
    returns (parents: map<Id, Id>)
    requires IsInitial(key, wf, s0)
    requires IsRun(key, s0, before + [Evaluate(e)] + work) && IsWork(work)
    requires var s, s' := After(key, s0, before), After(key, s0, before + [Evaluate(e)] + work);
      && Quiet(s) && Quiet(s') && NoFailures(s'.log) && NoFailures(s.log)
      && Cache.IsFold(e.inv, key, s.log) && Cache.IsFold(inv', key, s'.log)
    requires Horizon(e.inv) != {} ==> e.accepted != []
    ensures var s, s' := After(key, s0, before), After(key, s0, before + [Evaluate(e)] + work);
      Progress.Round(wf, e.inv, parents, (set id | id in e.accepted), s'.flowed - s.flowed, inv')
  {
    var all := before + [Evaluate(e)] + work;
    var s, s' := After(key, s0, before), After(key, s0, all);
    QuietFold(key, wf, s0, all, inv');
    RoundStates(key, s0, before, e, work);
    QuietFold(key, wf, s0, before, e.inv);
    parents := AcceptedOnHorizon(key, s, e);
    hide After, IsRun, Cache.IsFold, NoFailures, FoldTasks, Horizon, HorizonWith, Quiet, Progress.NoneFailed;
    FoldsAreRound(wf, e.inv, inv', parents, e.accepted, s.flowed, s'.flowed);
  }

  /** What an evaluation and the work after it do to the state, if everything is recorded before. */
  lemma RoundStates(key: Aggregate, s0: State, before: seq<Action>, e: Evaluation, work: seq<Action>)
    requires IsRun(key, s0, before + [Evaluate(e)] + work) && IsWork(work) && Quiet(After(key, s0, before))
    ensures IsRun(key, s0, before) && IsEvaluation(key.id, After(key, s0, before).phase.Keys, e)
    ensures var s, s' := After(key, s0, before), After(key, s0, before + [Evaluate(e)] + work);
      && s'.phase.Keys == s.phase.Keys + (set id | id in e.accepted)
      && s.flowed <= s'.flowed && forall t | t in s'.flowed && t !in s.flowed :: t in e.accepted
  {
    var s := After(key, s0, before);
    RunConcat(key, s0, before + [Evaluate(e)], work);
    OneMoreAction(key, s0, before, Evaluate(e));
    var mid := Apply(key, s, Evaluate(e));
    WorkKeeps(key, mid, work);
    assert mid.phase.Keys == s.phase.Keys + set id | id in e.accepted;
  }
}
