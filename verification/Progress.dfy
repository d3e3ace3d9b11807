/**
 Progress of an invocation when every run appends a result: evaluating up-to-date snapshots round by round finishes
 all tasks, including the dynamic ones, within a bounded number of rounds.
 */
module Progress {
  import opened Types
  import opened Graph
  import opened Scheduler
  import opened ControlFlow
  import opened Controller
  import opened Validate

  // ---------- Rounds over a board of tasks ----------

  /** All tasks with their requirements, and the tasks that are done. */
  datatype Board = Board(deps: Deps, done: set<Id>)
  {
    function Open(): Deps {
      Restrict(deps, deps.Keys - done)
    }

    ghost function Ready(): set<Id> {
      RootSet(GraphOf(Open()))
    }

    /** What is ready for one choice among several dynamic parents. */
    function ReadyWith(parents: map<Id, Id>): set<Id> {
      RootSet(GraphWith(Open(), parents))
    }
  }

  function Children(flows: set<Id>): set<Id> {
    set t | t in flows :: ChildId(t)
  }

  /** The identifier that `ChildId` extended. */
  function ParentId(child: Id): Id {
    if |child| < |"_child"| then "" else child[..|child| - |"_child"|]
  }

  /** Dynamic children added to the tasks; a child takes the place of a task that has its name. */
  ghost predicate Extends(deps: Deps, flows: set<Id>, deps': Deps) {
    && deps'.Keys == deps.Keys + Children(flows)
    && (forall id | id in deps && id !in Children(flows) :: deps'[id] == deps[id])
    && (forall t | t in flows :: deps'[ChildId(t)] == map[t := DynamicOutput])
  }

  /** One round: some of the ready tasks get done, and those in `flows` get a dynamic child each. The executor may refuse
      tasks, but not all of them. */
  ghost predicate Step(b: Board, parents: map<Id, Id>, ran: set<Id>, flows: set<Id>, b': Board) {
    && Chooses(b.Open(), parents) && ran <= b.ReadyWith(parents) && (b.Ready() != {} ==> ran != {})
    && flows <= ran && b'.done == b.done + ran && Extends(b.deps, flows, b'.deps)
  }

  /** A task that is not static is the child of a task that is done. */
  ghost predicate IsProxy(b: Board, id: Id) {
    var t := ParentId(id);
    t in b.done && id == ChildId(t) && id in b.deps && b.deps[id] == map[t := DynamicOutput]
  }

  /** Only tasks are required and done, and the open ones are acyclic. */
  ghost predicate BoardInv(static_: set<Id>, b: Board) {
    && static_ <= b.deps.Keys && b.done <= b.deps.Keys
    && (forall id | id in b.deps :: b.deps[id].Keys <= b.deps.Keys)
    && (forall id | id in b.deps && id !in static_ :: IsProxy(b, id))
    && Acyclic(GraphOf(b.Open()))
  }

  lemma ChildIdInverse(t: Id)
    ensures ParentId(ChildId(t)) == t
  {
  }

  lemma ExtendsStep(deps: Deps, flows: set<Id>, deps': Deps, t: Id)
    requires Extends(deps, flows, deps') && t in flows && ChildId(t) !in deps
    ensures Extends(AddChild(deps, t, ChildId(t)), flows - {t}, deps')
  {
    assert Children(flows) == Children(flows - {t}) + {ChildId(t)};
  }

  /** Distinct tasks without children can all get one. */
  lemma {:induction false} AddChildren(deps: Deps, flows: set<Id>, deps': Deps)
    requires Acyclic(GraphOf(deps)) && Extends(deps, flows, deps') && flows <= deps.Keys
    requires forall t | t in flows :: Fresh(deps, ChildId(t)) && !HasChild(deps, t)
    ensures Acyclic(GraphOf(deps'))
    decreases flows
  {
    if flows == {} {
      assert deps' == deps;
    } else {
      var t :| t in flows;
      var c, rest := ChildId(t), flows - {t};
      ChildIdInverse(t);
      AddChildAcyclic(deps, t, c);
      var next := AddChild(deps, t, c);
      forall u | u in rest ensures Fresh(next, ChildId(u)) && !HasChild(next, u) {
        ChildIdInverse(u);
        assert forall n :: IsParent(next, u, n) ==> IsParent(deps, u, n);
      }
      ExtendsStep(deps, flows, deps', t);
      AddChildren(next, rest, deps');
    }
  }

  lemma StepIsOpen(b: Board, parents: map<Id, Id>, ran: set<Id>, flows: set<Id>, b': Board)
    requires Step(b, parents, ran, flows, b')
    ensures ran <= b.Open().Keys == b.deps.Keys - b.done && ran !! b.done
  {
  }

  lemma OpenAfterStep(b: Board, parents: map<Id, Id>, ran: set<Id>, flows: set<Id>, b': Board, id: Id)
    requires Step(b, parents, ran, flows, b')
    ensures id in b'.Open() ==> id !in ran
    ensures id in b'.Open() && id !in Children(flows) ==> id in b.Open() && b'.Open()[id] == b.Open()[id]
    ensures id in b'.Open() && id in Children(flows) ==>
      exists t :: t in flows && id == ChildId(t) && b'.Open()[id] == map[t := DynamicOutput]
  {
  }

  /** The child of a task that is not open waits only for another child of it. */
  lemma ChildIsRoot(open: Deps, t: Id, a: Id, c: Id)
    requires SingleChild(open) && t !in open && c in open && open[c] == map[t := DynamicOutput]
    ensures !Edge(open, a, c)
  {
    assert IsParent(open, t, c);
  }

  lemma NoEdgeToChild(b: Board, parents: map<Id, Id>, ran: set<Id>, flows: set<Id>, b': Board, a: Id, c: Id)
    requires Step(b, parents, ran, flows, b') && SingleChild(b'.Open()) && Edge(b'.Open(), a, c)
    ensures c !in Children(flows)
  {
    OpenAfterStep(b, parents, ran, flows, b', c);
    if c in Children(flows) {
      var t :| t in flows && c == ChildId(t) && b'.Open()[c] == map[t := DynamicOutput];
      OpenAfterStep(b, parents, ran, flows, b', t);
      assert t in ran;
      hide Step, Board.Open, Edge, SingleChild;
      ChildIsRoot(b'.Open(), t, a, c);
    }
  }

  lemma EdgeIsOld(b: Board, parents: map<Id, Id>, ran: set<Id>, flows: set<Id>, b': Board, a: Id, c: Id)
    requires Step(b, parents, ran, flows, b') && Edge(b'.Open(), a, c)
    requires a !in Children(flows) && c !in Children(flows)
    ensures Edge(b.Open(), a, c)
  {
    OpenAfterStep(b, parents, ran, flows, b', a);
    OpenAfterStep(b, parents, ran, flows, b', c);
    if InjectedEdge(b'.Open(), a, c) {
      var p :| p in b'.Open()[c] && IsParent(b'.Open(), p, a);
      assert IsParent(b.Open(), p, a);
    }
  }

  lemma OpenStaysAcyclic(b: Board, parents: map<Id, Id>, ran: set<Id>, flows: set<Id>, b': Board)
    requires Acyclic(GraphOf(b.Open())) && Step(b, parents, ran, flows, b') && SingleChild(b'.Open())
    ensures Acyclic(GraphOf(b'.Open()))
  {
    forall id | id in b'.Open() ensures id in b.Open() || id in Children(flows) {
      OpenAfterStep(b, parents, ran, flows, b', id);
    }
    hide Step, Board.Open, SingleChild;
    forall a, c | Edge(b'.Open(), a, c) ensures c !in Children(flows) && (a in Children(flows) || Edge(b.Open(), a, c)) {
      NoEdgeToChild(b, parents, ran, flows, b', a, c);
      if a !in Children(flows) { EdgeIsOld(b, parents, ran, flows, b', a, c); }
    }
    AddRoots(b.Open(), b'.Open(), Children(flows));
  }

  lemma StepKeepsProxies(static_: set<Id>, b: Board, parents: map<Id, Id>, ran: set<Id>, flows: set<Id>, b': Board)
    requires BoardInv(static_, b) && Step(b, parents, ran, flows, b')
    ensures static_ <= b'.deps.Keys && b'.done <= b'.deps.Keys
    ensures forall id | id in b'.deps :: b'.deps[id].Keys <= b'.deps.Keys && (id in static_ || IsProxy(b', id))
  {
    StepIsOpen(b, parents, ran, flows, b');
    forall id | id in b'.deps ensures b'.deps[id].Keys <= b'.deps.Keys && (id in static_ || IsProxy(b', id)) {
      if id in Children(flows) {
        var t :| t in flows && id == ChildId(t);
        ChildIdInverse(t);
      } else if id !in static_ {
        assert IsProxy(b, id);
      }
    }
  }

  /** A round keeps the open tasks acyclic exactly when it leaves no two open dynamic children of one task. */
  lemma StepKeepsInv(static_: set<Id>, b: Board, parents: map<Id, Id>, ran: set<Id>, flows: set<Id>, b': Board)
    requires BoardInv(static_, b) && Step(b, parents, ran, flows, b')
    ensures BoardInv(static_, b') <==> SingleChild(b'.Open())
  {
    StepKeepsProxies(static_, b, parents, ran, flows, b');
    if SingleChild(b'.Open()) {
      OpenStaysAcyclic(b, parents, ran, flows, b');
    }
    if Acyclic(GraphOf(b'.Open())) {
      AcyclicHasSingleChildren(b'.Open());
    }
  }

  /** As long as a task is open, some task is ready, whatever parents are chosen. */
  lemma SomeReady(static_: set<Id>, b: Board, parents: map<Id, Id>)
    requires BoardInv(static_, b) && Chooses(b.Open(), parents)
    ensures b.Open().Keys == b.deps.Keys - b.done && b.Ready() <= b.ReadyWith(parents) <= b.Open().Keys
    ensures b.Open().Keys != {} ==> b.Ready() != {}
  {
    ChoiceBounds(b.Open(), parents);
    RestrictInduces(b.Open(), {});
    if b.Open().Keys != {} {
      RootExists(GraphOf(b.Open()));
    }
  }

  /** Tasks get done in topological order: what a ready task requires is done, and so is every other task that has it as
      its chosen dynamic parent. */
  lemma ReadyInOrder(static_: set<Id>, b: Board, parents: map<Id, Id>, n: Id, p: Id)
    requires BoardInv(static_, b) && Chooses(b.Open(), parents) && n in b.ReadyWith(parents) && p in b.deps[n]
    ensures p in b.done
    ensures forall c | IsParent(b.deps, p, c) && c != n && (c in parents ==> parents[c] == p) :: c in b.done
  {
    var open := b.Open();
    EdgeWith(open, parents, p, n);
    forall c | IsParent(b.deps, p, c) && c != n && (c in parents ==> parents[c] == p) ensures c in b.done {
      EdgeWith(open, parents, c, n);
      assert c in open ==> IsParent(open, p, c);
    }
  }

  /** A round with an open task gets something done. */
  lemma StepGoesOn(static_: set<Id>, b: Board, parents: map<Id, Id>, ran: set<Id>, flows: set<Id>, b': Board)
    requires BoardInv(static_, b) && Step(b, parents, ran, flows, b') && b.Open().Keys != {}
    ensures |b'.done| > |b.done|
  {
    SomeReady(static_, b, parents);
    StepIsOpen(b, parents, ran, flows, b');
    assert b'.done == b.done + ran && |ran| > 0;
  }

  /** Two open dynamic children of one task, when they have no other dynamic parent, are not run. */
  lemma RivalsWait(b: Board, parents: map<Id, Id>, ran: set<Id>, flows: set<Id>, b': Board, p: Id, a: Id, c: Id)
    requires Step(b, parents, ran, flows, b') && SingleParent(b.Open())
    requires a != c && a in b.Open() && c in b.Open() && IsParent(b.deps, p, a) && IsParent(b.deps, p, c)
    ensures a !in b'.done && c !in b'.done
  {
    var open := b.Open();
    assert IsParent(open, p, a) && IsParent(open, p, c) && IsParent(open, parents[a], a) && IsParent(open, parents[c], c);
    EdgeWith(open, parents, a, c);
    EdgeWith(open, parents, c, a);
  }

  // ---------- How many tasks there can be ----------

  lemma {:induction false} FewChildren(flows: set<Id>)
    ensures |Children(flows)| <= |flows|
  {
    if flows != {} {
      var t :| t in flows;
      FewChildren(flows - {t});
      assert Children(flows) == Children(flows - {t}) + {ChildId(t)};
    }
  }

  lemma Fits(part: set<Id>, whole: set<Id>)
    requires part <= whole
    ensures |part| <= |whole| && (|part| == |whole| ==> part == whole)
  {
    assert whole == part + (whole - part);
  }

  // ---------- Rounds of an invocation ----------

  function BoardOf(inv: Invocation): Board {
    Board(map id | id in inv.Tasks() :: inv.Tasks()[id].spec.requirements, inv.tasks.Keys)
  }

  predicate NoneFailed(inv: Invocation) {
    forall id | id in inv.tasks :: inv.tasks[id].status == TaskSucceeded
  }

  /** A round of evaluating an up-to-date snapshot: tasks on the horizon that the executor accepted are recorded as
      succeeded, at least one if there are any, and those in `flows` have added their child. */
  ghost predicate Round(
    wf: Workflow, inv: Invocation, parents: map<Id, Id>, ran: set<Id>, flows: set<Id>, inv': Invocation)
  {
    && inv.spec.workflow == inv'.spec.workflow == Some(wf)
    && NoneFailed(inv) && NoneFailed(inv')
    && Chooses(OpenDeps(inv), parents) && ran <= HorizonWith(inv, parents) && (Horizon(inv) != {} ==> ran != {})
    && flows <= ran
    && inv'.tasks.Keys == inv.tasks.Keys + ran
    && Extends(BoardOf(inv).deps, flows, BoardOf(inv').deps)
  }

  ghost predicate RoundFollows(wf: Workflow, inv: Invocation, inv': Invocation) {
    exists parents, ran, flows :: Round(wf, inv, parents, ran, flows, inv')
  }

  /** Nothing has run yet, and the static tasks require each other without a cycle. */
  ghost predicate IsFresh(wf: Workflow, inv: Invocation) {
    && inv.spec.workflow == Some(wf) && inv.tasks == map[] && inv.dynamicTasks == map[]
    && (forall id | id in wf.tasks :: wf.tasks[id].spec.requirements.Keys <= wf.tasks.Keys)
    && Acyclic(GraphOf(BoardOf(inv).deps))
  }

  ghost predicate IsRounds(wf: Workflow, states: seq<Invocation>) {
    |states| >= 1 && IsFresh(wf, states[0]) &&
    forall i | 1 <= i < |states| :: RoundFollows(wf, states[i - 1], states[i])
  }

  /** No two open tasks are dynamic children of one task. */
  ghost predicate NoRivals(states: seq<Invocation>) {
    forall i | 0 <= i < |states| :: SingleChild(OpenDeps(states[i]))
  }

  lemma HorizonIsReady(inv: Invocation)
    requires NoneFailed(inv)
    ensures OpenDeps(inv) == BoardOf(inv).Open() && Horizon(inv) == BoardOf(inv).Ready()
  {
  }

  lemma RoundIsStep(
    wf: Workflow, inv: Invocation, parents: map<Id, Id>, ran: set<Id>, flows: set<Id>, inv': Invocation)
    requires Round(wf, inv, parents, ran, flows, inv')
    ensures Step(BoardOf(inv), parents, ran, flows, BoardOf(inv'))
  {
    HorizonIsReady(inv);
  }

  lemma FreshBoard(wf: Workflow, inv: Invocation)
    requires IsFresh(wf, inv)
    ensures BoardInv(wf.tasks.Keys, BoardOf(inv)) && NoneFailed(inv)
  {
    var b := BoardOf(inv);
    assert b.deps.Keys == wf.tasks.Keys && b.Open() == b.deps;
  }

  lemma OpenUnlessSucceeded(inv: Invocation)
    requires NoneFailed(inv)
    ensures AllSucceeded(inv) <==> BoardOf(inv).Open().Keys == {}
  {
    var b := BoardOf(inv);
    assert b.Open().Keys == b.deps.Keys - b.done;
    forall id | id in inv.Tasks()
      ensures id in b.Open().Keys <==> !(id in inv.tasks && inv.tasks[id].status == TaskSucceeded)
    {
      assert id in b.deps;
    }
    if !AllSucceeded(inv) {
      var id :| id in inv.Tasks() && !(id in inv.tasks && inv.tasks[id].status == TaskSucceeded);
      assert id in b.Open().Keys;
    } else {
      assert forall id | id in b.deps :: id in inv.Tasks();
    }
  }

  /** What has succeeded stays so. */
  lemma SuccessLasts(wf: Workflow, inv: Invocation, inv': Invocation)
    requires RoundFollows(wf, inv, inv') && AllSucceeded(inv)
    ensures AllSucceeded(inv')
  {
    var parents, ran, flows :| Round(wf, inv, parents, ran, flows, inv');
    HorizonIsReady(inv);
    OpenUnlessSucceeded(inv);
    assert ran == {} && flows == {};
    assert Children(flows) == {};
    OpenUnlessSucceeded(inv');
  }

  lemma RoundKeepsInv(wf: Workflow, inv: Invocation, inv': Invocation)
    requires RoundFollows(wf, inv, inv') && BoardInv(wf.tasks.Keys, BoardOf(inv)) && SingleChild(OpenDeps(inv'))
    ensures BoardInv(wf.tasks.Keys, BoardOf(inv')) && NoneFailed(inv')
    ensures !AllSucceeded(inv) ==> |inv'.tasks.Keys| > |inv.tasks.Keys|
  {
    var parents, ran, flows :| Round(wf, inv, parents, ran, flows, inv');
    RoundIsStep(wf, inv, parents, ran, flows, inv');
    HorizonIsReady(inv');
    OpenUnlessSucceeded(inv);
    hide Step, BoardInv, Extends, AllSucceeded, Horizon, HorizonWith;
    StepKeepsInv(wf.tasks.Keys, BoardOf(inv), parents, ran, flows, BoardOf(inv'));
    if !AllSucceeded(inv) {
      StepGoesOn(wf.tasks.Keys, BoardOf(inv), parents, ran, flows, BoardOf(inv'));
    }
  }

  lemma {:induction false} RoundsKeepInv(wf: Workflow, states: seq<Invocation>, i: nat)
    requires IsRounds(wf, states) && NoRivals(states) && i < |states|
    ensures BoardInv(wf.tasks.Keys, BoardOf(states[i])) && NoneFailed(states[i])
    ensures AllSucceeded(states[i]) || |states[i].tasks.Keys| >= i
  {
    hide BoardInv, BoardOf, AllSucceeded, IsFresh, RoundFollows;
    if i == 0 {
      FreshBoard(wf, states[0]);
    } else {
      RoundsKeepInv(wf, states, i - 1);
      assert RoundFollows(wf, states[i - 1], states[i]) && SingleChild(OpenDeps(states[i]));
      RoundKeepsInv(wf, states[i - 1], states[i]);
      if AllSucceeded(states[i - 1]) {
        SuccessLasts(wf, states[i - 1], states[i]);
      }
    }
  }

  /** Rounds in which at least one task of the horizon succeeds finish every static and dynamic task, in no more rounds
      than there are tasks in the end, whichever tasks return flows: unless two open tasks become the dynamic children of
      one task. */
  lemma AllTasksFinish(wf: Workflow, states: seq<Invocation>)
    requires IsRounds(wf, states) && NoRivals(states)
    requires |states| > |states[|states| - 1].Tasks().Keys|
    ensures AllSucceeded(states[|states| - 1])
  {
    hide BoardInv, BoardOf, AllSucceeded, IsRounds, NoRivals, NoneFailed;
    var last := |states| - 1;
    RoundsKeepInv(wf, states, last);
    DoneAreTasks(wf, states[last]);
    if |states[last].tasks.Keys| >= last { EveryTaskIsDone(states[last]); }
  }

  lemma DoneAreTasks(wf: Workflow, inv: Invocation)
    requires BoardInv(wf.tasks.Keys, BoardOf(inv))
    ensures inv.tasks.Keys <= inv.Tasks().Keys
  {
    hide Acyclic, GraphOf, IsProxy;
    assert BoardOf(inv).deps.Keys == inv.Tasks().Keys;
  }

  lemma EveryTaskIsDone(inv: Invocation)
    requires inv.tasks.Keys <= inv.Tasks().Keys && |inv.tasks.Keys| >= |inv.Tasks().Keys| && NoneFailed(inv)
    ensures AllSucceeded(inv)
  {
    Fits(inv.tasks.Keys, inv.Tasks().Keys);
  }

  /** If only static tasks return flows, these are two rounds per static task. */
  lemma TwoRoundsPerTask(wf: Workflow, states: seq<Invocation>)
    requires IsRounds(wf, states) && NoRivals(states) && |states| > 2 * |wf.tasks.Keys|
    requires states[|states| - 1].dynamicTasks.Keys <= Children(wf.tasks.Keys)
    ensures AllSucceeded(states[|states| - 1])
  {
    var inv := states[|states| - 1];
    RoundsSpec(wf, states);
    AtMostTwice(wf, inv);
    AllTasksFinish(wf, states);
  }

  lemma RoundsSpec(wf: Workflow, states: seq<Invocation>)
    requires IsRounds(wf, states)
    ensures states[|states| - 1].spec.workflow == Some(wf)
  {
    var last := |states| - 1;
    assert last > 0 ==> RoundFollows(wf, states[last - 1], states[last]);
  }

  lemma AtMostTwice(wf: Workflow, inv: Invocation)
    requires inv.spec.workflow == Some(wf) && inv.dynamicTasks.Keys <= Children(wf.tasks.Keys)
    ensures |inv.Tasks().Keys| <= 2 * |wf.tasks.Keys|
  {
    var all := wf.tasks.Keys + Children(wf.tasks.Keys);
    assert |all| <= |wf.tasks.Keys| + |Children(wf.tasks.Keys)|;
    FewChildren(wf.tasks.Keys);
    Fits(inv.Tasks().Keys, all);
  }

  predicate Rivals(inv: Invocation, p: Id, a: Id, c: Id) {
    a != c && IsParent(BoardOf(inv).deps, p, a) && IsParent(BoardOf(inv).deps, p, c)
  }

  /** The tasks keep their requirements: no child takes the place of a task. */
  ghost predicate KeepsTasks(inv: Invocation, inv': Invocation) {
    var deps, deps' := BoardOf(inv).deps, BoardOf(inv').deps;
    forall id | id in deps :: id in deps' && deps'[id] == deps[id]
  }

  ghost predicate NothingReplaced(states: seq<Invocation>) {
    forall i | 1 <= i < |states| :: KeepsTasks(states[i - 1], states[i])
  }

  lemma RivalsLeft(wf: Workflow, inv: Invocation, inv': Invocation, p: Id, a: Id, c: Id)
    requires RoundFollows(wf, inv, inv') && KeepsTasks(inv, inv') && SingleParent(OpenDeps(inv))
    requires Rivals(inv, p, a, c) && a !in inv.tasks && c !in inv.tasks
    ensures Rivals(inv', p, a, c) && a !in inv'.tasks && c !in inv'.tasks
  {
    var parents, ran, flows :| Round(wf, inv, parents, ran, flows, inv');
    HorizonIsReady(inv);
    RoundIsStep(wf, inv, parents, ran, flows, inv');
    hide Round, Step, SingleParent;
    RivalsWait(BoardOf(inv), parents, ran, flows, BoardOf(inv'), p, a, c);
  }

  /** Two open dynamic children of one task are never run. */
  lemma {:induction false} RivalsNeverRun(wf: Workflow, states: seq<Invocation>, i: nat, j: nat, p: Id, a: Id, c: Id)
    requires IsRounds(wf, states) && NothingReplaced(states) && i <= j < |states|
    requires forall k | 0 <= k < |states| :: SingleParent(OpenDeps(states[k]))
    requires Rivals(states[i], p, a, c) && a !in states[i].tasks && c !in states[i].tasks
    ensures Rivals(states[j], p, a, c) && a !in states[j].tasks && c !in states[j].tasks
  {
    hide Rivals, KeepsTasks, RoundFollows, SingleParent, IsFresh;
    if i < j {
      RivalsNeverRun(wf, states, i, j - 1, p, a, c);
      assert RoundFollows(wf, states[j - 1], states[j]) && KeepsTasks(states[j - 1], states[j]);
      RivalsLeft(wf, states[j - 1], states[j], p, a, c);
    }
  }

  lemma RivalsAreOpen(wf: Workflow, states: seq<Invocation>, i: nat, p: Id, a: Id, c: Id)
    requires IsRounds(wf, states) && i < |states| && a != c
    requires IsParent(OpenDeps(states[i]), p, a) && IsParent(OpenDeps(states[i]), p, c)
    ensures Rivals(states[i], p, a, c) && a !in states[i].tasks && c !in states[i].tasks
  {
    assert NoneFailed(states[i]) by {
      assert i > 0 ==> RoundFollows(wf, states[i - 1], states[i]);
    }
    hide IsRounds, RoundFollows;
    HorizonIsReady(states[i]);
  }

  lemma NotSucceeded(inv: Invocation, p: Id, a: Id, c: Id)
    requires Rivals(inv, p, a, c) && a !in inv.tasks
    ensures !AllSucceeded(inv)
  {
    assert a in inv.Tasks();
  }

  lemma FinishedHadNoRivals(wf: Workflow, states: seq<Invocation>, i: nat)
    requires IsRounds(wf, states) && NothingReplaced(states) && i < |states| && AllSucceeded(states[|states| - 1])
    requires forall k | 0 <= k < |states| :: SingleParent(OpenDeps(states[k]))
    ensures SingleChild(OpenDeps(states[i]))
  {
    hide NothingReplaced, IsRounds, AllSucceeded, SingleParent, OpenDeps, IsParent, Rivals;
    var open, last := OpenDeps(states[i]), |states| - 1;
    forall p, a, c | IsParent(open, p, a) && IsParent(open, p, c) ensures a == c {
      if a != c {
        RivalsAreOpen(wf, states, i, p, a, c);
        RivalsNeverRun(wf, states, i, last, p, a, c);
        NotSucceeded(states[last], p, a, c);
      }
    }
  }

  /** Where tasks have at most one dynamic parent and no child takes the place of a task, rounds finish every task if
      and only if no two open tasks ever are the dynamic children of one task. */
  lemma FinishIffNoRivals(wf: Workflow, states: seq<Invocation>)
    requires IsRounds(wf, states) && NothingReplaced(states)
    requires forall k | 0 <= k < |states| :: SingleParent(OpenDeps(states[k]))
    requires |states| > |states[|states| - 1].Tasks().Keys|
    ensures AllSucceeded(states[|states| - 1]) <==> NoRivals(states)
  {
    hide IsRounds, NothingReplaced, SingleChild, SingleParent, AllSucceeded, OpenDeps;
    if NoRivals(states) {
      AllTasksFinish(wf, states);
    }
    if AllSucceeded(states[|states| - 1]) {
      forall i | 0 <= i < |states| ensures SingleChild(OpenDeps(states[i])) { FinishedHadNoRivals(wf, states, i); }
    }
  }

  /** A new invocation of a validated specification is where rounds start. */
  lemma ValidIsFresh(spec: WorkflowSpec, wf: Workflow, inv: Invocation)
    requires ValidSpec(spec) && Parses(spec, wf)
    requires inv.spec.workflow == Some(wf) && inv.tasks == map[] && inv.dynamicTasks == map[]
    ensures IsFresh(wf, inv) && SingleChild(OpenDeps(inv))
  {
    assert inv.Tasks() == wf.tasks;
    assert BoardOf(inv).deps == SpecDeps(spec) && OpenDeps(inv) == SpecDeps(spec);
    AcyclicHasSingleChildren(SpecDeps(spec));
  }
}
