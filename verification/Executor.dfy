/**
 The local executor: submitters put tasks on the work queue and count them per group; workers take tasks, run them and
 count them off. Adding and counting are separate critical sections, so submitters and workers interleave.

 The group counter is what the invocation controller reads to see whether work of an invocation is still outstanding.
 */
module Executor {
  import opened Types
  import opened WorkQueue

  // ---------- Interleaved steps ----------

  /** `Finished` is a worker that has reported the task done and not yet counted it off. */
  datatype Worker = Idle | Running(item: Item) | Finished(item: Item)

  /** `uncounted` is the number of accepted submissions of each group whose submitter has not counted them yet, and
      `coalesced` the number of accepted submissions that found their key dirty and were dropped. */
  datatype State = State(
    queue: Queue,
    groups: map<string, int>,
    workers: seq<Worker>,
    uncounted: map<string, nat>,
    coalesced: map<string, nat>)

  datatype Action =
    | Submit(item: Item)
    | Count(group: string)
    | Take(worker: nat)
    | Finish(worker: nat)
    | CountOff(worker: nat)
    | Close

  function Value(counts: map<string, int>, g: string): int {
    if g in counts then counts[g] else 0
  }

  function Amount(counts: map<string, nat>, g: string): nat {
    if g in counts then counts[g] else 0
  }

  function Increment(counts: map<string, nat>, g: Option<string>): map<string, nat> {
    if g.Some? then counts[g.value := Amount(counts, g.value) + 1] else counts
  }

  function AddTo(counts: map<string, int>, g: Option<string>, delta: int): map<string, int> {
    if g.Some? then counts[g.value := Value(counts, g.value) + delta] else counts
  }

  /** Executors do not replace items that are already queued. A step that is not enabled changes nothing. */
  function Perform(x: State, a: Action): State {
    match a
    case Submit(item) =>
      if !Accepts(x.queue, item) then x else
      x.(queue := AfterAdd(x.queue, item),
         uncounted := Increment(x.uncounted, item.group),
         coalesced := if GetKey(item) in x.queue.dirty then Increment(x.coalesced, item.group) else x.coalesced)
    case Count(g) =>
      if Amount(x.uncounted, g) == 0 then x else
      x.(uncounted := x.uncounted[g := Amount(x.uncounted, g) - 1], groups := AddTo(x.groups, Some(g), 1))
    case Take(w) =>
      if w >= |x.workers| || !x.workers[w].Idle? || Next(x.queue).None? then x else
      x.(queue := AfterGet(x.queue), workers := x.workers[w := Running(Next(x.queue).value)])
    case Finish(w) =>
      if w >= |x.workers| || !x.workers[w].Running? then x else
      x.(queue := AfterDone(x.queue, x.workers[w].item), workers := x.workers[w := Finished(x.workers[w].item)])
    case CountOff(w) =>
      if w >= |x.workers| || !x.workers[w].Finished? then x else
      x.(workers := x.workers[w := Idle], groups := AddTo(x.groups, x.workers[w].item.group, -1))
    case Close => x.(queue := x.queue.(shuttingDown := true))
  }

  function AfterAll(x: State, actions: seq<Action>): State {
    if actions == [] then x else Perform(AfterAll(x, actions[..|actions| - 1]), actions[|actions| - 1])
  }

  function Start(maxParallelism: nat, maxQueueSize: int): State {
    State(NewQueue(maxQueueSize, false), map[], seq(maxParallelism, _ => Idle), map[], map[])
  }

  // ---------- What the counter counts ----------

  function OfGroup(dirty: map<Key, Item>, g: string): set<Key> {
    set k | k in dirty && dirty[k].group == Some(g)
  }

  predicate Holds(worker: Worker, g: string) {
    !worker.Idle? && worker.item.group == Some(g)
  }

  function Holders(workers: seq<Worker>, g: string): set<nat> {
    set w: nat | w < |workers| && Holds(workers[w], g)
  }

  /** The queued tasks of a group, and those that wait for their key to be processed. */
  function Queued(x: State, g: string): set<Key> {
    OfGroup(x.queue.dirty, g)
  }

  /** The workers that run a task of a group or have not counted it off yet. */
  function Busy(x: State, g: string): set<nat> {
    Holders(x.workers, g)
  }

  lemma PutCounts(dirty: map<Key, Item>, k: Key, item: Item, g: string)
    requires k !in dirty
    ensures |OfGroup(dirty[k := item], g)| == |OfGroup(dirty, g)| + if item.group == Some(g) then 1 else 0
  {
    assert OfGroup(dirty[k := item], g) == OfGroup(dirty, g) + if item.group == Some(g) then {k} else {};
  }

  lemma RemoveCounts(dirty: map<Key, Item>, k: Key, g: string)
    requires k in dirty
    ensures |OfGroup(dirty - {k}, g)| == |OfGroup(dirty, g)| - if dirty[k].group == Some(g) then 1 else 0
  {
    assert OfGroup(dirty - {k}, g) == OfGroup(dirty, g) - {k};
  }

  lemma WorkerCounts(workers: seq<Worker>, w: nat, worker: Worker, g: string)
    requires w < |workers|
    ensures |Holders(workers[w := worker], g)| ==
      |Holders(workers, g)| - (if Holds(workers[w], g) then 1 else 0) + (if Holds(worker, g) then 1 else 0)
  {
    hide Holds;
    HoldersSplit(workers, w, g);
    HoldersSplit(workers[w := worker], w, g);
    assert Holders(workers, g) - {w} == Holders(workers[w := worker], g) - {w};
  }

  lemma HoldersSplit(workers: seq<Worker>, w: nat, g: string)
    requires w < |workers|
    ensures |Holders(workers, g)| == |Holders(workers, g) - {w}| + if Holds(workers[w], g) then 1 else 0
  {
    if Holds(workers[w], g) {
      assert Holders(workers, g) == (Holders(workers, g) - {w}) + {w};
    } else {
      assert Holders(workers, g) == Holders(workers, g) - {w};
    }
  }

  ghost predicate Balanced(x: State, g: string) {
    Value(x.groups, g) + Amount(x.uncounted, g) == |Queued(x, g)| + |Busy(x, g)| + Amount(x.coalesced, g)
  }

  /** A worker that runs a task holds its key, alone. */
  ghost predicate WorkersHoldKeys(x: State) {
    && (forall w | 0 <= w < |x.workers| && x.workers[w].Running? :: GetKey(x.workers[w].item) in x.queue.processing)
    && (forall v, w | 0 <= v < w < |x.workers| && x.workers[v].Running? && x.workers[w].Running? ::
          GetKey(x.workers[v].item) != GetKey(x.workers[w].item))
  }

  ghost predicate Consistent(x: State) {
    WorkQueue.Inv(x.queue) && !x.queue.replace && WorkersHoldKeys(x) && forall g :: Balanced(x, g)
  }

  lemma QueueKept(x: State, a: Action)
    requires WorkQueue.Inv(x.queue) && !x.queue.replace && WorkersHoldKeys(x)
    ensures WorkQueue.Inv(Perform(x, a).queue) && !Perform(x, a).queue.replace
  {
    match a
    case Submit(item) => ApplyKeepsInv(x.queue, Add(item));
    case Count(_) =>
    case Take(w) => ApplyKeepsInv(x.queue, Get);
    case Finish(w) => if w < |x.workers| && x.workers[w].Running? { ApplyKeepsInv(x.queue, Done(x.workers[w].item)); }
    case CountOff(w) =>
    case Close =>
  }

  /** The key a worker takes is held by no other worker. */
  lemma KeysKept(x: State, a: Action)
    requires WorkQueue.Inv(x.queue) && WorkersHoldKeys(x)
    ensures WorkersHoldKeys(Perform(x, a))
  {
    if a.Take? && Next(x.queue).Some? {
      assert x.queue.queue[0] in x.queue.queue;
    }
  }

  lemma SubmitBalances(x: State, item: Item, g: string)
    requires Balanced(x, g) && !x.queue.replace
    ensures Balanced(Perform(x, Submit(item)), g)
  {
    if Accepts(x.queue, item) && GetKey(item) !in x.queue.dirty {
      PutCounts(x.queue.dirty, GetKey(item), item, g);
    }
  }

  lemma TakeBalances(x: State, w: nat, g: string)
    requires Balanced(x, g)
    ensures Balanced(Perform(x, Take(w)), g)
  {
    if w < |x.workers| && x.workers[w].Idle? && Next(x.queue).Some? {
      RemoveCounts(x.queue.dirty, x.queue.queue[0], g);
      WorkerCounts(x.workers, w, Running(Next(x.queue).value), g);
    }
  }

  lemma WorkerBalances(x: State, a: Action, g: string)
    requires Balanced(x, g) && (a.Finish? || a.CountOff?)
    ensures Balanced(Perform(x, a), g)
  {
    var w := a.worker;
    if w < |x.workers| && !x.workers[w].Idle? {
      WorkerCounts(x.workers, w, Finished(x.workers[w].item), g);
      WorkerCounts(x.workers, w, Idle, g);
    }
  }

  lemma PerformKeepsInv(x: State, a: Action)
    requires Consistent(x)
    ensures Consistent(Perform(x, a))
  {
    QueueKept(x, a);
    KeysKept(x, a);
    forall g ensures Balanced(Perform(x, a), g) {
      assert Balanced(x, g);
      match a
      case Submit(item) => SubmitBalances(x, item, g);
      case Count(c) =>
      case Take(w) => TakeBalances(x, w, g);
      case Finish(w) => WorkerBalances(x, a, g);
      case CountOff(w) => WorkerBalances(x, a, g);
      case Close =>
    }
  }

  lemma {:induction false} RunKeepsInv(maxParallelism: nat, maxQueueSize: int, actions: seq<Action>)
    ensures Consistent(AfterAll(Start(maxParallelism, maxQueueSize), actions))
  {
    var start := Start(maxParallelism, maxQueueSize);
    if actions == [] {
      forall g ensures Balanced(start, g) { assert Queued(start, g) == {} && Busy(start, g) == {}; }
    } else {
      RunKeepsInv(maxParallelism, maxQueueSize, actions[..|actions| - 1]);
      PerformKeepsInv(AfterAll(start, actions[..|actions| - 1]), actions[|actions| - 1]);
    }
  }

  /** In every interleaving, the counter of a group plus the submissions not counted yet is the number of its tasks
      that are queued, running or not counted off, plus the number of its submissions that were coalesced. */
  lemma CounterIsExact(maxParallelism: nat, maxQueueSize: int, actions: seq<Action>, g: string)
    ensures var x := AfterAll(Start(maxParallelism, maxQueueSize), actions);
      Value(x.groups, g) + Amount(x.uncounted, g) == |Queued(x, g)| + |Busy(x, g)| + Amount(x.coalesced, g)
  {
    RunKeepsInv(maxParallelism, maxQueueSize, actions);
    assert Balanced(AfterAll(Start(maxParallelism, maxQueueSize), actions), g);
  }

  /** When no submission of the group is between its two sections: if the counter reads zero or less, nothing of the
      group is queued or running; and once nothing is, the counter reads the number of coalesced submissions, so it
      returns to zero exactly when none was coalesced. */
  lemma ZeroMeansQuiet(maxParallelism: nat, maxQueueSize: int, actions: seq<Action>, g: string)
    ensures var x := AfterAll(Start(maxParallelism, maxQueueSize), actions);
      Amount(x.uncounted, g) == 0 ==>
        && (Value(x.groups, g) <= 0 ==> Queued(x, g) == {} && Busy(x, g) == {} && Amount(x.coalesced, g) == 0)
        && (Queued(x, g) == {} && Busy(x, g) == {} ==> Value(x.groups, g) == Amount(x.coalesced, g))
  {
    CounterIsExact(maxParallelism, maxQueueSize, actions, g);
  }

  lemma AfterOneMore(x: State, actions: seq<Action>, a: Action)
    ensures AfterAll(x, actions + [a]) == Perform(AfterAll(x, actions), a)
  {
    assert (actions + [a])[..|actions|] == actions;
  }

  // ---------- The queue of the executor ----------

  /** What a step does to the queue. */
  function QueueOp(x: State, a: Action): seq<Op> {
    match a
    case Submit(item) => [Add(item)]
    case Take(w) => if w < |x.workers| && x.workers[w].Idle? && Next(x.queue).Some? then [Get] else []
    case Finish(w) => if w < |x.workers| && x.workers[w].Running? then [Done(x.workers[w].item)] else []
    case Close => [ShutDown]
    case _ => []
  }

  function QueueOps(x: State, actions: seq<Action>): seq<Op> {
    if actions == [] then [] else
    var before := actions[..|actions| - 1];
    QueueOps(x, before) + QueueOp(AfterAll(x, before), actions[|actions| - 1])
  }

  lemma QueueEffect(x: State, a: Action)
    requires WorkersHoldKeys(x)
    ensures var ops := QueueOp(x, a);
      if ops == [] then Perform(x, a).queue == x.queue
      else ops == [ops[0]] && Proper(x.queue, ops[0]) && Perform(x, a).queue == Apply(x.queue, ops[0])
  {
  }

  lemma StepOnQueue(x: State, a: Action, q: Queue, ops: seq<Op>)
    requires WorkersHoldKeys(x) && IsRun(q, ops) && WorkQueue.After(q, ops) == x.queue
    ensures var ops' := ops + QueueOp(x, a); IsRun(q, ops') && WorkQueue.After(q, ops') == Perform(x, a).queue
  {
    QueueEffect(x, a);
    hide QueueOp, Perform, WorkersHoldKeys, Apply, Proper;
    var more := QueueOp(x, a);
    if more == [] {
      assert ops + more == ops;
    } else {
      assert (ops + more)[..|ops|] == ops && (ops + more)[|ops|] == more[0];
    }
  }

  lemma WorkersStay(x: State, a: Action)
    ensures |Perform(x, a).workers| == |x.workers|
  {
  }

  lemma NothingDone(q: Queue)
    ensures IsRun(q, []) && WorkQueue.After(q, []) == q
  {
  }

  lemma {:induction false} RunOnQueue(maxParallelism: nat, maxQueueSize: int, actions: seq<Action>)
    ensures var start, q := Start(maxParallelism, maxQueueSize), NewQueue(maxQueueSize, false);
      var x, ops := AfterAll(start, actions), QueueOps(start, actions);
      && IsRun(q, ops) && WorkQueue.After(q, ops) == x.queue && |x.workers| == maxParallelism
  {
    hide Perform, QueueOp, IsRun, WorkQueue.After, WorkQueue.Inv, Balanced, WorkersHoldKeys;
    if actions == [] {
      NothingDone(NewQueue(maxQueueSize, false));
    } else {
      var start, before := Start(maxParallelism, maxQueueSize), actions[..|actions| - 1];
      WorkersStay(AfterAll(start, before), actions[|actions| - 1]);
      RunOnQueue(maxParallelism, maxQueueSize, before);
      RunKeepsInv(maxParallelism, maxQueueSize, before);
      StepOnQueue(AfterAll(start, before), actions[|actions| - 1], NewQueue(maxQueueSize, false), QueueOps(start, before));
    }
  }

  /** In every interleaving: there are as many workers as configured, and the queue is in a state that a proper run of the
      work queue leads to. A submission is refused exactly when the executor was closed, or nothing waits for the task's
      key and as many keys as the queue may hold wait for a worker; and an idle worker gets the next task exactly when a
      key waits. */
  lemma ExecutorServes(maxParallelism: nat, maxQueueSize: int, actions: seq<Action>, item: Item, w: nat)
    ensures var start, q := Start(maxParallelism, maxQueueSize), NewQueue(maxQueueSize, false);
      var x, seen := AfterAll(start, actions), History(q, QueueOps(start, actions));
      && |x.workers| == maxParallelism
      && (Accepts(x.queue, item) <==>
            Stopped !in seen && (Waiting(seen, GetKey(item)) != [] || |Unserved(seen)| < maxQueueSize))
      && (w < maxParallelism && x.workers[w].Idle? ==>
            (Perform(x, Take(w)).workers[w].Running? <==> Unserved(seen) != {}))
  {
    RunOnQueue(maxParallelism, maxQueueSize, actions);
    var start, q := Start(maxParallelism, maxQueueSize), NewQueue(maxQueueSize, false);
    var x, ops := AfterAll(start, actions), QueueOps(start, actions);
    hide AfterAll, History, QueueOps, Unserved, Waiting, IsRun, WorkQueue.After, WorkQueue.Inv, Accepts, AfterAdd, Perform;
    RefusedIff(maxQueueSize, false, ops, item);
    QueueIsUnserved(maxQueueSize, false, ops);
    RunAccounts(maxQueueSize, false, ops, GetKey(item));
    if w < |x.workers| { TakeGets(x, w); }
    assert x.queue.queue != [] ==> x.queue.queue[0] in x.queue.queue;
  }

  lemma TakeGets(x: State, w: nat)
    requires WorkQueue.Inv(x.queue) && w < |x.workers|
    ensures |Perform(x, Take(w)).workers| == |x.workers|
    ensures x.workers[w].Idle? ==> (Perform(x, Take(w)).workers[w].Running? <==> x.queue.queue != [])
  {
    if x.queue.queue != [] { assert x.queue.queue[0] in x.queue.queue; }
  }

  // ---------- Coalesced submissions ----------

  /** Submitting a task twice before a worker takes it leaves its group counted as busy for good: here one worker has
      run the task and counted it off, nothing is queued, running or uncounted, and the counter reads one. */
  lemma CoalescedStaysCounted(item: Item, g: string)
    requires item.group == Some(g)
    ensures var x := AfterAll(Start(1, 1), [Submit(item), Count(g)] + [Submit(item), Count(g)] + Turn(0));
      && Queued(x, g) == {} && Busy(x, g) == {} && Amount(x.uncounted, g) == 0
      && Value(x.groups, g) == 1
  {
    var start := Start(1, 1);
    var once, twice := [Submit(item), Count(g)], [Submit(item), Count(g)] + [Submit(item), Count(g)];
    SubmitCounts(start, [], item, g);
    assert [] + once == once;
    var x1 := AfterAll(start, once);
    SubmitCounts(start, once, item, g);
    TurnCounts(start, twice, item, g);
    var x := AfterAll(start, twice + Turn(0));
    assert Queued(x, g) == {} && Busy(x, g) == {};
  }

  /** One turn of a worker. */
  function Turn(w: nat): seq<Action> {
    [Take(w), Finish(w), CountOff(w)]
  }

  lemma SubmitCounts(start: State, before: seq<Action>, item: Item, g: string)
    requires item.group == Some(g) && Accepts(AfterAll(start, before).queue, item)
    requires Amount(AfterAll(start, before).uncounted, g) == 0
    ensures var x, x' := AfterAll(start, before), AfterAll(start, before + [Submit(item), Count(g)]);
      && x'.queue == AfterAdd(x.queue, item) && x'.workers == x.workers
      && x'.groups == AddTo(x.groups, Some(g), 1) && Amount(x'.uncounted, g) == 0
  {
    AfterOneMore(start, before, Submit(item));
    AfterOneMore(start, before + [Submit(item)], Count(g));
    assert before + [Submit(item)] + [Count(g)] == before + [Submit(item), Count(g)];
  }

  lemma TurnEffect(x: State, item: Item, g: string)
    requires item.group == Some(g) && x.workers == [Idle]
    requires x.queue.queue == [GetKey(item)] && x.queue.dirty == map[GetKey(item) := item]
    ensures var x' := Perform(Perform(Perform(x, Take(0)), Finish(0)), CountOff(0));
      && x'.queue.dirty == map[] && x'.workers == [Idle]
      && x'.groups == AddTo(x.groups, Some(g), -1) && x'.uncounted == x.uncounted
  {
    var taken := Perform(x, Take(0));
    assert taken.workers == [Running(item)] && taken.queue.dirty == map[];
    var finished := Perform(taken, Finish(0));
    assert finished.workers == [Finished(item)] && finished.queue.dirty == map[];
  }

  lemma TurnCounts(start: State, before: seq<Action>, item: Item, g: string)
    requires item.group == Some(g) && AfterAll(start, before).workers == [Idle]
    requires AfterAll(start, before).queue.queue == [GetKey(item)]
    requires AfterAll(start, before).queue.dirty == map[GetKey(item) := item]
    ensures var x, x' := AfterAll(start, before), AfterAll(start, before + Turn(0));
      && x'.queue.dirty == map[] && x'.workers == [Idle]
      && x'.groups == AddTo(x.groups, Some(g), -1) && x'.uncounted == x.uncounted
  {
    AfterOneMore(start, before, Take(0));
    AfterOneMore(start, before + [Take(0)], Finish(0));
    AfterOneMore(start, before + [Take(0)] + [Finish(0)], CountOff(0));
    assert before + [Take(0)] + [Finish(0)] + [CountOff(0)] == before + Turn(0);
    TurnEffect(AfterAll(start, before), item, g);
  }

  // ---------- The executor without interference ----------

  /** `SubmitAfter`, `GetGroupTasks` and one turn of a worker when no one else interferes. Each is a sequence of the
      steps above. */
  class LocalExecutor {
    var queue: Queue
    var groups: map<string, int>

    /** Sizes that are not positive panic. */
    constructor (maxParallelism: int, maxQueueSize: int)
      requires maxParallelism > 0 && maxQueueSize > 0
      ensures queue == NewQueue(maxQueueSize, false) && groups == map[]
    {
      queue, groups := NewQueue(maxQueueSize, false), map[];
    }

    method GetGroupTasks(g: string) returns (count: int)
      ensures count == Value(groups, g)
    {
      count := if g in groups then groups[g] else 0;
    }

    /** A positive delay adds the task at once too. */
    method SubmitAfter(item: Item, after: int) returns (accepted: bool)
      modifies this
      ensures accepted <==> Accepts(old(queue), item)
      ensures queue == AfterAdd(old(queue), item)
      ensures groups == if accepted then AddTo(old(groups), item.group, 1) else old(groups)
      ensures forall x: State | x.queue == old(queue) && x.groups == old(groups) && item.group.Some? ::
        var x' := Perform(Perform(x, Submit(item)), Count(item.group.value));
        accepted ==> x'.queue == queue && x'.groups == groups && Amount(x'.uncounted, item.group.value) == Amount(x.uncounted, item.group.value)
    {
      accepted := Accepts(queue, item);
      if !accepted {
        return;
      }
      queue := AfterAdd(queue, item);
      if item.group.Some? {
        groups := groups[item.group.value := Value(groups, item.group.value) + 1];
      }
    }

    method WorkerTurn() returns (item: Option<Item>)
      modifies this
      ensures item == Next(old(queue))
      ensures item.None? ==> queue == old(queue) && groups == old(groups)
      ensures item.Some? ==> forall x: State, w: nat |
        x.queue == old(queue) && x.groups == old(groups) && w < |x.workers| && x.workers[w].Idle? ::
        var x' := Perform(Perform(Perform(x, Take(w)), Finish(w)), CountOff(w));
        x'.queue == queue && x'.groups == groups && x'.workers == x.workers
    {
      item := Next(queue);
      if item.None? {
        return;
      }
      queue := AfterGet(queue);
      queue := AfterDone(queue, item.value);
      groups := AddTo(groups, item.value.group, -1);
    }
  }
}
