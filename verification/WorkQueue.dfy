/**
 The work queue: a bounded queue of keys that coalesces items with the same key. A key is dirty while it needs
 processing, and processing while a worker has it; a key that becomes dirty during processing is queued again when the
 worker is done.
 */
module WorkQueue {
  import opened Types

  /** An item is identified by its ID if it has one, and by itself otherwise. */
  datatype Item = Item(id: Option<string>, group: Option<string>, work: string)

  datatype Key = ById(id: string) | ByItem(item: Item)

  function GetKey(item: Item): Key {
    if item.id.Some? then ById(item.id.value) else ByItem(item)
  }

  // ---------- Specification ----------

  datatype Queue = Queue(
    maxSize: int,
    replace: bool,
    queue: seq<Key>,
    dirty: map<Key, Item>,
    processing: map<Key, Option<Item>>,
    shuttingDown: bool)

  function NewQueue(maxSize: int, replace: bool): Queue {
    Queue(maxSize, replace, [], map[], map[], false)
  }

  predicate Accepts(q: Queue, item: Item) {
    !q.shuttingDown && (GetKey(item) in q.dirty || |q.queue| < q.maxSize)
  }

  function AfterAdd(q: Queue, item: Item): Queue {
    var key := GetKey(item);
    if !Accepts(q, item) then q
    else if key in q.dirty then if q.replace then q.(dirty := q.dirty[key := item]) else q
    else if key in q.processing then q.(dirty := q.dirty[key := item])
    else q.(dirty := q.dirty[key := item], queue := q.queue + [key])
  }

  /** The item a worker is handed; nil if the key at the head is not dirty. */
  function Next(q: Queue): Option<Item> {
    if q.queue != [] && q.queue[0] in q.dirty then Some(q.dirty[q.queue[0]]) else None
  }

  function AfterGet(q: Queue): Queue {
    if q.queue == [] then q else
    var key := q.queue[0];
    q.(queue := q.queue[1..],
       dirty := q.dirty - {key},
       processing := q.processing[key := Next(q)])
  }

  function AfterDone(q: Queue, item: Item): Queue {
    var key := GetKey(item);
    q.(processing := q.processing - {key}, queue := if key in q.dirty then q.queue + [key] else q.queue)
  }

  // ---------- The queue ----------

  /** The methods run under the lock of the queue, so each is one step. */
  class Type {
    const maxSize: int
    const replace: bool
    var queue: seq<Key>
    var dirty: map<Key, Item>
    var processing: map<Key, Option<Item>>
    var shuttingDown: bool

    constructor (maxSize: int, replace: bool)
      ensures State() == NewQueue(maxSize, replace)
    {
      this.maxSize, this.replace := maxSize, replace;
      queue, dirty, processing, shuttingDown := [], map[], map[], false;
    }

    ghost function State(): Queue
      reads this
    {
      Queue(maxSize, replace, queue, dirty, processing, shuttingDown)
    }

    method Add(item: Item) returns (accepted: bool)
      modifies this
      ensures accepted <==> Accepts(old(State()), item)
      ensures State() == AfterAdd(old(State()), item)
    {
      if shuttingDown {
        return false;
      }
      var key := GetKey(item);
      if key in dirty {
        if replace {
          dirty := dirty[key := item];
        }
        return true;
      }
      if |queue| >= maxSize {
        return false;
      }
      dirty := dirty[key := item];
      if key in processing {
        return true;
      }
      queue := queue + [key];
      return true;
    }

    /** Waits until there is an item or the queue shuts down. */
    method Get() returns (item: Option<Item>, shutdown: bool)
      requires queue != [] || shuttingDown
      modifies this
      ensures shutdown <==> old(queue) == []
      ensures item == Next(old(State()))
      ensures State() == AfterGet(old(State()))
    {
      if |queue| == 0 {
        return None, true;
      }
      var key := queue[0];
      queue := queue[1..];
      item := if key in dirty then Some(dirty[key]) else None;
      processing := processing[key := item];
      dirty := dirty - {key};
      shutdown := false;
    }

    method Done(item: Item)
      modifies this
      ensures State() == AfterDone(old(State()), item)
    {
      var key := GetKey(item);
      processing := processing - {key};
      if key in dirty {
        queue := queue + [key];
      }
    }

    method ShutDown()
      modifies this
      ensures State() == old(State()).(shuttingDown := true)
    {
      shuttingDown := true;
    }
  }

  // ---------- The protocol ----------

  /** The queue lists, once each, the keys that are dirty and not being processed. */
  ghost predicate Inv(q: Queue) {
    && Distinct(q.queue)
    && (forall k :: k in q.queue <==> k in q.dirty && k !in q.processing)
    && (forall k | k in q.dirty :: GetKey(q.dirty[k]) == k)
    && (forall k | k in q.processing :: q.processing[k].Some? && GetKey(q.processing[k].value) == k)
  }

  datatype Op = Add(item: Item) | Get | Done(item: Item) | ShutDown

  function Apply(q: Queue, op: Op): Queue {
    match op
    case Add(item) => AfterAdd(q, item)
    case Get => AfterGet(q)
    case Done(item) => AfterDone(q, item)
    case ShutDown => q.(shuttingDown := true)
  }

  /** Workers call Done only with a key that is being processed. */
  predicate Proper(q: Queue, op: Op) {
    op.Done? ==> GetKey(op.item) in q.processing
  }

  function After(q: Queue, ops: seq<Op>): Queue {
    if ops == [] then q else Apply(After(q, ops[..|ops| - 1]), ops[|ops| - 1])
  }

  predicate IsRun(q: Queue, ops: seq<Op>) {
    ops == [] || (IsRun(q, ops[..|ops| - 1]) && Proper(After(q, ops[..|ops| - 1]), ops[|ops| - 1]))
  }

  lemma AddKeepsInv(q: Queue, item: Item)
    requires Inv(q)
    ensures Inv(AfterAdd(q, item))
  {
  }

  lemma GetKeepsInv(q: Queue)
    requires Inv(q)
    ensures Inv(AfterGet(q))
  {
    if q.queue != [] {
      var q' := AfterGet(q);
      HeadOnce(q.queue);
      assert q.queue[0] in q.queue;
    }
  }

  lemma HeadOnce(keys: seq<Key>)
    requires Distinct(keys) && keys != []
    ensures Distinct(keys[1..]) && forall k :: k in keys[1..] <==> k in keys && k != keys[0]
  {
    assert keys == [keys[0]] + keys[1..];
  }

  lemma ApplyKeepsInv(q: Queue, op: Op)
    requires Inv(q) && Proper(q, op)
    ensures Inv(Apply(q, op))
  {
    match op
    case Add(item) => AddKeepsInv(q, item);
    case Get => GetKeepsInv(q);
    case Done(item) => DoneKeepsInv(q, item);
    case ShutDown =>
  }

  /** Done keeps the queue consistent exactly when its key is being processed or is not dirty; for a key that waits in
      the queue it would be queued twice. */
  lemma DoneKeepsInv(q: Queue, item: Item)
    requires Inv(q)
    ensures Inv(AfterDone(q, item)) <==> GetKey(item) in q.processing || GetKey(item) !in q.dirty
  {
    var key := GetKey(item);
    if key !in q.processing && key in q.dirty {
      assert key in q.queue;
      var i :| 0 <= i < |q.queue| && q.queue[i] == key;
      var queue' := AfterDone(q, item).queue;
      assert queue'[i] == key && queue'[|q.queue|] == key;
    }
  }

  // ---------- What callers observe ----------

  /** What a call showed its caller: whether an item was added or refused, and which item was handed out. */
  datatype Observed = Added(item: Item) | Refused(item: Item) | HandedOut(item: Item) | Nothing | Ended(item: Item) | Stopped

  function Observe(q: Queue, op: Op): Observed {
    match op
    case Add(item) => if Accepts(q, item) then Added(item) else Refused(item)
    case Get => if Next(q).Some? then HandedOut(Next(q).value) else Nothing
    case Done(item) => Ended(item)
    case ShutDown => Stopped
  }

  function History(q: Queue, ops: seq<Op>): seq<Observed> {
    if ops == [] then [] else
    var before := ops[..|ops| - 1];
    History(q, before) + [Observe(After(q, before), ops[|ops| - 1])]
  }

  /** The items added for a key since it was last handed out, oldest first. */
  function Waiting(seen: seq<Observed>, key: Key): seq<Item> {
    if seen == [] then [] else WaitingStep(Waiting(seen[..|seen| - 1], key), seen[|seen| - 1], key)
  }

  function WaitingStep(waiting: seq<Item>, o: Observed, key: Key): seq<Item> {
    match o
    case Added(item) => if GetKey(item) == key then waiting + [item] else waiting
    case HandedOut(item) => if GetKey(item) == key then [] else waiting
    case _ => waiting
  }

  /** Whether a key was handed out more recently than it was done. */
  predicate InFlight(seen: seq<Observed>, key: Key) {
    seen != [] && InFlightStep(InFlight(seen[..|seen| - 1], key), seen[|seen| - 1], key)
  }

  predicate InFlightStep(inFlight: bool, o: Observed, key: Key) {
    match o
    case HandedOut(item) => GetKey(item) == key || inFlight
    case Ended(item) => GetKey(item) != key && inFlight
    case _ => inFlight
  }

  /** The keys that wait for a worker: something was added for them, and no worker has them. */
  function Unserved(seen: seq<Observed>): set<Key> {
    set i | 0 <= i < |seen| && seen[i].Added? && Waiting(seen, GetKey(seen[i].item)) != []
            && !InFlight(seen, GetKey(seen[i].item)) :: GetKey(seen[i].item)
  }

  lemma {:induction false} WaitingWasAdded(seen: seq<Observed>, key: Key)
    ensures Waiting(seen, key) != [] ==> exists i :: 0 <= i < |seen| && seen[i].Added? && GetKey(seen[i].item) == key
  {
    if seen != [] {
      var before := seen[..|seen| - 1];
      WaitingWasAdded(before, key);
      if Waiting(before, key) != [] {
        var i :| 0 <= i < |before| && before[i].Added? && GetKey(before[i].item) == key;
        assert seen[i] == before[i];
      }
    }
  }

  lemma UnservedMeans(seen: seq<Observed>, key: Key)
    ensures key in Unserved(seen) <==> Waiting(seen, key) != [] && !InFlight(seen, key)
  {
    WaitingWasAdded(seen, key);
  }

  // ---------- No item is lost ----------

  /** The fields of the queue hold what the history says of a key. */
  ghost predicate Accounts(q: Queue, seen: seq<Observed>, key: Key) {
    var waiting := Waiting(seen, key);
    && (key in q.dirty <==> waiting != [])
    && (waiting != [] ==> q.dirty[key] == if q.replace then waiting[|waiting| - 1] else waiting[0])
    && (key in q.processing <==> InFlight(seen, key))
    && (q.shuttingDown <==> Stopped in seen)
  }

  lemma OneMoreSeen(seen: seq<Observed>, o: Observed, key: Key)
    ensures Waiting(seen + [o], key) == WaitingStep(Waiting(seen, key), o, key)
    ensures InFlight(seen + [o], key) == InFlightStep(InFlight(seen, key), o, key)
    ensures Stopped in seen + [o] <==> Stopped in seen || o == Stopped
  {
    assert (seen + [o])[..|seen|] == seen;
  }

  lemma AddAccounts(q: Queue, seen: seq<Observed>, item: Item, key: Key)
    requires Accounts(q, seen, key)
    ensures Accounts(AfterAdd(q, item), seen + [Observe(q, Add(item))], key)
  {
    OneMoreSeen(seen, Observe(q, Add(item)), key);
    hide Waiting, InFlight;
  }

  lemma GetAccounts(q: Queue, seen: seq<Observed>, key: Key)
    requires Accounts(q, seen, key) && Inv(q)
    ensures Accounts(AfterGet(q), seen + [Observe(q, Get)], key)
  {
    OneMoreSeen(seen, Observe(q, Get), key);
    hide Waiting, InFlight;
    if q.queue != [] { assert q.queue[0] in q.queue; }
  }

  lemma OpAccounts(q: Queue, seen: seq<Observed>, op: Op, key: Key)
    requires Accounts(q, seen, key) && Inv(q) && Proper(q, op)
    ensures Accounts(Apply(q, op), seen + [Observe(q, op)], key)
  {
    hide Waiting, InFlight, AfterAdd, AfterGet, Inv;
    OneMoreSeen(seen, Observe(q, op), key);
    match op
    case Get => GetAccounts(q, seen, key);
    case Add(item) => AddAccounts(q, seen, item, key);
    case Done(_) =>
    case ShutDown =>
  }

  lemma SizesStay(q: Queue, op: Op)
    ensures Apply(q, op).maxSize == q.maxSize && Apply(q, op).replace == q.replace
  {
  }

  lemma {:induction false} RunAccounts(maxSize: int, replace: bool, ops: seq<Op>, key: Key)
    requires IsRun(NewQueue(maxSize, replace), ops)
    ensures var q := NewQueue(maxSize, replace);
      && Inv(After(q, ops)) && Accounts(After(q, ops), History(q, ops), key)
      && After(q, ops).maxSize == maxSize && After(q, ops).replace == replace
  {
    hide Inv, Accounts, Apply, Observe;
    var q := NewQueue(maxSize, replace);
    if ops == [] {
      StartAccounts(maxSize, replace, key);
    } else {
      var before, op := ops[..|ops| - 1], ops[|ops| - 1];
      RunAccounts(maxSize, replace, before, key);
      ApplyKeepsInv(After(q, before), op);
      OpAccounts(After(q, before), History(q, before), op, key);
      SizesStay(After(q, before), op);
    }
  }

  lemma StartAccounts(maxSize: int, replace: bool, key: Key)
    ensures Inv(NewQueue(maxSize, replace)) && Accounts(NewQueue(maxSize, replace), [], key)
  {
  }

  /** In every run in which Done is only called on keys being processed: the queue is consistent; a key needs processing
      exactly when an item was added for it since it was last handed out, and then it is queued or about to be
      queued again; and the next worker gets a key no other worker has, with the latest added item when items
      replace each other and the first one otherwise. */
  lemma NothingIsLost(maxSize: int, replace: bool, ops: seq<Op>, key: Key)
    requires IsRun(NewQueue(maxSize, replace), ops)
    ensures var now, seen := After(NewQueue(maxSize, replace), ops), History(NewQueue(maxSize, replace), ops);
      var waiting := Waiting(seen, key);
      && Inv(now)
      && (waiting != [] <==> key in now.dirty)
      && (waiting != [] ==> key in now.queue || InFlight(seen, key))
      && (now.queue != [] && now.queue[0] == key ==>
            && !InFlight(seen, key)
            && waiting != []
            && Next(now) == Some(if replace then waiting[|waiting| - 1] else waiting[0]))
  {
    RunAccounts(maxSize, replace, ops, key);
    hide After, Waiting, InFlight, IsRun, History;
    var now := After(NewQueue(maxSize, replace), ops);
    if now.queue != [] { assert now.queue[0] in now.queue; }
  }

  lemma {:induction false} DistinctSize(keys: seq<Key>)
    requires Distinct(keys)
    ensures |set k | k in keys| == |keys|
  {
    if keys != [] {
      var rest := keys[..|keys| - 1];
      DistinctSize(rest);
      assert (set k | k in keys) == (set k | k in rest) + {keys[|keys| - 1]};
    }
  }

  /** The queue lists the unserved keys. */
  lemma QueueIsUnserved(maxSize: int, replace: bool, ops: seq<Op>)
    requires IsRun(NewQueue(maxSize, replace), ops)
    ensures var now, seen := After(NewQueue(maxSize, replace), ops), History(NewQueue(maxSize, replace), ops);
      (set k | k in now.queue) == Unserved(seen) && |now.queue| == |Unserved(seen)|
  {
    hide After, History, IsRun, Unserved;
    var now, seen := After(NewQueue(maxSize, replace), ops), History(NewQueue(maxSize, replace), ops);
    forall k ensures k in now.queue <==> k in Unserved(seen) {
      RunAccounts(maxSize, replace, ops, k);
      UnservedMeans(seen, k);
    }
    RunAccounts(maxSize, replace, ops, ByItem(Item(None, None, "")));
    DistinctSize(now.queue);
  }

  /** In every run an item is refused exactly when the queue was shut down, or nothing waits for the item's key and as
      many keys as the bound allows wait for a worker. A refusal changes nothing; an item that is added has its key wait
      for a worker, or for the one that has it to be done. */
  lemma RefusedIff(maxSize: int, replace: bool, ops: seq<Op>, item: Item)
    requires IsRun(NewQueue(maxSize, replace), ops)
    ensures var q := NewQueue(maxSize, replace);
      var now, seen, key := After(q, ops), History(q, ops), GetKey(item);
      var next := Apply(now, Add(item));
      && (Observe(now, Add(item)) == Refused(item) <==>
            Stopped in seen || (Waiting(seen, key) == [] && |Unserved(seen)| >= maxSize))
      && (Observe(now, Add(item)) == Refused(item) ==> next == now)
      && (Observe(now, Add(item)) == Added(item) ==>
            key in next.dirty && (key in next.queue || InFlight(seen, key)) && now.queue <= next.queue)
  {
    RunAccounts(maxSize, replace, ops, GetKey(item));
    QueueIsUnserved(maxSize, replace, ops);
    hide After, History, IsRun, Waiting, InFlight, Unserved;
    AddKeepsInv(After(NewQueue(maxSize, replace), ops), item);
  }

  // ---------- Order and size ----------

  function Gets(ops: seq<Op>): nat {
    if ops == [] then 0 else Gets(ops[..|ops| - 1]) + if ops[|ops| - 1].Get? then 1 else 0
  }

  /** Keys are served in order: after n calls of Get, whatever else happens, the n keys at the head are gone and the
      others have moved up by n. */
  lemma {:induction false} ServedInOrder(q: Queue, ops: seq<Op>)
    requires Gets(ops) <= |q.queue|
    ensures |After(q, ops).queue| >= |q.queue| - Gets(ops)
    ensures After(q, ops).queue[..|q.queue| - Gets(ops)] == q.queue[Gets(ops)..]
  {
    if ops != [] {
      var before, op := ops[..|ops| - 1], ops[|ops| - 1];
      ServedInOrder(q, before);
      var n, now := |q.queue| - Gets(before), After(q, before);
      if op.Get? {
        assert Apply(now, op).queue[..n - 1] == now.queue[..n][1..];
      } else {
        assert now.queue <= Apply(now, op).queue;
        assert Apply(now, op).queue[..n] == now.queue[..n];
      }
    }
  }

  ghost predicate AtMostProcessing(q: Queue, ops: seq<Op>, workers: nat) {
    forall i | 0 <= i <= |ops| :: |After(q, ops[..i]).processing| <= workers
  }

  /** Done queues a key again without looking at the bound. With at most `workers` keys in processing, the keys queued
      or in processing still exceed the bound by at most that number. */
  lemma {:induction false} SizeBound(maxSize: int, replace: bool, ops: seq<Op>, workers: nat)
    requires IsRun(NewQueue(maxSize, replace), ops) && AtMostProcessing(NewQueue(maxSize, replace), ops, workers)
    ensures var now := After(NewQueue(maxSize, replace), ops);
      |now.queue| + |now.processing| <= (if maxSize < 0 then 0 else maxSize) + workers
  {
    var q := NewQueue(maxSize, replace);
    assert ops[..|ops|] == ops;
    if ops != [] {
      var before, op := ops[..|ops| - 1], ops[|ops| - 1];
      forall i | 0 <= i <= |before| ensures |After(q, before[..i]).processing| <= workers {
        assert before[..i] == ops[..i];
      }
      SizeBound(maxSize, replace, before, workers);
      RunAccounts(maxSize, replace, before, ByItem(Item(None, None, "")));
      var now := After(q, before);
      if now.queue != [] { assert now.queue[0] in now.queue; }
      StepSize(now, op, if maxSize < 0 then 0 else maxSize, workers);
    }
  }

  lemma StepSize(q: Queue, op: Op, bound: nat, workers: nat)
    requires Proper(q, op) && q.maxSize <= bound
    requires q.queue != [] ==> q.queue[0] in q.dirty && q.queue[0] !in q.processing
    requires |q.queue| + |q.processing| <= bound + workers && |q.processing| <= workers
    ensures |Apply(q, op).queue| + |Apply(q, op).processing| <= bound + workers
  {
    if op.Get? && q.queue != [] {
      PutSize(q.processing, q.queue[0], Next(q));
    } else if op.Done? {
      RemoveSize(q.processing, GetKey(op.item));
    }
  }

  lemma PutSize<T>(m: map<Key, T>, k: Key, v: T)
    requires k !in m
    ensures |m[k := v]| == |m| + 1
  {
    assert m[k := v].Keys == m.Keys + {k};
  }

  lemma RemoveSize<T>(m: map<Key, T>, k: Key)
    requires k in m
    ensures |m - {k}| == |m| - 1
  {
    assert (m - {k}).Keys == m.Keys - {k};
  }
}
