/**
 The waiting entries of the delaying queue: an indexed binary heap ordered by due time, with a map from the waiting
 data to its heap entry. The map and the heap share the entries, so moving an entry in the heap updates the index that
 the map reaches it by.
 */
module DelayingQueue {

  type Data = string

  // ---------- Heap order on due times ----------

  function Parent(i: int): int
    requires i >= 1
  {
    (i - 1) / 2
  }

  predicate Ordered(t: seq<int>, k: int)
    requires 1 <= k < |t|
  {
    t[Parent(k)] <= t[k]
  }

  predicate IsHeap(t: seq<int>) {
    forall k | 1 <= k < |t| :: Ordered(t, k)
  }

  /** A heap, except for the edges at position i; the children of i are not before the parent of i. */
  predicate HeapAround(t: seq<int>, i: int) {
    && (forall k | 1 <= k < |t| && k != i && Parent(k) != i :: Ordered(t, k))
    && (forall k | 1 <= k < |t| && Parent(k) == i && i >= 1 :: t[Parent(i)] <= t[k])
  }

  predicate ChildrenOrdered(t: seq<int>, i: int) {
    forall k | 1 <= k < |t| && Parent(k) == i :: Ordered(t, k)
  }

  function Swapped<T>(s: seq<T>, i: int, j: int): seq<T>
    requires 0 <= i < |s| && 0 <= j < |s|
  {
    s[i := s[j]][j := s[i]]
  }

  /** In a heap the first entry is due first. */
  lemma {:induction false} RootIsMinimum(t: seq<int>, k: int)
    requires IsHeap(t) && 0 <= k < |t|
    ensures t[0] <= t[k]
    decreases k
  {
    if k >= 1 {
      assert Ordered(t, k);
      RootIsMinimum(t, Parent(k));
    }
  }

  lemma UpStep(t: seq<int>, j: int)
    requires 1 <= j < |t| && HeapAround(t, j) && ChildrenOrdered(t, j) && t[j] < t[Parent(j)]
    ensures HeapAround(Swapped(t, Parent(j), j), Parent(j)) && ChildrenOrdered(Swapped(t, Parent(j), j), Parent(j))
  {
    var i, t' := Parent(j), Swapped(t, Parent(j), j);
    forall k | 1 <= k < |t| && Parent(k) != i && k != i ensures Ordered(t', k) {
      if Parent(k) != j { assert Ordered(t, k); }
    }
    forall k | 1 <= k < |t| && Parent(k) == i ensures Ordered(t', k) && (i >= 1 ==> t'[Parent(i)] <= t'[k]) {
      if i >= 1 { assert Ordered(t, i); }
      if k != j { assert Ordered(t, k); }
    }
  }

  /** The entry at i is later than its earlier child at c. */
  lemma DownStep(t: seq<int>, i: int, c: int)
    requires 0 <= i < |t| && 1 <= c < |t| && Parent(c) == i && HeapAround(t, i) && t[c] < t[i]
    requires forall k | 1 <= k < |t| && Parent(k) == i :: t[c] <= t[k]
    ensures HeapAround(Swapped(t, i, c), c) && Ordered(Swapped(t, i, c), c)
    ensures i >= 1 ==> Ordered(Swapped(t, i, c), i)
  {
    var t' := Swapped(t, i, c);
    forall k | 1 <= k < |t| && k != c && Parent(k) != c ensures Ordered(t', k) {
      if k != i && Parent(k) != i { assert Ordered(t, k); }
    }
    forall k | 1 <= k < |t| && Parent(k) == c ensures t'[Parent(c)] <= t'[k] {
      assert Ordered(t, k);
    }
  }

  /** Putting order back around i makes the whole a heap. */
  lemma AroundIsHeap(t: seq<int>, i: int)
    requires HeapAround(t, i) && ChildrenOrdered(t, i) && (1 <= i < |t| ==> Ordered(t, i))
    ensures IsHeap(t)
  {
  }

  /** Changing the due time of one entry of a heap disturbs it only around that entry. */
  lemma ChangeDisturbs(t: seq<int>, i: int, time: int)
    requires IsHeap(t) && 0 <= i < |t|
    ensures HeapAround(t[i := time], i)
  {
    var t' := t[i := time];
    forall k | 1 <= k < |t| && k != i && Parent(k) != i ensures Ordered(t', k) { assert Ordered(t, k); }
    forall k | 1 <= k < |t| && Parent(k) == i && i >= 1 ensures t'[Parent(i)] <= t'[k] {
      assert Ordered(t, k) && Ordered(t, i);
    }
  }

  /** Moving the last entry to the front and leaving the last position out disturbs a heap only at the front. */
  lemma PopDisturbs(t: seq<int>)
    requires IsHeap(t) && |t| >= 1
    ensures HeapAround(Swapped(t, 0, |t| - 1)[..|t| - 1], 0)
  {
    var t' := Swapped(t, 0, |t| - 1)[..|t| - 1];
    forall k | 1 <= k < |t'| && Parent(k) != 0 ensures Ordered(t', k) { assert Ordered(t, k); }
  }

  // ---------- What waits, and until when ----------

  /** A request for data that waits already can only make it due sooner. */
  function Requested(waiting: map<Data, int>, d: Data, readyAt: int): map<Data, int> {
    if d in waiting && waiting[d] <= readyAt then waiting else waiting[d := readyAt]
  }

  function Remaining(waiting: map<Data, int>, now: int): map<Data, int> {
    map d | d in waiting && waiting[d] > now :: waiting[d]
  }

  /** `emitted` lists, once each and by due time, the data that is due. */
  ghost predicate IsDue(waiting: map<Data, int>, now: int, emitted: seq<Data>) {
    && (forall d :: d in emitted <==> d in waiting && waiting[d] <= now)
    && (forall i, j | 0 <= i < j < |emitted| :: emitted[i] != emitted[j] && waiting[emitted[i]] <= waiting[emitted[j]])
  }

  /** Some due data has been emitted, and the rest is not due before it. */
  ghost predicate PartlyDrained(before: map<Data, int>, now: int, emitted: seq<Data>, waiting: map<Data, int>) {
    && waiting == before - (set d | d in emitted)
    && (forall d | d in emitted :: d in before && before[d] <= now)
    && (forall d, e | d in emitted && e in waiting :: before[d] <= before[e])
    && (forall i, j | 0 <= i < j < |emitted| :: emitted[i] != emitted[j] && before[emitted[i]] <= before[emitted[j]])
  }

  lemma EmitFirst(before: map<Data, int>, now: int, emitted: seq<Data>, waiting: map<Data, int>, d: Data)
    requires PartlyDrained(before, now, emitted, waiting)
    requires d in waiting && waiting[d] <= now && forall e | e in waiting :: waiting[d] <= waiting[e]
    ensures PartlyDrained(before, now, emitted + [d], waiting - {d})
  {
    assert (set e | e in emitted + [d]) == (set e | e in emitted) + {d};
  }

  lemma FullyDrained(before: map<Data, int>, now: int, emitted: seq<Data>, waiting: map<Data, int>)
    requires PartlyDrained(before, now, emitted, waiting) && forall d | d in waiting :: waiting[d] > now
    ensures IsDue(before, now, emitted) && waiting == Remaining(before, now)
  {
    assert forall d | d in before && d !in emitted :: d in waiting;
  }

  /** A turn of the waiting loop: a request arrives, which is only kept if it is still in the future, or what is due
      is handed out. */
  datatype Turn = Receive(data: Data, readyAt: int, now: int) | HandOut(now: int)

  function AfterTurns(turns: seq<Turn>): map<Data, int> {
    if turns == [] then map[] else
    var waiting := AfterTurns(turns[..|turns| - 1]);
    match turns[|turns| - 1]
    case Receive(d, readyAt, now) => if readyAt > now then Requested(waiting, d, readyAt) else waiting
    case HandOut(now) => Remaining(waiting, now)
  }

  /** The times kept for some data since it was last handed out. */
  function KeptTimes(turns: seq<Turn>, d: Data): seq<int> {
    if turns == [] then [] else
    var before := turns[..|turns| - 1];
    match turns[|turns| - 1]
    case Receive(e, readyAt, now) =>
      if e == d && readyAt > now then KeptTimes(before, d) + [readyAt] else KeptTimes(before, d)
    case HandOut(now) =>
      if d in AfterTurns(before) && AfterTurns(before)[d] <= now then [] else KeptTimes(before, d)
  }

  ghost predicate IsMinimum(times: seq<int>, t: int) {
    t in times && forall i | 0 <= i < |times| :: t <= times[i]
  }

  /** In every run, data waits exactly when a request for it was kept since it was last handed out, and then until the
      earliest of the times kept. */
  lemma {:induction false} WaitsForEarliest(turns: seq<Turn>, d: Data)
    ensures d in AfterTurns(turns) <==> KeptTimes(turns, d) != []
    ensures d in AfterTurns(turns) ==> IsMinimum(KeptTimes(turns, d), AfterTurns(turns)[d])
  {
    if turns != [] {
      WaitsForEarliest(turns[..|turns| - 1], d);
    }
  }

  // ---------- The heap of entries ----------

  /** An entry, with its position in the heap. */
  class WaitFor {
    const data: Data
    var readyAt: int
    var index: int

    constructor (data: Data, readyAt: int)
      ensures this.data == data && this.readyAt == readyAt
    {
      this.data, this.readyAt, index := data, readyAt, -1;
    }
  }

  /** The entries and the known data correspond one to one. */
  ghost predicate Linked(entries: set<WaitFor>, known: map<Data, WaitFor>) {
    && (forall x | x in entries :: x.data in known && known[x.data] == x)
    && (forall d | d in known :: known[d] in entries && known[d].data == d)
  }

  lemma LinkNew(entries: set<WaitFor>, known: map<Data, WaitFor>, x: WaitFor)
    requires Linked(entries, known) && x.data !in known
    ensures Linked(entries + {x}, known[x.data := x])
  {
  }

  lemma Unlink(entries: set<WaitFor>, known: map<Data, WaitFor>, x: WaitFor)
    requires Linked(entries, known) && x in entries
    ensures Linked(entries - {x}, known - {x.data}) && known[x.data] == x
  {
  }

  lemma WithoutLast(pq: seq<WaitFor>, front: seq<WaitFor>, last: WaitFor)
    requires pq == front + [last] && last !in front
    ensures (set x | x in front) == (set x | x in pq) - {last}
  {
  }

  /** `container/heap` on a slice of entries whose Swap keeps their index fields. */
  class WaitForPriorityQueue {
    var pq: seq<WaitFor>

    constructor ()
      ensures pq == [] && IsValid()
    {
      pq := [];
    }

    ghost predicate IsValid()
      reads this, pq
    {
      Indexed() && IsHeap(Times())
    }

    ghost function Entries(): set<WaitFor>
      reads this`pq
    {
      set x | x in pq
    }

    ghost function Times(): (t: seq<int>)
      reads this`pq, pq
      ensures |t| == |pq| && forall i | 0 <= i < |t| :: t[i] == pq[i].readyAt
    {
      var entries := pq;
      seq(|entries|, i requires 0 <= i < |entries| reads entries => entries[i].readyAt)
    }

    ghost predicate Indexed()
      reads this`pq, Entries()`index
    {
      forall i | 0 <= i < |pq| :: pq[i].index == i
    }

    method Swap(i: int, j: int)
      requires 0 <= i < |pq| && 0 <= j < |pq| && Indexed()
      modifies this`pq, Entries()`index
      ensures pq == Swapped(old(pq), i, j) && Times() == Swapped(old(Times()), i, j)
      ensures Indexed() && Entries() == old(Entries())
    {
      var x, y := pq[i], pq[j];
      pq := pq[i := y][j := x];
      y.index := i;
      x.index := j;
      SameEntries(old(pq), i, j);
    }

    /** Moves the entry at j0 up until its parent is not later. */
    method Up(j0: int)
      requires 0 <= j0 < |pq| && Indexed() && HeapAround(Times(), j0) && ChildrenOrdered(Times(), j0)
      modifies this`pq, Entries()`index
      ensures IsValid() && Entries() == old(Entries())
    {
      var j := j0;
      while j >= 1
        invariant 0 <= j < |pq| && Entries() == old(Entries()) && Indexed()
        invariant HeapAround(Times(), j) && ChildrenOrdered(Times(), j)
        decreases j
      {
        var i := Parent(j);
        if !(pq[j].readyAt < pq[i].readyAt) {
          break;
        }
        UpStep(Times(), j);
        Swap(i, j);
        j := i;
      }
      AroundIsHeap(Times(), j);
    }

    method EarlierChild(i: int, n: int) returns (j: int)
      requires 0 <= i && 2 * i + 1 < n <= |pq|
      ensures i < j < n && Parent(j) == i
      ensures forall k | 1 <= k < n && Parent(k) == i :: pq[j].readyAt <= pq[k].readyAt
    {
      var j1 := 2 * i + 1;
      j := j1;
      var j2 := j1 + 1;
      if j2 < n && pq[j2].readyAt < pq[j1].readyAt {
        j := j2;
      }
    }

    /** Exchanges the entry at i with its earlier child, unless no child is earlier. */
    method DownOnce(i: int, n: int) returns (next: int, ghost t: seq<int>)
      requires 0 <= i < n <= |pq| && Indexed() && HeapAround(Times()[..n], i)
      modifies this`pq, Entries()`index
      ensures Indexed() && Entries() == old(Entries()) && |pq| == old(|pq|) && pq[n..] == old(pq[n..])
      ensures i <= next < n && t == Times()[..n] && HeapAround(t, next)
      ensures next == i ==> pq == old(pq) && ChildrenOrdered(t, i)
      ensures next != i ==> Ordered(t, next)
    {
      next, t := i, Times()[..n];
      if 2 * i + 1 >= n {
        return;
      }
      var j := EarlierChild(i, n);
      if pq[j].readyAt < pq[i].readyAt {
        DownStep(t, i, j);
        Swap(i, j);
        assert Times()[..n] == Swapped(t, i, j);
        next, t := j, Times()[..n];
      }
    }

    /** Moves the entry at i0 down, within the first n positions, until its children are not earlier. */
    method Down(i0: int, n: int) returns (moved: bool)
      requires 0 <= i0 < n <= |pq| && Indexed() && HeapAround(Times()[..n], i0)
      modifies this`pq, Entries()`index
      ensures Indexed() && Entries() == old(Entries()) && |pq| == old(|pq|) && pq[n..] == old(pq[n..])
      ensures moved ==> IsHeap(Times()[..n])
      ensures !moved ==> pq == old(pq) && ChildrenOrdered(Times()[..n], i0)
    {
      hide HeapAround, ChildrenOrdered, Ordered, IsHeap;
      var i := i0;
      var next;
      ghost var t;
      next, t := DownOnce(i, n);
      while next != i
        invariant i0 <= i <= next < n && |pq| == old(|pq|) && Entries() == old(Entries()) && Indexed()
        invariant pq[n..] == old(pq[n..]) && t == Times()[..n] && HeapAround(t, next)
        invariant next == i ==> ChildrenOrdered(t, i)
        invariant next != i0 ==> Ordered(t, next)
        invariant next == i0 ==> pq == old(pq)
        decreases n - i
      {
        i := next;
        next, t := DownOnce(i, n);
      }
      moved := i > i0;
      if moved {
        AroundIsHeap(t, i);
      }
    }

    /** Restores the heap after the due time of the entry at i changed. */
    method Fix(i: int)
      requires 0 <= i < |pq| && Indexed() && HeapAround(Times(), i)
      modifies this`pq, Entries()`index
      ensures IsValid() && Entries() == old(Entries())
    {
      assert Times()[..|pq|] == Times();
      var moved := Down(i, |pq|);
      assert Times()[..|pq|] == Times();
      if !moved {
        Up(i);
      }
    }

    /** Changes the due time of an entry. */
    method Reschedule(x: WaitFor, readyAt: int)
      requires IsValid() && x in pq
      modifies this`pq, Entries()`index, x`readyAt
      ensures IsValid() && Entries() == old(Entries()) && x.readyAt == readyAt
    {
      ghost var t := Times();
      ChangeDisturbs(t, x.index, readyAt);
      x.readyAt := readyAt;
      assert Times() == t[x.index := readyAt];
      Fix(x.index);
    }

    method Push(x: WaitFor)
      requires IsValid() && x !in pq
      modifies this`pq, Entries()`index, x`index
      ensures IsValid() && Entries() == old(Entries()) + {x}
    {
      ghost var t := Times();
      x.index := |pq|;
      pq := pq + [x];
      assert Times() == t + [x.readyAt];
      assert forall k | 1 <= k < |t| :: Ordered(t, k) ==> Ordered(Times(), k);
      Up(|pq| - 1);
    }

    /** Exchanges the first entry with the last and restores the heap in front of it. */
    method MoveFirstToEnd()
      requires IsValid() && pq != []
      modifies this`pq, Entries()`index
      ensures Indexed() && Entries() == old(Entries()) && |pq| == old(|pq|)
      ensures pq[|pq| - 1] == old(pq)[0] && IsHeap(Times()[..|pq| - 1])
    {
      var n := |pq| - 1;
      PopDisturbs(Times());
      Swap(0, n);
      if n > 0 {
        ghost var last := pq[n..];
        var moved := Down(0, n);
        assert pq[n] == pq[n..][0];
        if !moved {
          AroundIsHeap(Times()[..n], 0);
        }
      }
    }

    /** Removes the entry that is due first. */
    method Pop() returns (x: WaitFor)
      requires IsValid() && pq != []
      modifies this`pq, Entries()`index
      ensures x == old(pq)[0] && Entries() == old(Entries()) - {x} && |pq| == old(|pq|) - 1
      ensures IsValid()
    {
      MoveFirstToEnd();
      ghost var full := pq;
      x := DropLast();
      WithoutLast(full, pq, x);
    }

    method DropLast() returns (x: WaitFor)
      requires pq != [] && Indexed() && IsHeap(Times()[..|pq| - 1])
      modifies this`pq, Entries()`index
      ensures old(pq) == pq + [x] && x !in pq && IsValid()
    {
      var n := |pq| - 1;
      x := pq[n];
      ghost var t := Times()[..n];
      pq := pq[..n];
      x.index := -1;
      assert Times() == t;
    }

    lemma FirstIsDueFirst(x: WaitFor)
      requires IsValid() && x in pq
      ensures pq[0].readyAt <= x.readyAt
    {
      var k :| 0 <= k < |pq| && pq[k] == x;
      RootIsMinimum(Times(), k);
    }
  }

  // ---------- The waiting entries ----------

  class WaitingEntries {
    const queue: WaitForPriorityQueue
    var known: map<Data, WaitFor>

    constructor ()
      ensures fresh(queue) && Valid() && Waiting() == map[]
    {
      queue := new WaitForPriorityQueue();
      known := map[];
    }

    ghost predicate Valid()
      reads this, queue, queue.pq
    {
      queue.IsValid() && Linked(queue.Entries(), known)
    }

    /** The waiting data with their due times. */
    ghost function Waiting(): map<Data, int>
      reads this`known, known.Values`readyAt
    {
      map d | d in known :: known[d].readyAt
    }

    method InsertNew(entry: WaitFor)
      requires Valid() && entry !in queue.pq && entry.data !in known
      modifies this, queue, queue.Entries()`index, entry`index
      ensures Valid() && Waiting() == old(Waiting())[entry.data := entry.readyAt]
    {
      hide WaitForPriorityQueue.IsValid;
      LinkNew(queue.Entries(), known, entry);
      queue.Push(entry);
      Remember(entry);
    }

    method Remember(entry: WaitFor)
      modifies this
      ensures known == old(known)[entry.data := entry] && Waiting() == old(Waiting())[entry.data := entry.readyAt]
    {
      known := known[entry.data := entry];
    }

    /** Adds an entry, or makes the known entry of its data due sooner. */
    method Insert(entry: WaitFor)
      requires Valid() && entry !in queue.pq
      modifies this, queue, queue.Entries(), entry`index
      ensures Valid() && Waiting() == Requested(old(Waiting()), entry.data, entry.readyAt)
    {
      hide WaitForPriorityQueue.IsValid, Linked;
      if entry.data in known {
        MakeSooner(entry.data, entry.readyAt);
        return;
      }
      InsertNew(entry);
    }

    method MakeSooner(d: Data, readyAt: int)
      requires Valid() && d in known
      modifies queue, queue.Entries()
      ensures Valid() && known == old(known) && Waiting() == Requested(old(Waiting()), d, readyAt)
    {
      hide WaitForPriorityQueue.IsValid;
      var existing := known[d];
      if existing.readyAt > readyAt {
        queue.Reschedule(existing, readyAt);
      }
    }

    lemma FirstOfWaiting()
      requires Valid() && queue.pq != []
      ensures var first := queue.pq[0];
        && first.data in Waiting() && Waiting()[first.data] == first.readyAt
        && forall e | e in Waiting() :: first.readyAt <= Waiting()[e]
    {
      assert queue.pq[0] in queue.Entries();
      forall e | e in Waiting() ensures queue.pq[0].readyAt <= Waiting()[e] { queue.FirstIsDueFirst(known[e]); }
    }

    /** Removes the entry that is due first, also from the known entries. */
    method RemoveFirst() returns (d: Data)
      requires Valid() && queue.pq != []
      modifies this, queue, queue.Entries()`index
      ensures Valid() && queue.Entries() <= old(queue.Entries()) && |queue.pq| == old(|queue.pq|) - 1
      ensures d == old(queue.pq)[0].data && Waiting() == old(Waiting()) - {d}
    {
      hide WaitForPriorityQueue.IsValid;
      Unlink(queue.Entries(), known, queue.pq[0]);
      var entry := queue.Pop();
      d := entry.data;
      Forget(d);
    }

    method Forget(d: Data)
      modifies this
      ensures known == old(known) - {d} && Waiting() == old(Waiting()) - {d}
    {
      known := known - {d};
    }

    /** Hands out the entries that are due, earliest first. */
    method Drain(now: int) returns (emitted: seq<Data>)
      requires Valid()
      modifies this, queue, queue.Entries()`index
      ensures Valid() && Waiting() == Remaining(old(Waiting()), now) && IsDue(old(Waiting()), now, emitted)
    {
      emitted := [];
      ghost var before := Waiting();
      while |queue.pq| > 0 && queue.pq[0].readyAt <= now
        invariant Valid() && queue.Entries() <= old(queue.Entries())
        invariant PartlyDrained(before, now, emitted, Waiting())
        decreases |queue.pq|
      {
        ghost var waiting := Waiting();
        FirstOfWaiting();
        var d := RemoveFirst();
        EmitFirst(before, now, emitted, waiting, d);
        emitted := emitted + [d];
      }
      if |queue.pq| > 0 {
        FirstOfWaiting();
      }
      FullyDrained(before, now, emitted, Waiting());
    }
  }

  lemma SameEntries(pq: seq<WaitFor>, i: int, j: int)
    requires 0 <= i < |pq| && 0 <= j < |pq|
    ensures forall x :: x in Swapped(pq, i, j) <==> x in pq
  {
    var pq' := Swapped(pq, i, j);
    assert multiset(pq') == multiset(pq);
    forall x ensures x in pq' <==> x in pq {
      assert x in pq' <==> x in multiset(pq');
    }
  }
}
