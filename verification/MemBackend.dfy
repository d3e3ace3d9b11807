/**
 The in-memory event store: active streams live in a map, completed streams in an LRU buffer from which the oldest are
 evicted when space runs out.

 The LRU library is assumed to call the eviction callback on every removal, also on an explicit one. Promoting a
 completed stream back to the active ones therefore lowers the entry counter although no stream is gone.
 */
module MemBackend {
  import opened Types
  import Projection

  type Key = Aggregate
  type Events = seq<Event>

  // ---------- The LRU buffer ----------

  /** Keys from the least to the most recently used. */
  datatype Lru = Lru(order: seq<Key>, values: map<Key, Events>)

  function Without(order: seq<Key>, key: Key): seq<Key> {
    if order == [] then []
    else if order[0] == key then Without(order[1..], key)
    else [order[0]] + Without(order[1..], key)
  }

  ghost predicate LruInv(l: Lru) {
    Distinct(l.order) && forall k :: k in l.order <==> k in l.values
  }

  function Touch(l: Lru, key: Key): Lru {
    if key in l.values then l.(order := Without(l.order, key) + [key]) else l
  }

  function Remove(l: Lru, key: Key): Lru {
    Lru(Without(l.order, key), l.values - {key})
  }

  function Push(l: Lru, key: Key, events: Events): Lru {
    Lru(Without(l.order, key) + [key], l.values[key := events])
  }

  lemma {:induction false} WithoutKey(order: seq<Key>, key: Key)
    ensures forall k :: k in Without(order, key) <==> k in order && k != key
    ensures Distinct(order) ==> Distinct(Without(order, key))
    ensures Distinct(order) ==> |Without(order, key)| == |order| - if key in order then 1 else 0
    ensures key !in order ==> Without(order, key) == order
  {
    if order != [] {
      var rest := order[1..];
      WithoutKey(rest, key);
      assert order == [order[0]] + rest;
      if Distinct(order) {
        assert order[0] !in rest;
      }
    }
  }

  // ---------- Specification of the store ----------

  datatype Store = Store(maxKeys: nat, maxEvents: nat, store: map<Key, Events>, buf: Lru, entries: int)

  datatype Outcome = Accepted | InvalidEvent | StoreOverflow | EventLimitExceeded

  datatype Effect = Effect(store: Store, outcome: Outcome)

  /** A limit of zero keys means no limit, up to the largest 32-bit integer. */
  function NewStore(maxKeys: int, maxEvents: int): Store {
    Store(if maxKeys <= 0 then 0x7fff_ffff else maxKeys, if maxEvents > 0 then maxEvents else 0, map[], Lru([], map[]), 0)
  }

  function Lookup(s: Store, key: Key): Events {
    if key in s.store then s.store[key] else if key in s.buf.values then s.buf.values[key] else []
  }

  function EvictOldest(s: Store): Store
    requires s.buf.order != []
  {
    s.(buf := Remove(s.buf, s.buf.order[0]), entries := s.entries - 1)
  }

  predicate MustEvict(s: Store) {
    s.entries >= s.maxKeys && s.buf.order != []
  }

  /** Evicts completed streams until the counter is below the limit or none is left. */
  function Fit(s: Store): Store
    decreases |s.buf.order|
  {
    if MustEvict(s) then
      WithoutShorter(s.buf.order);
      Fit(EvictOldest(s))
    else s
  }

  lemma {:induction false} WithoutLonger(order: seq<Key>, key: Key)
    ensures |Without(order, key)| <= |order|
  {
    if order != [] { WithoutLonger(order[1..], key); }
  }

  lemma WithoutShorter(order: seq<Key>)
    requires order != []
    ensures |Without(order, order[0])| < |order|
  {
    WithoutLonger(order[1..], order[0]);
  }

  /** Moves an active stream to the buffer, which evicts the oldest stream when it is full. */
  function Demote(s: Store, key: Key, events: Events): Store {
    var s' := s.(store := s.store - {key}, buf := Push(s.buf, key, events));
    if |s'.buf.order| > s.maxKeys then EvictOldest(s') else s'
  }

  /** Stores a stream that has just been extended with `e`. */
  function Keep(s: Store, key: Key, events: Events, e: Event): Store {
    var stream := events + [e];
    var active := s.(store := s.store[key := stream]);
    if e.completed then Demote(active, key, stream) else active
  }

  /** Moves a completed stream back to the active ones; the removal from the buffer counts as an eviction. */
  function Promoted(s: Store, key: Key): Store
    requires key in s.buf.values
  {
    s.(buf := Remove(Touch(s.buf, key), key), store := s.store[key := s.buf.values[key]], entries := s.entries - 1)
  }

  predicate Full(s: Store, events: Events) {
    s.maxEvents > 0 && |events| > s.maxEvents
  }

  function Append(s: Store, e: Event): Effect {
    var key := e.Key();
    if !Projection.ValidEvent(e) then Effect(s, InvalidEvent)
    else if key in s.store then
      if Full(s, s.store[key]) then Effect(s, EventLimitExceeded)
      else Effect(Keep(s, key, s.store[key], e), Accepted)
    else if key in s.buf.values then
      var events := s.buf.values[key];
      if Full(s, events) then Effect(s.(buf := Touch(s.buf, key)), EventLimitExceeded)
      else Effect(Keep(Promoted(s, key), key, events, e), Accepted)
    else
      var fit := Fit(s);
      if fit.entries >= s.maxKeys then Effect(fit, StoreOverflow) else
      var kept := Keep(fit, key, [], e);
      Effect(kept.(entries := kept.entries + 1), Accepted)
  }

  function AfterFind(s: Store, key: Key): Store {
    if key in s.store then s else s.(buf := Touch(s.buf, key))
  }

  function AfterGet(s: Store, key: Key): Store {
    if key.id == "" then s else AfterFind(s, key)
  }

  // ---------- The backend ----------

  /** Append and Get run under the lock of the backend, so each is one step. */
  class Backend {
    const maxKeys: nat
    const maxEvents: nat
    var store: map<Key, Events>
    var buf: Lru
    var entries: int

    constructor (maxKeys: int, maxEvents: int)
      ensures State() == NewStore(maxKeys, maxEvents)
    {
      this.maxKeys := if maxKeys <= 0 then 0x7fff_ffff else maxKeys;
      this.maxEvents := if maxEvents > 0 then maxEvents else 0;
      store, buf, entries := map[], Lru([], map[]), 0;
    }

    ghost function State(): Store
      reads this
    {
      Store(maxKeys, maxEvents, store, buf, entries)
    }

    /** Reading a completed stream makes it the most recently used one. */
    method Find(key: Key) returns (events: Events)
      modifies this
      ensures events == Lookup(old(State()), key) && State() == AfterFind(old(State()), key)
    {
      if key in store {
        return store[key];
      }
      if key in buf.values {
        events := buf.values[key];
        buf := Touch(buf, key);
        return;
      }
      return [];
    }

    /** A key without an identifier is an error. */
    method Get(key: Key) returns (events: Option<Events>)
      modifies this
      ensures events == if key.id == "" then None else Some(Lookup(old(State()), key))
      ensures State() == AfterGet(old(State()), key)
    {
      if key.id == "" {
        return None;
      }
      var found := Find(key);
      return Some(found);
    }

    /** Evicts until the size no longer changes or is below the limit. */
    method FitBuffer() returns (fits: bool)
      requires maxKeys > 0
      modifies this
      ensures State() == Fit(old(State())) && (fits <==> entries < maxKeys)
    {
      var last := -1;
      var size := entries;
      while size != last && size >= maxKeys
        invariant size == entries && Fit(State()) == Fit(old(State()))
        invariant size == last && size >= maxKeys ==> buf.order == []
        decreases |buf.order|, size != last
      {
        last := size;
        if buf.order != [] {
          WithoutShorter(buf.order);
          buf := Remove(buf, buf.order[0]);
          entries := entries - 1;
        }
        size := entries;
      }
      fits := size < maxKeys;
    }

    method Promote(key: Key)
      requires key in buf.values && key !in store
      modifies this
      ensures State() == Promoted(old(State()), key)
    {
      var events := buf.values[key];
      buf := Touch(buf, key);
      buf := Remove(buf, key);
      entries := entries - 1;
      store := store[key := events];
    }

    method DemoteKey(key: Key)
      requires key in store
      modifies this
      ensures State() == Demote(old(State()), key, old(store)[key])
    {
      var events := store[key];
      store := store - {key};
      buf := Push(buf, key, events);
      if |buf.order| > maxKeys {
        buf := Remove(buf, buf.order[0]);
        entries := entries - 1;
      }
    }

    method AppendEvent(e: Event) returns (outcome: Outcome)
      requires maxKeys > 0
      modifies this
      ensures State() == Append(old(State()), e).store && outcome == Append(old(State()), e).outcome
    {
      if !Projection.ValidEvent(e) {
        return InvalidEvent;
      }
      var key := e.Key();
      var fromStore, known := key in store, key in store || key in buf.values;
      var events := Find(key);
      if !known {
        var fits := FitBuffer();
        FitKeepsStore(old(State()));
        if !fits {
          return StoreOverflow;
        }
      }
      if maxEvents > 0 && |events| > maxEvents {
        return EventLimitExceeded;
      }
      if !fromStore && known {
        Promote(key);
        TouchTwice(old(buf), key);
      }
      store := store[key := events + [e]];
      if e.completed {
        DemoteKey(key);
      }
      if !known {
        entries := entries + 1;
      }
      return Accepted;
    }
  }

  lemma {:induction false} FitKeepsStore(s: Store)
    ensures Fit(s).store == s.store && Fit(s).maxKeys == s.maxKeys && Fit(s).maxEvents == s.maxEvents
    ensures forall k | k in Fit(s).buf.values :: k in s.buf.values && Fit(s).buf.values[k] == s.buf.values[k]
    decreases |s.buf.order|
  {
    if MustEvict(s) {
      WithoutShorter(s.buf.order);
      FitKeepsStore(EvictOldest(s));
    }
  }

  lemma {:induction false} WithoutTwice(order: seq<Key>, key: Key)
    ensures Without(Without(order, key), key) == Without(order, key)
    ensures Without(order + [key], key) == Without(order, key)
  {
    if order != [] {
      assert (order + [key])[1..] == order[1..] + [key];
      WithoutTwice(order[1..], key);
    }
  }

  lemma TouchTwice(l: Lru, key: Key)
    requires key in l.values
    ensures Remove(Touch(Touch(l, key), key), key) == Remove(Touch(l, key), key)
  {
    var once := Without(l.order, key);
    WithoutTwice(l.order, key);
    WithoutTwice(once, key);
    WithoutTwice(Without(once + [key], key), key);
  }

  // ---------- What every operation keeps ----------

  predicate Bounded(maxEvents: nat, events: Events) {
    events != [] && (maxEvents > 0 ==> |events| <= maxEvents + 1)
  }

  predicate EndsCompleted(events: Events) {
    events != [] && events[|events| - 1].completed
  }

  predicate AllActive(maxEvents: nat, store: map<Key, Events>) {
    forall k | k in store :: Bounded(maxEvents, store[k]) && !EndsCompleted(store[k])
  }

  predicate AllCompleted(maxEvents: nat, values: map<Key, Events>) {
    forall k | k in values :: Bounded(maxEvents, values[k]) && EndsCompleted(values[k])
  }

  /** Streams that wait for their completion are in the map, and completed streams in the buffer. */
  ghost predicate StreamsInv(s: Store) {
    AllActive(s.maxEvents, s.store) && AllCompleted(s.maxEvents, s.buf.values) && s.store.Keys !! s.buf.values.Keys
  }

  ghost predicate Inv(s: Store) {
    LruInv(s.buf) && StreamsInv(s) && s.maxKeys > 0 && s.entries <= s.maxKeys && |s.buf.order| <= s.maxKeys
  }

  /** How far the counter is below the number of streams. */
  function Surplus(s: Store): int {
    |s.store| + |s.buf.order| - s.entries
  }

  /** The event reactivates a completed stream. */
  predicate Promotes(s: Store, e: Event) {
    Projection.ValidEvent(e) && e.Key() !in s.store && e.Key() in s.buf.values && !Full(s, s.buf.values[e.Key()])
  }

  /** Appending `e` costs the store the stream of `k`: it is the one at the front of the buffer, and room is needed for a
      new stream or, in a full buffer, for the stream that `e` completes. */
  predicate Loses(s: Store, e: Event, k: Key) {
    var key := e.Key();
    && s.buf.order != [] && k == s.buf.order[0] && Projection.ValidEvent(e) && key !in s.buf.values
    && ((key !in s.store && s.entries == s.maxKeys)
        || (e.completed && |s.buf.order| == s.maxKeys && !Full(s, Base(s, key))))
  }

  lemma EvictKeeps(s: Store, key: Key)
    requires LruInv(s.buf) && StreamsInv(s) && s.buf.order != []
    ensures LruInv(EvictOldest(s).buf) && StreamsInv(EvictOldest(s))
    ensures |EvictOldest(s).buf.order| == |s.buf.order| - 1 && Surplus(EvictOldest(s)) == Surplus(s)
    ensures Lookup(EvictOldest(s), key) == if key == s.buf.order[0] then [] else Lookup(s, key)
  {
    var oldest := s.buf.order[0];
    assert oldest in s.buf.order;
    WithoutKey(s.buf.order, oldest);
  }

  /** As long as the counter does not exceed the limit, making room evicts at most one stream. */
  lemma FitOnce(s: Store)
    requires Inv(s)
    ensures Fit(s) == if MustEvict(s) then EvictOldest(s) else s
  {
    if MustEvict(s) {
      assert !MustEvict(EvictOldest(s));
    }
  }

  lemma FitKeeps(s: Store, key: Key)
    requires Inv(s)
    ensures Inv(Fit(s)) && Surplus(Fit(s)) == Surplus(s) && Fit(s).store == s.store && Fit(s).maxKeys == s.maxKeys
    ensures Lookup(Fit(s), key) == if MustEvict(s) && key == s.buf.order[0] then [] else Lookup(s, key)
    ensures Fit(s).entries >= s.maxKeys <==> s.buf.order == [] && s.entries == s.maxKeys
    ensures Fit(s).entries >= s.maxKeys ==> Fit(s) == s
    ensures MustEvict(s) ==> |Fit(s).buf.order| < s.maxKeys
    ensures forall x | x in Fit(s).buf.values :: x in s.buf.values
  {
    FitOnce(s);
    if MustEvict(s) {
      EvictKeeps(s, key);
    }
  }

  /** The streams other than that of `key` are as they should be, and `key` is not in the buffer. */
  ghost predicate OthersInv(s: Store, key: Key) {
    && LruInv(s.buf) && AllActive(s.maxEvents, s.store - {key}) && AllCompleted(s.maxEvents, s.buf.values)
    && s.store.Keys !! s.buf.values.Keys && key !in s.buf.values
    && s.maxKeys > 0 && |s.buf.order| <= s.maxKeys
  }

  /** The stream of `key` before it is extended. */
  function Base(s: Store, key: Key): Events {
    if key in s.store then s.store[key] else []
  }

  lemma SizeWithout(m: map<Key, Events>, key: Key)
    ensures |m - {key}| == |m| - (if key in m then 1 else 0)
  {
    assert (m - {key}).Keys == m.Keys - {key};
  }

  lemma SizeWith(m: map<Key, Events>, key: Key, events: Events)
    ensures |m[key := events]| == |m| + (if key in m then 0 else 1)
  {
    assert m[key := events].Keys == m.Keys + {key};
  }

  lemma DemoteKeeps(s: Store, key: Key, events: Events, k: Key)
    requires OthersInv(s, key) && key in s.store && s.store[key] == events
    requires Bounded(s.maxEvents, events) && EndsCompleted(events)
    ensures var r := Demote(s, key, events);
      && LruInv(r.buf) && StreamsInv(r) && |r.buf.order| <= s.maxKeys
      && Surplus(r) == Surplus(s) && r.entries <= s.entries && r.maxKeys == s.maxKeys && r.maxEvents == s.maxEvents
      && Lookup(r, k) == if |s.buf.order| == s.maxKeys && k == s.buf.order[0] then [] else Lookup(s, k)
  {
    var s' := s.(store := s.store - {key}, buf := Push(s.buf, key, events));
    WithoutKey(s.buf.order, key);
    SizeWithout(s.store, key);
    assert LruInv(s'.buf);
    assert Lookup(s', k) == Lookup(s, k);
    if |s'.buf.order| > s.maxKeys {
      EvictKeeps(s', k);
    }
  }

  lemma KeepKeeps(s: Store, key: Key, e: Event, k: Key)
    requires OthersInv(s, key) && e.Key() == key && !Full(s, Base(s, key))
    ensures var r := Keep(s, key, Base(s, key), e);
      && LruInv(r.buf) && StreamsInv(r) && |r.buf.order| <= s.maxKeys
      && r.entries <= s.entries && r.maxKeys == s.maxKeys && r.maxEvents == s.maxEvents
      && Surplus(r) == Surplus(s) + (if key in s.store then 0 else 1)
      && Lookup(r, k) ==
           if k == key then Base(s, key) + [e]
           else if e.completed && |s.buf.order| == s.maxKeys && k == s.buf.order[0] then []
           else Lookup(s, k)
  {
    var stream := Base(s, key) + [e];
    var active := s.(store := s.store[key := stream]);
    SizeWith(s.store, key, stream);
    assert active.store - {key} == s.store - {key};
    assert Bounded(s.maxEvents, stream) && (EndsCompleted(stream) <==> e.completed);
    assert |s.buf.order| == s.maxKeys ==> s.buf.order[0] in s.buf.order;
    if e.completed {
      DemoteKeeps(active, key, stream, k);
    } else {
      ActiveWith(s.maxEvents, s.store, key, stream);
    }
  }

  lemma ActiveWith(maxEvents: nat, store: map<Key, Events>, key: Key, stream: Events)
    requires AllActive(maxEvents, store - {key}) && Bounded(maxEvents, stream) && !EndsCompleted(stream)
    ensures AllActive(maxEvents, store[key := stream])
  {
    forall k | k in store[key := stream] && k != key
      ensures Bounded(maxEvents, store[k]) && !EndsCompleted(store[k])
    {
      assert k in store - {key} && (store - {key})[k] == store[k];
    }
  }

  /** What every append leaves of each stream: the stream of the event is extended if the event was accepted, one stream
      may be lost, and every other one is as before. */
  ghost predicate Extends(s: Store, e: Event, r: Effect, k: Key) {
    Lookup(r.store, k) ==
      if k == e.Key() && r.outcome == Accepted then Lookup(s, k) + [e]
      else if Loses(s, e, k) then []
      else Lookup(s, k)
  }

  lemma AppendActive(s: Store, e: Event, k: Key)
    requires Inv(s) && Projection.ValidEvent(e) && e.Key() in s.store
    ensures var r := Append(s, e); Inv(r.store) && Surplus(r.store) == Surplus(s) && Extends(s, e, r, k)
  {
    if !Full(s, s.store[e.Key()]) {
      KeepKeeps(s, e.Key(), e, k);
    }
  }

  lemma TouchKeeps(s: Store, key: Key, k: Key)
    requires Inv(s)
    ensures var s' := s.(buf := Touch(s.buf, key));
      Inv(s') && Surplus(s') == Surplus(s) && Lookup(s', k) == Lookup(s, k) && s'.buf.values == s.buf.values
  {
    WithoutKey(s.buf.order, key);
  }

  lemma AppendCompleted(s: Store, e: Event, k: Key)
    requires Inv(s) && Projection.ValidEvent(e) && e.Key() !in s.store && e.Key() in s.buf.values
    ensures var r := Append(s, e);
      && Inv(r.store) && Surplus(r.store) == Surplus(s) + (if Promotes(s, e) then 1 else 0)
      && Extends(s, e, r, k)
  {
    var key := e.Key();
    if Full(s, s.buf.values[key]) {
      TouchKeeps(s, key, k);
    } else {
      PromoteKeeps(s, key, k);
      KeepKeeps(Promoted(s, key), key, e, k);
    }
  }

  lemma RemovedFromBuffer(l: Lru, key: Key)
    requires LruInv(l) && key in l.values
    ensures var l' := Remove(Touch(l, key), key);
      LruInv(l') && |l'.order| == |l.order| - 1 && l'.values == l.values - {key}
  {
    WithoutKey(l.order, key);
    WithoutKey(Touch(l, key).order, key);
  }

  lemma PromoteKeeps(s: Store, key: Key, k: Key)
    requires Inv(s) && key !in s.store && key in s.buf.values
    ensures var s' := Promoted(s, key);
      && OthersInv(s', key) && Surplus(s') == Surplus(s) + 1 && Lookup(s', k) == Lookup(s, k)
      && |s'.buf.order| < s.maxKeys
  {
    RemovedFromBuffer(s.buf, key);
    SizeWith(s.store, key, s.buf.values[key]);
    hide Touch, Remove, LruInv, Bounded, EndsCompleted;
    assert Promoted(s, key).store - {key} == s.store;
  }

  lemma KeepNew(s: Store, e: Event, k: Key)
    requires Inv(s) && e.Key() !in s.store && e.Key() !in s.buf.values && s.entries < s.maxKeys
    ensures var r := Keep(s, e.Key(), [], e); var s' := r.(entries := r.entries + 1);
      && Inv(s') && Surplus(s') == Surplus(s)
      && Lookup(s', k) ==
           if k == e.Key() then [e]
           else if e.completed && |s.buf.order| == s.maxKeys && k == s.buf.order[0] then []
           else Lookup(s, k)
  {
    assert s.store - {e.Key()} == s.store;
    KeepKeeps(s, e.Key(), e, k);
  }

  lemma AppendNew(s: Store, e: Event, k: Key)
    requires Inv(s) && Projection.ValidEvent(e) && e.Key() !in s.store && e.Key() !in s.buf.values
    ensures var r := Append(s, e);
      && Inv(r.store) && Surplus(r.store) == Surplus(s) && Extends(s, e, r, k)
      && (r.outcome == StoreOverflow <==> s.buf.order == [] && s.entries == s.maxKeys)
  {
    var fit := Fit(s);
    FitKeeps(s, k);
    FitOnce(s);
    assert s.buf.order != [] ==> s.buf.order[0] in s.buf.order;
    if fit.entries < s.maxKeys {
      KeepNew(fit, e, k);
    }
  }

  /** Appending keeps the store consistent and every stream but the two that it may touch, and lowers the counter
      against the number of streams exactly when it reactivates a completed stream. */
  lemma AppendKeeps(s: Store, e: Event, k: Key)
    requires Inv(s)
    ensures var r := Append(s, e);
      && Inv(r.store) && Surplus(r.store) == Surplus(s) + (if Promotes(s, e) then 1 else 0)
      && Extends(s, e, r, k)
  {
    if Projection.ValidEvent(e) {
      if e.Key() in s.store {
        AppendActive(s, e, k);
      } else if e.Key() in s.buf.values {
        AppendCompleted(s, e, k);
      } else {
        AppendNew(s, e, k);
      }
    }
  }

  lemma LimitsStay(s: Store, e: Event)
    ensures Append(s, e).store.maxKeys == s.maxKeys && Append(s, e).store.maxEvents == s.maxEvents
  {
    FitKeepsStore(s);
  }

  /** A stream is never empty, and the two tiers are told apart by its last event. */
  lemma LookupMeans(s: Store, key: Key)
    requires Inv(s)
    ensures Lookup(s, key) == [] <==> key !in s.store && key !in s.buf.values
    ensures key in s.store ==> s.store[key] == Lookup(s, key) && !EndsCompleted(Lookup(s, key))
    ensures key in s.buf.values ==> s.buf.values[key] == Lookup(s, key) && EndsCompleted(Lookup(s, key))
    ensures s.maxEvents > 0 ==> |Lookup(s, key)| <= s.maxEvents + 1
  {
    assert key in s.store ==> Bounded(s.maxEvents, s.store[key]) && !EndsCompleted(s.store[key]);
    assert key in s.buf.values ==> Bounded(s.maxEvents, s.buf.values[key]) && EndsCompleted(s.buf.values[key]);
  }

  /** The answer to an append tells what it did: an event is acknowledged exactly when its stream holds it from then on,
      and refused exactly for one of three reasons, and then no stream is changed. */
  lemma AppendAnswers(s: Store, e: Event, k: Key)
    requires Inv(s)
    ensures var r, stream := Append(s, e), Lookup(s, e.Key());
      && (r.outcome == Accepted <==> Lookup(r.store, e.Key()) == stream + [e])
      && (r.outcome == InvalidEvent <==> !Projection.ValidEvent(e))
      && (r.outcome == EventLimitExceeded <==> Projection.ValidEvent(e) && s.maxEvents > 0 && |stream| > s.maxEvents)
      && (r.outcome == StoreOverflow <==>
            Projection.ValidEvent(e) && stream == [] && s.buf.order == [] && s.entries == s.maxKeys)
      && (r.outcome != Accepted ==> Lookup(r.store, k) == Lookup(s, k))
  {
    var key := e.Key();
    OutcomeMeans(s, e);
    AppendKeeps(s, e, key);
    AppendKeeps(s, e, k);
    RefusedLosesNothing(s, e, k);
    RefusedLosesNothing(s, e, key);
    hide Append, Loses, Lookup, Inv;
  }

  lemma OutcomeMeans(s: Store, e: Event)
    requires Inv(s)
    ensures var r, stream := Append(s, e), Lookup(s, e.Key());
      && (r.outcome == InvalidEvent <==> !Projection.ValidEvent(e))
      && (r.outcome == EventLimitExceeded <==> Projection.ValidEvent(e) && s.maxEvents > 0 && |stream| > s.maxEvents)
      && (r.outcome == StoreOverflow <==>
            Projection.ValidEvent(e) && stream == [] && s.buf.order == [] && s.entries == s.maxKeys)
  {
    LookupMeans(s, e.Key());
    FitKeeps(s, e.Key());
    hide Inv, Fit, Keep;
  }

  lemma RefusedLosesNothing(s: Store, e: Event, k: Key)
    requires Inv(s)
    ensures Loses(s, e, k) ==> Append(s, e).outcome == Accepted && k != e.Key()
  {
    assert s.buf.order != [] ==> s.buf.order[0] in s.buf.order;
    FitKeeps(s, k);
  }

  // ---------- Runs ----------

  datatype Op = Write(event: Event) | Read(key: Key)

  function Perform(s: Store, op: Op): Effect {
    match op
    case Write(e) => Append(s, e)
    case Read(key) => Effect(AfterGet(s, key), Accepted)
  }

  function After(s: Store, ops: seq<Op>): Store {
    if ops == [] then s else Perform(After(s, ops[..|ops| - 1]), ops[|ops| - 1]).store
  }

  function Promotions(s: Store, ops: seq<Op>): nat {
    if ops == [] then 0 else
    var before, op := ops[..|ops| - 1], ops[|ops| - 1];
    Promotions(s, before) + if op.Write? && Promotes(After(s, before), op.event) then 1 else 0
  }

  /** The events of a stream that were written and acknowledged, in order. */
  function Acknowledged(s: Store, ops: seq<Op>, key: Key): Events {
    if ops == [] then [] else
    var before, op := ops[..|ops| - 1], ops[|ops| - 1];
    var events := Acknowledged(s, before, key);
    if op.Write? && op.event.Key() == key && Perform(After(s, before), op).outcome == Accepted then events + [op.event]
    else events
  }

  /** How many of them there were when the store last held nothing of the stream. */
  function Gone(s: Store, ops: seq<Op>, key: Key): nat {
    if ops == [] then 0
    else if Lookup(After(s, ops), key) == [] then |Acknowledged(s, ops, key)|
    else Gone(s, ops[..|ops| - 1], key)
  }

  lemma {:induction false} RunKeeps(maxKeys: int, maxEvents: int, ops: seq<Op>)
    ensures var s, now := NewStore(maxKeys, maxEvents), After(NewStore(maxKeys, maxEvents), ops);
      && Inv(now) && now.maxKeys == s.maxKeys && now.maxEvents == s.maxEvents
      && Surplus(now) == Promotions(s, ops)
  {
    var s := NewStore(maxKeys, maxEvents);
    if ops != [] {
      var before, op := ops[..|ops| - 1], ops[|ops| - 1];
      var mid := After(s, before);
      RunKeeps(maxKeys, maxEvents, before);
      match op
      case Write(e) =>
        AppendKeeps(mid, e, e.Key());
        LimitsStay(mid, e);
      case Read(k) => TouchKeeps(mid, k, k);
    }
  }

  /** What one operation does to the stream of a key. */
  lemma OperationKeeps(s: Store, op: Op, key: Key)
    requires Inv(s)
    ensures var r := Perform(s, op);
      var written := op.Write? && op.event.Key() == key && r.outcome == Accepted;
      && (written ==> Lookup(r.store, key) == Lookup(s, key) + [op.event])
      && (!written ==> Lookup(r.store, key) == Lookup(s, key)
                       || (Lookup(r.store, key) == [] && EndsCompleted(Lookup(s, key))))
  {
    match op
    case Write(e) =>
      AppendKeeps(s, e, key);
      LookupMeans(s, key);
      if Loses(s, e, key) { assert s.buf.order[0] in s.buf.order; }
    case Read(k) => TouchKeeps(s, k, key);
  }

  /** The store holds the acknowledged events of each stream since it was last gone. */
  lemma {:induction false} RunHolds(maxKeys: int, maxEvents: int, ops: seq<Op>, key: Key)
    ensures var s := NewStore(maxKeys, maxEvents);
      var all, gone := Acknowledged(s, ops, key), Gone(s, ops, key);
      gone <= |all| && Lookup(After(s, ops), key) == all[gone..] && (gone > 0 ==> all[gone - 1].completed)
  {
    hide Append, Inv, AfterGet;
    var s := NewStore(maxKeys, maxEvents);
    if ops != [] {
      var before, op := ops[..|ops| - 1], ops[|ops| - 1];
      RunHolds(maxKeys, maxEvents, before, key);
      RunKeeps(maxKeys, maxEvents, before);
      OperationKeeps(After(s, before), op, key);
      StillHolds(Acknowledged(s, before, key), Gone(s, before, key), Acknowledged(s, ops, key), Gone(s, ops, key),
                 Lookup(After(s, before), key), Lookup(After(s, ops), key));
    }
  }

  lemma StillHolds(all: Events, gone: nat, all': Events, gone': nat, stream: Events, stream': Events)
    requires gone <= |all| && stream == all[gone..] && (gone > 0 ==> all[gone - 1].completed)
    requires gone' == if stream' == [] then |all'| else gone
    requires
      || (|all'| == |all| + 1 && all'[..|all|] == all && stream' == stream + [all'[|all|]])
      || (all' == all && stream' == stream)
      || (all' == all && stream' == [] && EndsCompleted(stream))
    ensures gone' <= |all'| && stream' == all'[gone'..] && (gone' > 0 ==> all'[gone' - 1].completed)
  {
    if |all'| == |all| + 1 {
      assert all' == all + [all'[|all|]];
    } else if stream' == [] && stream != [] {
      assert stream[|stream| - 1] == all[|all| - 1];
    }
  }

  /** In every run the two-tier store holds, for each key, the events acknowledged for it, in order, since it last held
      none; what it no longer holds ended with a completed stream. A stream is in the buffer exactly when the last of its
      events completed it. */
  lemma StoreRefinesLog(maxKeys: int, maxEvents: int, ops: seq<Op>, key: Key)
    ensures var s, now := NewStore(maxKeys, maxEvents), After(NewStore(maxKeys, maxEvents), ops);
      var all, gone := Acknowledged(s, ops, key), Gone(s, ops, key);
      && gone <= |all| && Lookup(now, key) == all[gone..]
      && (gone > 0 ==> all[gone - 1].completed)
      && (key in now.store <==> gone < |all| && !all[|all| - 1].completed)
      && (key in now.buf.values <==> gone < |all| && all[|all| - 1].completed)
      && (maxEvents > 0 ==> |all| - gone <= maxEvents + 1)
  {
    RunHolds(maxKeys, maxEvents, ops, key);
    RunKeeps(maxKeys, maxEvents, ops);
    hide After, Acknowledged, Gone, Inv;
    LookupMeans(After(NewStore(maxKeys, maxEvents), ops), key);
  }

  /** In every run an event is acknowledged exactly when its stream holds it from then on. It is refused exactly when it
      is not valid, or its stream has more events than allowed, or it starts a stream, no completed stream is left to
      evict and the active streams exceed the limit by the number of reactivations so far. A refused event changes no
      stream. A limit of zero or less means the largest 32-bit integer for streams and no limit for events. */
  lemma WritesAreAnswered(maxKeys: int, maxEvents: int, ops: seq<Op>, e: Event, k: Key)
    ensures var s, now := NewStore(maxKeys, maxEvents), After(NewStore(maxKeys, maxEvents), ops);
      var r, stream := Append(now, e), Lookup(now, e.Key());
      && (r.outcome == Accepted <==> Lookup(r.store, e.Key()) == stream + [e])
      && (r.outcome == InvalidEvent <==> !Projection.ValidEvent(e))
      && (r.outcome == EventLimitExceeded <==> Projection.ValidEvent(e) && maxEvents > 0 && |stream| > maxEvents)
      && (r.outcome == StoreOverflow <==>
            && Projection.ValidEvent(e) && stream == [] && now.buf.order == []
            && |now.store| == (if maxKeys <= 0 then 0x7fff_ffff else maxKeys) + Promotions(s, ops))
      && (r.outcome != Accepted ==> Lookup(r.store, k) == Lookup(now, k))
  {
    RunKeeps(maxKeys, maxEvents, ops);
    AppendAnswers(After(NewStore(maxKeys, maxEvents), ops), e, k);
  }

  /** In every run the counter is the number of streams minus the number of reactivations so far, and never exceeds
      the limit. So without reactivations the streams never exceed the limit. */
  lemma EntriesAreCounted(maxKeys: int, maxEvents: int, ops: seq<Op>)
    ensures var s, now := NewStore(maxKeys, maxEvents), After(NewStore(maxKeys, maxEvents), ops);
      && now.entries == |now.store| + |now.buf.order| - Promotions(s, ops)
      && now.entries <= (if maxKeys <= 0 then 0x7fff_ffff else maxKeys)
  {
    RunKeeps(maxKeys, maxEvents, ops);
  }

  // ---------- What is evicted ----------

  /** When a stream was last read or written; events and keys that are not valid use nothing. */
  function LastUse(ops: seq<Op>, key: Key): nat {
    if ops == [] then 0
    else if Uses(ops[|ops| - 1], key) then |ops|
    else LastUse(ops[..|ops| - 1], key)
  }

  predicate Uses(op: Op, key: Key) {
    match op
    case Write(e) => Projection.ValidEvent(e) && e.Key() == key
    case Read(k) => k == key && key.id != ""
  }

  ghost predicate Recent(order: seq<Key>, ops: seq<Op>) {
    forall i, j | 0 <= i < j < |order| :: LastUse(ops, order[i]) < LastUse(ops, order[j])
  }

  lemma {:induction false} LastUseBound(ops: seq<Op>, key: Key)
    ensures LastUse(ops, key) <= |ops|
  {
    if ops != [] { LastUseBound(ops[..|ops| - 1], key); }
  }

  lemma {:induction false} RecentWithout(order: seq<Key>, key: Key, ops: seq<Op>)
    requires Recent(order, ops)
    ensures Recent(Without(order, key), ops)
  {
    if order != [] {
      var rest := order[1..];
      RecentWithout(rest, key, ops);
      WithoutKey(rest, key);
      if order[0] != key {
        var r := Without(order, key);
        forall i, j | 0 <= i < j < |r| ensures LastUse(ops, r[i]) < LastUse(ops, r[j]) {
          assert r[j] == Without(rest, key)[j - 1];
          if i == 0 { assert r[j] in rest; } else { assert r[i] == Without(rest, key)[i - 1]; }
        }
      }
    }
  }

  /** Keys that an operation does not use keep their places. */
  lemma RecentOthers(order: seq<Key>, ops: seq<Op>, op: Op)
    requires Recent(order, ops) && forall k | k in order :: !Uses(op, k)
    ensures Recent(order, ops + [op])
  {
    assert (ops + [op])[..|ops|] == ops;
    forall i | 0 <= i < |order| ensures LastUse(ops + [op], order[i]) == LastUse(ops, order[i]) {
      assert order[i] in order;
    }
  }

  /** The key that an operation uses goes last. */
  lemma RecentLast(order: seq<Key>, ops: seq<Op>, op: Op, key: Key)
    requires Recent(order, ops + [op]) && key !in order && Uses(op, key) && forall k | k in order :: !Uses(op, k)
    ensures Recent(order + [key], ops + [op])
  {
    assert (ops + [op])[..|ops|] == ops;
    forall i | 0 <= i < |order| ensures LastUse(ops + [op], order[i]) <= |ops| {
      assert order[i] in order;
      LastUseBound(ops, order[i]);
    }
  }

  /** The keys left when the used one is taken out, and that key put last. */
  lemma RecentMoved(order: seq<Key>, ops: seq<Op>, op: Op, key: Key)
    requires Recent(order, ops) && Uses(op, key)
    ensures Recent(Without(order, key), ops + [op]) && Recent(Without(order, key) + [key], ops + [op])
  {
    RecentWithout(order, key, ops);
    WithoutKey(order, key);
    RecentOthers(Without(order, key), ops, op);
    RecentLast(Without(order, key), ops, op, key);
  }

  /** The buffer after a stream was kept: its key is last or not there, and the front may be gone. */
  lemma KeptOrder(s: Store, key: Key, events: Events, e: Event)
    requires LruInv(s.buf) && key !in s.buf.values && s.maxKeys > 0
    ensures var r, pushed := Keep(s, key, events, e).buf.order, s.buf.order + [key];
      r == s.buf.order || r == pushed || r == Without(pushed, pushed[0])
  {
    WithoutKey(s.buf.order, key);
  }

  lemma RecentKept(s: Store, e: Event, events: Events, ops: seq<Op>)
    requires LruInv(s.buf) && e.Key() !in s.buf.values && s.maxKeys > 0 && Projection.ValidEvent(e)
    requires Recent(s.buf.order, ops + [Write(e)])
    ensures Recent(Keep(s, e.Key(), events, e).buf.order, ops + [Write(e)])
  {
    var key := e.Key();
    var pushed := s.buf.order + [key];
    KeptOrder(s, key, events, e);
    RecentLast(s.buf.order, ops, Write(e), key);
    RecentWithout(pushed, pushed[0], ops + [Write(e)]);
  }

  lemma RecentAppend(s: Store, e: Event, ops: seq<Op>)
    requires Inv(s) && Recent(s.buf.order, ops)
    ensures Recent(Append(s, e).store.buf.order, ops + [Write(e)])
  {
    var key, op := e.Key(), Write(e);
    if !Projection.ValidEvent(e) {
      RecentOthers(s.buf.order, ops, op);
    } else if key in s.buf.values && key !in s.store {
      RecentMoved(s.buf.order, ops, op, key);
      if !Full(s, s.buf.values[key]) {
        WithoutTwice(Without(s.buf.order, key), key);
        WithoutTwice(s.buf.order, key);
        PromoteKeeps(s, key, key);
        RecentKept(Promoted(s, key), e, s.buf.values[key], ops);
      }
    } else {
      RecentOthers(s.buf.order, ops, op);
      if key in s.store {
        RecentKept(s, e, s.store[key], ops);
      } else {
        FitOnce(s);
        FitKeeps(s, key);
        if s.buf.order != [] { RecentWithout(s.buf.order, s.buf.order[0], ops + [op]); }
        RecentKept(Fit(s), e, [], ops);
      }
    }
  }

  lemma RecentRead(s: Store, key: Key, ops: seq<Op>)
    requires Recent(s.buf.order, ops) && Inv(s)
    ensures Recent(AfterGet(s, key).buf.order, ops + [Read(key)])
  {
    hide Recent;
    if Uses(Read(key), key) && key in s.buf.values {
      RecentMoved(s.buf.order, ops, Read(key), key);
    } else {
      RecentOthers(s.buf.order, ops, Read(key));
    }
  }

  /** The buffer lists its keys from the least to the most recently used. */
  lemma {:induction false} BufferIsRecent(maxKeys: int, maxEvents: int, ops: seq<Op>)
    ensures Recent(After(NewStore(maxKeys, maxEvents), ops).buf.order, ops)
  {
    hide Append, Recent, AfterGet, StreamsInv;
    if ops == [] {
      NoneRecent();
    } else {
      var before, op := ops[..|ops| - 1], ops[|ops| - 1];
      var mid := After(NewStore(maxKeys, maxEvents), before);
      BufferIsRecent(maxKeys, maxEvents, before);
      RunKeeps(maxKeys, maxEvents, before);
      assert before + [op] == ops;
      match op
      case Write(e) => RecentAppend(mid, e, before);
      case Read(k) => RecentRead(mid, k, before);
    }
  }

  lemma NoneRecent()
    ensures Recent([], [])
  {
  }

  /** In every run, a stream that an operation costs the store was completed, and the least recently used of the
      completed streams; so at most one is lost at a time, and never an active one. It is lost exactly when room is needed
      for a new stream while the counter is at the limit, or for a completed stream while the buffer is full. */
  lemma LeastRecentlyUsedGoes(maxKeys: int, maxEvents: int, ops: seq<Op>, op: Op, key: Key)
    ensures var now := After(NewStore(maxKeys, maxEvents), ops);
      && (Lookup(now, key) != [] && Lookup(Perform(now, op).store, key) == [] <==> op.Write? && Loses(now, op.event, key))
      && (op.Write? && Loses(now, op.event, key) ==>
            && EndsCompleted(Lookup(now, key))
            && forall k | k in now.buf.values && k != key :: LastUse(ops, key) < LastUse(ops, k))
  {
    var now := After(NewStore(maxKeys, maxEvents), ops);
    RunKeeps(maxKeys, maxEvents, ops);
    BufferIsRecent(maxKeys, maxEvents, ops);
    LookupMeans(now, key);
    match op
    case Read(k) => TouchKeeps(now, k, key);
    case Write(e) =>
      AppendKeeps(now, e, key);
      if Loses(now, e, key) {
        RefusedLosesNothing(now, e, key);
        assert now.buf.order[0] in now.buf.order;
        forall k | k in now.buf.values && k != key ensures LastUse(ops, key) < LastUse(ops, k) {
          assert k in now.buf.order;
          var j :| 0 <= j < |now.buf.order| && now.buf.order[j] == k;
        }
      }
  }

  // ---------- Reactivated streams are not counted ----------

  lemma AfterOneMore(s: Store, ops: seq<Op>, op: Op)
    ensures After(s, ops + [op]) == Perform(After(s, ops), op).store
  {
    assert (ops + [op])[..|ops|] == ops;
  }

  lemma CompletedAtOnce(s: Store, e: Event)
    requires s.store == map[] && s.buf == Lru([], map[]) && s.entries == 0 && s.maxKeys == 1 && s.maxEvents == 0
    requires Projection.ValidEvent(e) && e.completed
    ensures Append(s, e).store == s.(buf := Lru([e.Key()], map[e.Key() := [e]]), entries := 1)
  {
    var key := e.Key();
    assert Fit(s) == s && [] + [e] == [e];
    assert s.store[key := [e]] - {key} == map[];
    assert Push(s.buf, key, [e]) == Lru([key], map[key := [e]]);
  }

  lemma Reactivates(s: Store, e: Event, events: Events)
    requires s.store == map[] && s.buf == Lru([e.Key()], map[e.Key() := events]) && s.maxEvents == 0
    requires Projection.ValidEvent(e) && !e.completed
    ensures Append(s, e).store ==
      s.(store := map[e.Key() := events + [e]], buf := Lru([], map[]), entries := s.entries - 1)
  {
    var key := e.Key();
    assert Without([key], key) == [] && [] + [key] == [key];
    assert Touch(s.buf, key) == s.buf;
    assert s.buf.values - {key} == map[];
    assert map[key := events][key := events + [e]] == map[key := events + [e]];
  }

  lemma AddsStream(s: Store, e: Event)
    requires s.buf == Lru([], map[]) && e.Key() !in s.store && s.entries < s.maxKeys
    requires Projection.ValidEvent(e) && !e.completed
    ensures Append(s, e).store == s.(store := s.store[e.Key() := [e]], entries := s.entries + 1)
  {
    assert Fit(s) == s && [] + [e] == [e];
  }

  /** With room for one stream: a stream that is completed and reactivated does not count, so a second one is let in. */
  lemma TwoStreamsWithLimitOne(done: Event, again: Event, other: Event)
    requires Projection.ValidEvent(done) && Projection.ValidEvent(again) && Projection.ValidEvent(other)
    requires done.Key() == again.Key() != other.Key() && done.completed && !again.completed && !other.completed
    ensures var now := After(NewStore(1, 0), [Write(done), Write(again), Write(other)]);
      now.maxKeys == 1 && now.entries == 1 && |now.store| == 2
  {
    var s := NewStore(1, 0);
    var one := [] + [Write(done)];
    var two := one + [Write(again)];
    AfterOneMore(s, [], Write(done));
    CompletedAtOnce(s, done);
    AfterOneMore(s, one, Write(again));
    Reactivates(After(s, one), again, [done]);
    AfterOneMore(s, two, Write(other));
    AddsStream(After(s, two), other);
    assert two + [Write(other)] == [Write(done), Write(again), Write(other)];
    TwoKeys(done.Key(), other.Key(), [done] + [again], [other]);
  }

  lemma TwoKeys(a: Key, b: Key, events: Events, events': Events)
    requires a != b
    ensures |map[a := events][b := events']| == 2
  {
    SizeWith(map[a := events], b, events');
  }
}
