/**
 The invocation cache: an LRU cache that loads missing entities by replay (LoadingCache) and is kept current by the
 events pushed to its subscription (SubscribedCache).

 An event can reach a cached entity more than once: a load or a refresh replays the whole stream, including events
 whose delivery is still pending. The cache nevertheless agrees with a plain replay once the deliveries catch up.
 */
module Cache {
  import opened Types
  import opened Projection

  type Log = map<Aggregate, seq<Event>>
  type Contents = map<Aggregate, Invocation>

  datatype CacheError = InvalidKey | EntityNotFound | ProjectionFailed(error: ProjectError)

  function Stream(log: Log, key: Aggregate): seq<Event> {
    if key in log then log[key] else []
  }

  // ---------- Specification of the cache operations ----------

  /** The entity that replaying the stream of `key` gives. */
  function FromEventStore(log: Log, key: Aggregate, now: nat): Result<Invocation, CacheError> {
    if Stream(log, key) == [] then Err(EntityNotFound) else
    match NewProjection(key, now)
    case Err(error) => Err(ProjectionFailed(error))
    case Ok(base) =>
      match Replay(base, Stream(log, key), now)
      case Err(error) => Err(ProjectionFailed(error))
      case Ok(entity) => if entity.metadata.id == "" then Err(InvalidKey) else Ok(entity)
  }

  /** An entity is cached under its own aggregate. */
  function Put(contents: Contents, entity: Invocation): Contents {
    contents[KeyOf(entity) := entity]
  }

  function Lookup(contents: Contents, log: Log, key: Aggregate, now: nat): Result<Invocation, CacheError> {
    if key.id == "" then Err(InvalidKey)
    else if key in contents then Ok(contents[key])
    else FromEventStore(log, key, now)
  }

  function AfterLookup(contents: Contents, log: Log, key: Aggregate, now: nat): Contents {
    if key.id != "" && key !in contents && FromEventStore(log, key, now).Ok?
    then Put(contents, FromEventStore(log, key, now).value)
    else contents
  }

  function AfterRefresh(contents: Contents, log: Log, key: Aggregate, now: nat): Contents {
    if FromEventStore(log, key, now).Ok? then Put(contents, FromEventStore(log, key, now).value) else contents
  }

  function AfterEvent(contents: Contents, log: Log, e: Event, now: nat): Contents {
    if !ValidEvent(e) || Lookup(contents, log, e.Key(), now).Err? then contents else
    var old' := Lookup(contents, log, e.Key(), now).value;
    var loaded := AfterLookup(contents, log, e.Key(), now);
    var updated := ProjectEvent(old', e, now);
    if updated.Ok? && updated.value.metadata.id != "" then Put(loaded, updated.value) else loaded
  }

  // ---------- The cache ----------

  /** `SubscribedCache` over `LoadingCache` over `LRUCache`, in front of the event store `log`. The LRU bound shows up
      as evictions, which may happen at any time. */
  class InvocationCache {
    var contents: Contents

    constructor ()
      ensures contents == map[]
    {
      contents := map[];
    }

    method GetFromEventStore(log: Log, key: Aggregate, now: nat) returns (r: Result<Invocation, CacheError>)
      modifies this
      ensures r == FromEventStore(log, key, now)
      ensures contents == AfterRefresh(old(contents), log, key, now)
    {
      var events := Stream(log, key);
      if |events| == 0 {
        return Err(EntityNotFound);
      }
      var base := NewProjection(key, now);
      if base.Err? {
        return Err(ProjectionFailed(base.error));
      }
      var entity := Project(base.value, events, now);
      if entity.Err? {
        return Err(ProjectionFailed(entity.error));
      }
      if entity.value.metadata.id == "" {
        return Err(InvalidKey);
      }
      contents := contents[KeyOf(entity.value) := entity.value];
      return Ok(entity.value);
    }

    method GetAggregate(log: Log, key: Aggregate, now: nat) returns (r: Result<Invocation, CacheError>)
      modifies this
      ensures r == Lookup(old(contents), log, key, now)
      ensures contents == AfterLookup(old(contents), log, key, now)
    {
      if key.id == "" {
        return Err(InvalidKey);
      }
      if key in contents {
        return Ok(contents[key]);
      }
      r := GetFromEventStore(log, key, now);
    }

    method Refresh(log: Log, key: Aggregate, now: nat)
      modifies this
      ensures contents == AfterRefresh(old(contents), log, key, now)
    {
      var entity := GetFromEventStore(log, key, now);
      if entity.Ok? {
        contents := contents[KeyOf(entity.value) := entity.value];
      }
    }

    /** The source compares a missing entity's error with the bare `ErrEntityNotFound`, which the errors of the two
        caches never equal, so a failed lookup always drops the event. */
    method ApplyEvent(log: Log, e: Event, now: nat)
      modifies this
      ensures contents == AfterEvent(old(contents), log, e, now)
    {
      if !ValidEvent(e) {
        return;
      }
      var cached := GetAggregate(log, e.Key(), now);
      if cached.Err? {
        return;
      }
      var events := [e];
      var updated := Project(cached.value, events, now);
      assert events[..0] == [] && Replay(cached.value, events[..0], now) == Ok(cached.value);
      if updated.Ok? && updated.value.metadata.id != "" {
        contents := contents[KeyOf(updated.value) := updated.value];
      }
    }

    method Evict(key: Aggregate)
      modifies this
      ensures contents == old(contents) - {key}
    {
      contents := contents - {key};
    }
  }

  // ---------- Runs ----------

  /** The event store, the events published to the subscription and not yet received, and the cache. */
  datatype System = System(log: Log, pending: seq<Event>, contents: Contents)

  datatype Step =
    | Append(event: Event)
    | Deliver(now: nat)
    | Evict(key: Aggregate)
    | Load(key: Aggregate, now: nat)
    | Refresh(key: Aggregate, now: nat)

  const INITIAL := System(map[], [], map[])

  /** A step that is not enabled leaves the system unchanged. The store holds only events that the API appends, and the
      subscription is first-in, first-out and drops nothing. */
  function Next(s: System, step: Step): System {
    match step
    case Append(e) =>
      if Accepted(e.Key(), e) && e.Key().kind == InvocationType
      then s.(log := s.log[e.Key() := Stream(s.log, e.Key()) + [e]], pending := s.pending + [e])
      else s
    case Deliver(now) =>
      if s.pending == [] then s
      else s.(pending := s.pending[1..], contents := AfterEvent(s.contents, s.log, s.pending[0], now))
    case Evict(key) => s.(contents := s.contents - {key})
    case Load(key, now) => s.(contents := AfterLookup(s.contents, s.log, key, now))
    case Refresh(key, now) => s.(contents := AfterRefresh(s.contents, s.log, key, now))
  }

  function Run(s: System, steps: seq<Step>): System {
    if steps == [] then s else Next(Run(s, steps[..|steps| - 1]), steps[|steps| - 1])
  }

  /** The pending events of one stream, in order. */
  function PendingFor(pending: seq<Event>, key: Aggregate): seq<Event> {
    if pending == [] then []
    else if pending[0].Key() == key then [pending[0]] + PendingFor(pending[1..], key)
    else PendingFor(pending[1..], key)
  }

  /** `inv` holds, in every field, what folding `events` into a new projection of `key` leaves there, and carries the
      stamp of the creation among them. */
  ghost predicate IsFold(inv: Invocation, key: Aggregate, events: seq<Event>) {
    && (forall f :: Read(inv, f) == Overwrite(Read(EmptyInvocation(key.id, 0), f), LastWrite(events, f)))
    && (LastCreated(events).Some? ==> inv.metadata.createdAt == LastCreated(events).value)
  }

  /** `inv` is the fold of the first m events followed by a re-application of events j to d, where d events have been
      delivered. */
  ghost predicate IsSnapshot(inv: Invocation, key: Aggregate, log: seq<Event>, j: nat, m: nat, d: nat) {
    j <= m <= |log| && j <= d <= |log| && IsFold(inv, key, log[..m] + log[j..d])
  }

  /** Some load and some stretch of deliveries account for `inv`. */
  ghost predicate HasSnapshot(inv: Invocation, key: Aggregate, log: seq<Event>, d: nat) {
    exists j: nat, m: nat :: IsSnapshot(inv, key, log, j, m, d)
  }

  /** How many events of a stream the subscription has delivered. */
  function Delivered(s: System, key: Aggregate): int {
    |Stream(s.log, key)| - |PendingFor(s.pending, key)|
  }

  /** The pending events of a stream are its last ones. */
  ghost predicate QueueInv(key: Aggregate, log: seq<Event>, pending: seq<Event>) {
    && AllAccepted(key, log)
    && |pending| <= |log| && pending == log[|log| - |pending|..]
    && (log != [] ==> key.kind == InvocationType && key.id != "")
  }

  /** A cached entity is a snapshot of its stream. */
  ghost predicate EntryInv(contents: Contents, key: Aggregate, log: seq<Event>, d: nat) {
    key in contents ==> log != [] && KeyOf(contents[key]) == key && HasSnapshot(contents[key], key, log, d)
  }

  ghost predicate StreamInv(s: System, key: Aggregate) {
    && QueueInv(key, Stream(s.log, key), PendingFor(s.pending, key))
    && EntryInv(s.contents, key, Stream(s.log, key), Delivered(s, key))
  }

  ghost predicate Inv(s: System) {
    forall key :: StreamInv(s, key)
  }

  lemma {:induction false} PendingForAppend(pending: seq<Event>, e: Event, key: Aggregate)
    ensures PendingFor(pending + [e], key) == PendingFor(pending, key) + if e.Key() == key then [e] else []
  {
    if pending != [] {
      assert (pending + [e])[1..] == pending[1..] + [e];
      PendingForAppend(pending[1..], e, key);
    }
  }

  /** Replaying a stream of accepted events gives its fold, under the same key. */
  lemma ReplayIsFold(key: Aggregate, events: seq<Event>, now: nat)
    requires key.kind == InvocationType && AllAccepted(key, events)
    ensures Replay(EmptyInvocation(key.id, now), events, now).Ok?
    ensures KeyOf(Replay(EmptyInvocation(key.id, now), events, now).value) == key
    ensures IsFold(Replay(EmptyInvocation(key.id, now), events, now).value, key, events)
  {
    var base := EmptyInvocation(key.id, now);
    LastWriterWins(base, events, now, IdField);
    CreatedWhenCreated(base, events, now);
    forall f
      ensures Read(Replay(base, events, now).value, f) ==
              Overwrite(Read(EmptyInvocation(key.id, 0), f), LastWrite(events, f))
    {
      LastWriterWins(base, events, now, f);
    }
  }

  lemma FoldOneMore(inv: Invocation, key: Aggregate, events: seq<Event>, e: Event, now: nat)
    requires IsFold(inv, key, events) && KeyOf(inv) == key && Accepted(key, e)
    ensures ProjectEvent(inv, e, now).Ok? && KeyOf(ProjectEvent(inv, e, now).value) == key
    ensures IsFold(ProjectEvent(inv, e, now).value, key, events + [e])
  {
    ProjectEventSucceeds(inv, e, now);
    assert (events + [e])[..|events|] == events;
    forall f
      ensures Read(ProjectEvent(inv, e, now).value, f) ==
              Overwrite(Read(EmptyInvocation(key.id, 0), f), LastWrite(events + [e], f))
    {
      ReadAfterEvent(inv, e, now, f);
    }
  }

  /** A stored stream of accepted events can always be loaded, and what is loaded is its fold. */
  lemma LoadIsSnapshot(log: Log, key: Aggregate, now: nat, d: nat)
    requires AllAccepted(key, Stream(log, key)) && Stream(log, key) != [] && d <= |Stream(log, key)|
    requires key.kind == InvocationType && key.id != ""
    ensures FromEventStore(log, key, now).Ok? && KeyOf(FromEventStore(log, key, now).value) == key
    ensures IsSnapshot(FromEventStore(log, key, now).value, key, Stream(log, key), d, |Stream(log, key)|, d)
    ensures HasSnapshot(FromEventStore(log, key, now).value, key, Stream(log, key), d)
  {
    var events := Stream(log, key);
    ReplayIsFold(key, events, now);
    assert events[..|events|] + events[d..d] == events;
    assert IsSnapshot(FromEventStore(log, key, now).value, key, events, d, |events|, d);
  }

  /** Only the entry of the stream's own key matters. */
  lemma SameEntryKeepsInv(s: System, contents: Contents, key: Aggregate)
    requires StreamInv(s, key)
    requires key in contents ==> key in s.contents && contents[key] == s.contents[key]
    ensures StreamInv(s.(contents := contents), key)
  {
  }

  /** Putting the replay of the stream keeps the invariant. */
  lemma PutKeepsInv(s: System, key: Aggregate, now: nat)
    requires StreamInv(s, key) && Stream(s.log, key) != []
    ensures FromEventStore(s.log, key, now).Ok?
    ensures KeyOf(FromEventStore(s.log, key, now).value) == key
    ensures StreamInv(s.(contents := Put(s.contents, FromEventStore(s.log, key, now).value)), key)
  {
    hide IsSnapshot, HasSnapshot, Replay, NewProjection;
    LoadIsSnapshot(s.log, key, now, Delivered(s, key));
  }

  /** A snapshot stays one when the stream grows. */
  lemma SnapshotOfLonger(inv: Invocation, key: Aggregate, log: seq<Event>, e: Event, d: nat)
    requires d <= |log| && HasSnapshot(inv, key, log, d)
    ensures HasSnapshot(inv, key, log + [e], d)
  {
    var j: nat, m: nat :| IsSnapshot(inv, key, log, j, m, d);
    assert (log + [e])[..m] == log[..m] && (log + [e])[j..d] == log[j..d];
    assert IsSnapshot(inv, key, log + [e], j, m, d);
  }

  lemma QueueAppend(key: Aggregate, log: seq<Event>, pending: seq<Event>, e: Event)
    requires QueueInv(key, log, pending) && Accepted(key, e) && key.kind == InvocationType
    ensures QueueInv(key, log + [e], pending + [e])
  {
    assert key.id != "";
    hide Accepted;
    var cut := |log| - |pending|;
    assert (log + [e])[cut..] == log[cut..] + [e];
  }

  lemma AppendKeepsInv(s: System, e: Event, key: Aggregate)
    requires StreamInv(s, key)
    ensures StreamInv(Next(s, Append(e)), key)
  {
    hide HasSnapshot, PendingFor, Accepted;
    var log, pending := Stream(s.log, key), PendingFor(s.pending, key);
    PendingForAppend(s.pending, e, key);
    if Accepted(e.Key(), e) && e.Key().kind == InvocationType && e.Key() == key {
      QueueAppend(key, log, pending, e);
      if key in s.contents {
        SnapshotOfLonger(s.contents[key], key, log, e, Delivered(s, key));
      }
    }
  }

  /** A pending event was accepted by its stream, which can be looked up. */
  lemma PendingIsAccepted(s: System, now: nat)
    requires s.pending != [] && StreamInv(s, s.pending[0].Key())
    ensures var e := s.pending[0];
      && Accepted(e.Key(), e) && Stream(s.log, e.Key()) != []
      && Lookup(s.contents, s.log, e.Key(), now).Ok?
      && KeyOf(Lookup(s.contents, s.log, e.Key(), now).value) == e.Key()
  {
    var e := s.pending[0];
    assert PendingFor(s.pending, e.Key())[0] == e;
    assert Stream(s.log, e.Key())[Delivered(s, e.Key())] == e;
    LoadIsSnapshot(s.log, e.Key(), now, 0);
  }

  /** A delivered event touches the entry of its own stream only. */
  lemma EventTouchesOwnEntry(contents: Contents, log: Log, e: Event, now: nat, key: Aggregate)
    requires Accepted(e.Key(), e) && key != e.Key()
    requires Lookup(contents, log, e.Key(), now).Ok? && KeyOf(Lookup(contents, log, e.Key(), now).value) == e.Key()
    ensures key in AfterEvent(contents, log, e, now) <==> key in contents
    ensures key in contents ==> AfterEvent(contents, log, e, now)[key] == contents[key]
  {
    ProjectEventSucceeds(Lookup(contents, log, e.Key(), now).value, e, now);
  }

  lemma DeliverOther(s: System, now: nat, key: Aggregate)
    requires s.pending != [] && s.pending[0].Key() != key && StreamInv(s, key) && StreamInv(s, s.pending[0].Key())
    ensures StreamInv(Next(s, Deliver(now)), key)
  {
    hide HasSnapshot, Replay, ProjectEvent, LastWrite;
    PendingIsAccepted(s, now);
    EventTouchesOwnEntry(s.contents, s.log, s.pending[0], now, key);
    var contents := AfterEvent(s.contents, s.log, s.pending[0], now);
    SameEntryKeepsInv(s, contents, key);
    assert PendingFor(s.pending[1..], key) == PendingFor(s.pending, key);
  }

  lemma SnapshotOneMore(inv: Invocation, key: Aggregate, log: seq<Event>, d: nat, now: nat)
    requires d < |log| && HasSnapshot(inv, key, log, d) && KeyOf(inv) == key && Accepted(key, log[d])
    ensures ProjectEvent(inv, log[d], now).Ok? && KeyOf(ProjectEvent(inv, log[d], now).value) == key
    ensures HasSnapshot(ProjectEvent(inv, log[d], now).value, key, log, d + 1)
  {
    var j: nat, m: nat :| IsSnapshot(inv, key, log, j, m, d);
    FoldOneMore(inv, key, log[..m] + log[j..d], log[d], now);
    assert log[..m] + log[j..d] + [log[d]] == log[..m] + log[j..d + 1];
    assert IsSnapshot(ProjectEvent(inv, log[d], now).value, key, log, j, m, d + 1);
  }

  lemma DeliverSame(s: System, now: nat, key: Aggregate)
    requires StreamInv(s, key) && s.pending != [] && s.pending[0].Key() == key
    ensures StreamInv(Next(s, Deliver(now)), key)
  {
    hide HasSnapshot, Replay, ProjectEvent;
    var e, log, d := s.pending[0], Stream(s.log, key), Delivered(s, key);
    assert PendingFor(s.pending, key) == [e] + PendingFor(s.pending[1..], key);
    assert log[d] == e && log[d..][1..] == log[d + 1..];
    LoadIsSnapshot(s.log, key, now, d);
    SnapshotOneMore(Lookup(s.contents, s.log, key, now).value, key, log, d, now);
  }

  lemma LoadKeepsInv(s: System, loaded: Aggregate, now: nat, key: Aggregate)
    requires StreamInv(s, loaded) && StreamInv(s, key)
    ensures StreamInv(Next(s, Load(loaded, now)), key)
  {
    hide StreamInv, Replay, NewProjection, KeyOf;
    if Stream(s.log, loaded) == [] {
      assert Next(s, Load(loaded, now)) == s;
    } else {
      PutKeepsInv(s, loaded, now);
      if loaded != key {
        SameEntryKeepsInv(s, AfterLookup(s.contents, s.log, loaded, now), key);
      } else if loaded in s.contents {
        assert Next(s, Load(loaded, now)) == s;
      }
    }
  }

  lemma RefreshKeepsInv(s: System, loaded: Aggregate, now: nat, key: Aggregate)
    requires StreamInv(s, loaded) && StreamInv(s, key)
    ensures StreamInv(Next(s, Refresh(loaded, now)), key)
  {
    hide StreamInv, Replay, NewProjection, KeyOf;
    if Stream(s.log, loaded) == [] {
      assert Next(s, Refresh(loaded, now)) == s;
    } else {
      PutKeepsInv(s, loaded, now);
      if loaded != key {
        SameEntryKeepsInv(s, AfterRefresh(s.contents, s.log, loaded, now), key);
      }
    }
  }

  lemma NextKeepsInv(s: System, step: Step)
    requires Inv(s)
    ensures Inv(Next(s, step))
  {
    forall key ensures StreamInv(Next(s, step), key) {
      assert StreamInv(s, key);
      match step
      case Append(e) => AppendKeepsInv(s, e, key);
      case Deliver(now) =>
        if s.pending != [] {
          assert StreamInv(s, s.pending[0].Key());
          if s.pending[0].Key() == key { DeliverSame(s, now, key); } else { DeliverOther(s, now, key); }
        }
      case Evict(evicted) => SameEntryKeepsInv(s, s.contents - {evicted}, key);
      case Load(loaded, now) => LoadKeepsInv(s, loaded, now, key);
      case Refresh(loaded, now) => RefreshKeepsInv(s, loaded, now, key);
    }
  }

  lemma {:induction false} RunKeepsInv(s: System, steps: seq<Step>)
    requires Inv(s)
    ensures Inv(Run(s, steps))
  {
    if steps != [] {
      RunKeepsInv(s, steps[..|steps| - 1]);
      NextKeepsInv(Run(s, steps[..|steps| - 1]), steps[|steps| - 1]);
    }
  }

  /** In every run, a cached entity is at each moment the fold of a prefix of its stream followed by a re-applied
      stretch that ends at the last delivered event. */
  lemma CachedIsSnapshot(steps: seq<Step>, key: Aggregate)
    requires key in Run(INITIAL, steps).contents
    ensures var s := Run(INITIAL, steps);
      0 <= Delivered(s, key) && HasSnapshot(s.contents[key], key, Stream(s.log, key), Delivered(s, key))
  {
    RunKeepsInv(INITIAL, steps);
    assert StreamInv(Run(INITIAL, steps), key);
  }

  /** In every run, once all published events of a stream are delivered, the cached entity has the view that plainly
      replaying the whole stream gives, and the same creation stamp; and looking the entity up never fails for a stream
      with events. */
  lemma CacheConverges(steps: seq<Step>, key: Aggregate, now: nat)
    ensures var s := Run(INITIAL, steps);
      && (Stream(s.log, key) != [] ==> Lookup(s.contents, s.log, key, now).Ok?)
      && (key in s.contents && PendingFor(s.pending, key) == [] ==>
            && FromEventStore(s.log, key, now).Ok?
            && SameView(s.contents[key], FromEventStore(s.log, key, now).value)
            && (LastCreated(Stream(s.log, key)).Some? ==>
                  s.contents[key].metadata.createdAt == LastCreated(Stream(s.log, key)).value))
  {
    RunKeepsInv(INITIAL, steps);
    var s := Run(INITIAL, steps);
    assert StreamInv(s, key);
    var log, n := Stream(s.log, key), |Stream(s.log, key)|;
    if log != [] {
      LoadIsSnapshot(s.log, key, now, n);
    }
    if key in s.contents && PendingFor(s.pending, key) == [] {
      var cached, replayed := s.contents[key], FromEventStore(s.log, key, now).value;
      var j: nat, m: nat :| IsSnapshot(cached, key, log, j, m, n);
      forall f ensures Read(cached, f) == Read(replayed, f) {
        LastWriteReapplied(log, j, m, n, f);
        LastWriteReapplied(log, n, n, n, f);
      }
      LastCreatedReapplied(log, j, m, n);
      assert log[..n] == log;
    }
  }

  /** In every run: loading, refreshing or an event that is delivered leaves the entity in the cache, and after a refresh
      it is the fold of the whole stream even if deliveries are pending; only an eviction takes it out. */
  lemma StepCaches(steps: seq<Step>, step: Step, key: Aggregate)
    ensures var s := Run(INITIAL, steps); var s', log := Next(s, step), Stream(s.log, key);
      && (step.Load? && step.key == key && log != [] ==> key in s'.contents)
      && (step.Deliver? && s.pending != [] && s.pending[0].Key() == key ==> key in s'.contents)
      && (step.Refresh? && step.key == key && log != [] ==>
            key in s'.contents && IsFold(s'.contents[key], key, log))
      && (key in s.contents && key !in s'.contents ==> step == Evict(key))
      && (step == Evict(key) ==> key !in s'.contents)
  {
    var s := Run(INITIAL, steps);
    RunKeepsInv(INITIAL, steps);
    assert StreamInv(s, key);
    var log := Stream(s.log, key);
    if log != [] {
      LoadIsSnapshot(s.log, key, 0, |log|);
      StepCachesIt(s, step, key);
    } else {
      NotCachedWithoutEvents(s, step, key);
    }
  }

  lemma NotCachedWithoutEvents(s: System, step: Step, key: Aggregate)
    requires StreamInv(s, key) && Stream(s.log, key) == []
    ensures key !in s.contents && (s.pending != [] ==> s.pending[0].Key() != key)
  {
  }

  lemma StepCachesIt(s: System, step: Step, key: Aggregate)
    requires Inv(s) && Stream(s.log, key) != []
    ensures var s', log := Next(s, step), Stream(s.log, key);
      && (step.Load? && step.key == key ==> key in s'.contents)
      && (step.Deliver? && s.pending != [] && s.pending[0].Key() == key ==> key in s'.contents)
      && (step.Refresh? && step.key == key ==> key in s'.contents && IsFold(s'.contents[key], key, log))
      && (key in s.contents && key !in s'.contents ==> step == Evict(key))
  {
    assert StreamInv(s, key);
    hide Replay, NewProjection, IsFold, HasSnapshot, ProjectEvent;
    match step
    case Append(_) =>
    case Evict(_) =>
    case Load(k, now) => LoadedIsFold(s, key, now);
    case Refresh(k, now) => LoadedIsFold(s, key, now);
    case Deliver(now) =>
      if s.pending != [] {
        assert StreamInv(s, s.pending[0].Key());
        PendingIsAccepted(s, now);
        var e := s.pending[0];
        ProjectEventSucceeds(Lookup(s.contents, s.log, e.Key(), now).value, e, now);
      }
  }

  lemma LoadedIsFold(s: System, key: Aggregate, now: nat)
    requires StreamInv(s, key) && Stream(s.log, key) != []
    ensures FromEventStore(s.log, key, now).Ok? && key.id != ""
    ensures KeyOf(FromEventStore(s.log, key, now).value) == key
    ensures IsFold(FromEventStore(s.log, key, now).value, key, Stream(s.log, key))
  {
    var events := Stream(s.log, key);
    LoadIsSnapshot(s.log, key, now, |events|);
    assert events[..|events|] + events[|events|..|events|] == events;
  }

  // ---------- A refresh whose read and write are separated ----------

  /** Events carry positive stamps that grow along the stream. */
  ghost predicate Stamped(log: seq<Event>) {
    && (forall i | 0 <= i < |log| :: log[i].timestamp > 0)
    && (forall i, j | 0 <= i < j < |log| :: log[i].timestamp < log[j].timestamp)
  }

  /** The field that every event writes its stamp to. */
  function StampField(e: Event): Field {
    if e.aggregate.kind == TaskRunType then RunField(e.aggregate.id, UpdatedPart) else UpdatedField
  }

  /** A fold of older events does not show a stamp. */
  lemma {:induction false} OldStamps(key: Aggregate, events: seq<Event>, e: Event)
    requires e.timestamp > 0 && forall i | 0 <= i < |events| :: events[i].timestamp < e.timestamp
    ensures Overwrite(Read(EmptyInvocation(key.id, 0), StampField(e)), LastWrite(events, StampField(e))) !=
      TimeValue(e.timestamp)
  {
    if events != [] {
      OldStamps(key, events[..|events| - 1], e);
    }
  }

  lemma LastStamp(key: Aggregate, events: seq<Event>)
    requires events != [] && Accepted(key, events[|events| - 1])
    ensures LastWrite(events, StampField(events[|events| - 1])) == Some(TimeValue(events[|events| - 1].timestamp))
  {
  }

  /** A fold of m events shows the stamps of those events only. */
  lemma ShowsOnlyOld(inv: Invocation, key: Aggregate, log: seq<Event>, m: nat, last: nat)
    requires Stamped(log) && m <= |log| && last < |log| && IsFold(inv, key, log[..m])
    requires Read(inv, StampField(log[last])) == TimeValue(log[last].timestamp)
    ensures last < m
  {
    if last >= m {
      OldStamps(key, log[..m], log[last]);
    }
  }

  /** A snapshot shows the stamp of an event that is no older than the last delivered one. */
  lemma ShowsLast(inv: Invocation, key: Aggregate, log: seq<Event>, j: nat, m: nat, d: nat) returns (last: nat)
    requires AllAccepted(key, log) && d > 0 && IsSnapshot(inv, key, log, j, m, d)
    ensures d - 1 <= last < |log| && Read(inv, StampField(log[last])) == TimeValue(log[last].timestamp)
  {
    var events := log[..m] + log[j..d];
    last := if j < d then d - 1 else m - 1;
    assert events[|events| - 1] == log[last];
    LastStamp(key, events);
  }

  /** The fold of m events is a snapshot at d deliveries if d <= m, and where stamps grow, only then. */
  lemma PrefixIsSnapshot(inv: Invocation, key: Aggregate, log: seq<Event>, m: nat, d: nat)
    requires AllAccepted(key, log) && m <= |log| && d <= |log| && IsFold(inv, key, log[..m])
    ensures d <= m ==> HasSnapshot(inv, key, log, d)
    ensures Stamped(log) && HasSnapshot(inv, key, log, d) ==> d <= m
  {
    if d <= m {
      assert log[..m] + log[d..d] == log[..m];
      assert IsSnapshot(inv, key, log, d, m, d);
    }
    if Stamped(log) && d > 0 && HasSnapshot(inv, key, log, d) {
      var j: nat, m': nat :| IsSnapshot(inv, key, log, j, m', d);
      var last := ShowsLast(inv, key, log, j, m', d);
      ShowsOnlyOld(inv, key, log, m, last);
    }
  }

  /** A refresh that read the stream when it had m events, and writes what it read now. */
  function LateRefreshed(s: System, key: Aggregate, m: nat, now: nat): System
    requires m <= |Stream(s.log, key)|
  {
    var read := Replay(EmptyInvocation(key.id, now), Stream(s.log, key)[..m], now);
    if read.Err? then s else s.(contents := Put(s.contents, read.value))
  }

  /** Writing the replay of an older stream of m events keeps the snapshot property as long as no more than m events
      have been delivered by then, and where stamps grow along the stream, only then. */
  lemma LateRefresh(s: System, key: Aggregate, m: nat, now: nat)
    requires Inv(s) && 0 < m <= |Stream(s.log, key)|
    ensures var read := Replay(EmptyInvocation(key.id, now), Stream(s.log, key)[..m], now);
      read.Ok? && LateRefreshed(s, key, m, now) == s.(contents := s.contents[key := read.value])
    ensures Delivered(s, key) <= m ==> StreamInv(LateRefreshed(s, key, m, now), key)
    ensures Stamped(Stream(s.log, key)) ==>
      (StreamInv(LateRefreshed(s, key, m, now), key) <==> Delivered(s, key) <= m)
  {
    assert StreamInv(s, key);
    var log := Stream(s.log, key);
    ReplayIsFold(key, log[..m], now);
    PrefixIsSnapshot(Replay(EmptyInvocation(key.id, now), log[..m], now).value, key, log, m, Delivered(s, key));
  }

  /** After a refresh that wrote in time, every further run keeps every cached entity a snapshot of its stream. */
  lemma RefreshInTime(s: System, refreshed: Aggregate, m: nat, now: nat, steps: seq<Step>, key: Aggregate)
    requires Inv(s) && 0 < m <= |Stream(s.log, refreshed)| && Delivered(s, refreshed) <= m
    ensures StreamInv(Run(LateRefreshed(s, refreshed, m, now), steps), key)
  {
    LateRefresh(s, refreshed, m, now);
    var s' := LateRefreshed(s, refreshed, m, now);
    forall k ensures StreamInv(s', k) {
      if k != refreshed { SameEntryKeepsInv(s, s'.contents, k); }
    }
    RunKeepsInv(s', steps);
  }

  lemma AppendEffect(s: System, e: Event)
    requires Accepted(e.Key(), e) && e.Key().kind == InvocationType
    ensures Next(s, Append(e)).pending == s.pending + [e]
    ensures Stream(Next(s, Append(e)).log, e.Key()) == Stream(s.log, e.Key()) + [e]
  {
  }

  lemma DeliverEffect(s: System, now: nat)
    requires s.pending != []
    ensures Next(s, Deliver(now)).pending == s.pending[1..] && Next(s, Deliver(now)).log == s.log
  {
  }

  lemma RunOneMore(s: System, steps: seq<Step>, step: Step)
    ensures Run(s, steps + [step]) == Next(Run(s, steps), step)
  {
    assert (steps + [step])[..|steps|] == steps;
  }

  /** Appending two events to an empty system and delivering both. */
  lemma TwoDelivered(a: Event, b: Event, now: nat)
    requires a.Key() == b.Key() && a.Key().kind == InvocationType && Accepted(a.Key(), a) && Accepted(b.Key(), b)
    ensures var s := Run(INITIAL, [Append(a), Append(b), Deliver(now), Deliver(now)]);
      s.pending == [] && Stream(s.log, a.Key()) == [a, b]
  {
    var two, three := [Append(a)] + [Append(b)], [Append(a)] + [Append(b)] + [Deliver(now)];
    RunOneMore(INITIAL, [], Append(a));
    assert [] + [Append(a)] == [Append(a)];
    RunOneMore(INITIAL, [Append(a)], Append(b));
    RunOneMore(INITIAL, two, Deliver(now));
    RunOneMore(INITIAL, three, Deliver(now));
    AppendEffect(INITIAL, a);
    AppendEffect(Run(INITIAL, [Append(a)]), b);
    DeliverEffect(Run(INITIAL, two), now);
    DeliverEffect(Run(INITIAL, three), now);
    assert three + [Deliver(now)] == [Append(a), Append(b), Deliver(now), Deliver(now)];
  }

  /** Otherwise the delivered event can be lost from the cache: here the completion of an invocation is delivered
      between the read and the write of a refresh, and the cache then shows the invocation as still in progress
      although nothing is pending. */
  lemma LateRefreshLosesEvents(key: Aggregate, created: Event, completed: Event)
    requires key.kind == InvocationType && key.id != ""
    requires created == Event(key, None, 1, InvocationCreated(InvocationSpec(None, None)), false)
    requires completed == Event(key, None, 2, InvocationCompleted(None, None), true)
    ensures var s := Run(INITIAL, [Append(created), Append(completed), Deliver(0), Deliver(0)]);
      && s.pending == [] && Stream(s.log, key) == [created, completed]
      && key in LateRefreshed(s, key, 1, 0).contents && LateRefreshed(s, key, 1, 0).contents[key].status == InProgress
      && FromEventStore(s.log, key, 0).Ok? && FromEventStore(s.log, key, 0).value.status == Succeeded
  {
    TwoDelivered(created, completed, 0);
    assert [created][..0] == [] && [created, completed][..1] == [created];
    assert Replay(EmptyInvocation(key.id, 0), [created], 0).Ok?;
  }
}
