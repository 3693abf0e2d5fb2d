/**
 * The invariant under which log and store agree, and how recording one event changes it.
 *
 * The invariant gives every entity a history: its events in the order in which replay tells them.
 * It speaks of hashes, parents and states, never of timestamps.
 */
module Invariant {
  import opened Base
  import opened Events
  import opened Graph
  import opened Histories
  import opened Insertion
  import opened LeastOrder
  import opened Machine
  import opened Ordering
  import opened Region
  import opened Replay
  import opened Serialization
  import opened Validation
  import opened Vectors
  import Text

  type History = map<string, seq<VectorEvent>>

  function Last<T>(s: seq<T>): T
    requires s != []
  {
    s[|s| - 1]
  }

  // ----- The invariant -----

  /** Event `i` hangs behind one earlier event. */
  ghost predicate HangsBehind(h: seq<VectorEvent>, i: nat)
    requires i < |h|
  {
    exists j :: 0 <= j < i && h[i].parentHashes == [h[j].eventHash]
  }

  /** A tree of events whose root comes first and whose parents come before their children. */
  ghost predicate Rooted(h: seq<VectorEvent>) {
    h != [] && h[0].parentHashes == [] && forall i :: 0 < i < |h| ==> HangsBehind(h, i)
  }

  /** The events of one entity in one region. */
  ghost predicate Kin(id: string, h: seq<VectorEvent>) {
    forall e :: e in h ==> e.entityId == id && e.regionId == h[0].regionId
  }

  /** A rooted history, in the order in which replay tells it. */
  ghost predicate OrderedHistory(id: string, h: seq<VectorEvent>) {
    Rooted(h) && SelfOrdered(HistoryKey, h) && Kin(id, h)
  }

  /** A history whose states fit together in that order. */
  ghost predicate GoodHistory(id: string, h: seq<VectorEvent>) {
    OrderedHistory(id, h) && Continuous(h)
  }

  /** What every stored vector satisfies by itself. */
  ghost predicate GoodVector(v: Vector) {
    && ValidateState(v).Ok? && v.typeMetadata == map[]
    && v.certification.threshold == 700 && v.certification.certified
    && (v.certification.authRatio == 700 || v.certification.authRatio == 1000)
    && (v.projection.Some? ==> |v.projection.value.projected| == |v.components|)
  }

  /** No event of the history is a region creation or newer than the vector's version. */
  ghost predicate Dated(v: Vector, h: seq<VectorEvent>) {
    forall e :: e in h ==> !IsRegionCreate(e) && e.logicalClock <= v.version
  }

  /** A stored vector is where its history ends. */
  ghost predicate VectorStory(id: string, v: Vector, h: seq<VectorEvent>)
    requires h != []
  {
    && GoodVector(v) && v.vectorId == id && v.spaceId == h[0].regionId && Dated(v, h)
    && ToEventState(v) == Ok(Last(h).vectorAfter) && |v.components| == |h[0].vectorAfter.components|
  }

  /** A region's history is its creation. */
  ghost predicate RegionStory(h: seq<VectorEvent>) {
    && |h| == 1 && IsRegionCreate(h[0]) && RegionFromEvent(h[0]).Ok?
    && RegionFromEvent(h[0]).value.authRatioBps == DEFAULT_AUTH_RATIO_BPS
  }

  /** Events are stored under their own non-empty hash, and are exactly those of the histories. */
  ghost predicate LogIs(events: map<string, VectorEvent>, hist: History) {
    && (forall h :: h in events ==>
          && events[h].eventHash == h && h != ""
          && events[h].entityId in hist && events[h] in hist[events[h].entityId])
    && forall id, e :: id in hist && e in hist[id] ==> e.eventHash in events && events[e.eventHash] == e
  }

  ghost predicate LogOrdered(events: map<string, VectorEvent>, hist: History) {
    LogIs(events, hist) && forall id :: id in hist ==> OrderedHistory(id, hist[id])
  }

  ghost predicate LogInv(events: map<string, VectorEvent>, hist: History) {
    LogIs(events, hist) && forall id :: id in hist ==> GoodHistory(id, hist[id])
  }

  /** The invariant of agreement. It says nothing about timestamps. */
  ghost predicate Inv(k: Kernel, hist: History) {
    && LogInv(k.events, hist)
    && (forall id :: id in k.states ==> id in hist && hist[id] != [] && VectorStory(id, k.states[id], hist[id]))
    && forall id :: id in hist && id !in k.states ==> RegionStory(hist[id])
  }

  lemma LogIsOrdered(events: map<string, VectorEvent>, hist: History)
    requires LogInv(events, hist)
    ensures LogOrdered(events, hist) && LogIs(events, hist)
  {
    hide OrderedHistory, Continuous, LogIs;
  }

  // ----- Histories on an advancing clock -----

  ghost predicate Earlier(a: VectorEvent, b: VectorEvent) {
    a.logicalClock < b.logicalClock || (a.logicalClock == b.logicalClock && a.timestamp < b.timestamp)
  }

  ghost predicate Rising(h: seq<VectorEvent>) {
    forall i, j :: 0 <= i < j < |h| ==> Earlier(h[i], h[j])
  }

  /** A parent chain with strictly rising clocks. */
  ghost predicate TimelyHistory(h: seq<VectorEvent>) {
    IsChain(h) && Rising(h)
  }

  ghost predicate Timely(hist: History) {
    forall id :: id in hist ==> TimelyHistory(hist[id])
  }

  // ----- Reading the log under the invariant -----

  lemma LogHolds(k: Kernel)
    requires forall h :: h in k.events ==> k.events[h].eventHash == h
    ensures EventsAscend(LogKey, Log(k)) && DistinctHashes(Log(k))
    ensures forall e :: e in Log(k) <==> e.eventHash in k.events && k.events[e.eventHash] == e
  {
    hide EventLeq;
    StoredKeys(k.events);
    Text.SortedKeysSorted(k.events.Keys);
    var keys := Text.SortedKeys(k.events.Keys);
    var loaded := Lookup(k.events, keys);
    SortEventsCorrect(LogKey, loaded);
    SameMultisetSameElems(loaded, Log(k));
    LookupNames(k.events, keys);
    forall i, j | 0 <= i < j < |loaded| ensures loaded[i].eventHash != loaded[j].eventHash {
      assert keys[i] in keys && keys[j] in keys;
    }
    DistinctHashesPerm(loaded, Log(k));
    forall e ensures e in Log(k) <==> e.eventHash in k.events && k.events[e.eventHash] == e {
      assert e in Log(k) <==> e in Elems(Log(k));
      assert e in loaded <==> e in Elems(loaded);
    }
  }

  /** The log of a kernel whose events are those of the histories. */
  lemma LogHoldsIn(k: Kernel, hist: History)
    requires LogIs(k.events, hist)
    ensures EventsAscend(LogKey, Log(k)) && DistinctHashes(Log(k))
    ensures forall e :: e in Log(k) <==> e.eventHash in k.events && k.events[e.eventHash] == e
  {
    hide Log, EventsAscend;
    LogHolds(k);
  }

  /** The event of an entity with the greatest key. */
  ghost predicate IsLatest(s: set<VectorEvent>, id: string, m: VectorEvent) {
    m in s && m.entityId == id && forall e :: e in s && e.entityId == id ==> EventLeq(LogKey, e, m)
  }

  lemma {:induction false} LatestOfIs(log: seq<VectorEvent>, id: string)
    requires EventsAscend(LogKey, log)
    ensures LatestOf(log, id).None? ==> forall e :: e in log ==> e.entityId != id
    ensures LatestOf(log, id).Some? ==> IsLatest(Elems(log), id, LatestOf(log, id).value)
  {
    hide EventLeq;
    if log != [] {
      var front, last := log[..|log| - 1], log[|log| - 1];
      assert log == front + [last];
      LatestOfIs(front, id);
      assert forall e :: e in log <==> e in front || e == last;
      if last.entityId == id {
        forall e | e in log ensures EventLeq(LogKey, e, last) {
          var i :| 0 <= i < |log| && log[i] == e;
          if i == |log| - 1 { EventLeqReflexive(LogKey, last); }
        }
      }
    }
  }

  lemma LatestUnique(s: set<VectorEvent>, id: string, m: VectorEvent, n: VectorEvent)
    requires Keyed(s) && IsLatest(s, id, m) && IsLatest(s, id, n)
    ensures m == n
  {
    EventLeqAntisymmetric(LogKey, m, n);
  }

  /** The latest event the engine finds for an entity is the one of its history with the greatest key. */
  lemma LatestIs(k: Kernel, hist: History, id: string)
    requires LogOrdered(k.events, hist)
    ensures id in hist ==> LatestOf(Log(k), id).Some? && IsLatest(Elems(hist[id]), id, LatestOf(Log(k), id).value)
    ensures id !in hist ==> LatestOf(Log(k), id) == None
    ensures id !in hist <==> forall e :: e in Log(k) ==> e.entityId != id
  {
    hide EventLeq, Log, OrderedHistory;
    LogHoldsIn(k, hist);
    LatestOfIs(Log(k), id);
    if id in hist {
      var h := hist[id];
      HistoryKin(hist, id);
      assert h[0] in h;
      var m := LatestOf(Log(k), id).value;
      assert m in Elems(Log(k));
      assert forall e :: e in h ==> e in Elems(Log(k));
    }
  }

  lemma HistoryKin(hist: History, id: string)
    requires id in hist && OrderedHistory(id, hist[id])
    ensures hist[id] != [] && forall e :: e in hist[id] ==> e.entityId == id && e.regionId == hist[id][0].regionId
  {
    hide HangsBehind, SelfOrdered;
  }

  /** A history is in its own order, and its hashes are distinct. */
  lemma HistoryOrder(hist: History, id: string)
    requires id in hist && OrderedHistory(id, hist[id])
    ensures Rooted(hist[id]) && SelfOrdered(HistoryKey, hist[id]) && DistinctHashes(hist[id]) && Kin(id, hist[id])
  {
    hide Rooted, Kin, Least;
  }

  /** On a rising history the latest event is the last one. */
  lemma LastIsGreatest(h: seq<VectorEvent>, m: VectorEvent, id: string)
    requires h != [] && Rising(h) && IsLatest(Elems(h), id, m) && Last(h).entityId == id
    ensures m == Last(h)
  {
    forall i | 0 <= i < |h| - 1 ensures !EventLeq(LogKey, Last(h), h[i]) {
      assert Earlier(h[i], h[|h| - 1]);
    }
    assert EventLeq(LogKey, Last(h), m);
  }

  lemma LatestIsLast(k: Kernel, hist: History, id: string)
    requires LogOrdered(k.events, hist) && id in hist && TimelyHistory(hist[id])
    ensures LatestOf(Log(k), id) == Some(Last(hist[id]))
  {
    hide EventLeq, Log, OrderedHistory, IsLatest, LatestOf, Rising;
    LatestIs(k, hist, id);
    HistoryKin(hist, id);
    assert Last(hist[id]) in hist[id];
    LastIsGreatest(hist[id], LatestOf(Log(k), id).value, id);
  }

  // ----- Adding one event to a history -----

  /** Appends an event to the history of its entity. */
  ghost function Extended(hist: History, id: string, e: VectorEvent): History {
    hist[id := (if id in hist then hist[id] else []) + [e]]
  }

  lemma LogExtends(events: map<string, VectorEvent>, hist: History, e: VectorEvent)
    requires LogIs(events, hist) && e.eventHash !in events && e.eventHash != ""
    ensures LogIs(events[e.eventHash := e], Extended(hist, e.entityId, e))
  {
  }

  /** A history with one more event, wherever it goes. */
  lemma LogInserts(events: map<string, VectorEvent>, hist: History, e: VectorEvent, g: seq<VectorEvent>)
    requires LogIs(events, hist) && e.entityId in hist && e.eventHash !in events && e.eventHash != ""
    requires forall f :: f in g <==> f in hist[e.entityId] || f == e
    ensures LogIs(events[e.eventHash := e], hist[e.entityId := g])
  {
  }

  lemma {:induction false} OneOrdered(kind: KeyKind, e: VectorEvent)
    requires e.eventHash !in e.parentHashes
    ensures SelfOrdered(kind, [e])
  {
    assert Elems([e]) == {e};
    assert Available({e}) == {e};
    EventLeqReflexive(kind, e);
    TakeLeast(kind, {e}, e);
    assert {e} - {e} == {};
    NoEvents(kind);
  }

  lemma HistoryStarts(e: VectorEvent)
    requires e.parentHashes == [] && Follows(None, e)
    ensures GoodHistory(e.entityId, [e])
  {
    hide Follows;
    EmptyContinuous();
    ContinuousStep([], e);
    assert [] + [e] == [e];
    OneOrdered(HistoryKey, e);
  }

  lemma RootedInsert(h: seq<VectorEvent>, e: VectorEvent, j: nat, m: nat)
    requires Rooted(h) && j < m <= |h| && e.parentHashes == [h[j].eventHash]
    ensures Rooted(Inserted(h, e, m))
  {
    var g := Inserted(h, e, m);
    InsertedAt(h, e, m);
    forall i | 0 < i < |g| ensures HangsBehind(g, i) {
      if i == m {
        assert g[m].parentHashes == [g[j].eventHash];
      } else {
        var at := if i < m then i else i - 1;
        assert HangsBehind(h, at);
        var p :| 0 <= p < at && h[at].parentHashes == [h[p].eventHash];
        assert g[i].parentHashes == [g[if p < m then p else p + 1].eventHash];
      }
    }
  }

  lemma RootedJoins(h: seq<VectorEvent>, e: VectorEvent, j: nat)
    requires Rooted(h) && j < |h| && e.parentHashes == [h[j].eventHash]
    requires forall f :: f in h ==> f.eventHash != e.eventHash
    ensures Joins(h, e, j)
  {
    forall f | f in h ensures e.eventHash !in f.parentHashes {
      var i :| 0 <= i < |h| && h[i] == f;
      if i > 0 {
        assert HangsBehind(h, i);
        var p :| 0 <= p < i && h[i].parentHashes == [h[p].eventHash];
        assert h[p] in h;
      }
    }
  }

  lemma RootedAvailable(h: seq<VectorEvent>)
    requires Rooted(h) && DistinctHashes(h)
    ensures Available(Elems(h)) == {h[0]}
  {
    var s := Elems(h);
    forall e ensures e in Available(s) <==> e == h[0] {
      if e in s && e != h[0] {
        var i :| 0 <= i < |h| && h[i] == e;
        assert HangsBehind(h, i);
        var p :| 0 <= p < i && h[i].parentHashes == [h[p].eventHash];
        assert h[p] in s;
        assert !Free(e, s);
      }
    }
  }

  lemma KinInsert(id: string, h: seq<VectorEvent>, e: VectorEvent, m: nat)
    requires h != [] && Kin(id, h) && 0 < m <= |h| && e.entityId == id && e.regionId == h[0].regionId
    ensures Kin(id, Inserted(h, e, m)) && Inserted(h, e, m)[0] == h[0]
  {
    InsertedElems(h, e, m);
    InsertedAt(h, e, m);
  }

  // ----- The event of a change -----

  /** The fields of a sealed transition event. */
  ghost predicate Records(e: VectorEvent, before: VectorState, after: Vector, op: OperationType, clock: u64, time: u64,
                          parents: seq<string>) {
    && e.parentHashes == parents && e.entityId == after.vectorId && e.regionId == after.spaceId && e.operation == op
    && e.vectorBefore == before && ToEventState(after) == Ok(e.vectorAfter) && e.actorPublicKey == after.ownerPubkey
    && e.logicalClock == clock && e.timestamp == time && e.signature == ""
  }

  /** The id of an event that a log numbers next. */
  ghost predicate Named(log: seq<VectorEvent>, e: VectorEvent) {
    && NextSequence(log, e.entityId, e.regionId).Ok?
    && var sequence := NextSequence(log, e.entityId, e.regionId).value;
      e.eventId == EventId(e.entityId, e.regionId, e.operation, e.logicalClock, sequence)
  }

  /** Neither the hash nor the id of the event is stored. */
  ghost predicate NewTo(events: map<string, VectorEvent>, e: VectorEvent) {
    e.eventHash !in events && e.eventHash != "" && forall h :: h in events ==> events[h].eventId != e.eventId
  }

  /** A successful emission adds one event, unknown so far, with the expected fields. */
  lemma EmitAdds(env: Foreign, k: Kernel, before: Option<Vector>, after: Vector, op: OperationType, clock: u64,
                 time: u64, parents: seq<string>)
    returns (e: VectorEvent)
    requires Emit(env, k, before, after, op, clock, time, parents).1.Ok?
    ensures Emit(env, k, before, after, op, clock, time, parents).0 == k.(events := k.events[e.eventHash := e])
    ensures NewTo(k.events, e) && Named(Log(k), e) && CheckEvent(env, e).Ok?
    ensures BeforeState(before, after).Ok?
    ensures Records(e, BeforeState(before, after).value, after, op, clock, time, parents)
  {
    hide CheckEvent, PayloadBytes, EventBytes, NextSequence, EventId, Log;
    var draft := DraftTransition(Log(k), before, after, op, clock, time, parents).value;
    e := Sealed(env, draft);
  }

  // ----- Where replay tells the next event of a vector -----

  /** The place of a hash in a history, counted from one. */
  ghost function PositionIn(h: seq<VectorEvent>, hash: string): (place: nat)
    ensures place <= |h|
  {
    if h == [] || Last(h).eventHash == hash then |h| else PositionIn(h[..|h| - 1], hash)
  }

  lemma {:induction false} PositionIs(h: seq<VectorEvent>, i: nat)
    requires DistinctHashes(h) && i < |h|
    ensures PositionIn(h, h[i].eventHash) == i + 1
  {
    if i < |h| - 1 {
      assert h[i].eventHash != Last(h).eventHash;
      PositionIs(h[..|h| - 1], i);
    }
  }

  ghost function StoryOf(k: Kernel, id: string): seq<VectorEvent> {
    Story(Elems(Log(k)), id)
  }

  /** The key of the next event of a vector inside its history, but for the hash. */
  function NextKey(log: seq<VectorEvent>, after: Vector, op: OperationType, time: u64): Key {
    var next := NextSequence(log, after.vectorId, after.spaceId);
    Key(after.version, time, after.vectorId,
      EventId(after.vectorId, after.spaceId, op, after.version, if next.Ok? then next.value else 0), "")
  }

  /** Where replay will tell the next event of a vector: behind its latest event, in front of the first greater key. */
  ghost function NextPlace(k: Kernel, after: Vector, op: OperationType, time: u64): (m: nat)
    ensures m <= |StoryOf(k, after.vectorId)|
  {
    var story := StoryOf(k, after.vectorId);
    match LatestOf(Log(k), after.vectorId)
    case None => |story|
    case Some(p) => Place(HistoryKey, story, NextKey(Log(k), after, op, time), PositionIn(story, p.eventHash))
  }

  /**
   * Replay will still tell the vector's history once the change is recorded: the event comes last, or
   * it shows no change and comes where the vector was in the same state.
   */
  ghost predicate Retells(k: Kernel, before: Vector, after: Vector, op: OperationType, time: u64) {
    var story, m := StoryOf(k, after.vectorId), NextPlace(k, after, op, time);
    m == |story|
    || (m > 0 && ToEventState(after) == ToEventState(before) && ToEventState(before) == Ok(story[m - 1].vectorAfter))
  }

  lemma HistoryIsChosen(k: Kernel, hist: History, id: string)
    requires LogIs(k.events, hist) && id in hist && forall e :: e in hist[id] ==> e.entityId == id
    ensures HistoryOf(Elems(Log(k)), id) == Elems(hist[id])
  {
    hide Log;
    LogHoldsIn(k, hist);
  }

  /** Replay tells a rooted, ordered history as it stands. */
  lemma RootedStory(k: Kernel, hist: History, id: string)
    requires LogIs(k.events, hist) && id in hist && Rooted(hist[id]) && SelfOrdered(HistoryKey, hist[id])
    requires forall e :: e in hist[id] ==> e.entityId == id
    ensures StoryOf(k, id) == hist[id] && OneRoot(Elems(Log(k)), id)
  {
    hide Log, Least, LogIs, Rooted;
    HistoryIsChosen(k, hist, id);
    RootedAvailable(hist[id]);
  }

  lemma OrderedStory(k: Kernel, hist: History, id: string)
    requires LogOrdered(k.events, hist) && id in hist
    ensures StoryOf(k, id) == hist[id] && OneRoot(Elems(Log(k)), id)
  {
    hide OrderedHistory, Log, OneRoot, LogIs, Rooted, SelfOrdered, StoryOf;
    HistoryOrder(hist, id);
    HistoryKin(hist, id);
    RootedStory(k, hist, id);
  }

  /** Replay tells each entity's history as the invariant lists it. */
  lemma StoryIsHistory(k: Kernel, hist: History, id: string)
    requires LogInv(k.events, hist) && id in hist
    ensures StoryOf(k, id) == hist[id] && Told(Elems(Log(k)), id)
  {
    hide OrderedHistory, Log, Continuous, OneRoot, LogIs;
    LogIsOrdered(k.events, hist);
    OrderedStory(k, hist, id);
  }

  /** Events with different ids compare alike, whatever the hash. */
  lemma HashDoesNotMatter(h: seq<VectorEvent>, e: VectorEvent, key: Key)
    requires key == KeyOf(HistoryKey, e).(third := "") && forall f :: f in h ==> f.eventId != e.eventId
    ensures forall f :: f in h ==>
      (KeyLeq(KeyOf(HistoryKey, f), key) <==> KeyLeq(KeyOf(HistoryKey, f), KeyOf(HistoryKey, e)))
  {
    hide Text.Leq;
  }

  // ----- Operations on known vectors -----

  predicate PlainOperation(op: OperationType) {
    !op.OriginCreate? && !op.Other?
  }

  /** `after` is a later state of the same vector. */
  ghost predicate Succeeds(before: Vector, after: Vector) {
    && GoodVector(after) && after.vectorId == before.vectorId && after.spaceId == before.spaceId
    && after.ownerPubkey == before.ownerPubkey && |after.components| == |before.components|
    && before.version <= after.version
  }

  /** The new event, its parent's place in the history, and its own. */
  ghost predicate Behind(k: Kernel, h: seq<VectorEvent>, e: VectorEvent, j: nat, m: nat) {
    && j < m <= |h| && LatestOf(Log(k), e.entityId) == Some(h[j]) && e.parentHashes == [h[j].eventHash]
    && m == Place(HistoryKey, h, KeyOf(HistoryKey, e), j + 1)
  }

  lemma LatestPlace(k: Kernel, hist: History, id: string) returns (j: nat)
    requires LogOrdered(k.events, hist) && id in hist
    ensures j < |hist[id]| && LatestOf(Log(k), id) == Some(hist[id][j])
    ensures PositionIn(hist[id], hist[id][j].eventHash) == j + 1
  {
    hide OrderedHistory, Log, Rooted, SelfOrdered, LogIs, LatestOf;
    LatestIs(k, hist, id);
    HistoryOrder(hist, id);
    j :| 0 <= j < |hist[id]| && hist[id][j] == LatestOf(Log(k), id).value;
    PositionIs(hist[id], j);
  }

  lemma FreshHash(events: map<string, VectorEvent>, hist: History, id: string, e: VectorEvent)
    requires LogOrdered(events, hist) && id in hist && NewTo(events, e)
    ensures OrderedHistory(id, hist[id]) && forall f :: f in hist[id] ==>
      f.eventHash != e.eventHash && f.eventId != e.eventId
  {
    hide OrderedHistory;
  }

  /** The event of a change to a known vector hangs behind its latest event, and replay tells it at its place. */
  lemma RecordAdds(env: Foreign, k: Kernel, hist: History, before: Vector, after: Vector, op: OperationType, time: u64)
    returns (e: VectorEvent, j: nat, m: nat)
    requires LogOrdered(k.events, hist) && after.vectorId in hist
    requires EmitUpdate(env, k, before, after, op, time).1.Ok?
    ensures EmitUpdate(env, k, before, after, op, time).0 == k.(events := k.events[e.eventHash := e])
    ensures NewTo(k.events, e) && ToEventState(before).Ok? && e.entityId == after.vectorId && e.timestamp == time
    ensures Behind(k, hist[after.vectorId], e, j, m) && m == NextPlace(k, after, op, time)
    ensures Records(e, ToEventState(before).value, after, op, after.version, time, e.parentHashes)
  {
    hide LogOrdered, Log, Emit, ToEventState, LatestOf, PositionIn, Place, KeyLeq, NextSequence, EventId, NewTo,
      CheckEvent, StoryOf;
    var id := after.vectorId;
    var h := hist[id];
    e := EmitAdds(env, k, Some(before), after, op, after.version, time, ParentsFor(Log(k), id));
    j := LatestPlace(k, hist, id);
    OrderedStory(k, hist, id);
    FreshHash(k.events, hist, id, e);
    var key := NextKey(Log(k), after, op, time);
    HashDoesNotMatter(h, e, key);
    SamePlace(HistoryKey, h, key, KeyOf(HistoryKey, e), j + 1);
    m := Place(HistoryKey, h, KeyOf(HistoryKey, e), j + 1);
  }

  /** A history with one more event, before asking whether its states still fit together. */
  lemma OrderGrows(id: string, h: seq<VectorEvent>, e: VectorEvent, j: nat, m: nat)
    requires Rooted(h) && SelfOrdered(HistoryKey, h) && Kin(id, h) && j < |h| && e.parentHashes == [h[j].eventHash]
    requires m == Place(HistoryKey, h, KeyOf(HistoryKey, e), j + 1) && e.entityId == id && e.regionId == h[0].regionId
    requires forall f :: f in h ==> f.eventHash != e.eventHash
    ensures var g := Inserted(h, e, m); Rooted(g) && SelfOrdered(HistoryKey, g) && Kin(id, g) && g[0] == h[0]
  {
    hide Rooted, SelfOrdered, Kin, KeyLeq, Joins, Place, Inserted;
    RootedJoins(h, e, j);
    InsertionOrder(HistoryKey, h, e, j);
    RootedInsert(h, e, j, m);
    NotEmpty(h);
    KinInsert(id, h, e, m);
  }

  lemma NotEmpty(h: seq<VectorEvent>)
    requires Rooted(h)
    ensures h != []
  {
  }

  /** Whether the states still fit together, and where the story then ends. */
  lemma StateGrows(id: string, before: Vector, after: Vector, h: seq<VectorEvent>, e: VectorEvent, op: OperationType,
                   time: u64, m: nat)
    requires h != [] && Continuous(h) && VectorStory(id, before, h) && Succeeds(before, after) && PlainOperation(op)
    requires 0 < m <= |h|
    requires Records(e, ToEventState(before).value, after, op, after.version, time, e.parentHashes)
    ensures var g := Inserted(h, e, m);
      && (Continuous(g) <==>
            || m == |h|
            || (ToEventState(after) == ToEventState(before) && ToEventState(before) == Ok(h[m - 1].vectorAfter)))
      && (Continuous(g) ==> VectorStory(id, after, g))
  {
    hide GoodVector, ToEventState, Continuous, Unbroken, IsRegionCreate, Inserted;
    var g := Inserted(h, e, m);
    InsertedElems(h, e, m);
    InsertedAt(h, e, m);
    PlainEvent(e, after);
    VectorContinuous(h);
    VectorContinuous(g);
    InsertUnbroken(h, e, m);
  }

  lemma PlainEvent(e: VectorEvent, after: Vector)
    requires PlainOperation(e.operation)
    ensures !IsRegionCreate(e)
  {
  }

  /**
   * Recording a change of a known vector: the events of its history, the order in which replay tells
   * them, and whether it can.
   */
  lemma RecordInserts(env: Foreign, k: Kernel, hist: History, before: Vector, after: Vector, op: OperationType,
                      time: u64)
    returns (e: VectorEvent, j: nat, m: nat)
    requires LogOrdered(k.events, hist) && after.vectorId in hist && hist[after.vectorId] != []
    requires Continuous(hist[after.vectorId])
    requires VectorStory(after.vectorId, before, hist[after.vectorId]) && Succeeds(before, after) && PlainOperation(op)
    requires EmitUpdate(env, k, before, after, op, time).1.Ok?
    ensures var k', h := EmitUpdate(env, k, before, after, op, time).0, hist[after.vectorId];
      && k' == k.(events := k.events[e.eventHash := e]) && NewTo(k.events, e) && e.entityId == after.vectorId
      && Behind(k, h, e, j, m) && 0 < m <= |h| && e.logicalClock == after.version && e.timestamp == time
      && LogIs(k'.events, hist[after.vectorId := Inserted(h, e, m)])
      && Rooted(Inserted(h, e, m)) && SelfOrdered(HistoryKey, Inserted(h, e, m))
      && Kin(after.vectorId, Inserted(h, e, m))
      && (Continuous(Inserted(h, e, m)) <==> Retells(k, before, after, op, time))
      && (Continuous(Inserted(h, e, m)) ==> VectorStory(after.vectorId, after, Inserted(h, e, m)))
  {
    hide EmitUpdate, GoodVector, ToEventState, OrderedHistory, Rooted, SelfOrdered, Continuous, Log, Inserted,
      LatestOf, Place, Kin, PlainOperation, StoryOf, Dated;
    var id := after.vectorId;
    var h := hist[id];
    e, j, m := RecordAdds(env, k, hist, before, after, op, time);
    OrderedStory(k, hist, id);
    FreshHash(k.events, hist, id, e);
    HistoryOrder(hist, id);
    InsertedElems(h, e, m);
    LogInserts(k.events, hist, e, Inserted(h, e, m));
    OrderGrows(id, h, e, j, m);
    StateGrows(id, before, after, h, e, op, time, m);
  }

  /** A change that replay can still tell extends the vector's history, which ends at the new state. */
  lemma RecordExtends(env: Foreign, k: Kernel, hist: History, before: Vector, after: Vector, op: OperationType,
                      time: u64)
    returns (hist': History)
    requires LogInv(k.events, hist) && after.vectorId in hist && hist[after.vectorId] != []
    requires VectorStory(after.vectorId, before, hist[after.vectorId]) && Succeeds(before, after) && PlainOperation(op)
    requires EmitUpdate(env, k, before, after, op, time).1.Ok? && Retells(k, before, after, op, time)
    ensures var k' := EmitUpdate(env, k, before, after, op, time).0;
      k'.states == k.states && LogInv(k'.events, hist')
    ensures hist'.Keys == hist.Keys && forall id :: id in hist && id != after.vectorId ==> hist'[id] == hist[id]
    ensures hist'[after.vectorId] != [] && VectorStory(after.vectorId, after, hist'[after.vectorId])
    ensures TimelyHistory(hist[after.vectorId]) && NotBefore(hist[after.vectorId], after.version, time) ==>
      TimelyHistory(hist'[after.vectorId]) && Last(hist'[after.vectorId]).timestamp == time
  {
    hide EmitUpdate, VectorStory, OrderedHistory, Rooted, SelfOrdered, Continuous, Log, Inserted, LatestOf, Kin,
      Retells, LogIs, Behind, NewTo;
    LogIsOrdered(k.events, hist);
    var id := after.vectorId;
    var h := hist[id];
    var e, j, m := RecordInserts(env, k, hist, before, after, op, time);
    var g := Inserted(h, e, m);
    hist' := hist[id := g];
    assert GoodHistory(id, g) by { GoodIf(id, g); }
    if TimelyHistory(h) && NotBefore(h, after.version, time) { TimelyGrows(k, hist, id, e, j, m); }
  }

  lemma GoodIf(id: string, g: seq<VectorEvent>)
    requires Rooted(g) && SelfOrdered(HistoryKey, g) && Continuous(g) && Kin(id, g)
    ensures GoodHistory(id, g)
  {
    hide Kin, Rooted, SelfOrdered, Continuous;
  }

  /** Later than the last event of a history. */
  ghost predicate NotBefore(h: seq<VectorEvent>, clock: u64, time: u64) {
    h != [] ==> Last(h).logicalClock < clock || (Last(h).logicalClock == clock && Last(h).timestamp < time)
  }

  /** Behind a rising chain the event goes to the end, and a later one keeps the chain rising. */
  lemma TimelyGrows(k: Kernel, hist: History, id: string, e: VectorEvent, j: nat, m: nat)
    requires LogOrdered(k.events, hist) && id in hist && TimelyHistory(hist[id]) && e.entityId == id
    requires Behind(k, hist[id], e, j, m)
    ensures Inserted(hist[id], e, m) == hist[id] + [e]
    ensures NotBefore(hist[id], e.logicalClock, e.timestamp) ==> TimelyHistory(Inserted(hist[id], e, m))
  {
    hide LogOrdered, Log, LatestOf, Place, KeyLeq, Rising;
    var h := hist[id];
    LatestIsLast(k, hist, id);
    DistinctIn(k.events, hist, id);
    assert h[j] == h[|h| - 1];
    assert h[..m] == h && h[m..] == [];
    if NotBefore(h, e.logicalClock, e.timestamp) { RisingGrows(h, e); }
  }

  lemma DistinctIn(events: map<string, VectorEvent>, hist: History, id: string)
    requires LogOrdered(events, hist) && id in hist
    ensures forall i, j :: 0 <= i < j < |hist[id]| ==> hist[id][i] != hist[id][j]
  {
    hide Rooted, Kin, Least;
    assert OrderedHistory(id, hist[id]);
    DistinctHashesKeyed(hist[id]);
  }

  lemma RisingGrows(h: seq<VectorEvent>, e: VectorEvent)
    requires h != [] && Rising(h) && Earlier(Last(h), e)
    ensures Rising(h + [e])
  {
    forall i | 0 <= i < |h| ensures Earlier(h[i], e) {
      if i < |h| - 1 { assert Earlier(h[i], Last(h)); }
    }
  }

  /** A change that replay cannot tell leaves a log that does not replay. */
  lemma RecordBreaks(env: Foreign, k: Kernel, hist: History, before: Vector, after: Vector, op: OperationType,
                     time: u64)
    requires LogInv(k.events, hist) && after.vectorId in hist && hist[after.vectorId] != []
    requires VectorStory(after.vectorId, before, hist[after.vectorId]) && Succeeds(before, after) && PlainOperation(op)
    requires EmitUpdate(env, k, before, after, op, time).1.Ok? && !Retells(k, before, after, op, time)
    ensures var k' := EmitUpdate(env, k, before, after, op, time).0;
      after.vectorId in Entities(Elems(Log(k'))) && !Told(Elems(Log(k')), after.vectorId)
  {
    hide EmitUpdate, VectorStory, OrderedHistory, Rooted, SelfOrdered, Continuous, Log, Inserted, LatestOf, Retells,
      LogIs, NewTo, Behind, OneRoot;
    LogIsOrdered(k.events, hist);
    var id := after.vectorId;
    var e, j, m := RecordInserts(env, k, hist, before, after, op, time);
    var k', g := EmitUpdate(env, k, before, after, op, time).0, Inserted(hist[id], e, m);
    RootedStory(k', hist[id := g], id);
    InsertedElems(hist[id], e, m);
    InEntities(k', hist[id := g], e);
  }

  lemma InEntities(k: Kernel, hist: History, e: VectorEvent)
    requires LogIs(k.events, hist) && e.entityId in hist && e in hist[e.entityId]
    ensures e.entityId in Entities(Elems(Log(k)))
  {
    hide Log;
    LogHoldsIn(k, hist);
    assert e in Elems(Log(k));
  }

  // ----- When the next event comes last -----

  /** Every event of the entity is at most as late as the given clock readings. */
  ghost predicate NotAfter(h: seq<VectorEvent>, clock: u64, time: u64) {
    forall f :: f in h ==> f.logicalClock < clock || (f.logicalClock == clock && f.timestamp < time)
  }

  lemma ComesLast(k: Kernel, hist: History, before: Vector, after: Vector, op: OperationType, time: u64)
    requires LogInv(k.events, hist) && after.vectorId in hist && NotAfter(hist[after.vectorId], after.version, time)
    ensures Retells(k, before, after, op, time)
  {
    hide LogInv, LogOrdered, Log, ToEventState, LatestOf, Place, EventId, NextSequence, StoryOf;
    var h := hist[after.vectorId];
    LogIsOrdered(k.events, hist);
    StoryIsHistory(k, hist, after.vectorId);
    var j := LatestPlace(k, hist, after.vectorId);
    var key := NextKey(Log(k), after, op, time);
    forall i | 0 <= i < |h| ensures KeyLeq(KeyOf(HistoryKey, h[i]), key) { assert h[i] in h; }
    PlaceLast(HistoryKey, h, key, j + 1);
  }

  /** Behind a rising chain the next event always comes last, whatever the clock says. */
  lemma TimelyRetells(k: Kernel, hist: History, before: Vector, after: Vector, op: OperationType, time: u64)
    requires LogInv(k.events, hist) && after.vectorId in hist && TimelyHistory(hist[after.vectorId])
    ensures Retells(k, before, after, op, time)
  {
    hide LogInv, LogOrdered, Log, ToEventState, LatestOf, KeyLeq, EventId, NextSequence, StoryOf, Rising;
    var h := hist[after.vectorId];
    LogIsOrdered(k.events, hist);
    StoryIsHistory(k, hist, after.vectorId);
    LatestIsLast(k, hist, after.vectorId);
    var j := LatestPlace(k, hist, after.vectorId);
    DistinctIn(k.events, hist, after.vectorId);
    assert h[j] == h[|h| - 1];
  }

  /** The change of a vector that moves to its next version comes last. */
  lemma BumpComesLast(k: Kernel, hist: History, before: Vector, after: Vector, op: OperationType, time: u64)
    requires LogInv(k.events, hist) && after.vectorId in hist && hist[after.vectorId] != []
    requires VectorStory(after.vectorId, before, hist[after.vectorId]) && before.version < after.version
    ensures Retells(k, before, after, op, time)
  {
    hide LogInv, GoodVector, ToEventState, Retells, IsRegionCreate;
    ComesLast(k, hist, before, after, op, time);
  }

  /** So does any change later than the latest event of its vector. */
  lemma LaterComesLast(k: Kernel, hist: History, before: Vector, after: Vector, op: OperationType, time: u64)
    requires LogInv(k.events, hist) && after.vectorId in hist && hist[after.vectorId] != []
    requires VectorStory(after.vectorId, before, hist[after.vectorId]) && before.version <= after.version
    requires After(k, after.vectorId, time)
    ensures Retells(k, before, after, op, time)
  {
    hide LogInv, LogOrdered, GoodVector, ToEventState, Retells, IsRegionCreate, Log, LatestOf, Text.Leq;
    var h := hist[after.vectorId];
    LogIsOrdered(k.events, hist);
    LatestIs(k, hist, after.vectorId);
    var p := LatestOf(Log(k), after.vectorId).value;
    HistoryKinIn(k.events, hist, after.vectorId);
    forall f | f in h
      ensures f.logicalClock < after.version || (f.logicalClock == after.version && f.timestamp < time)
    {
      assert f in Elems(h) && p in h;
      assert EventLeq(LogKey, f, p);
    }
    ComesLast(k, hist, before, after, op, time);
  }

  lemma HistoryKinIn(events: map<string, VectorEvent>, hist: History, id: string)
    requires LogInv(events, hist) && id in hist
    ensures forall e :: e in hist[id] ==> e.entityId == id
  {
    hide Rooted, SelfOrdered, Continuous, LogIs;
    assert GoodHistory(id, hist[id]);
  }

  /** A change happens later than everything its vector has been through. */
  ghost predicate After(k: Kernel, id: string, time: u64) {
    LatestOf(Log(k), id).Some? ==> LatestOf(Log(k), id).value.timestamp < time
  }
}
