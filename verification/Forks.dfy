/**
 * Why the clock matters: an event recorded behind a parent that already has children is replayed at
 * the place of its key, which need not be where the engine recorded it.
 */
module Forks {
  import opened Agreement
  import opened Base
  import opened Events
  import opened Exactness
  import opened Histories
  import opened Insertion
  import opened Invariant
  import opened LeastOrder
  import opened Machine
  import opened Ordering
  import opened Region
  import opened Replay
  import opened Serialization
  import opened Validation
  import opened Vectors
  import Text

  /** `a` and `b` both hang behind the last event of the chain `h`. */
  ghost predicate IsFork(h: seq<VectorEvent>, a: VectorEvent, b: VectorEvent) {
    && IsChain(h) && DistinctHashes(h + [a, b])
    && a.parentHashes == [Last(h).eventHash] && b.parentHashes == [Last(h).eventHash]
  }

  ghost function InKeyOrder(a: VectorEvent, b: VectorEvent): seq<VectorEvent> {
    if EventLeq(HistoryKey, a, b) then [a, b] else [b, a]
  }

  lemma ForkParts(h: seq<VectorEvent>, a: VectorEvent, b: VectorEvent)
    requires IsFork(h, a, b)
    ensures h != [] && DistinctHashes(h) && a.eventHash != b.eventHash
    ensures forall f :: f in h ==> f.eventHash != a.eventHash && f.eventHash != b.eventHash
  {
    var g := h + [a, b];
    assert forall i :: 0 <= i < |h| ==> g[i] == h[i];
    assert g[|h|] == a && g[|h| + 1] == b;
  }

  lemma ChainRooted(h: seq<VectorEvent>)
    requires IsChain(h)
    ensures Rooted(h)
  {
    forall i | 0 < i < |h| ensures HangsBehind(h, i) {
      assert h[i].parentHashes == [h[i - 1].eventHash];
    }
  }

  /** Replay tells a forked history in key order. */
  lemma ForkOrder(h: seq<VectorEvent>, a: VectorEvent, b: VectorEvent)
    requires IsFork(h, a, b)
    ensures Least(HistoryKey, Elems(h + [a, b])) == h + InKeyOrder(a, b)
    ensures Available(Elems(h + [a, b])) == {h[0]}
  {
    hide EventLeq, Least, Joins, Rooted;
    ForkParts(h, a, b);
    ChainRooted(h);
    ChainOrder(HistoryKey, h);
    RootedJoins(h, a, |h| - 1);
    InsertionOrder(HistoryKey, h, a, |h| - 1);
    assert h[..|h|] == h && h[|h|..] == [];
    var g := Inserted(h, a, |h|);
    assert g == h + [a];
    RootedInsert(h, a, |h| - 1, |h|);
    InsertedElems(h, a, |h|);
    RootedJoins(g, b, |h| - 1);
    InsertionOrder(HistoryKey, g, b, |h| - 1);
    var m := Place(HistoryKey, g, KeyOf(HistoryKey, b), |h|);
    KeysCompare(HistoryKey, a, b);
    assert Inserted(g, b, m) == h + InKeyOrder(a, b);
    InsertedElems(g, b, m);
    assert Elems(h + [a, b]) == Elems(g) + {b};
    RootedInsert(g, b, |h| - 1, m);
    RootedAvailable(Inserted(g, b, m));
  }

  /**
   * A history that forks into `a` and then `b`, each recording the state the engine saw, is told
   * exactly when `a` is not after `b` by key, or neither changed anything.
   */
  lemma ForkToldIff(s: set<VectorEvent>, id: string, h: seq<VectorEvent>, a: VectorEvent, b: VectorEvent)
    requires IsFork(h, a, b) && HistoryOf(s, id) == Elems(h + [a, b]) && Continuous(h)
    requires !IsRegionCreate(a) && !IsRegionCreate(b) && !a.operation.OriginCreate? && !b.operation.OriginCreate?
    requires a.vectorBefore == Last(h).vectorAfter && b.vectorBefore == a.vectorAfter
    ensures Told(s, id) <==>
      EventLeq(HistoryKey, a, b) || (a.vectorAfter == Last(h).vectorAfter && b.vectorAfter == Last(h).vectorAfter)
  {
    hide EventLeq, IsRegionCreate, Continuous, IsFork, Available;
    ForkOrder(h, a, b);
    ContinuousStep(h, a);
    ContinuousStep(h, b);
    assert h + [a, b] == (h + [a]) + [b] && h + [b, a] == (h + [b]) + [a];
    ContinuousStep(h + [a], b);
    ContinuousStep(h + [b], a);
    ForkParts(h, a, b);
  }

  // ----- An event the engine does not see as the latest -----

  /** The order of two events of one entity by clock, time and id. */
  predicate NotAbove(clock: u64, time: u64, eventId: string, clock': u64, time': u64, eventId': string) {
    if clock != clock' then clock < clock'
    else if time != time' then time < time'
    else Text.Leq(eventId, eventId')
  }

  lemma KeyByIds(a: VectorEvent, key: Key)
    requires a.entityId == key.first && a.eventId != key.second
    ensures KeyLeq(KeyOf(HistoryKey, a), key) <==>
      NotAbove(a.logicalClock, a.timestamp, a.eventId, key.clock, key.time, key.second)
  {
    hide Text.Leq;
  }

  /** Every entity's history is a rising chain, but for one last event that the engine does not see as the latest. */
  ghost predicate Hidden(k: Kernel, hist: History, id: string, a: VectorEvent) {
    && id in hist && |hist[id]| >= 2 && Last(hist[id]) == a && TimelyHistory(hist[id][..|hist[id]| - 1])
    && LatestOf(Log(k), id) == Some(hist[id][|hist[id]| - 2])
  }

  /** The id of the next event of a vector, as its clock, region and the number of its events make it. */
  function NextId(log: seq<VectorEvent>, after: Vector, op: OperationType): string {
    NextKey(log, after, op, 0).second
  }

  /**
   * Any event after a hidden one is told last exactly when its clock, time and id are not below those
   * of the hidden event; else only if it changes nothing, and the hidden event did not either.
   */
  lemma HiddenRetellsIff(k: Kernel, hist: History, a: VectorEvent, before: Vector, after: Vector, op: OperationType,
                         time: u64)
    requires LogInv(k.events, hist) && Hidden(k, hist, after.vectorId, a) && NextId(Log(k), after, op) != a.eventId
    requires VectorStory(after.vectorId, before, hist[after.vectorId])
    ensures Retells(k, before, after, op, time) <==>
      || NotAbove(a.logicalClock, a.timestamp, a.eventId, after.version, time, NextId(Log(k), after, op))
      || (ToEventState(after) == ToEventState(before)
          && hist[after.vectorId][|hist[after.vectorId]| - 2].vectorAfter == a.vectorAfter)
  {
    hide LogInv, LogOrdered, Log, ToEventState, LatestOf, KeyLeq, EventId, NextSequence, StoryOf, TimelyHistory,
      NotAbove, VectorStory;
    var id := after.vectorId;
    var h := hist[id];
    StoryIsHistory(k, hist, id);
    LogIsOrdered(k.events, hist);
    var j := LatestPlace(k, hist, id);
    DistinctIn(k.events, hist, id);
    assert h[j] == h[|h| - 2];
    InHistory(k.events, hist, id);
    assert a in h;
    KeyByIds(a, NextKey(Log(k), after, op, time));
    EndsAt(id, before, h);
  }

  /** So the next version of a vector is told last, hidden events or not. */
  lemma HiddenUpdateRetold(k: Kernel, hist: History, a: VectorEvent, before: Vector, after: Vector, op: OperationType,
                           time: u64)
    requires LogInv(k.events, hist) && Hidden(k, hist, after.vectorId, a) && before.version < after.version
    requires VectorStory(after.vectorId, before, hist[after.vectorId])
    ensures Retells(k, before, after, op, time)
  {
    hide LogInv, Hidden, Retells, VectorStory;
    NonEmptyHidden(k, hist, after.vectorId, a);
    BumpComesLast(k, hist, before, after, op, time);
  }

  lemma NonEmptyHidden(k: Kernel, hist: History, id: string, a: VectorEvent)
    requires Hidden(k, hist, id, a)
    ensures id in hist && hist[id] != []
  {
    hide Log, LatestOf, TimelyHistory;
  }

  // ----- What a transfer adds to rising histories -----

  /** Behind a rising history, a recorded event goes to the end of it. */
  lemma RecordAppends(env: Foreign, k: Kernel, hist: History, before: Vector, after: Vector, op: OperationType,
                      time: u64)
    returns (hist': History, e: VectorEvent)
    requires LogInv(k.events, hist) && after.vectorId in hist && hist[after.vectorId] != []
    requires TimelyHistory(hist[after.vectorId])
    requires VectorStory(after.vectorId, before, hist[after.vectorId]) && Succeeds(before, after) && PlainOperation(op)
    requires EmitUpdate(env, k, before, after, op, time).1.Ok?
    ensures var k' := EmitUpdate(env, k, before, after, op, time).0;
      && k'.states == k.states && LogInv(k'.events, hist')
      && hist' == hist[after.vectorId := hist[after.vectorId] + [e]]
      && VectorStory(after.vectorId, after, hist'[after.vectorId])
    ensures e.logicalClock == after.version && e.timestamp == time && e.eventId == NextId(Log(k), after, op)
    ensures ToEventState(after) == Ok(e.vectorAfter)
  {
    hide EmitUpdate, VectorStory, OrderedHistory, Rooted, SelfOrdered, Continuous, Log, Inserted, LatestOf, Kin,
      Retells, LogIs, LogInv, LogOrdered, NewTo, NextKey, TimelyHistory, ToEventState;
    var id := after.vectorId;
    var h := hist[id];
    LogIsOrdered(k.events, hist);
    HistoryContinuous(k.events, hist, id);
    TimelyRetells(k, hist, before, after, op, time);
    var j, m: nat;
    e, j, m := RecordInserts(env, k, hist, before, after, op, time);
    TimelyGrows(k, hist, id, e, j, m);
    hist' := hist[id := h + [e]];
    NewHash(k.events, e);
    InsertedElems(h, e, m);
    LogInvInserts(k.events, hist, e, h + [e]);
    EventNamed(env, k, before, after, op, time, e);
  }

  lemma LogInvInserts(events: map<string, VectorEvent>, hist: History, e: VectorEvent, g: seq<VectorEvent>)
    requires LogInv(events, hist) && e.entityId in hist && e.eventHash !in events && e.eventHash != ""
    requires Rooted(g) && SelfOrdered(HistoryKey, g) && Kin(e.entityId, g) && Continuous(g)
    requires forall f :: f in g <==> f in hist[e.entityId] || f == e
    ensures LogInv(events[e.eventHash := e], hist[e.entityId := g])
  {
    hide OrderedHistory, LogIs, Continuous, Rooted, SelfOrdered, Kin;
    OrderedIf(e.entityId, g);
    LogIsOrdered(events, hist);
    LogInserts(events, hist, e, g);
  }

  /** The one event an emission adds is named by the log and ends at the new state. */
  lemma EventNamed(env: Foreign, k: Kernel, before: Vector, after: Vector, op: OperationType, time: u64, e: VectorEvent)
    requires EmitUpdate(env, k, before, after, op, time).1.Ok? && e.eventHash !in k.events
    requires EmitUpdate(env, k, before, after, op, time).0 == k.(events := k.events[e.eventHash := e])
    ensures e.eventId == NextId(Log(k), after, op) && ToEventState(after) == Ok(e.vectorAfter)
  {
    hide Log, Emit, ToEventState, CheckEvent, EventId, NextSequence;
    var f := EmitAdds(env, k, Some(before), after, op, after.version, time, ParentsFor(Log(k), after.vectorId));
    var events' := k.events[e.eventHash := e];
    assert events' == k.events[f.eventHash := f];
    assert e.eventHash in events' && f.eventHash in events';
    assert e == f;
  }

  /** What an accepted transfer between different vectors adds to rising histories. */
  ghost predicate Appends(k: Kernel, hist: History, k': Kernel, hist': History, id: string, after: Vector, time: u64,
                          e: VectorEvent) {
    && id in hist && id in hist' && hist[id] != [] && TimelyHistory(hist[id]) && hist'[id] == hist[id] + [e]
    && id in k.states && ToEventState(k.states[id]) == Ok(Last(hist[id]).vectorAfter)
    && k'.states == k'.states[id := after] && after.vectorId == id && ToEventState(after) == Ok(e.vectorAfter)
    && e.logicalClock == after.version && e.timestamp == time
    && e.eventId == NextId(Log(k), after, OperationType.Transfer)
  }

  lemma TransferAppends(env: Foreign, k: Kernel, hist: History, op: Op)
    returns (hist': History, e: VectorEvent, f: VectorEvent)
    requires op.TransferOp? && op.fromId != op.toId && Inv(k, hist) && Timely(hist) && TransferStep(env, k, op).1.Ok?
    ensures TransferWrites(k, op)
    ensures Inv(TransferStep(env, k, op).0, hist') && hist'.Keys == hist.Keys
    ensures forall id :: id in hist && id != op.fromId && id != op.toId ==> hist'[id] == hist[id]
    ensures var k' := TransferStep(env, k, op).0;
      var sides := Sides(k, op);
      && Appends(k, hist, k', hist', op.fromId, sides.0, op.sentAt, e)
      && Appends(k, hist, k', hist', op.toId, sides.1, op.receivedAt, f)
  {
    hide TransferStep, TransferStates, GoodVector, LogInv, EmitUpdate, VectorStory, Inv, Log, Succeeds, LatestOf,
      Retells, TimelyHistory, ToEventState, NextKey;
    TransferStepIs(env, k, op);
    var from, to := k.states[op.fromId], k.states[op.toId];
    VectorFacts(k, hist, op.fromId);
    VectorFacts(k, hist, op.toId);
    TransferStatesSucceed(from, to, op);
    EndsAt(op.fromId, from, hist[op.fromId]);
    EndsAt(op.toId, to, hist[op.toId]);
    var sides := TransferStates(from, to, op.amount, op.fromCheckedAt, op.toCheckedAt).value;
    var sender, receiver := sides.0, sides.1;
    var stored := Put(Put(k, sender), receiver);
    SameEventsSameLog(k, stored);
    var mid: History;
    mid, e := RecordAppends(env, stored, hist, from, sender, OperationType.Transfer, op.sentAt);
    var sent := EmitUpdate(env, stored, from, sender, OperationType.Transfer, op.sentAt).0;
    hist', f := RecordAppends(env, sent, mid, to, receiver, OperationType.Transfer, op.receivedAt);
    IdElsewhere(k, hist, sent, mid, receiver);
    InvReplaces(k, hist, Put(k, sender).(events := sent.events), mid, sender);
    InvReplaces(Put(k, sender).(events := sent.events), mid, TransferStep(env, k, op).0, hist', receiver);
  }

  lemma IdElsewhere(k: Kernel, hist: History, k': Kernel, hist': History, after: Vector)
    requires LogInv(k.events, hist) && LogInv(k'.events, hist') && after.vectorId in hist && after.vectorId in hist'
    requires hist'[after.vectorId] == hist[after.vectorId]
    ensures NextId(Log(k'), after, OperationType.Transfer) == NextId(Log(k), after, OperationType.Transfer)
  {
    hide Log, LogInv, CountOf, NextKey;
    CountByHistory(k, hist, after.vectorId, after.spaceId);
    CountByHistory(k', hist', after.vectorId, after.spaceId);
    NextKeyByCount(Log(k), Log(k'), after, OperationType.Transfer, 0);
  }

  // ----- A transfer issued while an earlier one is hidden -----

  /** The state a transfer leaves one of its vectors in, and the reading of the clock on that side. */
  function SideAfter(k: Kernel, op: Op, id: string): Vector
    requires op.TransferOp? && TransferWrites(k, op)
  {
    var sides := Sides(k, op);
    if id == op.fromId then sides.0 else sides.1
  }

  function SideTime(op: Op, id: string): u64
    requires op.TransferOp?
  {
    if id == op.fromId then op.sentAt else op.receivedAt
  }

  /** The engine does not see the event of the transfer as the latest one of the vector. */
  ghost predicate Overlooked(k: Kernel, k': Kernel, first: Op, id: string)
    requires first.TransferOp?
  {
    (id == first.fromId || id == first.toId) && LatestOf(Log(k'), id) == LatestOf(Log(k), id)
  }

  /**
   * One side of a second transfer is in order: the first transfer's event on that side is not
   * overlooked, or is not above it by clock reading and, at equal readings, by event id; or neither
   * transfer changes anything there.
   */
  ghost predicate SideInOrder(k: Kernel, k': Kernel, first: Op, second: Op, id: string)
    requires first.TransferOp? && second.TransferOp?
    requires TransferWrites(k, first) && TransferWrites(k', second)
  {
    Overlooked(k, k', first, id) ==>
      var a, b := SideAfter(k, first, id), SideAfter(k', second, id);
      || NotAbove(a.version, SideTime(first, id), NextId(Log(k), a, OperationType.Transfer),
           b.version, SideTime(second, id), NextId(Log(k'), b, OperationType.Transfer))
      || (id in k.states && ToEventState(a) == ToEventState(k.states[id]) && ToEventState(b) == ToEventState(a))
  }

  lemma CountElsewhere(k: Kernel, k': Kernel, e: VectorEvent, id: string, region: string)
    requires forall h :: h in k.events ==> k.events[h].eventHash == h
    requires k'.events == k.events[e.eventHash := e] && e.eventHash !in k.events && e.entityId != id
    ensures CountOf(Log(k'), id, region) == CountOf(Log(k), id, region)
  {
    hide Log, CountOf;
    LogHolds(k);
    LogHolds(k');
    DistinctHashesKeyed(Log(k));
    DistinctHashesKeyed(Log(k'));
    CountOfIs(Log(k), id, region);
    CountOfIs(Log(k'), id, region);
    assert Counted(Elems(Log(k')), id, region) == Counted(Elems(Log(k)), id, region);
  }

  ghost predicate NewId(k: Kernel, id: string) {
    forall h :: h in k.events ==> k.events[h].eventId != id
  }

  /** The id of an accepted event was not in the store. */
  lemma EmittedIdIsNew(env: Foreign, k: Kernel, before: Vector, after: Vector, op: OperationType, time: u64)
    returns (e: VectorEvent)
    requires EmitUpdate(env, k, before, after, op, time).1.Ok?
    ensures EmitUpdate(env, k, before, after, op, time).0 == k.(events := k.events[e.eventHash := e])
    ensures e.eventHash !in k.events && e.entityId == after.vectorId && e.eventId == NextId(Log(k), after, op)
    ensures NewId(k, e.eventId)
  {
    hide Log, Emit, ToEventState, CheckEvent, EventId, NextSequence;
    e := EmitAdds(env, k, Some(before), after, op, after.version, time, ParentsFor(Log(k), after.vectorId));
  }

  /** Both events of an accepted transfer have ids that the store did not know. */
  lemma TransferIdsAreNew(env: Foreign, k: Kernel, hist: History, op: Op)
    requires op.TransferOp? && op.fromId != op.toId && Inv(k, hist) && TransferStep(env, k, op).1.Ok?
    ensures TransferWrites(k, op)
    ensures NewId(k, NextId(Log(k), SideAfter(k, op, op.fromId), OperationType.Transfer))
    ensures NewId(k, NextId(Log(k), SideAfter(k, op, op.toId), OperationType.Transfer))
    ensures SideAfter(k, op, op.fromId).vectorId == op.fromId && SideAfter(k, op, op.toId).vectorId == op.toId
  {
    hide TransferStep, TransferStates, GoodVector, LogInv, EmitUpdate, VectorStory, Inv, Log, Succeeds, NextKey;
    TransferStepIs(env, k, op);
    var from, to := k.states[op.fromId], k.states[op.toId];
    VectorFacts(k, hist, op.fromId);
    VectorFacts(k, hist, op.toId);
    TransferStatesSucceed(from, to, op);
    KeysOf(k.events, hist);
    var sides := TransferStates(from, to, op.amount, op.fromCheckedAt, op.toCheckedAt).value;
    var stored := Put(Put(k, sides.0), sides.1);
    SameEventsSameLog(k, stored);
    var e := EmittedIdIsNew(env, stored, from, sides.0, OperationType.Transfer, op.sentAt);
    var sent := EmitUpdate(env, stored, from, sides.0, OperationType.Transfer, op.sentAt).0;
    var f := EmittedIdIsNew(env, sent, to, sides.1, OperationType.Transfer, op.receivedAt);
    CountElsewhere(k, sent, e, op.toId, sides.1.spaceId);
    NextKeyByCount(Log(k), Log(sent), sides.1, OperationType.Transfer, 0);
    assert f.eventId == NextId(Log(k), sides.1, OperationType.Transfer);
    assert forall h :: h in k.events ==> h in sent.events && sent.events[h] == k.events[h];
    assert SideAfter(k, op, op.toId) == sides.1;
  }

  /** When the engine sees the last event of a history as the latest, the next one goes behind it. */
  lemma SeenRetells(k: Kernel, hist: History, before: Vector, after: Vector, op: OperationType, time: u64)
    requires LogInv(k.events, hist) && after.vectorId in hist && hist[after.vectorId] != []
    requires LatestOf(Log(k), after.vectorId) == Some(Last(hist[after.vectorId]))
    ensures Retells(k, before, after, op, time)
  {
    hide LogInv, LogOrdered, Log, ToEventState, LatestOf, KeyLeq, NextKey, StoryOf;
    var h := hist[after.vectorId];
    StoryIsHistory(k, hist, after.vectorId);
    LogIsOrdered(k.events, hist);
    var j := LatestPlace(k, hist, after.vectorId);
    DistinctIn(k.events, hist, after.vectorId);
    assert h[j] == h[|h| - 1];
  }

  /** A history with one more event behind it: the latest is the event before it, or the new one. */
  lemma LatestOrLast(k: Kernel, hist: History, k': Kernel, hist': History, id: string, e: VectorEvent)
    requires LogInv(k.events, hist) && LogInv(k'.events, hist') && id in hist && id in hist' && hist[id] != []
    requires TimelyHistory(hist[id]) && hist'[id] == hist[id] + [e]
    ensures LatestOf(Log(k), id) == Some(Last(hist[id]))
    ensures LatestOf(Log(k'), id) == Some(e) || LatestOf(Log(k'), id) == LatestOf(Log(k), id)
  {
    hide LogInv, LogOrdered, Log, LatestOf, TimelyHistory, IsLatest;
    LogIsOrdered(k.events, hist);
    LogIsOrdered(k'.events, hist');
    LatestIsLast(k, hist, id);
    var i := LatestPlace(k', hist', id);
    LateInChain(k', hist', id, hist[id], e, i);
    assert hist'[id][|hist[id]| - 1] == Last(hist[id]) && hist'[id][|hist[id]|] == e;
  }

  /** One side of a second transfer on a vector the first one touched. */
  lemma TouchedSideIff(k: Kernel, hist: History, k': Kernel, hist': History, first: Op, second: Op, e: VectorEvent,
                       id: string)
    requires first.TransferOp? && second.TransferOp? && (id == first.fromId || id == first.toId)
    requires Inv(k, hist) && Inv(k', hist') && TransferWrites(k, first)
    requires TransferWrites(k', second)
    requires id in k'.states && Appends(k, hist, k', hist', id, SideAfter(k, first, id), SideTime(first, id), e)
    requires var b := SideAfter(k', second, id);
      b.vectorId == id && NewId(k', NextId(Log(k'), b, OperationType.Transfer))
    ensures Retells(k', k'.states[id], SideAfter(k', second, id), OperationType.Transfer, SideTime(second, id)) <==>
      SideInOrder(k, k', first, second, id)
  {
    hide TransferStates, LogInv, LogOrdered, VectorStory, Inv, Log, LatestOf, Retells, TimelyHistory, ToEventState,
      NextKey, NotAbove, LogIs;
    var a, b := SideAfter(k, first, id), SideAfter(k', second, id);
    LogInvOf(k, hist);
    LogInvOf(k', hist');
    VectorFacts(k', hist', id);
    LatestOrLast(k, hist, k', hist', id, e);
    if LatestOf(Log(k'), id) == Some(e) {
      SeenRetells(k', hist', k'.states[id], b, OperationType.Transfer, SideTime(second, id));
      LogIsOrdered(k'.events, hist');
      DistinctIn(k'.events, hist', id);
      assert hist'[id][|hist[id]| - 1] == Last(hist[id]) && hist'[id][|hist[id]|] == e;
    } else {
      assert (hist[id] + [e])[..|hist[id]|] == hist[id];
      StoredEvent(k'.events, hist', id, e);
      HiddenRetellsIff(k', hist', e, k'.states[id], b, OperationType.Transfer, SideTime(second, id));
    }
  }

  lemma StoredEvent(events: map<string, VectorEvent>, hist: History, id: string, e: VectorEvent)
    requires LogInv(events, hist) && id in hist && e in hist[id]
    ensures e.eventHash in events && events[e.eventHash] == e
  {
    hide GoodHistory;
  }

  /**
   * Two accepted transfers from a kernel with rising histories, on any clock: log and store agree after
   * the second exactly when both of its sides are in order.
   */
  lemma SecondTransferAgreesIff(env: Foreign, k: Kernel, hist: History, first: Op, second: Op)
    requires first.TransferOp? && second.TransferOp? && first.fromId != first.toId && second.fromId != second.toId
    requires Inv(k, hist) && Timely(hist) && TransferStep(env, k, first).1.Ok?
    requires TransferStep(env, TransferStep(env, k, first).0, second).1.Ok?
    ensures TransferWrites(k, first)
    ensures var k' := TransferStep(env, k, first).0;
      TransferWrites(k', second)
    ensures var k' := TransferStep(env, k, first).0;
      var k'' := TransferStep(env, k', second).0;
      Agrees(env, k'') <==>
        && SideInOrder(k, k', first, second, second.fromId) && SideInOrder(k, k', first, second, second.toId)
        && Capacity(k'')
  {
    hide TransferStep, TransferStates, Inv, LogInv, Log, Agrees, Capacity, Retells, ToEventState, LatestOf, Timely,
      Appends, NewId, SideInOrder;
    var k' := TransferStep(env, k, first).0;
    var hist', e, f := TransferAppends(env, k, hist, first);
    TransferStepIs(env, k', second);
    TransferIdsAreNew(env, k', hist', second);
    SecondSideIff(k, hist, k', hist', first, second, e, f, second.fromId);
    SecondSideIff(k, hist, k', hist', first, second, e, f, second.toId);
    TransferAgreesIffRetold(env, k', hist', second);
  }

  lemma SecondSideIff(k: Kernel, hist: History, k': Kernel, hist': History, first: Op, second: Op, e: VectorEvent,
                      f: VectorEvent, id: string)
    requires first.TransferOp? && second.TransferOp? && first.fromId != first.toId
    requires Inv(k, hist) && Timely(hist) && Inv(k', hist') && hist'.Keys == hist.Keys && TransferWrites(k, first)
    requires TransferWrites(k', second)
    requires id in k'.states
    requires Appends(k, hist, k', hist', first.fromId, SideAfter(k, first, first.fromId), first.sentAt, e)
    requires Appends(k, hist, k', hist', first.toId, SideAfter(k, first, first.toId), first.receivedAt, f)
    requires forall x :: x in hist && x != first.fromId && x != first.toId ==> hist'[x] == hist[x]
    requires var b := SideAfter(k', second, id);
      b.vectorId == id && NewId(k', NextId(Log(k'), b, OperationType.Transfer))
    ensures Retells(k', k'.states[id], SideAfter(k', second, id), OperationType.Transfer, SideTime(second, id)) <==>
      SideInOrder(k, k', first, second, id)
  {
    hide TransferStates, LogInv, Inv, Log, LatestOf, Retells, TimelyHistory, ToEventState, Appends, NewId, NextId,
      NotAbove;
    if id == first.fromId {
      TouchedSideIff(k, hist, k', hist', first, second, e, id);
    } else if id == first.toId {
      TouchedSideIff(k, hist, k', hist', first, second, f, id);
    } else {
      LogInvOf(k', hist');
      TimelyRetells(k', hist', k'.states[id], SideAfter(k', second, id), OperationType.Transfer, SideTime(second, id));
    }
  }

  // ----- Equal clock readings -----

  lemma {:induction false} LeqPrefix(p: string, x: string, y: string)
    ensures Text.Leq(p + x, p + y) <==> Text.Leq(x, y)
  {
    if p == [] {
      assert p + x == x && p + y == y;
    } else {
      LeqPrefix(p[1..], x, y);
      assert (p + x)[1..] == p[1..] + x && (p + y)[1..] == p[1..] + y;
    }
  }

  /** At equal readings two events of one version are ordered by the decimal digits of their sequence numbers. */
  lemma IdsByDigits(id: string, region: string, op: OperationType, clock: u64, m: u64, n: u64)
    ensures Text.Leq(EventId(id, region, op, clock, m), EventId(id, region, op, clock, n)) <==>
      Text.Leq(Text.Print(m), Text.Print(n))
  {
    hide Text.Leq, Text.Print;
    LeqPrefix(id + "::" + region + "::" + CanonicalName(op) + "::" + Text.Print(clock) + "::", Text.Print(m),
    Text.Print(n));
  }

  /** So the ninth and the tenth event of a vector, in the same version and millisecond, are out of order. */
  lemma NinthAndTenth()
    ensures !Text.Leq(Text.Print(9), Text.Print(10)) && Text.Leq(Text.Print(8), Text.Print(9))
  {
  }
}
