/**
 * The hypotheses of `Runs.RunsAgree` are exact: when log and store still agree after an operation
 * that succeeds, and which runs agree throughout (`Refusals` is about operations that fail).
 */
module Exactness {
  import opened Agreement
  import opened Base
  import opened Dag
  import opened Events
  import opened Histories
  import opened Insertion
  import opened Invariant
  import opened LeastOrder
  import opened Machine
  import opened Ordering
  import opened Region
  import opened Registry
  import opened Replay
  import opened Validation
  import opened Vectors

  /** The 64-bit registry counter can hold the share of every region of the log. */
  ghost predicate Capacity(k: Kernel) {
    DEFAULT_AUTH_RATIO_BPS * |RegionMap(Log(k))| < U64_LIMIT
  }

  lemma Untold(env: Foreign, k: Kernel, id: string)
    requires id in Entities(Elems(Log(k))) && !Told(Elems(Log(k)), id)
    ensures !Replayable(env, Log(k))
  {
    hide Told, Log, ValidLog, RegistryOk, Replayable;
    ReplayableMeans(env, Log(k));
  }

  // ----- Ids that are not fresh -----

  /** Two parentless events of one entity cannot be replayed. */
  lemma TwoRoots(s: set<VectorEvent>, id: string, a: VectorEvent, b: VectorEvent)
    requires a in s && b in s && a != b && a.entityId == b.entityId == id && a.parentHashes == b.parentHashes == []
    ensures id in Entities(s) && !OneRoot(s, id)
  {
    var roots := Available(HistoryOf(s, id));
    assert {a, b} <= roots;
    SubsetCount({a, b}, roots);
  }

  lemma HistoryRoot(k: Kernel, hist: History, id: string)
    requires LogInv(k.events, hist) && id in hist
    ensures hist[id] != [] && hist[id][0].parentHashes == [] && hist[id][0].entityId == id
    ensures var root := hist[id][0]; root.eventHash in k.events && k.events[root.eventHash] == root
  {
    hide Continuous, HangsBehind, SelfOrdered;
    assert GoodHistory(id, hist[id]);
    assert hist[id][0] in hist[id];
  }

  lemma StoredAlso(k: Kernel, hist: History, k': Kernel, e: VectorEvent)
    requires LogIs(k.events, hist) && k'.events == k.events[e.eventHash := e] && e.eventHash !in k.events
    ensures forall f :: f in Log(k') <==> f.eventHash in k'.events && k'.events[f.eventHash] == f
  {
    hide Log;
    LogHolds(k');
  }

  lemma SecondRoot(env: Foreign, k: Kernel, hist: History, k': Kernel, e: VectorEvent)
    requires LogInv(k.events, hist) && k'.events == k.events[e.eventHash := e] && e.eventHash !in k.events
    requires e.parentHashes == [] && !Unknown(k, e.entityId)
    ensures !Replayable(env, Log(k'))
  {
    hide Continuous, Log, OneRoot, Replayable, GoodHistory, OrderedHistory, LogIs, LatestOf;
    var id := e.entityId;
    LogIsOrdered(k.events, hist);
    LatestIs(k, hist, id);
    HistoryRoot(k, hist, id);
    StoredAlso(k, hist, k', e);
    TwoRoots(Elems(Log(k')), id, hist[id][0], e);
    Untold(env, k', id);
  }

  /** An accepted origin leaves an agreeing log exactly when its id was unknown. */
  lemma OriginAgreesIffFresh(env: Foreign, k: Kernel, hist: History, request: OriginRequest, now: u64, checkedAt: u64)
    requires Inv(k, hist) && OriginStep(env, k, request, now, checkedAt).1.Ok?
    ensures var k' := OriginStep(env, k, request, now, checkedAt).0;
      Agrees(env, k') <==> Unknown(k, request.vectorId) && Capacity(k')
  {
    var k' := OriginStep(env, k, request, now, checkedAt).0;
    LogInvOf(k, hist);
    var e := OriginAdds(env, k, request, now, checkedAt);
    NewHash(k.events, e);
    OriginStateGood(env, request, now, checkedAt);
    hide OriginStep, OriginState, Inv, LogInv, NewTo, Unknown, Agrees, Log, RegionMap;
    if Unknown(k, request.vectorId) {
      var hist' := OriginKeeps(env, k, hist, request, now, checkedAt);
      InvAgrees(env, k', hist');
    } else {
      SecondRoot(env, k, hist, k', e);
      AgreesReplays(env, k');
    }
  }

  lemma AgreesReplays(env: Foreign, k: Kernel)
    ensures Agrees(env, k) ==> Replayable(env, Log(k))
  {
    hide Replayable, SameState, ReplayOf, Log;
  }

  /** The same holds for accepted region creations. */
  lemma RegionAgreesIffFresh(env: Foreign, k: Kernel, hist: History, request: RegionRequest, actor: string, now: u64)
    requires PrintsHex(env) && Inv(k, hist) && RegionStep(env, k, request, actor, now).1.Ok?
    ensures var k' := RegionStep(env, k, request, actor, now).0;
      Agrees(env, k') <==> Unknown(k, RegionId(env, request, actor, 1)) && Capacity(k')
  {
    var k' := RegionStep(env, k, request, actor, now).0;
    LogInvOf(k, hist);
    var e := RegionAdds(env, k, request, actor, now);
    hide RegionStep, Inv, LogInv, Unknown, Agrees, Log, RegionMap, Sealed, GenesisDraft, RegionId, PrintsHex;
    if Unknown(k, RegionId(env, request, actor, 1)) {
      var hist' := RegionKeeps(env, k, hist, request, actor, now);
      InvAgrees(env, k', hist');
    } else {
      SecondRoot(env, k, hist, k', e);
      AgreesReplays(env, k');
    }
  }

  // ----- Transfers between different vectors -----

  lemma ToldElsewhere(k: Kernel, k': Kernel, e: VectorEvent, id: string)
    requires forall h :: h in k.events ==> k.events[h].eventHash == h
    requires k'.events == k.events[e.eventHash := e] && e.eventHash !in k.events && e.entityId != id
    ensures Told(Elems(Log(k')), id) <==> Told(Elems(Log(k)), id)
    ensures id in Entities(Elems(Log(k))) ==> id in Entities(Elems(Log(k')))
  {
    hide Log, Continuous, Available, Least;
    LogHolds(k);
    LogHolds(k');
    assert HistoryOf(Elems(Log(k')), id) == HistoryOf(Elems(Log(k)), id);
    if id in Entities(Elems(Log(k))) {
      var f :| f in Elems(Log(k)) && f.entityId == id;
      assert f in Elems(Log(k'));
    }
  }

  lemma KeysOf(events: map<string, VectorEvent>, hist: History)
    requires LogInv(events, hist)
    ensures forall h :: h in events ==> events[h].eventHash == h
  {
    hide GoodHistory;
  }

  /** A history that cannot be told stays so when the other side is recorded. */
  lemma OtherSideRecorded(env: Foreign, k: Kernel, before: Vector, after: Vector, time: u64, id: string)
    requires forall h :: h in k.events ==> k.events[h].eventHash == h
    requires id in Entities(Elems(Log(k))) && !Told(Elems(Log(k)), id) && after.vectorId != id
    requires EmitUpdate(env, k, before, after, OperationType.Transfer, time).1.Ok?
    ensures !Replayable(env, Log(EmitUpdate(env, k, before, after, OperationType.Transfer, time).0))
  {
    hide Log, Emit, Told, Replayable, Entities, ToEventState, Named, CheckEvent;
    var parents := ParentsFor(Log(k), after.vectorId);
    var e := EmitAdds(env, k, Some(before), after, OperationType.Transfer, after.version, time, parents);
    ToldElsewhere(k, EmitUpdate(env, k, before, after, OperationType.Transfer, time).0, e, id);
    Untold(env, EmitUpdate(env, k, before, after, OperationType.Transfer, time).0, id);
  }

  lemma EmitKeepsKeys(env: Foreign, k: Kernel, before: Vector, after: Vector, time: u64)
    requires forall h :: h in k.events ==> k.events[h].eventHash == h
    requires EmitUpdate(env, k, before, after, OperationType.Transfer, time).1.Ok?
    ensures var k' := EmitUpdate(env, k, before, after, OperationType.Transfer, time).0;
      forall h :: h in k'.events ==> k'.events[h].eventHash == h
  {
    hide Log, Emit, ToEventState, Named, CheckEvent;
    var parents := ParentsFor(Log(k), after.vectorId);
    var e := EmitAdds(env, k, Some(before), after, OperationType.Transfer, after.version, time, parents);
  }

  /** A transfer between different vectors whose sides replay cannot both tell leaves an unreplayable log. */
  lemma TransferBreaks(env: Foreign, k: Kernel, hist: History, op: Op)
    requires op.TransferOp? && op.fromId != op.toId && Inv(k, hist) && TransferStep(env, k, op).1.Ok?
    requires !TransferRetold(env, k, op)
    ensures !Replayable(env, Log(TransferStep(env, k, op).0))
  {
    hide TransferStep, TransferStates, GoodVector, LogInv, EmitUpdate, VectorStory, Inv, Log, Succeeds, LatestOf,
      Retells, Told, Replayable, Entities;
    TransferStepIs(env, k, op);
    var from, to := k.states[op.fromId], k.states[op.toId];
    VectorFacts(k, hist, op.fromId);
    VectorFacts(k, hist, op.toId);
    TransferStatesSucceed(from, to, op);
    var sides := TransferStates(from, to, op.amount, op.fromCheckedAt, op.toCheckedAt).value;
    var stored := Put(Put(k, sides.0), sides.1);
    var sent := EmitUpdate(env, stored, from, sides.0, OperationType.Transfer, op.sentAt).0;
    RetellsByEvents(k, stored, from, sides.0, OperationType.Transfer, op.sentAt);
    KeysOf(k.events, hist);
    if !Retells(k, from, sides.0, OperationType.Transfer, op.sentAt) {
      RecordBreaks(env, stored, hist, from, sides.0, OperationType.Transfer, op.sentAt);
      EmitKeepsKeys(env, stored, from, sides.0, op.sentAt);
      OtherSideRecorded(env, sent, to, sides.1, op.receivedAt, op.fromId);
    } else {
      var mid := RecordExtends(env, stored, hist, from, sides.0, OperationType.Transfer, op.sentAt);
      Elsewhere(k, hist, sent, mid, to, sides.1, OperationType.Transfer, op.receivedAt);
      RecordBreaks(env, sent, mid, to, sides.1, OperationType.Transfer, op.receivedAt);
      Untold(env, TransferStep(env, k, op).0, op.toId);
    }
  }

  // ----- Transfers from a vector to itself -----

  /** A state that receives something looks different, unless its sum would not fit an event. */
  lemma ReceiverChanges(v: Vector, op: Op)
    requires op.TransferOp? && TransferStates(v, v, op.amount, op.fromCheckedAt, op.toCheckedAt).Ok?
    requires !NullTransfer(v, op.amount)
    ensures var receiver := TransferStates(v, v, op.amount, op.fromCheckedAt, op.toCheckedAt).value.1;
      FitsEvent(receiver.components) ==> ToEventState(receiver) != ToEventState(v)
  {
    hide CertifyState;
    var receiver := TransferStates(v, v, op.amount, op.fromCheckedAt, op.toCheckedAt).value.1;
    if v.vectorType == Standard {
      var i :| 0 <= i < |op.amount| && op.amount[i] != 0;
      assert receiver.components[i] == SatAdd(v.components[i], op.amount[i]);
    } else {
      assert TypeTag(Standard) != TypeTag(v.vectorType);
    }
  }

  /** Both events of a transfer from a vector to itself start from the state before it. */
  lemma SelfTransferEvents(env: Foreign, k: Kernel, hist: History, op: Op) returns (a: VectorEvent, b: VectorEvent)
    requires op.TransferOp? && op.fromId == op.toId && Inv(k, hist) && TransferStep(env, k, op).1.Ok?
    ensures op.fromId in k.states && op.fromId in hist && hist[op.fromId] != []
    ensures var v := k.states[op.fromId];
      && TransferStates(v, v, op.amount, op.fromCheckedAt, op.toCheckedAt).Ok? && FitsEvent(v.components)
      && ToEventState(v) == Ok(Last(hist[op.fromId]).vectorAfter)
      && a.vectorBefore == Last(hist[op.fromId]).vectorAfter && b.vectorBefore == Last(hist[op.fromId]).vectorAfter
      && var sides := TransferStates(v, v, op.amount, op.fromCheckedAt, op.toCheckedAt).value;
      && ToEventState(sides.0) == Ok(a.vectorAfter) && ToEventState(sides.1) == Ok(b.vectorAfter)
    ensures a.operation.Transfer? && b.operation.Transfer? && a.entityId == op.fromId && b.entityId == op.fromId
    ensures a.eventHash !in k.events && a.eventHash != "" && b.eventHash != "" && b.eventHash !in k.events
    ensures b.eventHash != a.eventHash
    ensures TransferStep(env, k, op).0.events == k.events[a.eventHash := a][b.eventHash := b]
  {
    hide TransferStep, TransferStates, GoodVector, LogInv, Emit, Inv, Log, Succeeds, Named, CheckEvent, ToEventState,
      VectorStory;
    TransferStepIs(env, k, op);
    var v := k.states[op.fromId];
    VectorFacts(k, hist, op.fromId);
    StoredHasForm(k, hist, op.fromId);
    StoryEnds(k, hist, op.fromId);
    TransferStatesSucceed(v, v, op);
    var sides := TransferStates(v, v, op.amount, op.fromCheckedAt, op.toCheckedAt).value;
    var stored := Put(Put(k, sides.0), sides.1);
    a := EmitAdds(env, stored, Some(v), sides.0, OperationType.Transfer, sides.0.version, op.sentAt,
      ParentsFor(Log(stored), sides.0.vectorId));
    var sent := EmitUpdate(env, stored, v, sides.0, OperationType.Transfer, op.sentAt).0;
    b := EmitAdds(env, sent, Some(v), sides.1, OperationType.Transfer, sides.1.version, op.receivedAt,
      ParentsFor(Log(sent), sides.1.vectorId));
  }

  /** The events of a history and two more, when replay could order them at all. */
  lemma TwoMoreEvents(k: Kernel, hist: History, k': Kernel, a: VectorEvent, b: VectorEvent)
    requires LogInv(k.events, hist) && a.entityId == b.entityId && a.entityId in hist && ValidLog(Log(k'))
    requires a.eventHash !in k.events && a.eventHash != "" && b.eventHash != "" && b.eventHash !in k.events
    requires b.eventHash != a.eventHash
    requires k'.events == k.events[a.eventHash := a][b.eventHash := b]
    ensures multiset(StoryOf(k', a.entityId)) == multiset(hist[a.entityId] + [a, b])
    ensures a.entityId in Entities(Elems(Log(k')))
  {
    hide GoodHistory, LogIs, Log, ValidLog, Least;
    var id := a.entityId;
    var h := hist[id];
    var h1 := Extended(hist, id, a);
    LogExtends(k.events, hist, a);
    var h2 := Extended(h1, id, b);
    LogExtends(k.events[a.eventHash := a], h1, b);
    assert h2[id] == (h + [a]) + [b] == h + [a, b];
    HistoryKinIn(k.events, hist, id);
    HistoryIsChosen(k', h2, id);
    ValidIsAcyclic(Log(k'));
    StoryIs(Elems(Log(k')), id);
    TwoMoreDistinct(k.events, hist, id, a, b);
    SameElemsSameMultiset(StoryOf(k', id), h + [a, b]);
    assert a in h2[id];
    InEntities(k', h2, a);
  }

  lemma TwoMoreDistinct(events: map<string, VectorEvent>, hist: History, id: string, a: VectorEvent, b: VectorEvent)
    requires LogInv(events, hist) && id in hist && a.eventHash !in events && b.eventHash !in events
    requires b.eventHash != a.eventHash
    ensures NoDup(hist[id] + [a, b])
  {
    hide Rooted, Continuous, Kin, Least;
    assert GoodHistory(id, hist[id]);
    DistinctHashesKeyed(hist[id]);
    assert forall i :: 0 <= i < |hist[id]| ==> hist[id][i] in hist[id];
  }

  lemma HistoryUnbroken(k: Kernel, hist: History, id: string)
    requires Inv(k, hist) && id in k.states
    ensures id in hist && hist[id] != [] && Unbroken(hist[id]) && forall e :: e in hist[id] ==> !IsRegionCreate(e)
  {
    hide OrderedHistory, GoodVector, ToEventState, IsRegionCreate, RegionStory, Unbroken, Continuous;
    VectorContinuous(hist[id]);
  }

  /** A transfer from a vector to itself that moves something never replays, whatever the clock says. */
  lemma SelfTransferDeparts(env: Foreign, k: Kernel, hist: History, op: Op)
    requires op.TransferOp? && op.fromId == op.toId && Inv(k, hist) && TransferStep(env, k, op).1.Ok?
    requires op.fromId in k.states && !NullTransfer(k.states[op.fromId], op.amount)
    ensures !Replayable(env, Log(TransferStep(env, k, op).0))
  {
    hide TransferStep, TransferStates, GoodVector, LogInv, Inv, Log, ToEventState, NullTransfer, Unbroken,
      IsRegionCreate, Continuous, ValidLog, StoryOf, Entities, OneRoot, RegistryOk;
    var a, b := SelfTransferEvents(env, k, hist, op);
    var id := op.fromId;
    var v, k', h := k.states[id], TransferStep(env, k, op).0, hist[id];
    NullIffSame(v, v, op);
    ReceiverChanges(v, op);
    FormFits(TransferStates(v, v, op.amount, op.fromCheckedAt, op.toCheckedAt).value.1);
    LogInvOf(k, hist);
    HistoryUnbroken(k, hist, id);
    ReplayableMeans(env, Log(k'));
    if Replayable(env, Log(k')) {
      TwoMoreEvents(k, hist, k', a, b);
      PlainEvent(a, v);
      PlainEvent(b, v);
      SameMultisetSameElems(StoryOf(k', id), h + [a, b]);
      forall e | e in StoryOf(k', id) ensures !IsRegionCreate(e) {
        assert e in Elems(h + [a, b]);
      }
      assert Told(Elems(Log(k')), id);
      ToldUnbroken(k', id);
      TwoDepartures(h, a, b, StoryOf(k', id));
    }
  }

  lemma FormFits(v: Vector)
    requires ToEventState(v).Ok?
    ensures FitsEvent(v.components)
  {
  }

  lemma ToldUnbroken(k: Kernel, id: string)
    requires Told(Elems(Log(k)), id) && StoryOf(k, id) != [] && forall e :: e in StoryOf(k, id) ==> !IsRegionCreate(e)
    ensures Unbroken(StoryOf(k, id))
  {
    hide Log, OneRoot, Continuous, Unbroken, IsRegionCreate, Story;
    VectorContinuous(StoryOf(k, id));
  }

  /** Taking out an event that changes nothing cannot break a history. */
  lemma WithoutNoop(h: seq<VectorEvent>, e: VectorEvent, m: nat)
    requires h != [] && 1 <= m <= |h| && e.vectorAfter == e.vectorBefore && Unbroken(Inserted(h, e, m))
    ensures Unbroken(h)
  {
    var g := Inserted(h, e, m);
    InsertedAt(h, e, m);
    forall i | 0 < i < |h| ensures TakesOver(h[i - 1], h[i]) {
      if i < m {
        assert TakesOver(g[i - 1], g[i]);
      } else {
        assert TakesOver(g[i], g[i + 1]);
        if i == m { assert TakesOver(g[i - 1], g[i]); }
      }
    }
  }

  lemma OrderedInserts(events: map<string, VectorEvent>, hist: History, e: VectorEvent, g: seq<VectorEvent>)
    requires LogOrdered(events, hist) && e.entityId in hist && e.eventHash !in events && e.eventHash != ""
    requires OrderedHistory(e.entityId, g) && forall f :: f in g <==> f in hist[e.entityId] || f == e
    ensures LogOrdered(events[e.eventHash := e], hist[e.entityId := g])
  {
    hide OrderedHistory;
    LogInserts(events, hist, e, g);
  }

  /** One more event that changes nothing does not repair a history that cannot be told. */
  lemma NoopStaysBroken(env: Foreign, k: Kernel, hist: History, v: Vector, after: Vector, op: OperationType, time: u64)
    requires LogOrdered(k.events, hist) && after.vectorId in hist && hist[after.vectorId] != [] && PlainOperation(op)
    requires v.vectorId == after.vectorId && after.spaceId == hist[after.vectorId][0].regionId
    requires (forall e :: e in hist[after.vectorId] ==> !IsRegionCreate(e)) && !Unbroken(hist[after.vectorId])
    requires ToEventState(after) == ToEventState(v) && EmitUpdate(env, k, v, after, op, time).1.Ok?
    ensures !Replayable(env, Log(EmitUpdate(env, k, v, after, op, time).0))
  {
    hide EmitUpdate, ToEventState, OrderedHistory, Rooted, SelfOrdered, Log, Inserted, LatestOf, Place, Kin,
      PlainOperation, LogOrdered, IsRegionCreate, Unbroken, Continuous, OneRoot, Replayable, Entities, NewTo, LogIs;
    var id := after.vectorId;
    var h := hist[id];
    var e, j, m := RecordAdds(env, k, hist, v, after, op, time);
    var k', g := EmitUpdate(env, k, v, after, op, time).0, Inserted(h, e, m);
    OrderedParts(k.events, hist, id);
    FreshHash(k.events, hist, id, e);
    NewHash(k.events, e);
    OrderGrows(id, h, e, j, m);
    InsertedElems(h, e, m);
    LogInserts(k.events, hist, e, g);
    RootedStory(k', hist[id := g], id);
    PlainEvent(e, after);
    if Unbroken(g) { WithoutNoop(h, e, m); }
    VectorContinuous(g);
    InEntities(k', hist[id := g], e);
    Untold(env, k', id);
  }

  lemma OrderedParts(events: map<string, VectorEvent>, hist: History, id: string)
    requires LogOrdered(events, hist) && id in hist
    ensures LogIs(events, hist) && OrderedHistory(id, hist[id]) && Rooted(hist[id]) && SelfOrdered(HistoryKey, hist[id])
    ensures Kin(id, hist[id])
    ensures forall e :: e in hist[id] ==> e.entityId == id
  {
    hide Rooted, SelfOrdered, LogIs;
  }

  /** A self transfer that moves nothing, whose first event replay cannot tell. */
  lemma NullFirstBreaks(env: Foreign, k: Kernel, hist: History, op: Op)
    requires op.TransferOp? && op.fromId == op.toId && Inv(k, hist) && TransferStep(env, k, op).1.Ok?
    requires op.fromId in k.states && NullTransfer(k.states[op.fromId], op.amount)
    requires TransferStates(k.states[op.fromId], k.states[op.fromId], op.amount, op.fromCheckedAt, op.toCheckedAt).Ok?
    requires var v := k.states[op.fromId];
      var sides := TransferStates(v, v, op.amount, op.fromCheckedAt, op.toCheckedAt).value;
      !Retells(k, v, sides.0, OperationType.Transfer, op.sentAt)
    ensures !Replayable(env, Log(TransferStep(env, k, op).0))
  {
    hide TransferStep, TransferStates, GoodVector, LogInv, LogOrdered, EmitUpdate, VectorStory, Inv, Log, Succeeds,
      LatestOf, Retells, ToEventState, NullTransfer, Rooted, SelfOrdered, Kin, Continuous, Unbroken, IsRegionCreate,
      LogIs, Behind, NewTo, Inserted, Replayable;
    TransferStepIs(env, k, op);
    var id := op.fromId;
    VectorFacts(k, hist, id);
    var v, h := k.states[id], hist[id];
    StoredHasForm(k, hist, id);
    TransferStatesSucceed(v, v, op);
    SenderKeeps(v, op);
    NullReceiver(v, op);
    var sides := TransferStates(v, v, op.amount, op.fromCheckedAt, op.toCheckedAt).value;
    var stored := Put(Put(k, sides.0), sides.1);
    RetellsByEvents(k, stored, v, sides.0, OperationType.Transfer, op.sentAt);
    LogIsOrdered(k.events, hist);
    HistoryUnbroken(k, hist, id);
    HistoryContinuous(k.events, hist, id);
    var e, j, m := RecordInserts(env, stored, hist, v, sides.0, OperationType.Transfer, op.sentAt);
    var sent, g := EmitUpdate(env, stored, v, sides.0, OperationType.Transfer, op.sentAt).0, Inserted(h, e, m);
    InsertedElems(h, e, m);
    NewHash(k.events, e);
    OrderedIf(id, g);
    OrderedInserts(k.events, hist, e, g);
    SameFirst(h, e, m);
    RegionOfVector(id, v, h);
    assert forall f :: f in g ==> !IsRegionCreate(f) by { TransferIsPlain(env, stored, v, sides.0, op.sentAt, e); }
    VectorContinuous(g);
    NoopStaysBroken(env, sent, hist[id := g], v, sides.1, OperationType.Transfer, op.receivedAt);
  }

  lemma TransferIsPlain(env: Foreign, k: Kernel, v: Vector, after: Vector, time: u64, e: VectorEvent)
    requires EmitUpdate(env, k, v, after, OperationType.Transfer, time).1.Ok? && e.eventHash !in k.events
    requires EmitUpdate(env, k, v, after, OperationType.Transfer, time).0 == k.(events := k.events[e.eventHash := e])
    ensures !IsRegionCreate(e)
  {
    hide Log, Emit, ToEventState, Named, CheckEvent, IsRegionCreate;
    var parents := ParentsFor(Log(k), after.vectorId);
    var f := EmitAdds(env, k, Some(v), after, OperationType.Transfer, after.version, time, parents);
    PlainEvent(f, after);
    var events' := k.events[e.eventHash := e];
    assert events' == k.events[f.eventHash := f];
    assert e.eventHash in events' && f.eventHash in events';
    assert e == f;
  }

  lemma OrderedIf(id: string, g: seq<VectorEvent>)
    requires Rooted(g) && SelfOrdered(HistoryKey, g) && Kin(id, g)
    ensures OrderedHistory(id, g)
  {
    hide Rooted, SelfOrdered, Kin;
  }

  lemma SameFirst(h: seq<VectorEvent>, e: VectorEvent, m: nat)
    requires 0 < m <= |h|
    ensures Inserted(h, e, m) != [] && Inserted(h, e, m)[0] == h[0]
  {
  }

  lemma RegionOfVector(id: string, v: Vector, h: seq<VectorEvent>)
    requires h != [] && VectorStory(id, v, h)
    ensures v.spaceId == h[0].regionId
  {
    hide GoodVector, ToEventState, Dated;
  }

  lemma HistoryContinuous(events: map<string, VectorEvent>, hist: History, id: string)
    requires LogInv(events, hist) && id in hist
    ensures Continuous(hist[id])
  {
    hide OrderedHistory, Continuous, LogIs;
  }

  lemma NullReceiver(v: Vector, op: Op)
    requires op.TransferOp? && TransferStates(v, v, op.amount, op.fromCheckedAt, op.toCheckedAt).Ok?
    requires NullTransfer(v, op.amount)
    ensures var sides := TransferStates(v, v, op.amount, op.fromCheckedAt, op.toCheckedAt).value;
      ToEventState(sides.1) == ToEventState(v) && sides.1.vectorId == v.vectorId && sides.1.spaceId == v.spaceId
  {
    hide CertifyState, ValidateState;
    var receiver := TransferStates(v, v, op.amount, op.fromCheckedAt, op.toCheckedAt).value.1;
    assert receiver.components == v.components;
  }

  /** A self transfer that replay cannot tell leaves an unreplayable log. */
  lemma SelfTransferBreaks(env: Foreign, k: Kernel, hist: History, op: Op)
    requires op.TransferOp? && op.fromId == op.toId && Inv(k, hist) && TransferStep(env, k, op).1.Ok?
    requires !TransferRetold(env, k, op)
    ensures !Replayable(env, Log(TransferStep(env, k, op).0))
  {
    hide TransferStep, TransferStates, GoodVector, LogInv, EmitUpdate, VectorStory, Inv, Log, Succeeds, LatestOf,
      Retells, Told, Replayable, Entities, NullTransfer, ToEventState;
    TransferStepIs(env, k, op);
    var id := op.fromId;
    var v := k.states[id];
    var sides := TransferStates(v, v, op.amount, op.fromCheckedAt, op.toCheckedAt).value;
    if !NullTransfer(v, op.amount) {
      SelfTransferDeparts(env, k, hist, op);
    } else if !Retells(k, v, sides.0, OperationType.Transfer, op.sentAt) {
      NullFirstBreaks(env, k, hist, op);
    } else {
      VectorFacts(k, hist, id);
      StoredHasForm(k, hist, id);
      TransferStatesSucceed(v, v, op);
      SenderKeeps(v, op);
      NullIffSame(v, v, op);
      var stored := Put(Put(k, sides.0), sides.1);
      RetellsByEvents(k, stored, v, sides.0, OperationType.Transfer, op.sentAt);
      var mid := RecordExtends(env, stored, hist, v, sides.0, OperationType.Transfer, op.sentAt);
      var sent := EmitUpdate(env, stored, v, sides.0, OperationType.Transfer, op.sentAt).0;
      NullStory(id, v, sides.0, mid[id]);
      RecordBreaks(env, sent, mid, v, sides.1, OperationType.Transfer, op.receivedAt);
      Untold(env, TransferStep(env, k, op).0, id);
    }
  }

  // ----- One accepted operation -----

  /** An accepted transfer leaves log and store in agreement exactly when replay can tell what it did. */
  lemma TransferAgreesIffRetold(env: Foreign, k: Kernel, hist: History, op: Op)
    requires op.TransferOp? && Inv(k, hist) && TransferStep(env, k, op).1.Ok?
    ensures var k' := TransferStep(env, k, op).0;
      Agrees(env, k') <==> TransferRetold(env, k, op) && Capacity(k')
  {
    hide TransferStep, Inv, TransferRetold, Agrees, Log, RegionMap, Replayable;
    var k' := TransferStep(env, k, op).0;
    if TransferRetold(env, k, op) {
      var hist': History;
      if op.fromId != op.toId {
        hist' := TransferKeeps(env, k, hist, op);
      } else {
        hist' := SelfTransferKeeps(env, k, hist, op);
      }
      InvAgrees(env, k', hist');
    } else {
      if op.fromId != op.toId {
        TransferBreaks(env, k, hist, op);
      } else {
        SelfTransferBreaks(env, k, hist, op);
      }
      AgreesReplays(env, k');
    }
  }

  /** On rising histories an accepted transfer agrees exactly when its ends differ or it moves nothing, on any clock. */
  lemma TransferFromRising(env: Foreign, k: Kernel, hist: History, op: Op)
    requires op.TransferOp? && Inv(k, hist) && Timely(hist) && TransferStep(env, k, op).1.Ok?
    ensures op.fromId in k.states && op.toId in k.states
    ensures var k' := TransferStep(env, k, op).0;
      Agrees(env, k') <==> (op.fromId != op.toId || NullTransfer(k.states[op.fromId], op.amount)) && Capacity(k')
  {
    hide TransferStep, TransferStates, GoodVector, LogInv, EmitUpdate, VectorStory, Inv, Log, Succeeds, LatestOf,
      Retells, NullTransfer, Agrees, RegionMap, TimelyHistory, ToEventState;
    TransferAgreesIffRetold(env, k, hist, op);
    TransferStepIs(env, k, op);
    var from, to := k.states[op.fromId], k.states[op.toId];
    VectorFacts(k, hist, op.fromId);
    VectorFacts(k, hist, op.toId);
    TransferStatesSucceed(from, to, op);
    var sides := TransferStates(from, to, op.amount, op.fromCheckedAt, op.toCheckedAt).value;
    TimelyRetells(k, hist, from, sides.0, OperationType.Transfer, op.sentAt);
    TimelyRetells(k, hist, to, sides.1, OperationType.Transfer, op.receivedAt);
    if op.fromId == op.toId && NullTransfer(from, op.amount) {
      SecondNullRetold(env, k, hist, op);
    }
  }

  /** Behind a rising history both events of a transfer that moves nothing are told at its end. */
  lemma SecondNullRetold(env: Foreign, k: Kernel, hist: History, op: Op)
    requires op.TransferOp? && op.fromId == op.toId && Inv(k, hist) && Timely(hist) && TransferStep(env, k, op).1.Ok?
    requires op.fromId in k.states && NullTransfer(k.states[op.fromId], op.amount)
    requires TransferStates(k.states[op.fromId], k.states[op.fromId], op.amount, op.fromCheckedAt, op.toCheckedAt).Ok?
    ensures var v := k.states[op.fromId];
      var sides := TransferStates(v, v, op.amount, op.fromCheckedAt, op.toCheckedAt).value;
      Retells(AfterSending(env, k, op), v, sides.1, OperationType.Transfer, op.receivedAt)
  {
    hide TransferStep, TransferStates, GoodVector, LogInv, LogOrdered, EmitUpdate, VectorStory, Inv, Log, Succeeds,
      LatestOf, ToEventState, NullTransfer, Rooted, SelfOrdered, Kin, Continuous, IsRegionCreate, LogIs, NewTo, Place,
      KeyLeq, Timely, TimelyHistory, PositionIn, IsLatest, NextKey, StoryOf, Inserted;
    TransferStepIs(env, k, op);
    var id := op.fromId;
    VectorFacts(k, hist, id);
    var v, h := k.states[id], hist[id];
    StoredHasForm(k, hist, id);
    TransferStatesSucceed(v, v, op);
    SenderKeeps(v, op);
    NullIffSame(v, v, op);
    NullReceiver(v, op);
    var sides := TransferStates(v, v, op.amount, op.fromCheckedAt, op.toCheckedAt).value;
    var stored := Put(Put(k, sides.0), sides.1);
    LogIsOrdered(k.events, hist);
    HistoryContinuous(k.events, hist, id);
    var e, j, m := RecordInserts(env, stored, hist, v, sides.0, OperationType.Transfer, op.sentAt);
    TimelyAt(hist, id);
    TimelyGrows(stored, hist, id, e, j, m);
    var sent := AfterSending(env, k, op);
    var g := h + [e];
    InsertedElems(h, e, m);
    NewHash(k.events, e);
    OrderedIf(id, g);
    OrderedInserts(k.events, hist, e, g);
    var i := LatestPlace(sent, hist[id := g], id);
    OrderedStory(sent, hist[id := g], id);
    LateInChain(sent, hist[id := g], id, h, e, i);
    EndsAt(id, v, h);
    var place := NextPlace(sent, sides.1, OperationType.Transfer, op.receivedAt);
    assert |h| <= place <= |g| && g[|h| - 1] == Last(h);
  }

  lemma EndsAt(id: string, v: Vector, h: seq<VectorEvent>)
    requires h != [] && VectorStory(id, v, h)
    ensures ToEventState(v) == Ok(Last(h).vectorAfter)
  {
    hide GoodVector, ToEventState, Dated;
  }

  /** Behind a rising history, the latest event is its last one or the one just added. */
  lemma LateInChain(k: Kernel, hist: History, id: string, h: seq<VectorEvent>, e: VectorEvent, i: nat)
    requires LogOrdered(k.events, hist) && id in hist && hist[id] == h + [e] && h != [] && TimelyHistory(h) && i <= |h|
    requires LatestOf(Log(k), id) == Some(hist[id][i])
    ensures i >= |h| - 1
  {
    hide LogOrdered, Log, LatestOf, IsChain, EventLeq;
    LatestIs(k, hist, id);
    InHistory(k.events, hist, id);
    assert (h + [e])[|h| - 1] == Last(h) && Last(h) in h + [e];
    forall j | 0 <= j < |h| - 1 ensures !EventLeq(LogKey, Last(h), h[j]) {
      EarlierIsLess(h[j], Last(h));
    }
  }

  lemma InHistory(events: map<string, VectorEvent>, hist: History, id: string)
    requires LogOrdered(events, hist) && id in hist
    ensures forall e :: e in hist[id] ==> e in Elems(hist[id]) && e.entityId == id
  {
    hide Rooted, SelfOrdered, LogIs;
    assert OrderedHistory(id, hist[id]);
  }

  lemma EarlierIsLess(f: VectorEvent, e: VectorEvent)
    requires Earlier(f, e)
    ensures EventLeq(LogKey, f, e) && !EventLeq(LogKey, e, f)
  {
  }

  lemma TimelyAt(hist: History, id: string)
    requires Timely(hist) && id in hist
    ensures TimelyHistory(hist[id])
  {
    hide TimelyHistory;
  }

  /** An accepted operation leaves log and store in agreement exactly when it was orderly, on any clock. */
  lemma AcceptedAgreesIffOrderly(env: Foreign, k: Kernel, hist: History, op: Op)
    requires PrintsHex(env) && Inv(k, hist) && Step(env, k, op).1.Ok?
    ensures Agrees(env, Step(env, k, op).0) <==> Orderly(env, k, op) && Capacity(Step(env, k, op).0)
  {
    hide Inv, UpdateStep, TransferStep, OriginStep, RegionStep, Unknown, PrintsHex, RegionId, Agrees, TransferRetold,
      Log, RegionMap;
    match op
    case OriginOp(request, now, checkedAt) => OriginAgreesIffFresh(env, k, hist, request, now, checkedAt);
    case RegionOp(request, actor, now) => RegionAgreesIffFresh(env, k, hist, request, actor, now);
    case TransferOp(_, _, _, _, _, _, _) => TransferAgreesIffRetold(env, k, hist, op);
    case CertifyOp(_, _, _) => UpdateAgrees(env, k, hist, op);
    case DrainOp(_, _, _, _) => UpdateAgrees(env, k, hist, op);
    case ProjectOp(_, _, _, _, _) => UpdateAgrees(env, k, hist, op);
    case ReconstructOp(_, _, _, _) => UpdateAgrees(env, k, hist, op);
  }

  lemma UpdateAgrees(env: Foreign, k: Kernel, hist: History, op: Op)
    requires op.CertifyOp? || op.DrainOp? || op.ProjectOp? || op.ReconstructOp?
    requires Inv(k, hist) && UpdateStep(env, k, op).1.Ok?
    ensures Agrees(env, UpdateStep(env, k, op).0) <==> Capacity(UpdateStep(env, k, op).0)
  {
    hide Inv, UpdateStep, Agrees, Log, RegionMap;
    var hist' := UpdateKeeps(env, k, hist, op);
    InvAgrees(env, UpdateStep(env, k, op).0, hist');
  }

  // ----- Whole runs -----

  /** Every failing operation of the run leaves the kernel as it was. */
  ghost predicate SteadyRun(env: Foreign, ops: seq<Op>) {
    ops == [] ||
    var front, op := ops[..|ops| - 1], ops[|ops| - 1];
    && SteadyRun(env, front)
    && (Step(env, Run(env, front), op).1.Err? ==> Step(env, Run(env, front), op).0 == Run(env, front))
  }

  /** Log and store agree after every operation of the run. */
  ghost predicate AgreesThroughout(env: Foreign, ops: seq<Op>) {
    Agrees(env, Run(env, ops)) && (ops == [] || AgreesThroughout(env, ops[..|ops| - 1]))
  }

  ghost predicate CapacityThroughout(env: Foreign, ops: seq<Op>) {
    Capacity(Run(env, ops)) && (ops == [] || CapacityThroughout(env, ops[..|ops| - 1]))
  }

  /** Log and store agree throughout a run exactly when each of its successful operations was orderly. */
  lemma {:induction false} RunsAgreeIff(env: Foreign, ops: seq<Op>)
    requires PrintsHex(env) && SteadyRun(env, ops)
    ensures AgreesThroughout(env, ops) <==> AdmissibleRun(env, ops) && CapacityThroughout(env, ops)
  {
    hide Agrees, Capacity, Step, PrintsHex, Orderly, Inv;
    if ops == [] {
      var hist := RunKeeps(env, ops);
      InvAgrees(env, Run(env, ops), hist);
      CapacityIs(Run(env, ops));
    } else {
      var front, op := ops[..|ops| - 1], ops[|ops| - 1];
      RunsAgreeIff(env, front);
      if AdmissibleRun(env, front) {
        var hist := RunKeeps(env, front);
        InvAgrees(env, Run(env, front), hist);
        CapacityIs(Run(env, front));
        if Step(env, Run(env, front), op).1.Ok? {
          AcceptedAgreesIffOrderly(env, Run(env, front), hist, op);
        }
      }
    }
  }

  lemma CapacityIs(k: Kernel)
    ensures Capacity(k) <==> DEFAULT_AUTH_RATIO_BPS * |RegionMap(Log(k))| < U64_LIMIT
  {
    hide RegionMap, Log;
  }
}
