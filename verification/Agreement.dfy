/**
 * The log and the store never disagree: every orderly operation keeps the invariant, and replaying
 * the log of a kernel that satisfies it rebuilds exactly the stored vectors (`Runs.RunsAgree` puts
 * both together).
 */
module Agreement {
  import opened Base
  import opened Dag
  import opened Events
  import opened Graph
  import opened Histories
  import opened Insertion
  import opened Invariant
  import opened LeastOrder
  import opened Machine
  import opened Ordering
  import opened Region
  import opened Registry
  import opened Replay
  import opened Serialization
  import opened Validation
  import opened Vectors
  import Text

  // ----- Operations on known vectors -----

  /** Certification against the default threshold always certifies. */
  lemma CertifiedIs(v: Vector, checkedAt: u64)
    requires v.components != [] && v.certification.threshold == 700 && CertifyState(v, true, true, checkedAt).Ok?
    ensures var c := CertifyState(v, true, true, checkedAt).value;
      c.certified && c.threshold == 700 && (c.authRatio == 700 || c.authRatio == 1000)
  {
    hide Magnitude, Text.Print;
  }

  /** The parts of a good vector that recertification does not touch. */
  ghost predicate GoodShape(v: Vector, dimensions: nat) {
    && v.typeMetadata == map[] && v.certification.threshold == 700 && |v.components| == dimensions > 0
    && (v.projection.Some? ==> |v.projection.value.projected| == dimensions)
  }

  lemma CertifiedGood(v: Vector, checkedAt: u64, dimensions: nat)
    requires GoodShape(v, dimensions) && Certified(v, checkedAt).Ok?
    ensures var r := Certified(v, checkedAt).value;
      GoodVector(r) && r == v.(certification := r.certification)
  {
    hide CertifyState, ValidateState;
    CertifiedIs(v, checkedAt);
  }

  lemma BumpedGood(v: Vector, checkedAt: u64, now: u64, dimensions: nat)
    requires GoodShape(v, dimensions) && Bumped(v, checkedAt, now).Ok?
    ensures var r := Bumped(v, checkedAt, now).value;
      && GoodVector(r) && v.version + 1 < U64_LIMIT
      && r == v.(certification := r.certification, updatedAtMs := now, version := v.version + 1)
  {
    hide CertifyState, ValidateState;
    CertifiedIs(v, checkedAt);
  }

  lemma GoodHasShape(v: Vector)
    requires GoodVector(v)
    ensures GoodShape(v, |v.components|)
  {
  }

  /** What an update stores is the next version of the same vector. */
  lemma NewStateSucceeds(v: Vector, op: Op)
    requires op.CertifyOp? || op.DrainOp? || op.ProjectOp? || op.ReconstructOp?
    requires GoodVector(v) && NewState(v, op).Ok?
    ensures Succeeds(v, NewState(v, op).value) && NewState(v, op).value.version == v.version + 1
  {
    hide Certified, Bumped, GoodVector, ValidateState, Fee;
    GoodHasShape(v);
    var n := |v.components|;
    match op
    case CertifyOp(_, checkedAt, now) =>
      BumpedGood(v, checkedAt, now, n);
    case DrainOp(_, basisPoints, checkedAt, now) =>
      var remaining := DrainOutcome(v.components, basisPoints, v.certification.authRatio,
        v.certification.threshold).value.1;
      BumpedGood(v.(components := remaining), checkedAt, now, n);
    case ProjectOp(_, projected, escrowId, now, checkedAt) =>
      CertifiedGood(ProjectOutcome(v, projected, escrowId, now).value, checkedAt, n);
    case ReconstructOp(_, outcome, now, checkedAt) =>
      CertifiedGood(ReconstructOutcome(v, outcome, now).value, checkedAt, n);
  }

  lemma UpdateStepIs(env: Foreign, k: Kernel, op: Op)
    requires op.CertifyOp? || op.DrainOp? || op.ProjectOp? || op.ReconstructOp?
    requires UpdateStep(env, k, op).1.Ok?
    ensures op.id in k.states && NewState(k.states[op.id], op).Ok? && PlainOperation(EventKind(op))
    ensures var after := NewState(k.states[op.id], op).value;
      UpdateStep(env, k, op) == EmitUpdate(env, Put(k, after), k.states[op.id], after, EventKind(op), after.updatedAtMs)
  {
    hide NewState, EmitUpdate;
  }

  /** Replacing one vector by the end of its extended history keeps the invariant. */
  lemma InvReplaces(k: Kernel, hist: History, k': Kernel, hist': History, v: Vector)
    requires Inv(k, hist) && LogInv(k'.events, hist') && k'.states == k.states[v.vectorId := v]
    requires v.vectorId in k.states
    requires hist'.Keys == hist.Keys && forall id :: id in hist && id != v.vectorId ==> hist'[id] == hist[id]
    requires hist'[v.vectorId] != [] && VectorStory(v.vectorId, v, hist'[v.vectorId])
    ensures Inv(k', hist')
  {
    hide LogInv, VectorStory, RegionStory;
  }

  lemma VectorFacts(k: Kernel, hist: History, id: string)
    requires Inv(k, hist) && id in k.states
    ensures LogInv(k.events, hist) && id in hist && hist[id] != []
    ensures VectorStory(id, k.states[id], hist[id]) && GoodVector(k.states[id]) && k.states[id].vectorId == id
  {
    hide LogInv, GoodVector, RegionStory;
  }

  lemma LogInvOf(k: Kernel, hist: History)
    requires Inv(k, hist)
    ensures LogInv(k.events, hist) && k.states.Keys <= hist.Keys
  {
    hide LogInv, VectorStory, RegionStory;
  }

  lemma TimelyReplaces(hist: History, hist': History, id: string)
    requires Timely(hist) && id in hist && hist'.Keys == hist.Keys && TimelyHistory(hist'[id])
    requires forall x :: x in hist && x != id ==> hist'[x] == hist[x]
    ensures Timely(hist')
  {
    hide TimelyHistory;
  }

  /** A stored version is not behind the last event of the vector's history. */
  lemma VersionCovers(id: string, v: Vector, h: seq<VectorEvent>)
    requires h != [] && VectorStory(id, v, h)
    ensures Last(h).logicalClock <= v.version
  {
    hide GoodVector, ToEventState, IsRegionCreate;
    assert Last(h) in h;
  }

  /** Updates, when they succeed, keep the invariant; no clock assumption is needed. */
  lemma UpdateKeeps(env: Foreign, k: Kernel, hist: History, op: Op) returns (hist': History)
    requires op.CertifyOp? || op.DrainOp? || op.ProjectOp? || op.ReconstructOp?
    requires Inv(k, hist) && UpdateStep(env, k, op).1.Ok?
    ensures Inv(UpdateStep(env, k, op).0, hist')
    ensures Timely(hist) ==> Timely(hist')
  {
    UpdateStepIs(env, k, op);
    var v := k.states[op.id];
    VectorFacts(k, hist, op.id);
    NewStateSucceeds(v, op);
    var after := NewState(v, op).value;
    hide NewState, UpdateStep, GoodVector, LogInv, EmitUpdate, VectorStory, Inv, PlainOperation, Retells,
      TimelyHistory;
    BumpComesLast(Put(k, after), hist, v, after, EventKind(op), after.updatedAtMs);
    VersionCovers(op.id, v, hist[op.id]);
    hist' := RecordExtends(env, Put(k, after), hist, v, after, EventKind(op), after.updatedAtMs);
    InvReplaces(k, hist, UpdateStep(env, k, op).0, hist', after);
    if Timely(hist) { TimelyReplaces(hist, hist', op.id); }
  }

  // ----- Transfers -----

  lemma TransferStatesSucceed(from: Vector, to: Vector, op: Op)
    requires op.TransferOp? && GoodVector(from) && GoodVector(to)
    requires TransferStates(from, to, op.amount, op.fromCheckedAt, op.toCheckedAt).Ok?
    ensures var sides := TransferStates(from, to, op.amount, op.fromCheckedAt, op.toCheckedAt).value;
      Succeeds(from, sides.0) && sides.0.version == from.version && sides.0.vectorId == from.vectorId
      && Succeeds(to, sides.1) && sides.1.version == to.version && sides.1.vectorId == to.vectorId
  {
    assert |SubEach(from.components, op.amount)| == |from.components|;
    assert |AddEach(to.components, op.amount)| == |to.components|;
  }

  lemma TransferStepIs(env: Foreign, k: Kernel, op: Op)
    requires op.TransferOp? && TransferStep(env, k, op).1.Ok?
    ensures op.fromId in k.states && op.toId in k.states
    ensures TransferStates(k.states[op.fromId], k.states[op.toId], op.amount, op.fromCheckedAt, op.toCheckedAt).Ok?
    ensures var from, to := k.states[op.fromId], k.states[op.toId];
      var sides := TransferStates(from, to, op.amount, op.fromCheckedAt, op.toCheckedAt).value;
      var sent := EmitUpdate(env, Put(Put(k, sides.0), sides.1), from, sides.0, OperationType.Transfer, op.sentAt);
      && sent.1.Ok?
      && TransferStep(env, k, op) == EmitUpdate(env, sent.0, to, sides.1, OperationType.Transfer, op.receivedAt)
  {
    hide TransferStates, EmitUpdate;
  }

  lemma SameEventsSameLog(k: Kernel, k': Kernel)
    requires k'.events == k.events
    ensures Log(k') == Log(k)
  {
    hide SortEvents, Lookup;
  }

  lemma RetellsByEvents(k: Kernel, k': Kernel, before: Vector, after: Vector, op: OperationType, time: u64)
    requires k'.events == k.events
    ensures Retells(k', before, after, op, time) <==> Retells(k, before, after, op, time)
  {
    hide Log, LatestOf, Place, PositionIn, NextKey;
    SameEventsSameLog(k, k');
  }

  /** The events of one entity in one region. */
  ghost function Counted(s: set<VectorEvent>, id: string, region: string): set<VectorEvent> {
    set e | e in s && e.entityId == id && e.regionId == region
  }

  lemma CountedAdd(s: set<VectorEvent>, e: VectorEvent, id: string, region: string)
    requires e !in s
    ensures |Counted(s + {e}, id, region)| ==
      |Counted(s, id, region)| + if e.entityId == id && e.regionId == region then 1 else 0
  {
    if e.entityId == id && e.regionId == region {
      assert Counted(s + {e}, id, region) == Counted(s, id, region) + {e};
    } else {
      assert Counted(s + {e}, id, region) == Counted(s, id, region);
    }
  }

  lemma {:induction false} CountOfIs(log: seq<VectorEvent>, id: string, region: string)
    requires NoDup(log)
    ensures CountOf(log, id, region) == |Counted(Elems(log), id, region)|
  {
    hide Counted;
    if log == [] {
      NothingCounted(id, region);
      assert Elems(log) == {};
    } else {
      var i := |log| - 1;
      CountOfIs(log[..i], id, region);
      TakeNext(log, i);
      TakeAll(log);
      CountedAdd(Elems(log[..i]), log[i], id, region);
    }
  }

  lemma NothingCounted(id: string, region: string)
    ensures Counted({}, id, region) == {}
  {
  }

  /** The engine numbers the events of an entity by its history. */
  lemma CountByHistory(k: Kernel, hist: History, id: string, region: string)
    requires LogInv(k.events, hist) && id in hist
    ensures CountOf(Log(k), id, region) == |Counted(Elems(hist[id]), id, region)|
  {
    hide Log, LogInv;
    CountedIn(k, hist, id, region);
    CountOfIs(Log(k), id, region);
  }

  lemma CountedIn(k: Kernel, hist: History, id: string, region: string)
    requires LogInv(k.events, hist) && id in hist
    ensures Counted(Elems(Log(k)), id, region) == Counted(Elems(hist[id]), id, region) && NoDup(Log(k))
  {
    hide Log, GoodHistory, LogIs;
    LogHoldsIn(k, hist);
    DistinctHashesKeyed(Log(k));
    HistoryKinIn(k.events, hist, id);
    HistoryIsChosen(k, hist, id);
    forall e ensures e in Counted(Elems(Log(k)), id, region) <==> e in Counted(Elems(hist[id]), id, region) {
      assert e in HistoryOf(Elems(Log(k)), id) <==> e in Elems(hist[id]);
    }
  }

  lemma LatestElsewhere(k: Kernel, hist: History, k': Kernel, hist': History, id: string)
    requires LogOrdered(k.events, hist) && LogOrdered(k'.events, hist') && id in hist && id in hist'
    requires hist'[id] == hist[id]
    requires Keyed(Elems(hist[id]))
    ensures LatestOf(Log(k'), id) == LatestOf(Log(k), id)
  {
    hide LogOrdered, Log, LatestOf, IsLatest, Keyed;
    LatestIs(k, hist, id);
    LatestIs(k', hist', id);
    LatestUnique(Elems(hist[id]), id, LatestOf(Log(k), id).value, LatestOf(Log(k'), id).value);
  }

  lemma NextKeyByCount(log: seq<VectorEvent>, log': seq<VectorEvent>, after: Vector, op: OperationType, time: u64)
    requires CountOf(log', after.vectorId, after.spaceId) == CountOf(log, after.vectorId, after.spaceId)
    ensures NextKey(log', after, op, time) == NextKey(log, after, op, time)
  {
    hide EventId, CountOf;
  }

  /** What the log says about an entity depends on the entity's own history only. */
  lemma Elsewhere(k: Kernel, hist: History, k': Kernel, hist': History, before: Vector, after: Vector,
                  op: OperationType, time: u64)
    requires LogInv(k.events, hist) && LogInv(k'.events, hist') && after.vectorId in hist && after.vectorId in hist'
    requires hist'[after.vectorId] == hist[after.vectorId]
    ensures Retells(k', before, after, op, time) <==> Retells(k, before, after, op, time)
  {
    hide Log, LatestOf, Place, PositionIn, LogInv, LogOrdered, StoryOf, CountOf, ToEventState, NextKey, Keyed;
    var id := after.vectorId;
    StoryIsHistory(k, hist, id);
    StoryIsHistory(k', hist', id);
    LogIsOrdered(k.events, hist);
    LogIsOrdered(k'.events, hist');
    HistoryKeyed(k.events, hist, id);
    LatestElsewhere(k, hist, k', hist', id);
    CountByHistory(k, hist, id, after.spaceId);
    CountByHistory(k', hist', id, after.spaceId);
    NextKeyByCount(Log(k), Log(k'), after, op, time);
  }

  lemma HistoryKeyed(events: map<string, VectorEvent>, hist: History, id: string)
    requires LogInv(events, hist) && id in hist
    ensures Keyed(Elems(hist[id]))
  {
    hide Rooted, Continuous, Kin, Least;
    assert GoodHistory(id, hist[id]);
    DistinctHashesKeyed(hist[id]);
  }

  /** Later than the latest event is later than the last one of a rising history. */
  lemma AfterLast(k: Kernel, hist: History, id: string, v: Vector, time: u64)
    requires LogInv(k.events, hist) && id in hist && hist[id] != [] && TimelyHistory(hist[id])
    requires VectorStory(id, v, hist[id]) && After(k, id, time)
    ensures NotBefore(hist[id], v.version, time)
  {
    hide LogInv, LogOrdered, Log, VectorStory, LatestOf, Rising;
    LogIsOrdered(k.events, hist);
    LatestIsLast(k, hist, id);
    VersionCovers(id, v, hist[id]);
  }

  /** Transfers between different vectors keep the invariant when replay can tell both sides. */
  lemma TransferKeeps(env: Foreign, k: Kernel, hist: History, op: Op) returns (hist': History)
    requires op.TransferOp? && op.fromId != op.toId && Inv(k, hist) && TransferStep(env, k, op).1.Ok?
    requires TransferRetold(env, k, op)
    ensures Inv(TransferStep(env, k, op).0, hist')
    ensures Timely(hist) && After(k, op.fromId, op.sentAt) && After(k, op.toId, op.receivedAt) ==> Timely(hist')
  {
    hide TransferStep, TransferStates, GoodVector, LogInv, EmitUpdate, VectorStory, Inv, Log, Succeeds, LatestOf,
      Retells, TimelyHistory, After;
    TransferStepIs(env, k, op);
    var from, to := k.states[op.fromId], k.states[op.toId];
    VectorFacts(k, hist, op.fromId);
    VectorFacts(k, hist, op.toId);
    TransferStatesSucceed(from, to, op);
    var sides := TransferStates(from, to, op.amount, op.fromCheckedAt, op.toCheckedAt).value;
    var sender, receiver := sides.0, sides.1;
    var stored := Put(Put(k, sender), receiver);
    RetellsByEvents(k, stored, from, sender, OperationType.Transfer, op.sentAt);
    var mid := RecordExtends(env, stored, hist, from, sender, OperationType.Transfer, op.sentAt);
    var sent := EmitUpdate(env, stored, from, sender, OperationType.Transfer, op.sentAt).0;
    Elsewhere(k, hist, sent, mid, to, receiver, OperationType.Transfer, op.receivedAt);
    hist' := RecordExtends(env, sent, mid, to, receiver, OperationType.Transfer, op.receivedAt);
    InvReplaces(k, hist, Put(k, sender).(events := sent.events), mid, sender);
    InvReplaces(Put(k, sender).(events := sent.events), mid, TransferStep(env, k, op).0, hist', receiver);
    if Timely(hist) && After(k, op.fromId, op.sentAt) && After(k, op.toId, op.receivedAt) {
      AfterLast(k, hist, op.fromId, from, op.sentAt);
      AfterLast(k, hist, op.toId, to, op.receivedAt);
      TimelyReplaces(hist, mid, op.fromId);
      TimelyReplaces(mid, hist', op.toId);
    }
  }

  /** A transfer that changes nothing an event can show. */
  predicate NullTransfer(v: Vector, amount: seq<u128>) {
    v.vectorType == Standard && forall i :: 0 <= i < |amount| ==> amount[i] == 0
  }

  /** The kernel after the first event of a transfer. */
  ghost function AfterSending(env: Foreign, k: Kernel, op: Op): Kernel
    requires op.TransferOp? && op.fromId in k.states && op.toId in k.states
    requires TransferStates(k.states[op.fromId], k.states[op.toId], op.amount, op.fromCheckedAt, op.toCheckedAt).Ok?
  {
    var from, to := k.states[op.fromId], k.states[op.toId];
    var sides := TransferStates(from, to, op.amount, op.fromCheckedAt, op.toCheckedAt).value;
    EmitUpdate(env, Put(Put(k, sides.0), sides.1), from, sides.0, OperationType.Transfer, op.sentAt).0
  }

  /** Replay will tell both sides of a transfer; a transfer to the same vector must move nothing. */
  ghost predicate TransferRetold(env: Foreign, k: Kernel, op: Op)
    requires op.TransferOp?
  {
    op.fromId in k.states && op.toId in k.states &&
    var from, to := k.states[op.fromId], k.states[op.toId];
    var r := TransferStates(from, to, op.amount, op.fromCheckedAt, op.toCheckedAt);
    r.Ok? && Retells(k, from, r.value.0, OperationType.Transfer, op.sentAt) &&
    if op.fromId != op.toId then
      Retells(k, to, r.value.1, OperationType.Transfer, op.receivedAt)
    else
      && NullTransfer(from, op.amount)
      && Retells(AfterSending(env, k, op), to, r.value.1, OperationType.Transfer, op.receivedAt)
  }

  lemma NullIffSame(v: Vector, to: Vector, op: Op)
    requires op.TransferOp? && FitsEvent(v.components)
    requires TransferStates(v, to, op.amount, op.fromCheckedAt, op.toCheckedAt).Ok?
    ensures var sender := TransferStates(v, to, op.amount, op.fromCheckedAt, op.toCheckedAt).value.0;
      NullTransfer(v, op.amount) <==> ToEventState(sender) == ToEventState(v)
  {
    hide CertifyState;
    var sender := TransferStates(v, to, op.amount, op.fromCheckedAt, op.toCheckedAt).value.0;
    assert sender.components == SubEach(v.components, op.amount);
    forall i | 0 <= i < |op.amount| ensures sender.components[i] == v.components[i] - op.amount[i] {}
    if NullTransfer(v, op.amount) {
      assert sender.components == v.components;
    } else if v.vectorType == Standard {
      var i :| 0 <= i < |op.amount| && op.amount[i] != 0;
      assert sender.components[i] != v.components[i];
    } else {
      assert TypeTag(Standard) != TypeTag(v.vectorType);
    }
  }

  lemma SenderKeeps(v: Vector, op: Op)
    requires op.TransferOp? && TransferStates(v, v, op.amount, op.fromCheckedAt, op.toCheckedAt).Ok?
    ensures var sender := TransferStates(v, v, op.amount, op.fromCheckedAt, op.toCheckedAt).value.0;
      && v.spaceId == sender.spaceId && v.ownerPubkey == sender.ownerPubkey
      && v.version == sender.version && v.vectorId == sender.vectorId
      && |v.components| == |sender.components|
  {
    hide CertifyState, ValidateState;
  }

  lemma NullStory(id: string, v: Vector, sender: Vector, h: seq<VectorEvent>)
    requires h != [] && VectorStory(id, sender, h) && GoodVector(v) && v.vectorId == id
    requires ToEventState(sender) == ToEventState(v)
    requires v.spaceId == sender.spaceId && v.version == sender.version && |v.components| == |sender.components|
    ensures VectorStory(id, v, h)
  {
    hide GoodVector, ToEventState, IsRegionCreate;
  }

  lemma StoredHasForm(k: Kernel, hist: History, id: string)
    requires Inv(k, hist) && id in k.states
    ensures FitsEvent(k.states[id].components)
  {
    hide LogInv, GoodVector, RegionStory, IsRegionCreate, Dated;
  }

  /** A transfer to the same vector that moves nothing keeps the invariant when replay can tell both events. */
  lemma SelfTransferKeeps(env: Foreign, k: Kernel, hist: History, op: Op) returns (hist': History)
    requires op.TransferOp? && op.fromId == op.toId && Inv(k, hist) && TransferStep(env, k, op).1.Ok?
    requires TransferRetold(env, k, op)
    ensures Inv(TransferStep(env, k, op).0, hist')
  {
    hide TransferStep, TransferStates, GoodVector, LogInv, EmitUpdate, VectorStory, Inv, Log, Succeeds, LatestOf,
      Retells, ToEventState, NullTransfer;
    TransferStepIs(env, k, op);
    var v := k.states[op.fromId];
    VectorFacts(k, hist, op.fromId);
    StoredHasForm(k, hist, op.fromId);
    TransferStatesSucceed(v, v, op);
    SenderKeeps(v, op);
    NullIffSame(v, v, op);
    var sides := TransferStates(v, v, op.amount, op.fromCheckedAt, op.toCheckedAt).value;
    var stored := Put(Put(k, sides.0), sides.1);
    RetellsByEvents(k, stored, v, sides.0, OperationType.Transfer, op.sentAt);
    var mid := RecordExtends(env, stored, hist, v, sides.0, OperationType.Transfer, op.sentAt);
    var sent := EmitUpdate(env, stored, v, sides.0, OperationType.Transfer, op.sentAt).0;
    NullStory(op.fromId, v, sides.0, mid[op.fromId]);
    hist' := RecordExtends(env, sent, mid, v, sides.1, OperationType.Transfer, op.receivedAt);
    InvReplaces(k, hist, TransferStep(env, k, op).0, hist', sides.1);
  }

  // ----- Operations that start a history -----

  ghost predicate Unknown(k: Kernel, id: string) {
    forall e :: e in Log(k) ==> e.entityId != id
  }

  lemma OriginStateGood(env: Foreign, request: OriginRequest, now: u64, checkedAt: u64)
    requires OriginState(env, request, now, checkedAt).Ok?
    ensures var v := OriginState(env, request, now, checkedAt).value;
      GoodVector(v) && v.vectorId == request.vectorId && v.version == 1 && v.components == request.components
  {
    hide VerifyOrigin;
  }

  /** A new history of one event, with the vector or the region it creates. */
  lemma InvStarts(k: Kernel, hist: History, e: VectorEvent, states': map<string, Vector>)
    requires Inv(k, hist) && e.entityId !in hist && e.eventHash !in k.events && e.eventHash != ""
    requires e.parentHashes == [] && Follows(None, e)
    requires (states' == k.states && RegionStory([e]))
      || exists v :: states' == k.states[e.entityId := v] && VectorStory(e.entityId, v, [e])
    ensures Inv(Kernel(states', k.events[e.eventHash := e]), Extended(hist, e.entityId, e))
    ensures Timely(hist) ==> Timely(Extended(hist, e.entityId, e))
  {
    hide VectorStory, RegionStory, Follows, LogInv, GoodHistory;
    HistoryStarts(e);
    assert [] + [e] == [e];
    LogInvStarts(k.events, hist, e);
  }

  lemma LogInvStarts(events: map<string, VectorEvent>, hist: History, e: VectorEvent)
    requires LogInv(events, hist) && e.entityId !in hist && e.eventHash !in events && e.eventHash != ""
    requires GoodHistory(e.entityId, [e])
    ensures LogInv(events[e.eventHash := e], Extended(hist, e.entityId, e))
  {
    hide GoodHistory;
    assert [] + [e] == [e];
    LogExtends(events, hist, e);
  }

  lemma OriginAdds(env: Foreign, k: Kernel, request: OriginRequest, now: u64, checkedAt: u64) returns (e: VectorEvent)
    requires OriginStep(env, k, request, now, checkedAt).1.Ok?
    ensures OriginState(env, request, now, checkedAt).Ok?
    ensures var v := OriginState(env, request, now, checkedAt).value;
      OriginStep(env, k, request, now, checkedAt).0 == Kernel(k.states[v.vectorId := v], k.events[e.eventHash := e])
      && Records(e, BeforeState(None, v).value, v, OperationType.OriginCreate, v.version, v.createdAtMs, [])
    ensures NewTo(k.events, e)
  {
    hide OriginState, Emit, Records, Named, Log;
    var v := OriginState(env, request, now, checkedAt).value;
    e := EmitAdds(env, Put(k, v), None, v, OperationType.OriginCreate, v.version, v.createdAtMs, []);
  }

  lemma OriginStory(v: Vector, e: VectorEvent, before: VectorState)
    requires GoodVector(v) && Records(e, before, v, OperationType.OriginCreate, v.version, v.createdAtMs, [])
    ensures VectorStory(v.vectorId, v, [e]) && Follows(None, e)
  {
    assert e.vectorAfter.metadata == map[];
  }

  /** Origins under fresh ids keep the invariant. */
  lemma OriginKeeps(env: Foreign, k: Kernel, hist: History, request: OriginRequest, now: u64, checkedAt: u64)
    returns (hist': History)
    requires Inv(k, hist) && Unknown(k, request.vectorId) && OriginStep(env, k, request, now, checkedAt).1.Ok?
    ensures Inv(OriginStep(env, k, request, now, checkedAt).0, hist') && hist'.Keys == hist.Keys + {request.vectorId}
    ensures OriginState(env, request, now, checkedAt).Ok? && hist'[request.vectorId] != []
    ensures var v, e := OriginState(env, request, now, checkedAt).value, Last(hist'[request.vectorId]);
      e.timestamp == v.createdAtMs && e.logicalClock == v.version
    ensures forall id :: id in hist && id != request.vectorId ==> hist'[id] == hist[id]
    ensures Timely(hist) ==> Timely(hist')
  {
    hide OriginStep, OriginState, Log, GoodVector, VectorStory, Inv, LogInv, LogOrdered, RegionStory, Follows, NewTo,
      Timely, Records, ToEventState, ZeroState;
    var e := OriginAdds(env, k, request, now, checkedAt);
    OriginStateGood(env, request, now, checkedAt);
    var v := OriginState(env, request, now, checkedAt).value;
    OriginStory(v, e, BeforeState(None, v).value);
    RootRecord(e, BeforeState(None, v).value, v, OperationType.OriginCreate, v.version, v.createdAtMs);
    LogInvOf(k, hist);
    LogIsOrdered(k.events, hist);
    LatestIs(k, hist, request.vectorId);
    NewHash(k.events, e);
    InvStarts(k, hist, e, k.states[v.vectorId := v]);
    hist' := Extended(hist, v.vectorId, e);
  }

  lemma RootRecord(e: VectorEvent, before: VectorState, after: Vector, op: OperationType, clock: u64, time: u64)
    requires Records(e, before, after, op, clock, time, [])
    ensures e.parentHashes == [] && e.entityId == after.vectorId && e.timestamp == time && e.logicalClock == clock
  {
    hide ToEventState;
  }

  lemma NewHash(events: map<string, VectorEvent>, e: VectorEvent)
    requires NewTo(events, e)
    ensures e.eventHash !in events && e.eventHash != ""
  {
  }

  lemma RegionAdds(env: Foreign, k: Kernel, request: RegionRequest, actor: string, now: u64) returns (e: VectorEvent)
    requires RegionStep(env, k, request, actor, now).1.Ok?
    ensures e == Sealed(env, GenesisDraft(env, request, actor, NextClock(Log(k)), now, 1))
    ensures RegionStep(env, k, request, actor, now).0 == k.(events := k.events[e.eventHash := e])
    ensures e.eventHash !in k.events && e.eventHash != "" && ValidateRequest(request).Ok?
    ensures e.parentHashes == [] && e.entityId == RegionId(env, request, actor, 1)
    ensures e.operation == Other(REGION_CREATE) && e.timestamp == now && e.logicalClock == NextClock(Log(k))
  {
    hide CheckEvent, PayloadBytes, EventBytes, RegionTaken, RegionsListable, GenesisMetadata, Log, ValidateRequest,
      RegionId, EventId;
    e := Sealed(env, GenesisDraft(env, request, actor, NextClock(Log(k)), now, 1));
  }

  lemma RegionStarts(env: Foreign, request: RegionRequest, actor: string, clock: u64, now: u64)
    requires PrintsHex(env)
    ensures var e := Sealed(env, GenesisDraft(env, request, actor, clock, now, 1));
      RegionStory([e]) && Follows(None, e)
  {
    hide IsRegionCreate, RegionFromEvent, Sealed, GenesisDraft;
    GenesisReadsBack(env, request, actor, clock, now, 1);
  }

  /** Region creations under fresh ids keep the invariant. */
  lemma RegionKeeps(env: Foreign, k: Kernel, hist: History, request: RegionRequest, actor: string, now: u64)
    returns (hist': History)
    requires PrintsHex(env) && Inv(k, hist) && Unknown(k, RegionId(env, request, actor, 1))
    requires RegionStep(env, k, request, actor, now).1.Ok?
    ensures Inv(RegionStep(env, k, request, actor, now).0, hist')
    ensures Timely(hist) ==> Timely(hist')
  {
    hide RegionStep, Log, Inv, LogInv, LogOrdered, RegionStory, Follows, Sealed, GenesisDraft, RegionId, Timely,
      PrintsHex;
    var e := RegionAdds(env, k, request, actor, now);
    RegionStarts(env, request, actor, NextClock(Log(k)), now);
    LogInvOf(k, hist);
    LogIsOrdered(k.events, hist);
    LatestIs(k, hist, e.entityId);
    InvStarts(k, hist, e, k.states);
    hist' := Extended(hist, e.entityId, e);
  }

  // ----- Runs -----

  /**
   * What a caller must respect for an operation that succeeds: origins and regions start fresh
   * entities, and replay can still tell the sides of a transfer. Updates are always orderly.
   */
  ghost predicate Orderly(env: Foreign, k: Kernel, op: Op) {
    match op
    case OriginOp(request, _, _) => Unknown(k, request.vectorId)
    case RegionOp(request, actor, _) => Unknown(k, RegionId(env, request, actor, 1))
    case TransferOp(_, _, _, _, _, _, _) => TransferRetold(env, k, op)
    case CertifyOp(_, _, _) => true
    case DrainOp(_, _, _, _) => true
    case ProjectOp(_, _, _, _, _) => true
    case ReconstructOp(_, _, _, _) => true
  }

  /** A failing operation leaves the kernel as it was, and a successful one is orderly. */
  ghost predicate Admissible(env: Foreign, k: Kernel, op: Op) {
    var (k', r) := Step(env, k, op);
    if r.Err? then k' == k else Orderly(env, k, op)
  }

  ghost predicate AdmissibleRun(env: Foreign, ops: seq<Op>) {
    ops == [] || (AdmissibleRun(env, ops[..|ops| - 1]) && Admissible(env, Run(env, ops[..|ops| - 1]), ops[|ops| - 1]))
  }

  /** A successful transfer is between different vectors, and later than the latest event of each. */
  ghost predicate OnTime(env: Foreign, k: Kernel, op: Op) {
    op.TransferOp? && Step(env, k, op).1.Ok? ==>
      op.fromId != op.toId && After(k, op.fromId, op.sentAt) && After(k, op.toId, op.receivedAt)
  }

  /** A run whose transfers are on time. */
  ghost predicate TimelyRun(env: Foreign, ops: seq<Op>) {
    ops == [] || (TimelyRun(env, ops[..|ops| - 1]) && OnTime(env, Run(env, ops[..|ops| - 1]), ops[|ops| - 1]))
  }

  /** Every admissible operation keeps the invariant, and operations on time keep histories rising. */
  lemma StepKeeps(env: Foreign, k: Kernel, hist: History, op: Op) returns (hist': History)
    requires PrintsHex(env) && Inv(k, hist) && Admissible(env, k, op)
    ensures Inv(Step(env, k, op).0, hist')
    ensures Timely(hist) && OnTime(env, k, op) ==> Timely(hist')
  {
    hide Inv, UpdateStep, TransferStep, OriginStep, RegionStep, Unknown, After, PrintsHex, RegionId, TransferRetold,
      Timely;
    if Step(env, k, op).1.Err? {
      hist' := hist;
    } else {
      match op
      case OriginOp(request, now, checkedAt) => hist' := OriginKeeps(env, k, hist, request, now, checkedAt);
      case RegionOp(request, actor, now) => hist' := RegionKeeps(env, k, hist, request, actor, now);
      case TransferOp(fromId, toId, _, _, _, _, _) =>
        if fromId != toId {
          hist' := TransferKeeps(env, k, hist, op);
        } else {
          hist' := SelfTransferKeeps(env, k, hist, op);
        }
      case CertifyOp(_, _, _) => hist' := UpdateKeeps(env, k, hist, op);
      case DrainOp(_, _, _, _) => hist' := UpdateKeeps(env, k, hist, op);
      case ProjectOp(_, _, _, _, _) => hist' := UpdateKeeps(env, k, hist, op);
      case ReconstructOp(_, _, _, _) => hist' := UpdateKeeps(env, k, hist, op);
    }
  }

  lemma {:induction false} RunKeeps(env: Foreign, ops: seq<Op>) returns (hist: History)
    requires PrintsHex(env) && AdmissibleRun(env, ops)
    ensures Inv(Run(env, ops), hist)
    ensures TimelyRun(env, ops) ==> Timely(hist)
  {
    if ops == [] {
      hist := map[];
    } else {
      hide Inv, Step, Admissible, OnTime, Timely;
      var before := RunKeeps(env, ops[..|ops| - 1]);
      hist := StepKeeps(env, Run(env, ops[..|ops| - 1]), before, ops[|ops| - 1]);
    }
  }

  /** An operation on time is orderly, from any kernel that satisfies the invariant. */
  lemma OnTimeIsOrderly(env: Foreign, k: Kernel, hist: History, op: Op)
    requires Inv(k, hist) && op.TransferOp? && TransferStep(env, k, op).1.Ok? && OnTime(env, k, op)
    ensures TransferRetold(env, k, op)
  {
    hide TransferStep, TransferStates, GoodVector, LogInv, EmitUpdate, VectorStory, Inv, Log, Succeeds, LatestOf,
      Retells, After;
    TransferStepIs(env, k, op);
    var from, to := k.states[op.fromId], k.states[op.toId];
    VectorFacts(k, hist, op.fromId);
    VectorFacts(k, hist, op.toId);
    TransferStatesSucceed(from, to, op);
    var sides := TransferStates(from, to, op.amount, op.fromCheckedAt, op.toCheckedAt).value;
    LaterComesLast(k, hist, from, sides.0, OperationType.Transfer, op.sentAt);
    LaterComesLast(k, hist, to, sides.1, OperationType.Transfer, op.receivedAt);
  }

  // ----- The log under the invariant is valid and replays to the store -----

  ghost function HistoryRank(k: Kernel, hist: History): map<string, nat>
    requires LogIs(k.events, hist)
  {
    map hash | hash in k.events :: PositionIn(hist[k.events[hash].entityId], hash)
  }

  /** The only parent of an event comes before it in its history. */
  lemma ParentIsEarlier(hist: History, e: VectorEvent, i: nat) returns (j: nat)
    requires e.entityId in hist && GoodHistory(e.entityId, hist[e.entityId]) && i < |hist[e.entityId]|
    requires hist[e.entityId][i] == e
    ensures i == 0 ==> e.parentHashes == []
    ensures i > 0 ==>
      j < i && e.parentHashes == [hist[e.entityId][j].eventHash] && hist[e.entityId][j].regionId == e.regionId
  {
    hide Continuous, SelfOrdered;
    var h := hist[e.entityId];
    assert h[i] in h;
    j := 0;
    if i > 0 {
      assert HangsBehind(h, i);
      j :| 0 <= j < i && h[i].parentHashes == [h[j].eventHash];
      assert h[j] in h;
    }
  }

  lemma SplitGood(id: string, h: seq<VectorEvent>)
    requires GoodHistory(id, h)
    ensures OrderedHistory(id, h) && Continuous(h)
  {
    hide OrderedHistory, Continuous;
  }

  lemma StoredParent(k: Kernel, hist: History, e: VectorEvent, f: VectorEvent)
    requires LogInv(k.events, hist) && f.eventHash in e.parentHashes
    requires e.eventHash in k.events && k.events[e.eventHash] == e && f.eventHash in k.events
    requires k.events[f.eventHash] == f
    ensures f.regionId == e.regionId && f.entityId == e.entityId
    ensures HistoryRank(k, hist)[f.eventHash] < HistoryRank(k, hist)[e.eventHash]
  {
    hide GoodHistory;
    var h := hist[e.entityId];
    assert GoodHistory(e.entityId, h);
    SplitGood(e.entityId, h);
    HistoryOrder(hist, e.entityId);
    HistoryKin(hist, e.entityId);
    var i :| 0 <= i < |h| && h[i] == e;
    var j := ParentIsEarlier(hist, e, i);
    assert h[j] in h && f == h[j];
    PositionIs(h, i);
    PositionIs(h, j);
  }

  /** Under the invariant the log passes the acyclicity and parent checks, whatever the clocks say. */
  lemma LogIsValid(k: Kernel, hist: History)
    requires LogInv(k.events, hist)
    ensures ValidLog(Log(k))
  {
    hide GoodHistory, Log;
    LogHolds(k);
    var log, s := Log(k), Elems(Log(k));
    forall e | e in log ensures ParentsAdmissible(e, log) && e.eventHash != "" {
      var h := hist[e.entityId];
      var i :| 0 <= i < |h| && h[i] == e;
      var j := ParentIsEarlier(hist, e, i);
      if i > 0 {
        assert h[j] in h;
        assert h[j] in log;
        assert ParentAdmissible(e, h[j].eventHash, log);
      }
    }
    forall e, f | e in s && f in s && f.eventHash in e.parentHashes
      ensures HistoryRank(k, hist)[f.eventHash] < HistoryRank(k, hist)[e.eventHash]
    {
      StoredParent(k, hist, e, f);
    }
    assert IsRank(HistoryRank(k, hist), s);
  }

  lemma EntitiesAreHistories(k: Kernel, hist: History)
    requires LogInv(k.events, hist) && forall id :: id in hist ==> hist[id] != []
    ensures Entities(Elems(Log(k))) == hist.Keys
  {
    hide GoodHistory, Log;
    LogHolds(k);
    forall id | id in hist ensures id in Entities(Elems(Log(k))) {
      assert hist[id][0] in hist[id];
      HistoryKinIn(k.events, hist, id);
      assert hist[id][0] in Elems(Log(k));
    }
  }

  /** Every region creation of the log is the whole history of a region. */
  lemma RegionEventsAlone(k: Kernel, hist: History)
    requires Inv(k, hist)
    ensures RegionsReadable(Log(k))
    ensures forall e :: e in Log(k) && IsRegionCreate(e) ==>
      e.entityId in hist && e.entityId !in k.states && hist[e.entityId] == [e] && RegionStory([e])
  {
    hide Inv, GoodHistory, Log, RegionFromEvent, IsRegionCreate;
    LogInvOf(k, hist);
    LogHolds(k);
    DistinctHashesKeyed(Log(k));
    NoDupMultiset(Log(k));
    forall e | e in Log(k) && IsRegionCreate(e)
      ensures e.entityId in hist && e.entityId !in k.states && hist[e.entityId] == [e] && RegionStory([e])
    {
      RegionEvent(k, hist, e);
    }
  }

  lemma RegionHistory(k: Kernel, hist: History, id: string)
    requires Inv(k, hist) && id in hist && id !in k.states
    ensures RegionStory(hist[id]) && hist[id][0] in Log(k) && CreatesRegion(hist[id][0], id)
  {
    hide GoodHistory, Log, RegionFromEvent, IsRegionCreate, VectorStory;
    LogHolds(k);
    assert hist[id][0] in hist[id];
    HistoryKinIn(k.events, hist, id);
  }

  /** The regions of the log are the entities that are not vectors, each with the default share. */
  lemma RegionsOfLog(k: Kernel, hist: History)
    requires Inv(k, hist)
    ensures RegionsReadable(Log(k))
    ensures RegionMap(Log(k)).Keys == hist.Keys - k.states.Keys
    ensures TotalBps(RegionMap(Log(k))) == DEFAULT_AUTH_RATIO_BPS * |RegionMap(Log(k))|
  {
    hide Inv, Log, RegionFromEvent, IsRegionCreate, RegionMap, TotalBps;
    var log := Log(k);
    RegionEventsAlone(k, hist);
    RegionMapHolds(log);
    forall id ensures id in RegionMap(log) <==> id in hist.Keys - k.states.Keys {
      if id in hist && id !in k.states { RegionHistory(k, hist, id); }
    }
    forall id | id in RegionMap(log) ensures RegionMap(log)[id].authRatioBps == DEFAULT_AUTH_RATIO_BPS {
      var e :| e in log && CreatesRegion(e, id) && RegionMap(log)[id] == RegionFromEvent(e).value;
    }
    ConstantTotal(RegionMap(log));
  }

  lemma RegionEvent(k: Kernel, hist: History, e: VectorEvent)
    requires Inv(k, hist) && e.eventHash in k.events && k.events[e.eventHash] == e && IsRegionCreate(e)
    ensures e.entityId in hist && e.entityId !in k.states && hist[e.entityId] == [e] && RegionStory([e])
  {
    hide Inv, GoodHistory, GoodVector, IsRegionCreate, RegionFromEvent, ToEventState;
    LogInvOf(k, hist);
    var h := hist[e.entityId];
    assert e in h;
    if e.entityId in k.states {
      VectorFacts(k, hist, e.entityId);
      assert false;
    }
    RegionHistory(k, hist, e.entityId);
    assert h == [h[0]] == [e];
  }

  lemma ConstantTotal(regions: map<string, RegionState>)
    requires forall id :: id in regions ==> regions[id].authRatioBps == DEFAULT_AUTH_RATIO_BPS
    ensures TotalBps(regions) == DEFAULT_AUTH_RATIO_BPS * |regions|
  {
    ConstantSum(Shares(regions));
    assert Shares(regions).Keys == regions.Keys;
    assert |Shares(regions)| == |Shares(regions).Keys| == |regions.Keys|;
  }

  lemma {:induction false} ConstantSum(m: map<string, int>)
    requires forall id :: id in m ==> m[id] == DEFAULT_AUTH_RATIO_BPS
    ensures Sum(m) == DEFAULT_AUTH_RATIO_BPS * |m|
    decreases |m|
  {
    if m != map[] {
      var k :| k in m && Sum(m) == m[k] + Sum(m - {k});
      assert (m - {k}).Keys == m.Keys - {k};
      assert |m - {k}| == |m| - 1;
      ConstantSum(m - {k});
    }
  }

  /** The replayed state is the stored vectors, as they are stored, plus the regions. */
  ghost predicate SameState(states: map<string, Vector>, final: map<string, VectorState>,
                            regions: map<string, RegionState>) {
    && final.Keys == states.Keys + regions.Keys && states.Keys !! regions.Keys
    && forall id :: id in states ==> ToEventState(states[id]) == Ok(final[id])
  }

  /** The log replays, and its final state is the store. */
  ghost predicate Agrees(env: Foreign, k: Kernel) {
    && Replayable(env, Log(k))
    && SameState(k.states, ReplayOf(env, Elems(Log(k))).finalState, ReplayOf(env, Elems(Log(k))).coreState.regions)
  }

  /** Under the invariant the log replays, up to the capacity of the 64-bit registry counter. */
  lemma InvReplays(env: Foreign, k: Kernel, hist: History)
    requires Inv(k, hist)
    ensures Replayable(env, Log(k)) <==> DEFAULT_AUTH_RATIO_BPS * |RegionMap(Log(k))| < U64_LIMIT
  {
    hide Inv, GoodHistory, LogInv, Log, RegionMap, TotalBps, Story, Replayable, Told, ValidLog, RegionsReadable,
      Entities, VectorStory;
    LogInvOf(k, hist);
    var s := Elems(Log(k));
    HistoriesNonEmpty(k, hist);
    LogIsValid(k, hist);
    EntitiesAreHistories(k, hist);
    RegionsOfLog(k, hist);
    forall id | id in hist ensures Told(s, id) { StoryIsHistory(k, hist, id); }
    ReplayableMeans(env, Log(k));
  }

  /** The history of a vector ends at its stored state. */
  lemma StoryEnds(k: Kernel, hist: History, id: string)
    requires Inv(k, hist) && id in k.states
    ensures id in hist && StateAfter(hist[id]).Some? && ToEventState(k.states[id]) == Ok(StateAfter(hist[id]).value)
  {
    hide LogInv, RegionStory, GoodVector, ToEventState;
  }

  /** Replay ends every vector at its stored state. */
  lemma ReplayEndsAtStore(env: Foreign, k: Kernel, hist: History, id: string)
    requires Inv(k, hist) && Replayable(env, Log(k)) && id in k.states
    ensures id in ReplayOf(env, Elems(Log(k))).finalState
    ensures ToEventState(k.states[id]) == Ok(ReplayOf(env, Elems(Log(k))).finalState[id])
  {
    hide Inv, LogInv, Log, Story, Replayable, StateAfter, ToEventState, ReplayOf, Entities, Told;
    LogInvOf(k, hist);
    HistoriesNonEmpty(k, hist);
    EntitiesAreHistories(k, hist);
    StoryIsHistory(k, hist, id);
    StoryEnds(k, hist, id);
    ReplayEnds(env, Log(k), id);
  }

  lemma SameStateIf(states: map<string, Vector>, final: map<string, VectorState>, regions: map<string, RegionState>,
                    ids: set<string>)
    requires states.Keys <= ids && final.Keys == ids && regions.Keys == ids - states.Keys
    requires forall id :: id in states ==> ToEventState(states[id]) == Ok(final[id])
    ensures SameState(states, final, regions)
  {
    hide ToEventState;
  }

  /** What replay returns is what is stored. */
  lemma ReplayMatches(env: Foreign, k: Kernel, hist: History)
    requires Inv(k, hist) && Replayable(env, Log(k))
    ensures Agrees(env, k)
  {
    hide Inv, LogInv, Log, RegionMap, TotalBps, Replayable, StateFold, CoreFold, ReplayOrder, RegionsReadable,
      ToEventState, ReplayOf, Entities, SameState;
    LogInvOf(k, hist);
    HistoriesNonEmpty(k, hist);
    EntitiesAreHistories(k, hist);
    RegionsOfLog(k, hist);
    ReplayRegions(env, Log(k));
    var r := ReplayOf(env, Elems(Log(k)));
    forall id | id in k.states ensures ToEventState(k.states[id]) == Ok(r.finalState[id]) {
      ReplayEndsAtStore(env, k, hist, id);
    }
    SameStateIf(k.states, r.finalState, r.coreState.regions, hist.Keys);
  }

  /** Under the invariant the log and the store agree, up to the capacity of the 64-bit registry counter. */
  lemma InvAgrees(env: Foreign, k: Kernel, hist: History)
    requires Inv(k, hist)
    ensures Agrees(env, k) <==> DEFAULT_AUTH_RATIO_BPS * |RegionMap(Log(k))| < U64_LIMIT
    ensures Agrees(env, k) <==> Replayable(env, Log(k))
  {
    hide Inv, Log, RegionMap, Replayable, ReplayOf;
    InvReplays(env, k, hist);
    if Replayable(env, Log(k)) { ReplayMatches(env, k, hist); }
  }

  lemma HistoriesNonEmpty(k: Kernel, hist: History)
    requires Inv(k, hist)
    ensures forall id :: id in hist ==> hist[id] != []
  {
    hide GoodHistory, VectorStory, IsRegionCreate, RegionFromEvent, LogIs;
  }
}
