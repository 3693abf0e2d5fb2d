/** What holds after every admissible run: the agreement of log and store, and what follows from its invariant. */
module Runs {
  import opened Agreement
  import opened Base
  import opened Dag
  import opened Events
  import opened Exactness
  import opened Histories
  import opened Insertion
  import opened Invariant
  import opened LeastOrder
  import opened Machine
  import opened Ordering
  import opened Region
  import opened Registry
  import opened Replay
  import opened Stored
  import opened Summary
  import opened Validation
  import opened Vectors

  // ----- The log and the store agree -----

  /**
   * After every admissible run, replaying the log rebuilds exactly the store, as long as the
   * registry's 64-bit total can hold the share of every region. Clock readings matter only in that
   * replay must be able to tell the sides of transfers.
   */
  lemma RunsAgree(env: Foreign, ops: seq<Op>)
    requires PrintsHex(env) && AdmissibleRun(env, ops)
    ensures ValidLog(Log(Run(env, ops)))
    ensures Agrees(env, Run(env, ops)) <==> DEFAULT_AUTH_RATIO_BPS * |RegionMap(Log(Run(env, ops)))| < U64_LIMIT
  {
    hide Agrees, ValidLog, LogInv, RegionMap, Log, Run;
    var hist := RunKeeps(env, ops);
    InvAgrees(env, Run(env, ops), hist);
    LogIsValid(Run(env, ops), hist);
  }

  /** Failing operations change nothing, and origins and regions take fresh ids. */
  ghost predicate FreshSteadyRun(env: Foreign, ops: seq<Op>) {
    ops == [] ||
    var front, op := ops[..|ops| - 1], ops[|ops| - 1];
    FreshSteadyRun(env, front) &&
    var k := Run(env, front);
    if Step(env, k, op).1.Err? then Step(env, k, op).0 == k else !op.TransferOp? ==> Orderly(env, k, op)
  }

  /** When every transfer is between different vectors and on time, that makes a run admissible. */
  lemma {:induction false} TimelyRunIsAdmissible(env: Foreign, ops: seq<Op>)
    requires PrintsHex(env) && FreshSteadyRun(env, ops) && TimelyRun(env, ops)
    ensures AdmissibleRun(env, ops)
  {
    if ops != [] {
      var front, op := ops[..|ops| - 1], ops[|ops| - 1];
      TimelyRunIsAdmissible(env, front);
      var hist := RunKeeps(env, front);
      hide Inv, TransferStep, OriginStep, RegionStep, UpdateStep, Run, AdmissibleRun, TimelyRun, FreshSteadyRun,
        TransferRetold, After, Unknown;
      if op.TransferOp? && Step(env, Run(env, front), op).1.Ok? {
        OnTimeIsOrderly(env, Run(env, front), hist, op);
      }
    }
  }

  // ----- What a caller can check before a run -----

  /** The clock readings that an operation puts into events. */
  function EventTimes(op: Op): seq<u64> {
    match op
    case OriginOp(_, now, _) => [now]
    case TransferOp(_, _, _, _, _, sentAt, receivedAt) => [sentAt, receivedAt]
    case RegionOp(_, _, now) => [now]
    case CertifyOp(_, _, now) => [now]
    case DrainOp(_, _, _, now) => [now]
    case ProjectOp(_, _, _, now, _) => [now]
    case ReconstructOp(_, _, now, _) => [now]
  }

  /** The entities that an operation starts. */
  function Started(env: Foreign, op: Op): set<string> {
    if op.OriginOp? then {op.request.vectorId}
    else if op.RegionOp? then {RegionId(env, op.region, op.actor, 1)}
    else {}
  }

  /** The readings of every operation are later than those of every operation before it. */
  predicate RisingReadings(ops: seq<Op>) {
    forall i, j, s, t :: 0 <= i < j < |ops| && s in EventTimes(ops[i]) && t in EventTimes(ops[j]) ==> s < t
  }

  /** No two operations start the same entity. */
  ghost predicate DistinctStarts(env: Foreign, ops: seq<Op>) {
    forall i, j, id :: 0 <= i < j < |ops| && id in Started(env, ops[i]) ==> id !in Started(env, ops[j])
  }

  predicate DifferentEnds(ops: seq<Op>) {
    forall op :: op in ops && op.TransferOp? ==> op.fromId != op.toId
  }

  /** Some operation of the list puts the reading into events. */
  ghost predicate ReadingOf(ops: seq<Op>, t: int) {
    exists i :: 0 <= i < |ops| && t in EventTimes(ops[i])
  }

  ghost predicate StartOf(env: Foreign, ops: seq<Op>, id: string) {
    exists i :: 0 <= i < |ops| && id in Started(env, ops[i])
  }

  /** What the kernel holds comes from the operations of the list. */
  ghost predicate ComesFrom(env: Foreign, k: Kernel, ops: seq<Op>) {
    && (forall h :: h in k.events ==> ReadingOf(ops, k.events[h].timestamp) && StartOf(env, ops, k.events[h].entityId))
    && forall id :: id in k.states ==> StartOf(env, ops, id)
  }

  /** What an operation adds: events with its readings, of vectors that were stored or of what it starts. */
  ghost predicate AddsOwn(env: Foreign, k: Kernel, k': Kernel, op: Op) {
    forall h :: h in k'.events ==>
      || (h in k.events && k'.events[h] == k.events[h])
      || (k'.events[h].timestamp in EventTimes(op)
          && (k'.events[h].entityId in k.states || k'.events[h].entityId in Started(env, op)))
  }

  lemma UpdateTime(v: Vector, op: Op)
    requires op.CertifyOp? || op.DrainOp? || op.ProjectOp? || op.ReconstructOp?
    requires NewState(v, op).Ok?
    ensures NewState(v, op).value.updatedAtMs == op.now
  {
    hide CertifyState, ValidateState, DrainOutcome, LossesCovered, Restored;
  }

  lemma UpdateAddsOwn(env: Foreign, k: Kernel, op: Op)
    requires op.CertifyOp? || op.DrainOp? || op.ProjectOp? || op.ReconstructOp?
    requires AllGood(k) && UpdateStep(env, k, op).1.Ok?
    ensures AddsOwn(env, k, UpdateStep(env, k, op).0, op)
  {
    hide NewState, Emit, UpdateStep, Log, GoodVector, ToEventState;
    UpdateStepIs(env, k, op);
    var before := k.states[op.id];
    var after := NewState(before, op).value;
    NewStateSucceeds(before, op);
    UpdateTime(before, op);
    var stored := Put(k, after);
    var e := EmitAdds(env, stored, Some(before), after, EventKind(op), after.version, after.updatedAtMs,
      ParentsFor(Log(stored), after.vectorId));
  }

  lemma EmitAddsOwn(env: Foreign, k: Kernel, before: Vector, after: Vector, op: OperationType, time: u64)
    requires EmitUpdate(env, k, before, after, op, time).1.Ok?
    ensures forall h :: h in EmitUpdate(env, k, before, after, op, time).0.events ==>
      var e := EmitUpdate(env, k, before, after, op, time).0.events[h];
      (h in k.events && e == k.events[h]) || (e.timestamp == time && e.entityId == after.vectorId)
  {
    hide Emit, Log, ToEventState;
    var e := EmitAdds(env, k, Some(before), after, op, after.version, time, ParentsFor(Log(k), after.vectorId));
  }

  lemma TransferAddsOwn(env: Foreign, k: Kernel, op: Op)
    requires op.TransferOp? && AllGood(k) && TransferStep(env, k, op).1.Ok?
    ensures AddsOwn(env, k, TransferStep(env, k, op).0, op)
  {
    hide TransferStates, EmitUpdate, TransferStep, Log, GoodVector;
    TransferStepIs(env, k, op);
    var from, to := k.states[op.fromId], k.states[op.toId];
    TransferStatesSucceed(from, to, op);
    var sides := Sides(k, op);
    var stored := Put(Put(k, sides.0), sides.1);
    EmitAddsOwn(env, stored, from, sides.0, OperationType.Transfer, op.sentAt);
    var sent := EmitUpdate(env, stored, from, sides.0, OperationType.Transfer, op.sentAt).0;
    EmitAddsOwn(env, sent, to, sides.1, OperationType.Transfer, op.receivedAt);
  }

  lemma OriginAddsOwn(env: Foreign, k: Kernel, op: Op)
    requires op.OriginOp? && OriginStep(env, k, op.request, op.now, op.checkedAt).1.Ok?
    ensures AddsOwn(env, k, OriginStep(env, k, op.request, op.now, op.checkedAt).0, op)
  {
    hide OriginStep, OriginState, GoodVector, ToEventState, ZeroState;
    var e := OriginAdds(env, k, op.request, op.now, op.checkedAt);
    OriginStateGood(env, op.request, op.now, op.checkedAt);
    OriginTime(env, op.request, op.now, op.checkedAt);
  }

  lemma OriginTime(env: Foreign, request: OriginRequest, now: u64, checkedAt: u64)
    requires OriginState(env, request, now, checkedAt).Ok?
    ensures OriginState(env, request, now, checkedAt).value.createdAtMs == now
  {
    hide VerifyOrigin, CertifyState, ValidateState;
  }

  lemma RegionAddsOwn(env: Foreign, k: Kernel, op: Op)
    requires op.RegionOp? && RegionStep(env, k, op.region, op.actor, op.now).1.Ok?
    ensures AddsOwn(env, k, RegionStep(env, k, op.region, op.actor, op.now).0, op)
  {
    hide RegionStep, RegionId, Log, Sealed, GenesisDraft;
    var e := RegionAdds(env, k, op.region, op.actor, op.now);
  }

  lemma StepAddsOwn(env: Foreign, k: Kernel, op: Op)
    requires AllGood(k) && Step(env, k, op).1.Ok?
    ensures AddsOwn(env, k, Step(env, k, op).0, op)
  {
    hide AddsOwn, AllGood, OriginStep, TransferStep, RegionStep, UpdateStep;
    match op
    case OriginOp(_, _, _) => OriginAddsOwn(env, k, op);
    case TransferOp(_, _, _, _, _, _, _) => TransferAddsOwn(env, k, op);
    case RegionOp(_, _, _) => RegionAddsOwn(env, k, op);
    case CertifyOp(_, _, _) => UpdateAddsOwn(env, k, op);
    case DrainOp(_, _, _, _) => UpdateAddsOwn(env, k, op);
    case ProjectOp(_, _, _, _, _) => UpdateAddsOwn(env, k, op);
    case ReconstructOp(_, _, _, _) => UpdateAddsOwn(env, k, op);
  }

  lemma Longer(env: Foreign, k: Kernel, front: seq<Op>, op: Op)
    requires ComesFrom(env, k, front)
    ensures ComesFrom(env, k, front + [op])
  {
    hide EventTimes, Started;
    var ops := front + [op];
    forall t | ReadingOf(front, t) ensures ReadingOf(ops, t) {
      var i :| 0 <= i < |front| && t in EventTimes(front[i]);
      assert ops[i] == front[i];
    }
    forall id | StartOf(env, front, id) ensures StartOf(env, ops, id) {
      var i :| 0 <= i < |front| && id in Started(env, front[i]);
      assert ops[i] == front[i];
    }
  }

  lemma ComesFromNext(env: Foreign, k: Kernel, front: seq<Op>, op: Op)
    requires AllGood(k) && ComesFrom(env, k, front) && Step(env, k, op).1.Ok?
    ensures ComesFrom(env, Step(env, k, op).0, front + [op])
  {
    hide Step, EventTimes, Started, AllGood, KeepsDimensions, StartsVector;
    StepAddsOwn(env, k, op);
    StepStoresGood(env, k, op);
    Longer(env, k, front, op);
    assert (front + [op])[|front|] == op;
    forall id | StartsVector(env, op, id) ensures id in Started(env, op) { StartIsStarted(env, op, id); }
  }

  lemma StartIsStarted(env: Foreign, op: Op, id: string)
    requires StartsVector(env, op, id)
    ensures id in Started(env, op)
  {
  }

  lemma LaterThanAll(env: Foreign, k: Kernel, hist: History, ops: seq<Op>, id: string, t: u64)
    requires LogInv(k.events, hist) && ComesFrom(env, k, ops)
    requires forall s: int :: ReadingOf(ops, s) ==> s < t
    ensures After(k, id, t)
  {
    hide LogInv, Log, ReadingOf, LatestOf, EventsAscend;
    LogIsOrdered(k.events, hist);
    LogHoldsIn(k, hist);
    LatestOfIs(Log(k), id);
    if LatestOf(Log(k), id).Some? {
      assert LatestOf(Log(k), id).value in Log(k);
    }
  }

  lemma NotStarted(env: Foreign, k: Kernel, hist: History, ops: seq<Op>, id: string)
    requires LogInv(k.events, hist) && ComesFrom(env, k, ops) && !StartOf(env, ops, id)
    ensures Unknown(k, id)
  {
    hide LogInv, Log, StartOf;
    LogIsOrdered(k.events, hist);
    LogHoldsIn(k, hist);
  }

  /** The next operation of a list that obeys the three rules is orderly and on time. */
  lemma NextIsOrderly(env: Foreign, k: Kernel, hist: History, front: seq<Op>, op: Op)
    requires Inv(k, hist) && ComesFrom(env, k, front) && Step(env, k, op).1.Ok?
    requires RisingReadings(front + [op]) && DistinctStarts(env, front + [op]) && DifferentEnds(front + [op])
    ensures Orderly(env, k, op) && OnTime(env, k, op)
  {
    hide Inv, LogInv, ComesFrom, TransferStep, OriginStep, RegionStep, UpdateStep, After, Unknown, TransferRetold,
      RegionId;
    var ops := front + [op];
    LogInvOf(k, hist);
    assert ops[|front|] == op && op in ops;
    assert forall i :: 0 <= i < |front| ==> ops[i] == front[i];
    assert forall id :: id in Started(env, op) ==> !StartOf(env, front, id);
    if op.TransferOp? {
      assert EventTimes(op)[0] == op.sentAt && EventTimes(op)[1] == op.receivedAt;
      forall s: int | ReadingOf(front, s) ensures s < op.sentAt && s < op.receivedAt {
        var i :| 0 <= i < |front| && s in EventTimes(front[i]);
        assert op.sentAt in EventTimes(ops[|front|]) && op.receivedAt in EventTimes(ops[|front|]);
      }
      LaterThanAll(env, k, hist, front, op.fromId, op.sentAt);
      LaterThanAll(env, k, hist, front, op.toId, op.receivedAt);
      OnTimeIsOrderly(env, k, hist, op);
    } else if op.OriginOp? {
      NotStarted(env, k, hist, front, op.request.vectorId);
    } else if op.RegionOp? {
      NotStarted(env, k, hist, front, RegionId(env, op.region, op.actor, 1));
    }
  }

  lemma Shorter(env: Foreign, front: seq<Op>, op: Op)
    requires RisingReadings(front + [op]) && DistinctStarts(env, front + [op]) && DifferentEnds(front + [op])
    ensures RisingReadings(front) && DistinctStarts(env, front) && DifferentEnds(front)
  {
    hide EventTimes, Started;
    assert forall i :: 0 <= i < |front| ==> (front + [op])[i] == front[i];
  }

  lemma NextKeepsSource(env: Foreign, k: Kernel, hist: History, front: seq<Op>, op: Op)
    requires Inv(k, hist) && ComesFrom(env, k, front) && (Step(env, k, op).1.Err? ==> Step(env, k, op).0 == k)
    requires RisingReadings(front + [op]) && DistinctStarts(env, front + [op]) && DifferentEnds(front + [op])
    ensures Admissible(env, k, op) && OnTime(env, k, op) && ComesFrom(env, Step(env, k, op).0, front + [op])
  {
    hide Inv, Step, Orderly, ComesFrom, RisingReadings, DistinctStarts, DifferentEnds, AllGood;
    if Step(env, k, op).1.Ok? {
      NextIsOrderly(env, k, hist, front, op);
      InvStoresGood(k, hist);
      ComesFromNext(env, k, front, op);
    } else {
      Longer(env, k, front, op);
    }
  }

  lemma EmptyComesFrom(env: Foreign)
    ensures ComesFrom(env, EMPTY, [])
  {
  }

  /**
   * Rising readings, distinct new ids and different transfer ends, all visible before the run, make
   * it admissible, as long as failing operations change nothing.
   */
  lemma {:induction false} RisingRunIsAdmissible(env: Foreign, ops: seq<Op>)
    requires PrintsHex(env) && SteadyRun(env, ops)
    requires RisingReadings(ops) && DistinctStarts(env, ops) && DifferentEnds(ops)
    ensures AdmissibleRun(env, ops) && TimelyRun(env, ops) && ComesFrom(env, Run(env, ops), ops)
  {
    hide Inv, Step, Admissible, OnTime, PrintsHex, ComesFrom, RisingReadings, DistinctStarts, DifferentEnds, Timely;
    EmptyComesFrom(env);
    if ops != [] {
      var front, op := ops[..|ops| - 1], ops[|ops| - 1];
      assert ops == front + [op];
      Shorter(env, front, op);
      RisingRunIsAdmissible(env, front);
      var hist := RunKeeps(env, front);
      NextKeepsSource(env, Run(env, front), hist, front, op);
    }
  }

  // ----- The log is already in canonical order -----

  lemma KeysRise(k: Kernel, hist: History)
    requires LogInv(k.events, hist) && Timely(hist)
    ensures KeysFollowEdges(LogKey, Elems(Log(k)))
  {
    hide Log, EventLeq, LogIs, LogInv, Timely;
    LogIsOrdered(k.events, hist);
    LogHoldsIn(k, hist);
    var s := Elems(Log(k));
    forall e, f | e in s && f in s && f.eventHash in e.parentHashes ensures EventLeq(LogKey, f, e) {
      StoredParentEarlier(k, hist, e, f);
      EarlierIsLess(f, e);
    }
  }

  lemma StoredParentEarlier(k: Kernel, hist: History, e: VectorEvent, f: VectorEvent)
    requires LogInv(k.events, hist) && Timely(hist) && f.eventHash in e.parentHashes
    requires e.eventHash in k.events && k.events[e.eventHash] == e && f.eventHash in k.events
    requires k.events[f.eventHash] == f
    ensures Earlier(f, e)
  {
    hide OrderedHistory, Continuous, Earlier, TimelyHistory;
    var h := hist[e.entityId];
    var i :| 0 <= i < |h| && h[i] == e;
    var j := ParentIsEarlier(hist, e, i);
    assert h[j] in h && f == h[j];
    HistoryRises(h, j, i);
  }

  lemma HistoryRises(h: seq<VectorEvent>, i: nat, j: nat)
    requires TimelyHistory(h) && i < j < |h|
    ensures Earlier(h[i], h[j])
  {
    hide IsChain;
  }

  /** On rising histories the event query already returns the log in its canonical topological order. */
  lemma LogIsItsOrder(k: Kernel, hist: History)
    requires LogInv(k.events, hist) && Timely(hist)
    ensures ValidLog(Log(k)) && Least(LogKey, Elems(Log(k))) == Log(k)
  {
    hide LogIs, LogInv, Timely, Log, ValidLog, Least, KeysFollowEdges;
    LogIsOrdered(k.events, hist);
    LogHoldsIn(k, hist);
    LogIsValid(k, hist);
    KeysRise(k, hist);
    OrderIsSorting(Log(k));
    SortSorted(LogKey, Log(k));
  }

  lemma RunLogIsItsOrder(env: Foreign, ops: seq<Op>)
    requires PrintsHex(env) && AdmissibleRun(env, ops) && TimelyRun(env, ops)
    ensures ValidLog(Log(Run(env, ops))) && Least(LogKey, Elems(Log(Run(env, ops)))) == Log(Run(env, ops))
  {
    hide Inv, LogInv, Log, ValidLog, Least, Run, AdmissibleRun, TimelyRun, Timely;
    var hist := RunKeeps(env, ops);
    LogInvOf(Run(env, ops), hist);
    LogIsItsOrder(Run(env, ops), hist);
  }

  // ----- The heads of an engine log -----

  lemma ChainParent(h: seq<VectorEvent>, i: nat)
    requires TimelyHistory(h) && i < |h|
    ensures i > 0 ==> h[i].parentHashes == [h[i - 1].eventHash]
  {
    hide Rising;
  }

  lemma LastIsHead(k: Kernel, hist: History, id: string)
    requires LogInv(k.events, hist) && id in hist && hist[id] != []
    ensures IsHead(Elems(Log(k)), Last(hist[id]))
  {
    hide GoodHistory, Log;
    LogHoldsIn(k, hist);
    var e, s := Last(hist[id]), Elems(Log(k));
    assert e in hist[id];
    HistoryKinIn(k.events, hist, id);
    assert HistoryRank(k, hist)[e.eventHash] == |hist[id]|;
    forall f | f in s ensures e.eventHash !in f.parentHashes {
      if e.eventHash in f.parentHashes {
        StoredParent(k, hist, f, e);
      }
    }
  }

  lemma InnerIsNoHead(k: Kernel, hist: History, e: VectorEvent)
    requires LogInv(k.events, hist) && Timely(hist) && e in Log(k) && IsHead(Elems(Log(k)), e)
    ensures e.entityId in hist && hist[e.entityId] != [] && e == Last(hist[e.entityId])
  {
    hide GoodHistory, Log, TimelyHistory;
    LogHoldsIn(k, hist);
    var h := hist[e.entityId];
    var i :| 0 <= i < |h| && h[i] == e;
    if i < |h| - 1 {
      assert h[i + 1] in h && h[i + 1] in Elems(Log(k));
      ChainParent(h, i + 1);
    }
  }

  /** With rising histories, the heads of an engine log are the latest event of every entity, and nothing else. */
  lemma HeadsAreLatest(k: Kernel, hist: History, e: VectorEvent)
    requires Inv(k, hist) && Timely(hist) && e in Log(k)
    ensures IsHead(Elems(Log(k)), e) <==> LatestOf(Log(k), e.entityId) == Some(e)
  {
    hide Inv, LogInv, LogOrdered, Log, IsHead, LatestOf, TimelyHistory;
    LogInvOf(k, hist);
    HistoriesNonEmpty(k, hist);
    LogIsOrdered(k.events, hist);
    LatestIs(k, hist, e.entityId);
    LatestIsLast(k, hist, e.entityId);
    LastIsHead(k, hist, e.entityId);
    if IsHead(Elems(Log(k)), e) { InnerIsNoHead(k, hist, e); }
  }

  // ----- Sequence numbers of new events -----

  /** The sequence number of a vector's next event is one more than the length of its history. */
  lemma SequenceCountsHistory(k: Kernel, hist: History, id: string)
    requires LogInv(k.events, hist) && id in hist && hist[id] != []
    ensures CountOf(Log(k), id, hist[id][0].regionId) == |hist[id]|
  {
    hide Log, LogInv, OrderedHistory, CountOf;
    LogIsOrdered(k.events, hist);
    CountByHistory(k, hist, id, hist[id][0].regionId);
    OrderedParts(k.events, hist, id);
    assert Counted(Elems(hist[id]), id, hist[id][0].regionId) == Elems(hist[id]);
    OrderedNoDup(hist[id]);
    NoDupCount(hist[id]);
  }

  lemma OrderedNoDup(h: seq<VectorEvent>)
    requires SelfOrdered(HistoryKey, h)
    ensures NoDup(h)
  {
    hide Least;
    DistinctHashesKeyed(h);
  }

  // ----- Stored vectors and their events -----

  /** After an admissible run, the dimension of a vector is that of the first event of its story. */
  lemma DimensionInLog(env: Foreign, ops: seq<Op>, id: string)
    requires PrintsHex(env) && AdmissibleRun(env, ops) && id in Run(env, ops).states
    ensures var s := Elems(Log(Run(env, ops)));
      Story(s, id) != [] && |Story(s, id)[0].vectorAfter.components| == |Run(env, ops).states[id].components|
  {
    hide Inv, Run, Log, AdmissibleRun, PrintsHex, GoodVector, ToEventState, IsRegionCreate, LogInv, Story;
    var k := Run(env, ops);
    var hist := RunKeeps(env, ops);
    VectorFacts(k, hist, id);
    StoryIsHistory(k, hist, id);
  }

  /** After an admissible run every stored vector fits an event, so drains charge within one unit per component. */
  lemma AdmissibleDrain(env: Foreign, ops: seq<Op>, id: string, rate: u16)
    requires PrintsHex(env) && AdmissibleRun(env, ops) && id in Run(env, ops).states
    ensures var v := Run(env, ops).states[id]; FitsEvent(v.components) && WithinUnits(v.components, rate)
  {
    hide Inv, Run, AdmissibleRun, PrintsHex, Magnitude, WithinUnits, BelowCap, VectorStory, LogInv, GoodVector,
      FitsEvent;
    var hist := RunKeeps(env, ops);
    VectorFacts(Run(env, ops), hist, id);
    var v := Run(env, ops).states[id];
    StoryFits(id, v, hist[id]);
    FittingBelowCap(v.components, rate);
    DrainFeeBound(v.components, rate);
  }

  lemma StoryFits(id: string, v: Vector, h: seq<VectorEvent>)
    requires h != [] && VectorStory(id, v, h)
    ensures FitsEvent(v.components)
  {
    hide GoodVector, IsRegionCreate;
  }
}
