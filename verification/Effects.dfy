/**
 * What each operation writes and records, field by field: the state it stores, and the event it adds
 * to the log.
 */
module Effects {
  import opened Agreement
  import opened Base
  import opened Errors
  import opened Events
  import opened Invariant
  import opened Lookups
  import opened Machine
  import opened Ordering
  import opened Region
  import opened Bytes
  import opened Serialization
  import opened Stored
  import opened Validation
  import opened Vectors
  import Text

  // ----- The states that are written -----

  predicate AllZero(components: seq<u128>) {
    forall i :: 0 <= i < |components| ==> components[i] == 0
  }

  /** A state with components scores 1000, an empty one 700, against 700. */
  predicate CertifiedAs(c: Certification, components: seq<u128>, checkedAt: u64) {
    c == Certification(true, if AllZero(components) then 700 else 1000, 700, checkedAt, None)
  }

  lemma {:induction false} ZeroMagnitude(components: seq<u128>)
    ensures Magnitude(components) >= 0 && (Magnitude(components) == 0 <==> AllZero(components))
  {
    if components != [] {
      var k := |components| - 1;
      ZeroMagnitude(components[..k]);
      assert AllZero(components) <==> AllZero(components[..k]) && components[k] == 0;
    }
  }

  lemma CertificationIs(v: Vector, checkedAt: u64)
    requires v.components != [] && v.certification.threshold == 700
    ensures CertifyState(v, true, true, checkedAt).Ok? <==> Magnitude(v.components) < U128_LIMIT
    ensures CertifyState(v, true, true, checkedAt).Ok? ==>
      CertifiedAs(CertifyState(v, true, true, checkedAt).value, v.components, checkedAt)
  {
    hide Magnitude, Text.Print;
    ZeroMagnitude(v.components);
  }

  /** Recertification raises the version and changes nothing else but the certification and the time. */
  lemma CertifyWrites(v: Vector, op: Op)
    requires op.CertifyOp? && GoodVector(v)
    ensures NewState(v, op).Ok? <==> Magnitude(v.components) < U128_LIMIT && v.version + 1 < U64_LIMIT
    ensures NewState(v, op).Ok? ==>
      var after := NewState(v, op).value;
      && CertifiedAs(after.certification, v.components, op.checkedAt)
      && after == v.(certification := after.certification, updatedAtMs := op.now, version := v.version + 1)
  {
    hide CertifyState, Magnitude, CertifiedAs;
    CertificationIs(v, op.checkedAt);
  }

  /** What a drain leaves: half of the rate, rounded down, of what 128 bits can hold of the product. */
  function AfterFee(amount: u128, basisPoints: u16): int {
    var product := amount * (basisPoints / 2);
    amount - (if product < 0x1_0000_0000_0000_0000_0000_0000_0000_0000 then product
              else 0xFFFF_FFFF_FFFF_FFFF_FFFF_FFFF_FFFF_FFFF) / 10_000
  }

  lemma DrainLeaves(amounts: seq<u128>, basisPoints: u16, authRatio: u16)
    requires basisPoints <= 10_000 && authRatio >= 700
    ensures DrainOutcome(amounts, basisPoints, authRatio, 700).Ok?
    ensures var remaining := DrainOutcome(amounts, basisPoints, authRatio, 700).value.1;
      |remaining| == |amounts| && forall i :: 0 <= i < |amounts| ==> remaining[i] == AfterFee(amounts[i], basisPoints)
  {
    forall i | 0 <= i < |amounts| ensures Fee(amounts[i], basisPoints / 2) <= amounts[i] {
      FeeAtMost(amounts[i], basisPoints / 2);
    }
  }

  lemma DrainWrites(v: Vector, op: Op)
    requires op.DrainOp? && GoodVector(v)
    ensures op.basisPoints > 10_000 ==> NewState(v, op).Err?
    ensures NewState(v, op).Ok? ==>
      var after := NewState(v, op).value;
      && |after.components| == |v.components|
      && (forall i :: 0 <= i < |v.components| ==> after.components[i] == AfterFee(v.components[i], op.basisPoints))
      && CertifiedAs(after.certification, after.components, op.checkedAt)
      && after == v.(components := after.components, certification := after.certification, updatedAtMs := op.now,
                     version := v.version + 1)
  {
    hide CertifyState, Magnitude, CertifiedAs, DrainOutcome, AfterFee, Fee;
    if op.basisPoints <= 10_000 {
      DrainLeaves(v.components, op.basisPoints, v.certification.authRatio);
      var remaining := DrainOutcome(v.components, op.basisPoints, v.certification.authRatio, 700).value.1;
      CertificationIs(v.(components := remaining), op.checkedAt);
    } else {
      TooManyPoints(v, op.basisPoints);
    }
  }

  lemma TooManyPoints(v: Vector, basisPoints: u16)
    requires basisPoints > 10_000
    ensures DrainOutcome(v.components, basisPoints, v.certification.authRatio, v.certification.threshold).Err?
  {
  }

  /** A projection takes the projected amounts out of the components and opens an escrow with them. */
  lemma ProjectWrites(v: Vector, op: Op)
    requires op.ProjectOp? && GoodVector(v)
    ensures NewState(v, op).Ok? ==>
      var after := NewState(v, op).value;
      && |op.projected| == |v.components| == |after.components|
      && (forall i :: 0 <= i < |v.components| ==> after.components[i] + op.projected[i] == v.components[i])
      && CertifiedAs(after.certification, after.components, op.checkedAt)
      && after.projection == Some(Projection(op.escrowId, op.projected, [], op.now, None, None))
      && after == v.(components := after.components, certification := after.certification,
                     projection := after.projection, status := VectorStatus.Projected,
                     vectorType := VectorType.Projected, updatedAtMs := op.now, version := v.version + 1)
    ensures NewState(v, op).Ok? <==>
      && |op.projected| == |v.components|
      && (forall i :: 0 <= i < |v.components| ==> op.projected[i] <= v.components[i])
      && v.version + 1 < U64_LIMIT && Magnitude(SubEach(v.components, op.projected)) < U128_LIMIT
  {
    hide CertifyState, Magnitude, CertifiedAs;
    if Covers(v.components, op.projected) && v.version + 1 < U64_LIMIT {
      CertificationIs(ProjectOutcome(v, op.projected, op.escrowId, op.now).value, op.checkedAt);
    }
  }

  const GREATEST_U128 := 0xFFFF_FFFF_FFFF_FFFF_FFFF_FFFF_FFFF_FFFF

  /** The sum, or the greatest 128-bit number if that is less. */
  predicate SaturatedSum(r: int, a: int, b: int) {
    r <= a + b && r <= GREATEST_U128 && (r == a + b || r == GREATEST_U128)
  }

  lemma SumSaturates(a: u128, b: u128)
    ensures SaturatedSum(SatAdd(a, b), a, b)
  {
  }

  /** A settlement adds to every place what its escrow is worth and closes the escrow. */
  lemma ReconstructWrites(v: Vector, op: Op)
    requires op.ReconstructOp? && GoodVector(v) && NewState(v, op).Ok?
    ensures v.projection.Some? && |v.projection.value.projected| == |op.outcome.gains| == |op.outcome.losses|
    ensures var p, after := v.projection.value, NewState(v, op).value;
      && after.projection.Some? && after.vectorType == VectorType.Settlement && after.status == Settled
      && var q := after.projection.value;
        && q == Projection(p.escrowId, p.projected, q.settled, p.startedAtMs, Some(op.now), Some(op.outcome.tag))
        && |q.settled| == |p.projected| == |after.components| == |v.components|
        && (forall i :: 0 <= i < |p.projected| ==>
              && SaturatedSum(q.settled[i] as int + op.outcome.losses[i], p.projected[i], op.outcome.gains[i])
              && SaturatedSum(after.components[i], v.components[i], q.settled[i]))
        && CertifiedAs(after.certification, after.components, op.checkedAt)
        && after == v.(components := after.components, certification := after.certification, projection := Some(q),
                       status := Settled, vectorType := VectorType.Settlement, updatedAtMs := op.now,
                       version := v.version + 1)
  {
    hide CertifyState, Magnitude, CertifiedAs, SaturatedSum, SatAdd;
    var p, o := v.projection.value, op.outcome;
    var settled := ReconstructOutcome(v, o, op.now).value;
    CertificationIs(settled, op.checkedAt);
    forall i | 0 <= i < |p.projected|
      ensures SaturatedSum(SatAdd(p.projected[i], o.gains[i]), p.projected[i], o.gains[i])
    {
      SumSaturates(p.projected[i], o.gains[i]);
    }
    var nets := Nets(p.projected, o.gains, o.losses);
    forall i | 0 <= i < |p.projected|
      ensures SaturatedSum(SatAdd(v.components[i], nets[i]), v.components[i], nets[i])
    {
      SumSaturates(v.components[i], nets[i]);
    }
  }

  /** A transfer subtracts on one side, adds with saturation on the other, and makes both standard. */
  lemma TransferWritesStates(from: Vector, to: Vector, op: Op)
    requires op.TransferOp? && GoodVector(from) && GoodVector(to)
    ensures var r := TransferStates(from, to, op.amount, op.fromCheckedAt, op.toCheckedAt);
      r.Ok? ==>
        var (sender, receiver) := r.value;
        && |op.amount| == |from.components| == |to.components| == |sender.components| == |receiver.components|
        && (forall i :: 0 <= i < |op.amount| ==>
              && sender.components[i] + op.amount[i] == from.components[i]
              && SaturatedSum(receiver.components[i], to.components[i], op.amount[i]))
        && CertifiedAs(sender.certification, sender.components, op.fromCheckedAt)
        && CertifiedAs(receiver.certification, receiver.components, op.toCheckedAt)
        && sender == from.(components := sender.components, certification := sender.certification,
                           vectorType := VectorType.Standard)
        && receiver == to.(components := receiver.components, certification := receiver.certification,
                           vectorType := VectorType.Standard)
  {
    hide CertifyState, Magnitude, CertifiedAs, SaturatedSum, SatAdd;
    if TransferStates(from, to, op.amount, op.fromCheckedAt, op.toCheckedAt).Ok? {
      var (sender, receiver) := TransferOutcome(from, to, op.amount).value;
      CertificationIs(sender, op.fromCheckedAt);
      CertificationIs(receiver, op.toCheckedAt);
      forall i | 0 <= i < |op.amount|
        ensures SaturatedSum(SatAdd(to.components[i], op.amount[i]), to.components[i], op.amount[i])
      {
        SumSaturates(to.components[i], op.amount[i]);
      }
    }
  }

  /** The vector an origin stores. */
  lemma OriginWritesState(env: Foreign, r: OriginRequest, now: u64, checkedAt: u64)
    requires OriginState(env, r, now, checkedAt).Ok?
    ensures var v := OriginState(env, r, now, checkedAt).value;
      && CertifiedAs(v.certification, r.components, checkedAt)
      && v == Vector("v.kernelx/VectorStateV1", r.vectorId, r.ownerPubkey, r.spaceId, VectorType.Origin, Active,
                     r.components, map[], v.certification, None,
                     Some(OriginProof(r.seed, r.nonce, r.difficulty, env.blake3(Utf8(r.seed) + Word(r.nonce)))),
                     1, now, now)
  {
    hide CertifyState, Magnitude, CertifiedAs, VerifyOrigin, Utf8, Word;
    CertificationIs(CreateOriginVector(env, r, now).value, checkedAt);
  }

  // ----- Operations that fail their own checks -----

  /** What an update of a known vector answers when its own checks fail; a counter that overflows panics. */
  lemma UpdateErrs(v: Vector, op: Op)
    requires op.CertifyOp? || op.DrainOp? || op.ProjectOp? || op.ReconstructOp?
    requires GoodVector(v) && NewState(v, op).Err?
    ensures NewState(v, op).error ==
      if op.DrainOp? && op.basisPoints > 10_000 then Rejected
      else if op.ProjectOp? && |op.projected| != |v.components| then DimensionMismatch
      else if op.ProjectOp? && exists i :: 0 <= i < |v.components| && op.projected[i] > v.components[i] then
        InsufficientBalance
      else if op.ReconstructOp? && v.projection.None? then SettlementRejected("missing projection")
      else if op.ReconstructOp?
        && !(|v.projection.value.projected| == |op.outcome.gains| == |op.outcome.losses|) then DimensionMismatch
      else if op.ReconstructOp? && ExceedsEscrow(v.projection.value.projected, op.outcome) then
        SettlementRejected("loss exceeds projected value")
      else Panicked
  {
    hide Magnitude, AuthRatio, Text.Print, Restored, Nets, Fees;
    if op.ReconstructOp? && v.projection.Some? { EscrowExceeded(v.projection.value.projected, op.outcome); }
  }

  /** Some loss is more than principal and gain, as far as 128 bits hold them. */
  predicate ExceedsEscrow(principal: seq<u128>, o: Outcome) {
    exists i :: 0 <= i < |principal| && i < |o.gains| && i < |o.losses|
      && o.losses[i] > (if principal[i] + o.gains[i] > GREATEST_U128 then GREATEST_U128 else principal[i] + o.gains[i])
  }

  lemma EscrowExceeded(principal: seq<u128>, o: Outcome)
    ensures |principal| == |o.gains| == |o.losses| ==>
      (ExceedsEscrow(principal, o) <==> !LossesCovered(principal, o.gains, o.losses))
  {
  }

  lemma TransferErrs(from: Vector, to: Vector, op: Op)
    requires op.TransferOp? && GoodVector(from) && GoodVector(to)
    requires TransferStates(from, to, op.amount, op.fromCheckedAt, op.toCheckedAt).Err?
    ensures TransferStates(from, to, op.amount, op.fromCheckedAt, op.toCheckedAt).error ==
      if !(|from.components| == |to.components| == |op.amount|) then DimensionMismatch
      else if exists i :: 0 <= i < |op.amount| && op.amount[i] > from.components[i] then InsufficientBalance
      else Panicked
  {
    hide Magnitude, AuthRatio, Text.Print;
  }

  /** Operations on vectors that are not stored answer so, and change nothing. */
  lemma UnknownErrs(env: Foreign, k: Kernel, op: Op)
    requires match op
      case OriginOp(_, _, _) => false
      case RegionOp(_, _, _) => false
      case TransferOp(fromId, toId, _, _, _, _, _) => fromId !in k.states || toId !in k.states
      case CertifyOp(id, _, _) => id !in k.states
      case DrainOp(id, _, _, _) => id !in k.states
      case ProjectOp(id, _, _, _, _) => id !in k.states
      case ReconstructOp(id, _, _, _) => id !in k.states
    ensures Step(env, k, op) == (k, Err(VectorNotFound))
  {
    hide NewState, TransferStates, EmitUpdate, RecordTransfer;
  }

  // ----- The events that are recorded -----

  /** Every event is stored under its own hash. */
  ghost predicate Hashed(k: Kernel) {
    forall h :: h in k.events ==> k.events[h].eventHash == h
  }

  /** The event form of a vector: its components, its owner, the name of its type, and no metadata. */
  ghost predicate Shows(s: VectorState, v: Vector) {
    s.components == v.components && s.ownerPublicKey == v.ownerPubkey && s.metadata == map[]
    && match v.vectorType {
      case Standard => s.typeTag == "Standard"
      case Origin => s.typeTag == "Origin"
      case Projected => s.typeTag == "Projected"
      case Escrow => s.typeTag == "Escrow"
      case Settlement => s.typeTag == "Settlement"
      case Locked => s.typeTag == "Locked"
    }
  }

  /** The one parent is the entity's last event by clock, time and hash; a first event has none. */
  ghost predicate NamesLatest(k: Kernel, id: string, parents: seq<string>) {
    if forall e :: e in Log(k) ==> e.entityId != id then parents == []
    else exists m :: m in Log(k) && IsLastOf(k, id, m) && parents == [m.eventHash]
  }

  ghost predicate IsLastOf(k: Kernel, id: string, m: VectorEvent) {
    m.entityId == id && forall e :: e in Log(k) && e.entityId == id ==> LoggedBefore(e, m)
  }

  /** What every event of a vector carries, whatever the operation. */
  ghost predicate Describes(env: Foreign, e: VectorEvent, v: Vector, time: u64) {
    && e.entityId == v.vectorId && e.regionId == v.spaceId && e.actorPublicKey == v.ownerPubkey
    && Shows(e.vectorAfter, v) && e.logicalClock == v.version && e.timestamp == time
    && e.authRatio == (if AllZero(v.components) then 0x3FE6_6666_6666_6666 else 0x3FF0_0000_0000_0000)
    && e.certified && e.signature == "" && IsSealed(env, e)
  }

  /** The event is numbered among the entity's events and named by entity, region, operation, clock and number. */
  ghost predicate NamedAs(k: Kernel, e: VectorEvent, operation: string) {
    var number := |Counted(Elems(Log(k)), e.entityId, e.regionId)| + 1;
    e.eventId == e.entityId + "::" + e.regionId + "::" + operation + "::" + Text.Print(e.logicalClock) + "::"
      + Text.Print(number)
  }

  /** The event of a change of a known vector. */
  ghost predicate IsChange(env: Foreign, k: Kernel, e: VectorEvent, before: Vector, after: Vector, time: u64) {
    && Describes(env, e, after, time) && Shows(e.vectorBefore, before)
    && NamesLatest(k, after.vectorId, e.parentHashes)
  }

  lemma FormShows(v: Vector)
    requires ToEventState(v).Ok? && v.typeMetadata == map[]
    ensures Shows(ToEventState(v).value, v)
  {
  }

  lemma LatestNamed(k: Kernel, id: string)
    requires Hashed(k)
    ensures NamesLatest(k, id, ParentsFor(Log(k), id))
  {
    hide Log, LatestOf, EventLeq, LoggedBefore, EventsAscend;
    LogHolds(k);
    LatestOfIs(Log(k), id);
    if LatestOf(Log(k), id).Some? {
      var m := LatestOf(Log(k), id).value;
      assert m in Elems(Log(k));
      forall e | e in Log(k) && e.entityId == id ensures LoggedBefore(e, m) {
        assert e in Elems(Log(k));
        LogOrderMeans(e, m);
      }
    }
  }

  lemma NumberIs(k: Kernel, id: string, region: string)
    requires Hashed(k) && NextSequence(Log(k), id, region).Ok?
    ensures NextSequence(Log(k), id, region).value == |Counted(Elems(Log(k)), id, region)| + 1
  {
    hide Log, Counted, CountOf;
    LogHolds(k);
    DistinctHashesKeyed(Log(k));
    CountOfIs(Log(k), id, region);
  }

  lemma EmitDescribes(env: Foreign, k: Kernel, before: Option<Vector>, after: Vector, op: OperationType, clock: u64,
                      time: u64, parents: seq<string>, checkedAt: u64)
    returns (e: VectorEvent)
    requires Emit(env, k, before, after, op, clock, time, parents).1.Ok? && Hashed(k)
    requires after.typeMetadata == map[] && CertifiedAs(after.certification, after.components, checkedAt)
    requires clock == after.version
    ensures Emit(env, k, before, after, op, clock, time, parents).0 == k.(events := k.events[e.eventHash := e])
    ensures e.eventHash !in k.events
    ensures BeforeState(before, after).Ok? && e.vectorBefore == BeforeState(before, after).value
    ensures Describes(env, e, after, time) && e.operation == op && e.parentHashes == parents
    ensures NamedAs(k, e, CanonicalName(op))
  {
    hide Log, NextSequence, CheckEvent, PayloadBytes, EventBytes, ToEventState, Shows, CanonicalName, Counted, AllZero;
    e := EmitAdds(env, k, before, after, op, clock, time, parents);
    NumberIs(k, e.entityId, e.regionId);
    FormShows(after);
    DraftRatio(env, k, before, after, op, clock, time, parents, e);
  }

  lemma DraftRatio(env: Foreign, k: Kernel, before: Option<Vector>, after: Vector, op: OperationType, clock: u64,
                   time: u64, parents: seq<string>, e: VectorEvent)
    requires Emit(env, k, before, after, op, clock, time, parents).1.Ok? && e.eventHash !in k.events
    requires Emit(env, k, before, after, op, clock, time, parents).0 == k.(events := k.events[e.eventHash := e])
    ensures e.authRatio == RatioBits(after.certification.authRatio) && e.certified == after.certification.certified
    ensures IsSealed(env, e)
  {
    hide Log, NextSequence, CheckEvent, PayloadBytes, EventBytes, ToEventState, EventId, RatioBits;
    var draft := DraftTransition(Log(k), before, after, op, clock, time, parents).value;
    var f := Sealed(env, draft);
    var events := k.events[e.eventHash := e];
    assert events == k.events[f.eventHash := f];
    assert e.eventHash in events && f.eventHash in events;
    assert e == f;
    SealedIsSealed(env, draft);
  }

  /** The log has grown by one event. */
  ghost predicate Adds(k: Kernel, k': Kernel, e: VectorEvent) {
    k'.events == k.events[e.eventHash := e] && e.eventHash !in k.events
  }

  lemma ChangeRecords(env: Foreign, k: Kernel, before: Vector, after: Vector, op: OperationType, time: u64,
                      checkedAt: u64)
    returns (e: VectorEvent)
    requires Hashed(k) && EmitUpdate(env, k, before, after, op, time).1.Ok?
    requires before.typeMetadata == map[] && after.typeMetadata == map[]
    requires CertifiedAs(after.certification, after.components, checkedAt)
    ensures EmitUpdate(env, k, before, after, op, time).0.states == k.states
    ensures Adds(k, EmitUpdate(env, k, before, after, op, time).0, e)
    ensures IsChange(env, k, e, before, after, time) && e.operation == op && NamedAs(k, e, CanonicalName(op))
  {
    hide Log, Emit, Describes, NamedAs, ToEventState, CertifiedAs, Shows, ParentsFor, NamesLatest;
    e := EmitDescribes(env, k, Some(before), after, op, after.version, time, ParentsFor(Log(k), after.vectorId),
      checkedAt);
    FormShows(before);
    LatestNamed(k, after.vectorId);
  }

  /** What a successful update leaves: the new state, and one event of it. */
  ghost predicate Updates(env: Foreign, k: Kernel, op: Op, e: VectorEvent, operation: string)
    requires op.CertifyOp? || op.DrainOp? || op.ProjectOp? || op.ReconstructOp?
  {
    && op.id in k.states && NewState(k.states[op.id], op).Ok?
    && var after := NewState(k.states[op.id], op).value;
      && Step(env, k, op).0.states == k.states[op.id := after] && Adds(k, Step(env, k, op).0, e)
      && IsChange(env, k, e, k.states[op.id], after, op.now) && NamedAs(k, e, operation)
  }

  /** The last certification of what an update writes. */
  lemma UpdateCertified(v: Vector, op: Op)
    requires op.CertifyOp? || op.DrainOp? || op.ProjectOp? || op.ReconstructOp?
    requires GoodVector(v) && NewState(v, op).Ok?
    ensures var after := NewState(v, op).value;
      && CertifiedAs(after.certification, after.components, op.checkedAt) && after.updatedAtMs == op.now
      && after.vectorId == v.vectorId && after.typeMetadata == map[] == v.typeMetadata
  {
    hide NewState, CertifiedAs, SaturatedSum, AfterFee, Magnitude;
    match op
    case CertifyOp(_, _, _) => CertifyWrites(v, op);
    case DrainOp(_, _, _, _) => DrainWrites(v, op);
    case ProjectOp(_, _, _, _, _) => ProjectWrites(v, op);
    case ReconstructOp(_, _, _, _) => ReconstructWrites(v, op);
  }

  lemma UpdateRecords(env: Foreign, k: Kernel, op: Op) returns (e: VectorEvent)
    requires op.CertifyOp? || op.DrainOp? || op.ProjectOp? || op.ReconstructOp?
    requires AllGood(k) && Hashed(k) && UpdateStep(env, k, op).1.Ok?
    ensures Updates(env, k, op, e, CanonicalName(EventKind(op))) && e.operation == EventKind(op)
  {
    hide NewState, UpdateStep, EmitUpdate, GoodVector, IsChange, NamedAs, CertifiedAs, CanonicalName;
    UpdateStepIs(env, k, op);
    var v := k.states[op.id];
    var after := NewState(v, op).value;
    UpdateCertified(v, op);
    PlainGood(v);
    var stored := Put(k, after);
    e := ChangeRecords(env, stored, v, after, EventKind(op), after.updatedAtMs, op.checkedAt);
    SameLogSame(env, k, stored, e, v, after, op.now, CanonicalName(EventKind(op)));
  }

  lemma PlainGood(v: Vector)
    requires GoodVector(v)
    ensures v.typeMetadata == map[]
  {
    hide ValidateState;
  }

  lemma SameLogSame(env: Foreign, k: Kernel, stored: Kernel, e: VectorEvent, before: Vector, after: Vector, time: u64,
                    operation: string)
    requires stored.events == k.events
    requires IsChange(env, stored, e, before, after, time) && NamedAs(stored, e, operation)
    ensures IsChange(env, k, e, before, after, time) && NamedAs(k, e, operation)
  {
    hide Log, Describes, Shows, Counted, LoggedBefore;
    SameEventsSameLog(k, stored);
  }

  /** A certification is recorded as CERTIFY. */
  lemma CertifyRecords(env: Foreign, k: Kernel, op: Op) returns (e: VectorEvent)
    requires op.CertifyOp? && AllGood(k) && Hashed(k) && Step(env, k, op).1.Ok?
    ensures Updates(env, k, op, e, "CERTIFY") && e.operation == OperationType.Certify
  {
    hide Updates, AllGood, Hashed, UpdateStep;
    e := UpdateRecords(env, k, op);
  }

  /** A drain is recorded as DRAIN. */
  lemma DrainRecords(env: Foreign, k: Kernel, op: Op) returns (e: VectorEvent)
    requires op.DrainOp? && AllGood(k) && Hashed(k) && Step(env, k, op).1.Ok?
    ensures Updates(env, k, op, e, "DRAIN") && e.operation == OperationType.Drain
  {
    hide Updates, AllGood, Hashed, UpdateStep;
    e := UpdateRecords(env, k, op);
  }

  /** A projection is recorded as PROJECT. */
  lemma ProjectRecords(env: Foreign, k: Kernel, op: Op) returns (e: VectorEvent)
    requires op.ProjectOp? && AllGood(k) && Hashed(k) && Step(env, k, op).1.Ok?
    ensures Updates(env, k, op, e, "PROJECT") && e.operation == OperationType.Project
  {
    hide Updates, AllGood, Hashed, UpdateStep;
    e := UpdateRecords(env, k, op);
  }

  /** A reconstruction is recorded as RECONSTRUCT. */
  lemma ReconstructRecords(env: Foreign, k: Kernel, op: Op) returns (e: VectorEvent)
    requires op.ReconstructOp? && AllGood(k) && Hashed(k) && Step(env, k, op).1.Ok?
    ensures Updates(env, k, op, e, "RECONSTRUCT") && e.operation == OperationType.Reconstruct
  {
    hide Updates, AllGood, Hashed, UpdateStep;
    e := UpdateRecords(env, k, op);
  }

  /** A transfer is recorded as two TRANSFER events, the sender's before the receiver's. */
  lemma TransferRecords(env: Foreign, k: Kernel, op: Op) returns (e: VectorEvent, f: VectorEvent)
    requires op.TransferOp? && AllGood(k) && Hashed(k) && Step(env, k, op).1.Ok?
    ensures TransferWrites(k, op)
    ensures var k', sides := Step(env, k, op).0, Sides(k, op);
      var mid := k.(events := k.events[e.eventHash := e]);
      && k'.states == k.states[op.fromId := sides.0][op.toId := sides.1]
      && e.eventHash !in k.events && Adds(mid, k', f)
      && IsChange(env, k, e, k.states[op.fromId], sides.0, op.sentAt) && NamedAs(k, e, "TRANSFER")
      && IsChange(env, mid, f, k.states[op.toId], sides.1, op.receivedAt) && NamedAs(mid, f, "TRANSFER")
      && e.operation == OperationType.Transfer && f.operation == OperationType.Transfer
  {
    hide TransferStates, TransferStep, EmitUpdate, GoodVector, IsChange, NamedAs, CertifiedAs, SaturatedSum, Log;
    TransferStepIs(env, k, op);
    var from, to := k.states[op.fromId], k.states[op.toId];
    TransferStatesSucceed(from, to, op);
    TransferWritesStates(from, to, op);
    PlainGood(from);
    PlainGood(to);
    var sides := Sides(k, op);
    var stored := Put(Put(k, sides.0), sides.1);
    e := ChangeRecords(env, stored, from, sides.0, OperationType.Transfer, op.sentAt, op.fromCheckedAt);
    SameLogSame(env, k, stored, e, from, sides.0, op.sentAt, "TRANSFER");
    var sent := EmitUpdate(env, stored, from, sides.0, OperationType.Transfer, op.sentAt).0;
    HashedNext(stored, sent, e);
    f := ChangeRecords(env, sent, to, sides.1, OperationType.Transfer, op.receivedAt, op.toCheckedAt);
    SameLogSame(env, k.(events := sent.events), sent, f, to, sides.1, op.receivedAt, "TRANSFER");
  }

  lemma HashedNext(k: Kernel, k': Kernel, e: VectorEvent)
    requires Hashed(k) && Adds(k, k', e)
    ensures Hashed(k')
  {
  }

  /** An origin is recorded as ORIGIN_CREATE, as a root that starts from zeros. */
  lemma OriginRecords(env: Foreign, k: Kernel, op: Op) returns (e: VectorEvent)
    requires op.OriginOp? && Hashed(k) && Step(env, k, op).1.Ok?
    ensures OriginState(env, op.request, op.now, op.checkedAt).Ok?
    ensures var v := OriginState(env, op.request, op.now, op.checkedAt).value;
      && Step(env, k, op).0.states == k.states[op.request.vectorId := v] && Adds(k, Step(env, k, op).0, e)
      && Describes(env, e, v, op.now) && NamedAs(k, e, "ORIGIN_CREATE") && e.operation == OperationType.OriginCreate
      && e.parentHashes == [] && AllZero(e.vectorBefore.components)
      && e.vectorBefore == e.vectorAfter.(components := e.vectorBefore.components)
      && |e.vectorBefore.components| == |op.request.components|
  {
    hide OriginState, Emit, Describes, NamedAs, CertifiedAs, ToEventState, Log, Utf8, Word;
    var r := op.request;
    var v := OriginState(env, r, op.now, op.checkedAt).value;
    OriginWritesState(env, r, op.now, op.checkedAt);
    var stored := Put(k, v);
    e := EmitDescribes(env, stored, None, v, OperationType.OriginCreate, v.version, v.createdAtMs, [], op.checkedAt);
    OriginForm(env, e, v, op.now);
    SameLogNamed(k, stored, e, "ORIGIN_CREATE");
    EmitKeepsStates(env, stored, None, v, OperationType.OriginCreate, v.version, v.createdAtMs, []);
  }

  lemma OriginForm(env: Foreign, e: VectorEvent, v: Vector, now: u64)
    requires Describes(env, e, v, now) && v.vectorType == VectorType.Origin
    requires e.vectorBefore == BeforeState(None, v).value
    ensures AllZero(e.vectorBefore.components) && |e.vectorBefore.components| == |v.components|
    ensures e.vectorBefore == e.vectorAfter.(components := e.vectorBefore.components)
  {
    hide IsSealed;
  }

  lemma SameLogNamed(k: Kernel, stored: Kernel, e: VectorEvent, operation: string)
    requires stored.events == k.events && NamedAs(stored, e, operation)
    ensures NamedAs(k, e, operation)
  {
    hide Log, Counted;
    SameEventsSameLog(k, stored);
  }

  // ----- Region creations -----

  /** One more than the greatest clock in the log, unless that is the greatest of all; zero for an empty log. */
  lemma NextClockIs(k: Kernel)
    requires Hashed(k)
    ensures if k.events == map[] then NextClock(Log(k)) == 0
            else exists h :: h in k.events && IsLatestClock(k, k.events[h].logicalClock)
    ensures forall c :: IsLatestClock(k, c) ==> NextClock(Log(k)) == if c == 0xFFFF_FFFF_FFFF_FFFF then c else c + 1
  {
    hide Log;
    LogHolds(k);
    var log := Log(k);
    assert forall h :: h in k.events ==> k.events[h] in log;
    if log != [] {
      var last := log[|log| - 1];
      assert last in log && last.eventHash in k.events;
      forall h | h in k.events ensures k.events[h].logicalClock <= last.logicalClock {
        assert k.events[h] in log;
        var i :| 0 <= i < |log| && log[i] == k.events[h];
        if i < |log| - 1 { assert EventLeq(LogKey, log[i], last); }
      }
      assert IsLatestClock(k, last.logicalClock);
    }
  }

  ghost predicate IsLatestClock(k: Kernel, c: int) {
    (exists h :: h in k.events && k.events[h].logicalClock == c)
    && forall h :: h in k.events ==> k.events[h].logicalClock <= c
  }

  const REQUEST_KEYS: set<string> := {
    "region_kind", "region_name", "normalized_name", "region_prefix", "section", "suggested_title", "visibility",
    "creator_public_key", "trigger_event_hash", "creation_proof_hash", "access_key_hash", "initial_auth_ratio_bps",
    "core_registry", "default_auth_ratio"}

  /** The names and the constants of a creation. */
  ghost predicate CarriesNames(md: map<string, string>, r: RegionRequest, actor: string)
    requires REQUEST_KEYS <= md.Keys
  {
    && md["region_kind"] == "region" && md["region_name"] == r.regionName
    && md["normalized_name"] == NormalizedName(r.regionName)
    && md["region_prefix"] == OrEmpty(NormalizedPrefix(r.regionPrefix)) && md["section"] == Text.Print(r.section)
    && md["suggested_title"] == OrEmpty(r.suggestedTitle) && md["creator_public_key"] == actor
  }

  /** The access rules and the proofs of a creation. */
  ghost predicate CarriesRules(env: Foreign, md: map<string, string>, r: RegionRequest)
    requires REQUEST_KEYS <= md.Keys
  {
    && md["visibility"] == (match r.visibility case Public => "public" case Private => "private")
    && md["trigger_event_hash"] == r.triggerEventHash
    && md["creation_proof_hash"] == env.blake3(Utf8(r.creationProof))
    && md["access_key_hash"] == (match r.accessKey case None => "" case Some(key) => env.blake3(Utf8(key)))
    && md["initial_auth_ratio_bps"] == "1000" && md["core_registry"] == "core" && md["default_auth_ratio"] == "1.0"
  }

  /** The metadata of a creation: the request's fields under fixed keys, and the caller's behind `meta:`. */
  ghost predicate CarriesRequest(env: Foreign, md: map<string, string>, r: RegionRequest, actor: string) {
    && md.Keys == REQUEST_KEYS + (set key | key in r.metadata :: "meta:" + key)
    && CarriesNames(md, r, actor) && CarriesRules(env, md, r)
    && forall key :: key in r.metadata ==> "meta:" + key in md && md["meta:" + key] == r.metadata[key]
  }

  lemma RequestKeys(env: Foreign, r: RegionRequest, actor: string)
    ensures RequestMetadata(env, r, actor).Keys == REQUEST_KEYS
  {
    hide Utf8, NormalizedName, NormalizedPrefix, Text.Print, VisibilityName, HashHex, OrEmpty;
  }

  lemma RequestNames(env: Foreign, r: RegionRequest, actor: string)
    requires REQUEST_KEYS <= RequestMetadata(env, r, actor).Keys
    ensures CarriesNames(RequestMetadata(env, r, actor), r, actor)
  {
    hide Utf8, NormalizedName, NormalizedPrefix, Text.Print, VisibilityName, HashHex, OrEmpty;
  }

  lemma RequestRules(env: Foreign, r: RegionRequest, actor: string)
    requires REQUEST_KEYS <= RequestMetadata(env, r, actor).Keys
    ensures CarriesRules(env, RequestMetadata(env, r, actor), r)
  {
    hide Utf8, NormalizedName, NormalizedPrefix, Text.Print, OrEmpty;
    PrintThousand();
  }

  lemma CreationCarries(env: Foreign, r: RegionRequest, actor: string)
    ensures CarriesRequest(env, GenesisMetadata(env, r, actor), r, actor)
  {
    hide RequestMetadata, Utf8, NormalizedName, NormalizedPrefix, Text.Print, OrEmpty;
    var base, own := RequestMetadata(env, r, actor), Prefixed(r.metadata);
    RequestKeys(env, r, actor);
    RequestNames(env, r, actor);
    RequestRules(env, r, actor);
    forall key | key in own ensures key !in base {
      if key in base { BuiltInKeys(env, r, actor, key); }
    }
    assert own.Keys == set key | key in r.metadata :: "meta:" + key;
    forall key | key in r.metadata ensures "meta:" + key in own && own["meta:" + key] == r.metadata[key] {
      assert ("meta:" + key)[5..] == key;
    }
    SameRequestFields(env, base, base + own, r, actor);
  }

  lemma SameRequestFields(env: Foreign, base: map<string, string>, md: map<string, string>, r: RegionRequest,
                          actor: string)
    requires REQUEST_KEYS <= base.Keys && forall key :: key in base ==> key in md && md[key] == base[key]
    requires CarriesNames(base, r, actor) && CarriesRules(env, base, r)
    ensures CarriesNames(md, r, actor) && CarriesRules(env, md, r)
  {
    hide Utf8, NormalizedName, NormalizedPrefix, Text.Print, OrEmpty;
  }

  lemma PrintThousand()
    ensures Text.Print(1000) == "1000"
  {
    assert Text.Print(1) == "1";
    assert Text.Print(10) == "10";
    assert Text.Print(100) == "100";
  }

  /** The id of a region: its prefix or RGN, 24 characters of the digest of the request, and its number. */
  lemma RegionIdIs(env: Foreign, r: RegionRequest, actor: string)
    ensures var digest := env.blake3(env.seedJson(r, actor));
      RegionId(env, r, actor, 1) ==
        (match NormalizedPrefix(r.regionPrefix) case None => "RGN" case Some(p) => p)
        + "::rgn_" + (if |digest| <= 24 then digest else digest[..24]) + "::1"
  {
    hide NormalizedPrefix;
    assert Text.Print(1) == "1";
    var digest := env.blake3(env.seedJson(r, actor));
    assert |digest| == 24 ==> digest[..24] == digest;
  }

  /** What a region creation requires, and the one event that records it. */
  lemma RegionRecords(env: Foreign, k: Kernel, op: Op) returns (e: VectorEvent)
    requires op.RegionOp? && Step(env, k, op).1.Ok?
    ensures ValidateRequest(op.region).Ok? && env.requestSigned(op.actor, op.region) && !Text.Blank(op.actor)
    ensures RegionsListable(Log(k)) && !RegionTaken(Log(k), op.region.regionName, op.region.regionPrefix)
    ensures Step(env, k, op).0.states == k.states && Adds(k, Step(env, k, op).0, e) && IsSealed(env, e)
    ensures e.operation.Other? && e.operation.name == "REGION_CREATE" && e.parentHashes == []
    ensures e.entityId == e.regionId == RegionId(env, op.region, op.actor, 1) && e.actorPublicKey == op.actor
    ensures e.logicalClock == NextClock(Log(k)) && e.timestamp == op.now && e.signature == op.region.requestSignature
    ensures e.eventId == e.entityId + "::" + e.entityId + "::OTHER::" + Text.Print(e.logicalClock) + "::1"
    ensures e.authRatio == 0x3FF0_0000_0000_0000 && e.certified
    ensures e.vectorBefore == VectorState([], "", "region", map[])
    ensures e.vectorAfter == VectorState([], "", "region", e.vectorAfter.metadata)
    ensures CarriesRequest(env, e.vectorAfter.metadata, op.region, op.actor)
  {
    hide RegionId, Log, CarriesRequest, ValidateRequest, GenesisMetadata, RegionTaken, RegionsListable, RegionStep,
      NextClock;
    RegionStepIs(env, k, op);
    RegionRequires(env, k, op.region, op.actor, op.now);
    e := RegionAdds(env, k, op.region, op.actor, op.now);
    CreationCarries(env, op.region, op.actor);
    DraftIsRegion(env, op.region, op.actor, NextClock(Log(k)), op.now);
    SealedIsSealed(env, GenesisDraft(env, op.region, op.actor, NextClock(Log(k)), op.now, 1));
  }

  lemma RegionRequires(env: Foreign, k: Kernel, r: RegionRequest, actor: string, now: u64)
    requires RegionStep(env, k, r, actor, now).1.Ok?
    ensures ValidateRequest(r).Ok? && env.requestSigned(actor, r) && !Text.Blank(actor)
    ensures RegionsListable(Log(k)) && !RegionTaken(Log(k), r.regionName, r.regionPrefix)
  {
    hide ValidateRequest, RegionsListable, RegionTaken, Admit, Log, Text.Trim;
    Text.BlankIff(actor);
  }

  lemma DraftIsRegion(env: Foreign, r: RegionRequest, actor: string, clock: u64, now: u64)
    ensures var e := Sealed(env, GenesisDraft(env, r, actor, clock, now, 1));
      && e.regionId == RegionId(env, r, actor, 1) && e.actorPublicKey == actor && e.signature == r.requestSignature
      && e.eventId == e.entityId + "::" + e.entityId + "::OTHER::" + Text.Print(e.logicalClock) + "::1"
      && e.authRatio == 0x3FF0_0000_0000_0000 && e.certified
      && e.vectorBefore == VectorState([], "", "region", map[])
      && e.vectorAfter == VectorState([], "", "region", GenesisMetadata(env, r, actor))
  {
    hide RegionId, GenesisMetadata, PayloadBytes, EventBytes;
    assert Text.Print(1) == "1";
  }

  /** An event is admitted exactly when it validates, its parents are stored, and its names are new. */
  lemma AdmittedIff(env: Foreign, k: Kernel, e: VectorEvent)
    ensures Admit(env, k, e).1.Ok? <==>
      && CheckEvent(env, e).Ok? && (forall p :: p in e.parentHashes ==> p in k.events)
      && e.eventId != "" && e.eventHash != "" && e.eventHash !in k.events
      && forall h :: h in k.events ==> k.events[h].eventId != e.eventId
    ensures Admit(env, k, e).0 == if Admit(env, k, e).1.Ok? then k.(events := k.events[e.eventHash := e]) else k
  {
    hide CheckEvent;
  }

  // ----- Every run -----

  lemma StepKeepsHashed(env: Foreign, k: Kernel, op: Op)
    requires AllGood(k) && Hashed(k)
    ensures Hashed(Step(env, k, op).0)
  {
    hide AllGood, Hashed, Step, RegionStep, AddsNoRegion;
    if op.RegionOp? {
      RegionStepIs(env, k, op);
      RegionKeepsHashed(env, k, op.region, op.actor, op.now);
    } else {
      OthersAddNoRegion(env, k, op);
      NoRegionKeepsHashed(k, Step(env, k, op).0);
    }
  }

  lemma RegionKeepsHashed(env: Foreign, k: Kernel, request: RegionRequest, actor: string, now: u64)
    requires Hashed(k)
    ensures Hashed(RegionStep(env, k, request, actor, now).0)
  {
    hide RegionStep, RegionId, Sealed, GenesisDraft, Log;
    if RegionStep(env, k, request, actor, now).1.Ok? {
      var e := RegionAdds(env, k, request, actor, now);
    } else {
      RefusedRegionUnchanged(env, k, request, actor, now);
    }
  }

  lemma NoRegionKeepsHashed(k: Kernel, k': Kernel)
    requires Hashed(k) && AddsNoRegion(k, k')
    ensures Hashed(k')
  {
    hide IsRegionCreate;
  }

  /** So the lemmas above hold along every run. */
  lemma {:induction false} RunHashed(env: Foreign, ops: seq<Op>)
    ensures AllGood(Run(env, ops)) && Hashed(Run(env, ops))
  {
    hide AllGood, Hashed, Step;
    RunStoresGood(env, ops);
    if ops == [] {
      EmptyHashed();
    } else {
      RunHashed(env, ops[..|ops| - 1]);
      StepKeepsHashed(env, Run(env, ops[..|ops| - 1]), ops[|ops| - 1]);
    }
  }

  lemma EmptyHashed()
    ensures Hashed(EMPTY)
  {
  }
}
