/**
 * Vector states and the arithmetic of the operations on them (src/state.rs, src/certification.rs,
 * src/transfer.rs, src/drain.rs, src/projection.rs, src/reconstruction.rs, src/consensus.rs).
 */
module Vectors {
  import opened Base
  import opened Errors
  import opened Events
  import Text

  const STATE_SCHEMA := "v.kernelx/VectorStateV1"

  datatype VectorType = Standard | Origin | Projected | Escrow | Settlement | Locked
  datatype VectorStatus = Active | Projected | Escrowed | Settled | Archived

  datatype Certification = Certification(
    certified: bool,
    authRatio: u16,
    threshold: u16,
    lastCheckedAtMs: u64,
    reason: Option<string>)

  datatype Projection = Projection(
    escrowId: string,
    projected: seq<u128>,
    settled: seq<u128>,
    startedAtMs: u64,
    settlementAtMs: Option<u64>,
    outcomeTag: Option<string>)

  datatype OriginProof = OriginProof(seed: string, nonce: u64, difficulty: u32, proofHash: string)

  datatype Vector = Vector(
    schema: string,
    vectorId: string,
    ownerPubkey: string,
    spaceId: string,
    vectorType: VectorType,
    status: VectorStatus,
    components: seq<u128>,
    typeMetadata: map<string, string>,
    certification: Certification,
    projection: Option<Projection>,
    origin: Option<OriginProof>,
    version: u64,
    createdAtMs: u64,
    updatedAtMs: u64)

  /** The exact sum of the components. */
  function Magnitude(components: seq<int>): int {
    if components == [] then 0 else Magnitude(components[..|components| - 1]) + components[|components| - 1]
  }

  // ----- Certification -----

  /** The score of a state with verified owner and structure checks as given. */
  function AuthRatio(components: seq<u128>, ownership: bool, structure: bool): (r: u16)
    ensures components != [] && ownership && structure ==> r == if Magnitude(components) == 0 then 700 else 1000
  {
    (if Magnitude(components) == 0 then 100 else 400) + (if components == [] then 0 else 200)
    + (if ownership then 300 else 0) + (if structure then 100 else 0)
  }

  /** Certification of a state; summing the components must not overflow. */
  function CertifyState(v: Vector, ownership: bool, structure: bool, now: u64): Result<Certification, KernelError> {
    if Magnitude(v.components) >= U128_LIMIT then Err(Panicked)
    else
      var ratio, threshold := AuthRatio(v.components, ownership, structure), v.certification.threshold;
      Ok(Certification(ratio >= threshold, ratio, threshold, now,
        if ratio >= threshold then None
        else Some("auth_ratio " + Text.Print(ratio) + " below threshold " + Text.Print(threshold))))
  }

  datatype Policy = Policy(minAuthRatio: u16, requireCertified: bool)

  const DEFAULT_POLICY := Policy(700, true)

  /** Whether a record with this certification is admitted. */
  predicate AcceptRecord(c: Certification, policy: Policy) {
    (policy.requireCertified ==> c.certified) && c.authRatio >= policy.minAuthRatio
  }

  // ----- Validation -----

  function ValidateState(v: Vector): Result<(), KernelError> {
    if v.schema != STATE_SCHEMA then Err(InvalidState("schema mismatch"))
    else if v.components == [] then Err(InvalidState("a vector must contain at least one component"))
    else if v.ownerPubkey == "" || v.vectorId == "" || v.spaceId == "" then
      Err(InvalidState("vector_id, owner_pubkey, and space_id are required"))
    else Ok(())
  }

  function TypeTag(t: VectorType): string {
    match t
    case Standard => "Standard"
    case Origin => "Origin"
    case Projected => "Projected"
    case Escrow => "Escrow"
    case Settlement => "Settlement"
    case Locked => "Locked"
  }

  predicate FitsEvent(components: seq<u128>) {
    forall i :: 0 <= i < |components| ==> components[i] < U64_LIMIT
  }

  /** The event form of a state; components beyond 64 bits have none. */
  function ToEventState(v: Vector): Result<VectorState, KernelError> {
    if FitsEvent(v.components) then
      Ok(VectorState(v.components, v.ownerPubkey, TypeTag(v.vectorType), v.typeMetadata))
    else Err(InvalidState("component value exceeds u64 canonical event limit"))
  }

  // ----- Saturating arithmetic -----

  function SatAdd(a: u128, b: u128): u128 {
    if a + b < U128_LIMIT then a + b else U128_LIMIT - 1
  }

  function SatSub(a: u128, b: u128): u128 {
    if a < b then 0 else a - b
  }

  function SatMul(a: u128, b: u128): u128 {
    if a * b < U128_LIMIT then a * b else U128_LIMIT - 1
  }

  /** `b` is covered by `a`, place by place. */
  predicate Covers(a: seq<u128>, b: seq<u128>) {
    |a| == |b| && forall i :: 0 <= i < |a| ==> b[i] <= a[i]
  }

  function SubEach(a: seq<u128>, b: seq<u128>): (r: seq<u128>)
    requires |a| == |b|
    ensures |r| == |a| && forall i :: 0 <= i < |a| ==> r[i] == SatSub(a[i], b[i])
  {
    seq(|a|, i requires 0 <= i < |a| => SatSub(a[i], b[i]))
  }

  function AddEach(a: seq<u128>, b: seq<u128>): (r: seq<u128>)
    requires |a| == |b|
    ensures |r| == |a| && forall i :: 0 <= i < |a| ==> r[i] == SatAdd(a[i], b[i])
  {
    seq(|a|, i requires 0 <= i < |a| => SatAdd(a[i], b[i]))
  }

  // ----- Transfer -----

  function TransferOutcome(from: Vector, to: Vector, amount: seq<u128>): Result<(Vector, Vector), KernelError> {
    if |from.components| != |to.components| || |from.components| != |amount| then Err(DimensionMismatch)
    else if !Covers(from.components, amount) then Err(InsufficientBalance)
    else
      Ok((from.(components := SubEach(from.components, amount), vectorType := Standard),
          to.(components := AddEach(to.components, amount), vectorType := Standard)))
  }

  /** Moves `amount` from one state to the other, on copies of both. */
  method TransferComponents(from: Vector, to: Vector, amount: seq<u128>)
    returns (r: Result<(Vector, Vector), KernelError>)
    ensures r == TransferOutcome(from, to, amount)
    ensures r.Ok? <==> |to.components| == |from.components| && Covers(from.components, amount)
    ensures r.Ok? ==>
      var (sender, receiver) := r.value;
      && (forall i :: 0 <= i < |amount| ==> sender.components[i] == from.components[i] - amount[i])
      && (forall i :: 0 <= i < |amount| && to.components[i] + amount[i] < U128_LIMIT ==>
            receiver.components[i] == to.components[i] + amount[i])
      && sender == from.(components := sender.components, vectorType := Standard)
      && receiver == to.(components := receiver.components, vectorType := Standard)
    ensures r.Err? ==>
      r.error == if |from.components| == |to.components| == |amount| then InsufficientBalance else DimensionMismatch
  {
    if |from.components| != |to.components| {
      return Err(DimensionMismatch);
    }
    if |from.components| != |amount| {
      return Err(DimensionMismatch);
    }
    if !Covers(from.components, amount) {
      return Err(InsufficientBalance);
    }
    var sender, receiver := from, to;
    sender := sender.(components := SubEach(sender.components, amount));
    receiver := receiver.(components := AddEach(receiver.components, amount));
    sender := sender.(vectorType := Standard);
    receiver := receiver.(vectorType := Standard);
    r := Ok((sender, receiver));
  }

  // ----- Drain -----

  /** Certified vectors pay half the rate, rounded down. */
  function DrainRate(basisPoints: u16, authRatio: u16, threshold: u16): u16 {
    if authRatio >= threshold then basisPoints / 2 else basisPoints
  }

  function Fee(amount: u128, rate: u16): u128 {
    SatMul(amount, rate) / 10_000
  }

  ghost function Fees(amounts: seq<u128>, rate: u16): (r: seq<u128>)
    ensures |r| == |amounts| && forall i :: 0 <= i < |r| ==> r[i] == Fee(amounts[i], rate)
  {
    seq(|amounts|, i requires 0 <= i < |amounts| => Fee(amounts[i], rate))
  }

  ghost function DrainOutcome(amounts: seq<u128>, basisPoints: u16, authRatio: u16, threshold: u16)
    : Result<(seq<u128>, seq<u128>), KernelError>
  {
    if basisPoints > 10_000 then Err(Rejected)
    else
      var fees := Fees(amounts, DrainRate(basisPoints, authRatio, threshold));
      Ok((fees, SubEach(amounts, fees)))
  }

  method ApplyDrain(amounts: seq<u128>, basisPoints: u16, authRatio: u16, threshold: u16)
    returns (r: Result<(seq<u128>, seq<u128>), KernelError>)
    ensures r == DrainOutcome(amounts, basisPoints, authRatio, threshold)
    ensures basisPoints > 10_000 ==> r == Err(Rejected)
    ensures basisPoints <= 10_000 ==>
      r.Ok? && var rate := if authRatio >= threshold then basisPoints / 2 else basisPoints;
        r.value.0 == Fees(amounts, rate)
  {
    if basisPoints > 10_000 {
      return Err(Rejected);
    }
    var rate := DrainRate(basisPoints, authRatio, threshold);
    var drained: seq<u128>, remaining: seq<u128> := [], [];
    for i := 0 to |amounts|
      invariant |drained| == |remaining| == i
      invariant forall j :: 0 <= j < i ==>
        drained[j] == Fee(amounts[j], rate) && remaining[j] == SatSub(amounts[j], drained[j])
    {
      var fee := SatMul(amounts[i], rate) / 10_000;
      drained := drained + [fee];
      remaining := remaining + [SatSub(amounts[i], fee)];
    }
    assert drained == Fees(amounts, rate);
    assert remaining == SubEach(amounts, drained);
    r := Ok((drained, remaining));
  }

  // ----- Projection -----

  function ProjectOutcome(v: Vector, projected: seq<u128>, escrowId: string, now: u64): Result<Vector, KernelError> {
    if |projected| != |v.components| then Err(DimensionMismatch)
    else if !Covers(v.components, projected) then Err(InsufficientBalance)
    else if v.version + 1 >= U64_LIMIT then Err(Panicked)
    else
      Ok(v.(components := SubEach(v.components, projected),
            status := VectorStatus.Projected, vectorType := VectorType.Projected,
            projection := Some(Projection(escrowId, projected, [], now, None, None)),
            updatedAtMs := now, version := v.version + 1))
  }

  /** Splits a state into a remainder and an escrow. */
  method ProjectVector(v: Vector, projected: seq<u128>, escrowId: string, now: u64)
    returns (r: Result<Vector, KernelError>)
    ensures r == ProjectOutcome(v, projected, escrowId, now)
    ensures r.Ok? <==> Covers(v.components, projected) && v.version + 1 < U64_LIMIT
    ensures r.Ok? ==>
      && r.value.projection.Some? && r.value.projection.value.projected == projected
      && |r.value.components| == |projected|
      && (forall i :: 0 <= i < |projected| ==> r.value.components[i] + projected[i] == v.components[i])
      && r.value.version == v.version + 1 && r.value.vectorId == v.vectorId && r.value.ownerPubkey == v.ownerPubkey
      && r.value.certification == v.certification
      && r.value.projection == Some(Projection(escrowId, projected, [], now, None, None))
      && r.value.status == VectorStatus.Projected && r.value.vectorType == VectorType.Projected
      && r.value.updatedAtMs == now
    ensures |projected| != |v.components| ==> r == Err(DimensionMismatch)
    ensures |projected| == |v.components| && !Covers(v.components, projected) ==> r == Err(InsufficientBalance)
  {
    if |projected| != |v.components| {
      return Err(DimensionMismatch);
    }
    if !Covers(v.components, projected) {
      return Err(InsufficientBalance);
    }
    var state := v;
    state := state.(components := SubEach(state.components, projected));
    state := state.(status := VectorStatus.Projected);
    state := state.(vectorType := VectorType.Projected);
    state := state.(projection := Some(Projection(escrowId, projected, [], now, None, None)));
    state := state.(updatedAtMs := now);
    if state.version + 1 >= U64_LIMIT {
      return Err(Panicked);
    }
    r := Ok(state.(version := state.version + 1));
  }

  // ----- Reconstruction -----

  datatype Outcome = Outcome(tag: string, gains: seq<u128>, losses: seq<u128>)

  /** What place `i` of the escrow settles to, when the loss is covered. */
  function Net(principal: u128, gain: u128, loss: u128): u128
    requires loss <= SatAdd(principal, gain)
  {
    SatAdd(principal, gain) - loss
  }

  ghost predicate LossesCovered(principal: seq<u128>, gains: seq<u128>, losses: seq<u128>)
    requires |principal| == |gains| == |losses|
  {
    forall i :: 0 <= i < |principal| ==> losses[i] <= SatAdd(principal[i], gains[i])
  }

  ghost function Nets(principal: seq<u128>, gains: seq<u128>, losses: seq<u128>): (r: seq<u128>)
    requires |principal| == |gains| == |losses| && LossesCovered(principal, gains, losses)
    ensures |r| == |principal| && forall i :: 0 <= i < |r| ==> r[i] == Net(principal[i], gains[i], losses[i])
  {
    seq(|principal|, i requires 0 <= i < |principal| => Net(principal[i], gains[i], losses[i]))
  }

  /** Place `i` once the first `k` settled amounts have been added back. */
  ghost function RestoredAt(components: seq<u128>, nets: seq<u128>, k: nat, i: nat): u128
    requires k <= |nets| && (i < k || i < |components|)
  {
    if i >= |components| then nets[i]
    else if i < k then SatAdd(components[i], nets[i])
    else components[i]
  }

  /** The first `k` settled amounts have been added back; places beyond the live components are appended. */
  ghost predicate RestoredUpTo(components: seq<u128>, nets: seq<u128>, restored: seq<u128>, k: nat)
    requires k <= |nets|
  {
    && |restored| == (if k > |components| then k else |components|)
    && forall i :: 0 <= i < |restored| ==> restored[i] == RestoredAt(components, nets, k, i)
  }

  /** Adds settled amounts back to the live components. */
  ghost function Restored(components: seq<u128>, nets: seq<u128>): (r: seq<u128>)
    ensures RestoredUpTo(components, nets, r, |nets|)
  {
    seq(if |nets| > |components| then |nets| else |components|,
      i requires 0 <= i && (i < |nets| || i < |components|) => RestoredAt(components, nets, |nets|, i))
  }

  ghost function SettledVector(v: Vector, p: Projection, nets: seq<u128>, tag: string, now: u64): Vector
    requires v.version + 1 < U64_LIMIT
  {
    v.(components := Restored(v.components, nets),
       projection := Some(p.(settled := nets, settlementAtMs := Some(now), outcomeTag := Some(tag))),
       vectorType := Settlement, status := Settled, updatedAtMs := now, version := v.version + 1)
  }

  ghost function ReconstructOutcome(v: Vector, o: Outcome, now: u64): Result<Vector, KernelError> {
    if v.projection.None? then Err(SettlementRejected("missing projection"))
    else
      var p := v.projection.value;
      if |p.projected| != |o.gains| || |p.projected| != |o.losses| then Err(DimensionMismatch)
      else if !LossesCovered(p.projected, o.gains, o.losses) then
        Err(SettlementRejected("loss exceeds projected value"))
      else if v.version + 1 >= U64_LIMIT then Err(Panicked)
      else Ok(SettledVector(v, p, Nets(p.projected, o.gains, o.losses), o.tag, now))
  }

  method ReconstructVector(v: Vector, o: Outcome, now: u64) returns (r: Result<Vector, KernelError>)
    ensures r == ReconstructOutcome(v, o, now)
  {
    if v.projection.None? {
      return Err(SettlementRejected("missing projection"));
    }
    var p := v.projection.value;
    if |p.projected| != |o.gains| || |p.projected| != |o.losses| {
      return Err(DimensionMismatch);
    }
    var restored: seq<u128>, settled: seq<u128> := v.components, [];
    for i := 0 to |p.projected|
      invariant |settled| == i
      invariant forall j :: 0 <= j < i ==>
        o.losses[j] <= SatAdd(p.projected[j], o.gains[j]) && settled[j] == Net(p.projected[j], o.gains[j], o.losses[j])
      invariant RestoredUpTo(v.components, settled, restored, i)
    {
      var afterGain := SatAdd(p.projected[i], o.gains[i]);
      if o.losses[i] > afterGain {
        return Err(SettlementRejected("loss exceeds projected value"));
      }
      var net := afterGain - o.losses[i];
      settled := settled + [net];
      if i < |restored| {
        restored := restored[i := SatAdd(restored[i], net)];
      } else {
        restored := restored + [net];
      }
    }
    assert settled == Nets(p.projected, o.gains, o.losses);
    assert restored == Restored(v.components, settled);
    if v.version + 1 >= U64_LIMIT {
      return Err(Panicked);
    }
    r := Ok(v.(components := restored,
      projection := Some(p.(settled := settled, settlementAtMs := Some(now), outcomeTag := Some(o.tag))),
      vectorType := Settlement, status := Settled, updatedAtMs := now, version := v.version + 1));
  }

  // ----- What the arithmetic conserves -----

  lemma {:induction false} MagnitudeNonNegative(a: seq<u128>)
    ensures Magnitude(a) >= 0
  {
    if a != [] { MagnitudeNonNegative(a[..|a| - 1]); }
  }

  lemma {:induction false} MagnitudeSub(a: seq<u128>, b: seq<u128>)
    requires Covers(a, b)
    ensures Magnitude(SubEach(a, b)) == Magnitude(a) - Magnitude(b)
  {
    if a != [] {
      var k := |a| - 1;
      MagnitudeSub(a[..k], b[..k]);
      assert SubEach(a, b)[..k] == SubEach(a[..k], b[..k]);
    }
  }

  /** Additions that stay below 64 bits cannot have saturated. */
  lemma {:induction false} MagnitudeAdd(a: seq<u128>, b: seq<u128>)
    requires |a| == |b| && FitsEvent(AddEach(a, b))
    ensures Magnitude(AddEach(a, b)) == Magnitude(a) + Magnitude(b)
  {
    if a != [] {
      var k := |a| - 1;
      assert AddEach(a, b)[..k] == AddEach(a[..k], b[..k]);
      assert AddEach(a, b)[k] < U64_LIMIT;
      assert FitsEvent(AddEach(a[..k], b[..k])) by {
        assert forall i :: 0 <= i < k ==> AddEach(a[..k], b[..k])[i] == AddEach(a, b)[i];
      }
      MagnitudeAdd(a[..k], b[..k]);
    }
  }

  /** A transfer whose outcome has an event form moves exactly `amount` from sender to receiver. */
  lemma TransferConserves(from: Vector, to: Vector, amount: seq<u128>)
    requires TransferOutcome(from, to, amount).Ok?
    requires FitsEvent(TransferOutcome(from, to, amount).value.1.components)
    ensures var (sender, receiver) := TransferOutcome(from, to, amount).value;
      Magnitude(sender.components) == Magnitude(from.components) - Magnitude(amount)
      && Magnitude(receiver.components) == Magnitude(to.components) + Magnitude(amount)
  {
    MagnitudeSub(from.components, amount);
    MagnitudeAdd(to.components, amount);
  }

  /** Sending the amount back restores both sides, whenever the receiver did not saturate. */
  lemma TransferUndone(from: Vector, to: Vector, amount: seq<u128>)
    requires TransferOutcome(from, to, amount).Ok?
    requires FitsEvent(TransferOutcome(from, to, amount).value.1.components)
    ensures var (sender, receiver) := TransferOutcome(from, to, amount).value;
      var back := TransferOutcome(receiver, sender, amount);
      back.Ok? && back.value.0.components == to.components && back.value.1.components == from.components
  {
    var (sender, receiver) := TransferOutcome(from, to, amount).value;
    forall i | 0 <= i < |amount| ensures amount[i] <= receiver.components[i] == to.components[i] + amount[i] {
      assert receiver.components[i] < U64_LIMIT;
    }
    var back := TransferOutcome(receiver, sender, amount).value;
    assert back.0.components == to.components && back.1.components == from.components;
  }

  ghost function Zeros(n: nat): (r: seq<u128>)
    ensures |r| == n && forall i :: 0 <= i < n ==> r[i] == 0
  {
    seq(n, i => 0)
  }

  /** A projection that settles without gain or loss gives back exactly what it took. */
  lemma ProjectionUndone(v: Vector, projected: seq<u128>, escrowId: string, tag: string, start: u64, end: u64)
    requires ProjectOutcome(v, projected, escrowId, start).Ok? && v.version + 2 < U64_LIMIT
    ensures var zeros := Zeros(|projected|);
      var back := ReconstructOutcome(ProjectOutcome(v, projected, escrowId, start).value, Outcome(tag, zeros, zeros),
        end);
      back.Ok? && back.value.components == v.components && back.value.projection.value.settled == projected
  {
    var w, zeros := ProjectOutcome(v, projected, escrowId, start).value, Zeros(|projected|);
    assert LossesCovered(projected, zeros, zeros);
    var nets := Nets(projected, zeros, zeros);
    assert nets == projected;
    assert Restored(w.components, nets) == v.components;
  }

  /** A fee is never above the exact rate, whether or not the product saturates. */
  lemma FeeAtMost(amount: u128, rate: u16)
    ensures 10_000 * Fee(amount, rate) <= amount * rate
    ensures rate <= 10_000 ==> Fee(amount, rate) <= amount
  {
    assert rate <= 10_000 ==> amount * rate <= amount * 10_000;
  }

  /** The exact product is below the first multiple of 10_000 that the saturated product does not reach. */
  predicate BelowCap(amount: u128, rate: u16) {
    amount * rate < 10_000 * ((U128_LIMIT - 1) / 10_000 + 1)
  }

  predicate WithinUnit(amount: int, rate: int, fee: int) {
    amount * rate < 10_000 * (fee + 1)
  }

  /** A fee misses the exact rate by less than one unit exactly below the cap of the saturating product. */
  lemma FeeWithinUnitIff(amount: u128, rate: u16)
    ensures WithinUnit(amount, rate, Fee(amount, rate)) <==> BelowCap(amount, rate)
  {
    var product := amount * rate;
    assert product < 10_000 * (product / 10_000 + 1);
  }

  /** Amounts that an event can hold are far below the cap. */
  lemma FittingBelowCap(amounts: seq<u128>, rate: u16)
    requires FitsEvent(amounts)
    ensures forall i :: 0 <= i < |amounts| ==> BelowCap(amounts[i], rate)
  {
    forall i | 0 <= i < |amounts| ensures BelowCap(amounts[i], rate) {
      assert amounts[i] * rate <= U64_LIMIT * rate;
    }
  }

  /** Draining removes exactly the fees. */
  lemma DrainConserves(amounts: seq<u128>, basisPoints: u16, authRatio: u16, threshold: u16)
    requires basisPoints <= 10_000
    ensures var (fees, remaining) := DrainOutcome(amounts, basisPoints, authRatio, threshold).value;
      Covers(amounts, fees) && Magnitude(remaining) == Magnitude(amounts) - Magnitude(fees)
  {
    var rate := DrainRate(basisPoints, authRatio, threshold);
    var fees := Fees(amounts, rate);
    forall i | 0 <= i < |amounts| ensures fees[i] <= amounts[i] { FeeAtMost(amounts[i], rate); }
    MagnitudeSub(amounts, fees);
  }

  /** Every fee misses the exact rate by less than one unit. */
  ghost predicate WithinUnits(amounts: seq<u128>, rate: u16) {
    forall i :: 0 <= i < |amounts| ==> WithinUnit(amounts[i], rate, Fees(amounts, rate)[i])
  }

  /** The total fee never exceeds the exact rate. */
  lemma {:induction false} TotalFeeAtMost(amounts: seq<u128>, rate: u16)
    ensures 10_000 * Magnitude(Fees(amounts, rate)) <= Magnitude(amounts) * rate
  {
    hide Fee;
    if amounts != [] {
      var k := |amounts| - 1;
      TotalFeeAtMost(amounts[..k], rate);
      FeeAtMost(amounts[k], rate);
      assert Fees(amounts, rate)[..k] == Fees(amounts[..k], rate);
      assert Magnitude(amounts) * rate == Magnitude(amounts[..k]) * rate + amounts[k] * rate;
    }
  }

  /** When every fee is within a unit, so is the total, once per component. */
  lemma {:induction false} TotalFeeWithin(amounts: seq<u128>, rate: u16)
    requires WithinUnits(amounts, rate)
    ensures amounts != [] ==> Magnitude(amounts) * rate < 10_000 * (Magnitude(Fees(amounts, rate)) + |amounts|)
  {
    hide Fee;
    if amounts != [] {
      var k := |amounts| - 1;
      assert Fees(amounts, rate)[..k] == Fees(amounts[..k], rate);
      assert forall i :: 0 <= i < k ==> Fees(amounts, rate)[i] == Fees(amounts[..k], rate)[i];
      TotalFeeWithin(amounts[..k], rate);
      assert Magnitude(amounts) * rate == Magnitude(amounts[..k]) * rate + amounts[k] * rate;
      assert WithinUnit(amounts[k], rate, Fees(amounts, rate)[k]);
    }
  }

  /**
   * The total fee never exceeds the exact rate. Every component pays within one unit of it exactly
   * when no component is above the cap of the saturating product, and then the total falls short by
   * less than one unit per component.
   */
  lemma DrainFeeBound(amounts: seq<u128>, rate: u16)
    ensures 10_000 * Magnitude(Fees(amounts, rate)) <= Magnitude(amounts) * rate
    ensures WithinUnits(amounts, rate) <==> forall i :: 0 <= i < |amounts| ==> BelowCap(amounts[i], rate)
    ensures WithinUnits(amounts, rate) && amounts != [] ==>
      Magnitude(amounts) * rate < 10_000 * (Magnitude(Fees(amounts, rate)) + |amounts|)
  {
    hide BelowCap, Magnitude;
    TotalFeeAtMost(amounts, rate);
    forall i | 0 <= i < |amounts|
      ensures WithinUnit(amounts[i], rate, Fees(amounts, rate)[i]) <==> BelowCap(amounts[i], rate)
    {
      FeeWithinUnitIff(amounts[i], rate);
    }
    if WithinUnits(amounts, rate) { TotalFeeWithin(amounts, rate); }
  }

  /** The greatest component at the greatest half rate pays a small part of the half it owes. */
  lemma SaturatedFee()
    ensures var a: seq<u128> := [U128_LIMIT - 1];
      && !BelowCap(a[0], 5_000)
      && Magnitude(a) * 5_000 >= 10_000 * (Magnitude(Fees(a, 5_000)) + |a|)
      && Magnitude(Fees(a, 5_000)) == (U128_LIMIT - 1) / 10_000
  {
    var a: seq<u128> := [U128_LIMIT - 1];
    assert a[..0] == [] && Fees(a, 5_000)[..0] == [];
  }

  /** When the restored components have an event form, reconstruction adds exactly the settled amounts. */
  lemma ReconstructConserves(v: Vector, nets: seq<u128>)
    requires |nets| == |v.components| && FitsEvent(Restored(v.components, nets))
    ensures Magnitude(Restored(v.components, nets)) == Magnitude(v.components) + Magnitude(nets)
  {
    assert Restored(v.components, nets) == AddEach(v.components, nets);
    MagnitudeAdd(v.components, nets);
  }

  /** Without saturation, what settles is principal plus gains minus losses. */
  lemma {:induction false} NetsSum(principal: seq<u128>, gains: seq<u128>, losses: seq<u128>)
    requires |principal| == |gains| == |losses| && LossesCovered(principal, gains, losses)
    requires forall i :: 0 <= i < |principal| ==> principal[i] + gains[i] < U128_LIMIT
    ensures Magnitude(Nets(principal, gains, losses)) == Magnitude(principal) + Magnitude(gains) - Magnitude(losses)
  {
    if principal != [] {
      var k := |principal| - 1;
      assert LossesCovered(principal[..k], gains[..k], losses[..k]);
      NetsSum(principal[..k], gains[..k], losses[..k]);
      assert Nets(principal, gains, losses)[..k] == Nets(principal[..k], gains[..k], losses[..k]);
    }
  }

  /** What each place gains: all of the gain, or what 128 bits can still hold. */
  ghost function Credited(principal: seq<u128>, gains: seq<u128>): (r: seq<u128>)
    requires |principal| == |gains|
    ensures |r| == |principal| && forall i :: 0 <= i < |r| ==> r[i] == SatAdd(principal[i], gains[i]) - principal[i]
  {
    seq(|principal|, i requires 0 <= i < |principal| => SatAdd(principal[i], gains[i]) - principal[i])
  }

  /** What settles is principal plus credited gains minus losses, whether or not anything saturates. */
  lemma {:induction false} NetsCredited(principal: seq<u128>, gains: seq<u128>, losses: seq<u128>)
    requires |principal| == |gains| == |losses| && LossesCovered(principal, gains, losses)
    ensures Magnitude(Nets(principal, gains, losses)) ==
      Magnitude(principal) + Magnitude(Credited(principal, gains)) - Magnitude(losses)
  {
    if principal != [] {
      var k := |principal| - 1;
      assert LossesCovered(principal[..k], gains[..k], losses[..k]);
      NetsCredited(principal[..k], gains[..k], losses[..k]);
      assert Nets(principal, gains, losses)[..k] == Nets(principal[..k], gains[..k], losses[..k]);
      assert Credited(principal, gains)[..k] == Credited(principal[..k], gains[..k]);
    }
  }

  lemma {:induction false} CreditedAtMost(principal: seq<u128>, gains: seq<u128>)
    requires |principal| == |gains|
    ensures Magnitude(Credited(principal, gains)) <= Magnitude(gains)
  {
    if principal != [] {
      var k := |principal| - 1;
      CreditedAtMost(principal[..k], gains[..k]);
      assert Credited(principal, gains)[..k] == Credited(principal[..k], gains[..k]);
    }
  }

  /** All gains are credited exactly when every one of them fits 128 bits on top of its principal. */
  lemma {:induction false} CreditedInFull(principal: seq<u128>, gains: seq<u128>)
    requires |principal| == |gains|
    ensures Magnitude(Credited(principal, gains)) == Magnitude(gains) <==>
      forall i :: 0 <= i < |principal| ==> principal[i] + gains[i] < U128_LIMIT
  {
    if principal != [] {
      var k := |principal| - 1;
      CreditedInFull(principal[..k], gains[..k]);
      CreditedAtMost(principal[..k], gains[..k]);
      assert Credited(principal, gains)[..k] == Credited(principal[..k], gains[..k]);
      assert forall i :: 0 <= i < k ==> principal[..k][i] == principal[i] && gains[..k][i] == gains[i];
    }
  }
}
