/**
 * Runs in which every operation is accepted and something is lost all the same: what the hypotheses of
 * the theorems about runs exclude does happen.
 */
module Witnesses {
  import opened Agreement
  import opened Base
  import opened Bytes
  import opened Conservation
  import opened Events
  import opened Exactness
  import opened Forks
  import opened Invariant
  import opened Machine
  import opened Ordering
  import opened Progress
  import opened Refusals
  import opened Region
  import opened Serialization
  import opened Stored
  import opened Validation
  import opened Vectors
  import Text

  /** A request the empty kernel accepts, with names short enough for their length prefixes. */
  ghost predicate Usable(env: Foreign, r: OriginRequest) {
    PrintsHex(env) && InjectiveDigest(env) && Acceptable(env, r) && ShortNames(r.vectorId, r.spaceId)
  }

  /** A kernel reached from the empty one by accepted operations of one region. */
  ghost predicate Reached(env: Foreign, k: Kernel, hist: History, region: string, length: nat, events: nat) {
    Inv(k, hist) && Timely(hist) && Numbered(env, k, region, length) && |k.events| == events
  }

  /** The vector a first origin stores. */
  ghost predicate FirstState(v: Vector, r: OriginRequest, now: u64) {
    && v.vectorId == r.vectorId && v.components == r.components && v.vectorType.Origin? && v.version == 1
    && v.createdAtMs == now
    && v.projection.None? && ProperlyNamed(v, r.spaceId, |r.vectorId|)
  }

  lemma UsableFits(env: Foreign, r: OriginRequest)
    requires Usable(env, r)
    ensures r.components != [] && FitsEvent(r.components) && Magnitude(r.components) < U128_LIMIT
  {
    hide Text.Trim, HasProof, PrintsHex, InjectiveDigest, Magnitude;
  }

  // ----- A digest and a request that qualify -----

  function HexDigit(n: nat): char
    requires n < 16
  {
    if n < 10 then '0' + n as char else 'a' + (n - 10) as char
  }

  /** Prints every byte as two hexadecimal digits, behind a leading one. */
  function Hexed(bytes: seq<byte>): string {
    if bytes == [] then "f" else [HexDigit(bytes[0] / 16), HexDigit(bytes[0] % 16)] + Hexed(bytes[1..])
  }

  lemma {:induction false} HexedIsHex(bytes: seq<byte>)
    ensures IsHex(Hexed(bytes)) && |Hexed(bytes)| == 2 * |bytes| + 1
  {
    if bytes != [] { HexedIsHex(bytes[1..]); }
  }

  lemma {:induction false} HexedInjective(a: seq<byte>, b: seq<byte>)
    requires Hexed(a) == Hexed(b)
    ensures a == b
  {
    HexedIsHex(a);
    HexedIsHex(b);
    if a != [] {
      var x, y := Hexed(a), Hexed(b);
      assert x[0] == HexDigit(a[0] / 16) && x[1] == HexDigit(a[0] % 16) && y[0] == HexDigit(b[0] / 16);
      assert y[1] == HexDigit(b[0] % 16);
      assert x[2..] == Hexed(a[1..]) && y[2..] == Hexed(b[1..]);
      HexedInjective(a[1..], b[1..]);
      assert a == [a[0]] + a[1..] && b == [b[0]] + b[1..];
    }
  }

  lemma HexedDigest(env: Foreign)
    requires env.blake3 == Hexed
    ensures PrintsHex(env) && InjectiveDigest(env)
  {
    hide IsHex, Hexed;
    forall bytes ensures IsHex(env.blake3(bytes)) { HexedIsHex(bytes); }
    forall a, b | env.blake3(a) == env.blake3(b) ensures a == b { HexedInjective(a, b); }
  }

  /** Digests and requests of this kind exist. */
  lemma SomeUsable(env: Foreign)
    requires env.blake3 == Hexed
    ensures Usable(env, OriginRequest("v", "owner", "space", [1], "seed", 0, 0))
  {
    hide Hexed, Text.Trim, PrintsHex, InjectiveDigest, Utf8, LeadingZeros;
    HexedDigest(env);
    assert Magnitude([1]) == 1 by { assert [1][..0] == []; }
    NotBlank("v");
    NotBlank("owner");
    NotBlank("space");
    AsciiFits("v");
    AsciiFits("space");
  }

  lemma NotBlank(s: string)
    requires s != "" && forall i :: 0 <= i < |s| ==> 'a' <= s[i] <= 'z'
    ensures Text.Trim(s) != ""
  {
    Text.TrimmedUnchanged(s);
  }

  // ----- Runs -----

  lemma EmptyReached(env: Foreign, region: string, length: nat)
    ensures Reached(env, EMPTY, map[], region, length, 0)
  {
  }

  lemma UnknownUnless(k: Kernel, hist: History, id: string)
    requires Inv(k, hist)
    ensures Unknown(k, id) <==> id !in hist
  {
    hide Inv, LogInv, LogOrdered, Log, LatestOf, IsLatest;
    LogInvOf(k, hist);
    LogIsOrdered(k.events, hist);
    LatestIs(k, hist, id);
  }

  /** A usable origin under a new name of the same length is accepted and adds its vector. */
  lemma StartVector(env: Foreign, k: Kernel, hist: History, n: nat, r: OriginRequest, now: u64, checkedAt: u64)
    returns (k': Kernel, hist': History, v: Vector)
    requires Usable(env, r) && Reached(env, k, hist, r.spaceId, |r.vectorId|, n) && r.vectorId !in hist && n < 10
    ensures OriginStep(env, k, r, now, checkedAt).0 == k' && OriginStep(env, k, r, now, checkedAt).1.Ok?
    ensures Reached(env, k', hist', r.spaceId, |r.vectorId|, n + 1)
    ensures k'.states == k.states[r.vectorId := v] && FirstState(v, r, now)
    ensures Live(k') == Live(k) + Magnitude(r.components)
    ensures hist'.Keys == hist.Keys + {r.vectorId} && r.vectorId in k'.states
    ensures Conservation.Escrow(k') == Conservation.Escrow(k)
    ensures hist'[r.vectorId] != [] && Last(hist'[r.vectorId]).timestamp == now
    ensures Last(hist'[r.vectorId]).logicalClock == 1
    ensures forall id :: id in hist ==> hist'[id] == hist[id]
  {
    hide OriginStep, OriginState, Inv, Timely, Numbered, Unknown, Acceptable, ShortNames, PrintsHex, InjectiveDigest,
      GoodVector, Magnitude, Live, Conservation.Escrow, ProperlyNamed, LogInv;
    UnknownUnless(k, hist, r.vectorId);
    OriginAccepted(env, k, |r.vectorId|, r, now, checkedAt);
    v := OriginState(env, r, now, checkedAt).value;
    k' := OriginStep(env, k, r, now, checkedAt).0;
    hist' := OriginKeeps(env, k, hist, r, now, checkedAt);
    InvStoresGood(k, hist);
    UnknownNotStored(k, hist, r.vectorId);
    OriginBalances(env, k, r, now, checkedAt);
  }

  // ----- An id that is used again -----

  /** The same origin twice: both are accepted, and the log no longer replays. */
  lemma RepeatedOrigin(env: Foreign, r: OriginRequest, now: u64, checkedAt: u64, later: u64, checkedLater: u64)
    requires Usable(env, r)
    ensures var k := OriginStep(env, EMPTY, r, now, checkedAt).0;
      && OriginStep(env, EMPTY, r, now, checkedAt).1.Ok? && OriginStep(env, k, r, later, checkedLater).1.Ok?
      && !Agrees(env, OriginStep(env, k, r, later, checkedLater).0)
  {
    hide OriginStep, OriginState, Inv, Timely, Numbered, Unknown, Acceptable, ShortNames, PrintsHex, InjectiveDigest,
      GoodVector, Agrees, FirstState, Capacity;
    EmptyReached(env, r.spaceId, |r.vectorId|);
    var k, hist, v := StartVector(env, EMPTY, map[], 0, r, now, checkedAt);
    OriginAccepted(env, k, |r.vectorId|, r, later, checkedLater);
    UnknownUnless(k, hist, r.vectorId);
    OriginAgreesIffFresh(env, k, hist, r, later, checkedLater);
  }

  // ----- A transfer to the same vector -----

  /** What a vector can receive on top of its own components. */
  predicate CanReceive(components: seq<u128>, amount: seq<u128>) {
    && |amount| == |components|
    && FitsEvent(AddEach(components, amount)) && Magnitude(AddEach(components, amount)) < U128_LIMIT
  }

  lemma FreshTransfers(from: Vector, to: Vector, op: Op)
    requires op.TransferOp? && GoodVector(from) && GoodVector(to) && Covers(from.components, op.amount)
    requires CanReceive(to.components, op.amount)
    requires Magnitude(from.components) < U128_LIMIT
    ensures var r := TransferStates(from, to, op.amount, op.fromCheckedAt, op.toCheckedAt);
      r.Ok? && FitsEvent(r.value.1.components) && r.value.0.vectorType == Standard
  {
    hide Magnitude, Text.Print, FitsEvent;
    MagnitudeSub(from.components, op.amount);
    MagnitudeNonNegative(op.amount);
  }

  /** A first transfer of a vector to itself is accepted, adds its amount to the live total, and breaks the log. */
  lemma SelfTransferMints(env: Foreign, r: OriginRequest, now: u64, checkedAt: u64, op: Op)
    requires Usable(env, r) && op.TransferOp? && op.fromId == r.vectorId && op.toId == r.vectorId
    requires Covers(r.components, op.amount) && CanReceive(r.components, op.amount)
    ensures var k := OriginStep(env, EMPTY, r, now, checkedAt).0;
      && TransferStep(env, k, op).1.Ok? && !Agrees(env, TransferStep(env, k, op).0)
      && Live(TransferStep(env, k, op).0) == Magnitude(r.components) + Magnitude(op.amount)
  {
    hide OriginStep, OriginState, Inv, Timely, Numbered, Unknown, Acceptable, ShortNames, PrintsHex, InjectiveDigest,
      GoodVector, Agrees, TransferStep, TransferStates, Live, Magnitude, CanReceive, Covers, ProperlyNamed, LogInv,
      VectorStory, FitsEvent;
    EmptyReached(env, r.spaceId, |r.vectorId|);
    EmptyTotals();
    var k, hist, v := StartVector(env, EMPTY, map[], 0, r, now, checkedAt);
    VectorFacts(k, hist, r.vectorId);
    UsableFits(env, r);
    FreshTransfers(v, v, op);
    TransferAccepted(env, k, hist, r.spaceId, |r.vectorId|, op);
    TransferFromRising(env, k, hist, op);
    InvStoresGood(k, hist);
    TransferBalances(env, k, op);
  }

  // ----- A clock that steps back between two transfers -----

  /** A transfer between two different vectors of a run is accepted. */
  lemma NextTransfer(env: Foreign, k: Kernel, hist: History, region: string, length: nat, n: nat, op: Op)
    requires op.TransferOp? && op.fromId != op.toId && PrintsHex(env) && InjectiveDigest(env) && n < 10
    requires Inv(k, hist) && Numbered(env, k, region, length) && |k.events| == n && op.fromId in k.states
    requires op.toId in k.states
    requires ProperlyNamed(k.states[op.fromId], region, length) && ProperlyNamed(k.states[op.toId], region, length)
    requires Covers(k.states[op.fromId].components, op.amount) && CanReceive(k.states[op.toId].components, op.amount)
    requires Magnitude(k.states[op.fromId].components) < U128_LIMIT
    ensures TransferWrites(k, op) && TransferStep(env, k, op).1.Ok?
    ensures var k' := TransferStep(env, k, op).0;
      var sides := Sides(k, op);
      && k'.states == k.states[op.fromId := sides.0][op.toId := sides.1]
      && Numbered(env, k', region, length) && |k'.events| == n + 2
      && ProperlyNamed(sides.0, region, length) && ProperlyNamed(sides.1, region, length)
  {
    hide Inv, Numbered, PrintsHex, InjectiveDigest, GoodVector, TransferStep, TransferStates, Magnitude, CanReceive,
      Covers, ProperlyNamed, LogInv, VectorStory, FitsEvent;
    VectorFacts(k, hist, op.fromId);
    VectorFacts(k, hist, op.toId);
    FreshTransfers(k.states[op.fromId], k.states[op.toId], op);
    TransferAccepted(env, k, hist, region, length, op);
  }

  /** A transfer read before the last event of its sender is overlooked by the next operation. */
  lemma EarlyIsOverlooked(k: Kernel, hist: History, k': Kernel, hist': History, after: Vector, op: Op, e: VectorEvent)
    requires op.TransferOp? && Inv(k, hist) && Inv(k', hist')
    requires Appends(k, hist, k', hist', op.fromId, after, op.sentAt, e)
    requires after.version <= Last(hist[op.fromId]).logicalClock && op.sentAt < Last(hist[op.fromId]).timestamp
    ensures Overlooked(k, k', op, op.fromId)
  {
    hide Inv, LogInv, LogOrdered, Log, LatestOf, TimelyHistory, ToEventState, NextId, OrderedHistory, EventLeq;
    var id := op.fromId;
    LogInvOf(k, hist);
    LogInvOf(k', hist');
    LogIsOrdered(k'.events, hist');
    LatestOrLast(k, hist, k', hist', id, e);
    LatestIs(k', hist', id);
    InHistory(k'.events, hist', id);
    var last := Last(hist[id]);
    assert hist'[id][|hist[id]| - 1] == last && last in hist'[id];
    EarlierIsLess(e, last);
  }

  /**
   * The first of two transfers out of one new vector is read before the vector's origin, the second
   * before the first.
   */
  ghost predicate StepsBack(r: OriginRequest, other: OriginRequest, now: u64, first: Op, second: Op) {
    && r.spaceId == other.spaceId && |r.vectorId| == |other.vectorId| && r.vectorId != other.vectorId
    && first.TransferOp? && second.TransferOp? && first.fromId == r.vectorId && first.toId == other.vectorId
    && second.fromId == r.vectorId && second.toId == other.vectorId
    && Covers(r.components, first.amount) && CanReceive(other.components, first.amount)
    && Covers(SubEach(r.components, first.amount), second.amount)
    && CanReceive(AddEach(other.components, first.amount), second.amount)
    && second.sentAt < first.sentAt < now
  }

  /** All four operations are accepted, the totals are kept, and the log no longer replays to the store. */
  lemma BackwardClock(env: Foreign, r: OriginRequest, other: OriginRequest, now: u64, checkedAt: u64, first: Op,
                      second: Op)
    requires Usable(env, r) && Usable(env, other) && StepsBack(r, other, now, first, second)
    ensures var k1 := OriginStep(env, EMPTY, r, now, checkedAt).0;
      var k2 := OriginStep(env, k1, other, now, checkedAt).0;
      var k3 := TransferStep(env, k2, first).0;
      && OriginStep(env, EMPTY, r, now, checkedAt).1.Ok? && OriginStep(env, k1, other, now, checkedAt).1.Ok?
      && TransferStep(env, k2, first).1.Ok? && TransferStep(env, k3, second).1.Ok?
      && Live(TransferStep(env, k3, second).0) == Magnitude(r.components) + Magnitude(other.components)
      && !Agrees(env, TransferStep(env, k3, second).0)
  {
    hide OriginStep, OriginState, Inv, Timely, Numbered, Acceptable, ShortNames, PrintsHex, InjectiveDigest,
      GoodVector, Agrees, TransferStep, TransferStates, Live, Conservation.Escrow, Magnitude, CanReceive, Covers,
      ProperlyNamed, LogInv, VectorStory, FitsEvent, Capacity, Overlooked, Appends, NextId, ToEventState;
    var region, length := r.spaceId, |r.vectorId|;
    EmptyReached(env, region, length);
    UsableFits(env, r);
    var k1, hist1, v := StartVector(env, EMPTY, map[], 0, r, now, checkedAt);
    var k2, hist2, w := StartVector(env, k1, hist1, 1, other, now, checkedAt);
    NextTransfer(env, k2, hist2, region, length, 2, first);
    var hist3, e, f := TransferAppends(env, k2, hist2, first);
    var k3 := TransferStep(env, k2, first).0;
    SidesOf(v, w, first);
    EarlyIsOverlooked(k2, hist2, k3, hist3, SideAfter(k2, first, r.vectorId), first, e);
    NextTransfer(env, k3, hist3, region, length, 4, second);
    SecondTransferAgreesIff(env, k2, hist2, first, second);
    BackIsOutOfOrder(k2, k3, first, second);
    EmptyTotals();
    InvStoresGood(k2, hist2);
    TransferBalances(env, k2, first);
    InvStoresGood(k3, hist3);
    TransferBalances(env, k3, second);
  }

  lemma SidesOf(from: Vector, to: Vector, op: Op)
    requires op.TransferOp? && TransferStates(from, to, op.amount, op.fromCheckedAt, op.toCheckedAt).Ok?
    requires Magnitude(from.components) < U128_LIMIT
    ensures var sides := TransferStates(from, to, op.amount, op.fromCheckedAt, op.toCheckedAt).value;
      && sides.0.components == SubEach(from.components, op.amount)
      && sides.1.components == AddEach(to.components, op.amount)
      && Magnitude(sides.0.components) < U128_LIMIT && sides.0.version == from.version && sides.0.vectorType == Standard
  {
    hide CertifyState, ValidateState, Magnitude;
    MagnitudeSub(from.components, op.amount);
    MagnitudeNonNegative(op.amount);
  }

  lemma BackIsOutOfOrder(k: Kernel, k': Kernel, first: Op, second: Op)
    requires first.TransferOp? && second.TransferOp? && first.fromId != first.toId && second.fromId == first.fromId
    requires second.toId == first.toId
    requires TransferWrites(k, first) && TransferWrites(k', second) && Overlooked(k, k', first, first.fromId)
    requires k'.states[first.fromId] == SideAfter(k, first, first.fromId) && k.states[first.fromId].vectorType.Origin?
    requires Magnitude(k.states[first.fromId].components) < U128_LIMIT && FitsEvent(k.states[first.fromId].components)
    requires second.sentAt < first.sentAt
    ensures !SideInOrder(k, k', first, second, first.fromId)
  {
    hide TransferStates, NextId, Overlooked, Magnitude;
    SidesOf(k.states[first.fromId], k.states[first.toId], first);
    SidesOf(k'.states[second.fromId], k'.states[second.toId], second);
    TypeShows(k.states[first.fromId], SideAfter(k, first, first.fromId));
  }

  lemma TypeShows(v: Vector, w: Vector)
    requires FitsEvent(v.components) && v.vectorType.Origin? && w.vectorType == Standard
    ensures ToEventState(w) != ToEventState(v)
  {
    assert TypeTag(Standard) != TypeTag(v.vectorType);
  }

  // ----- A drain of a component that no event can hold -----

  const GREATEST: u128 := U128_LIMIT - 1

  /**
   * Both operations are refused and stay written. At half of 10_000 basis points the drain takes one
   * part in ten thousand, because the product saturates.
   */
  lemma SaturatedDrain(env: Foreign)
    ensures var r := OriginRequest("v", "owner", "space", [GREATEST], "seed", 0, 0);
      var first := OriginStep(env, EMPTY, r, 0, 0);
      var drained := UpdateStep(env, first.0, DrainOp("v", 10_000, 0, 0));
      && first.1.Err? && "v" in first.0.states && first.0.states["v"].components == [GREATEST]
      && drained.1.Err? && "v" in drained.0.states
      && drained.0.states["v"].components == [GREATEST - GREATEST / 10_000]
      && GREATEST * 5_000 >= 10_000 * (GREATEST / 10_000 + 1)
  {
    hide Emit, OriginState, NewState, OriginStep, UpdateStep, Agrees;
    var r := OriginRequest("v", "owner", "space", [GREATEST], "seed", 0, 0);
    assert Magnitude([GREATEST]) == GREATEST by { assert [GREATEST][..0] == []; }
    assert OriginState(env, r, 0, 0).Ok? by { OriginExampleState(env, r); }
    OriginStateGood(env, r, 0, 0);
    OversizedOriginStays(env, EMPTY, r, 0, 0);
    var v := OriginState(env, r, 0, 0).value;
    var k, op := OriginStep(env, EMPTY, r, 0, 0).0, DrainOp("v", 10_000, 0, 0);
    SaturatedState(v, op);
    OversizedUpdateStays(env, k, op);
  }

  lemma SaturatedState(v: Vector, op: Op)
    requires op == DrainOp("v", 10_000, 0, 0) && GoodVector(v) && v.components == [GREATEST] && v.version == 1
    ensures NewState(v, op).Ok? && NewState(v, op).value.components == [GREATEST - GREATEST / 10_000]
    ensures !FitsEvent(NewState(v, op).value.components) && NewState(v, op).value.vectorId == v.vectorId
  {
    hide Magnitude, Text.Print;
    SaturatedFee();
    var left := [GREATEST - GREATEST / 10_000];
    assert Fees(v.components, 5_000) == [GREATEST / 10_000];
    assert SubEach(v.components, Fees(v.components, 5_000)) == left;
    assert Magnitude(left) == GREATEST - GREATEST / 10_000 by { OneMagnitude(left); }
  }

  lemma OneMagnitude(a: seq<u128>)
    requires |a| == 1
    ensures Magnitude(a) == a[0]
  {
    assert a[..0] == [];
  }

  // ----- Escrow that is paid out twice, or forgotten -----

  /** The request that puts the whole vector into escrow. */
  function ProjectAll(r: OriginRequest, now: u64, checkedAt: u64): Op {
    ProjectOp(r.vectorId, r.components, "escrow", now, checkedAt)
  }

  ghost function Settle(r: OriginRequest, now: u64, checkedAt: u64): Op {
    ReconstructOp(r.vectorId, Outcome("settled", Zeros(|r.components|), Zeros(|r.components|)), now, checkedAt)
  }

  lemma {:induction false} ZerosAddNothing(n: nat)
    ensures Magnitude(Zeros(n)) == 0
  {
    if n > 0 {
      ZerosAddNothing(n - 1);
      assert Zeros(n)[..n - 1] == Zeros(n - 1);
    }
  }

  lemma ProjectAllState(v: Vector, r: OriginRequest, now: u64, checkedAt: u64)
    requires GoodVector(v) && v.components == r.components && v.version < 10
    ensures var s := NewState(v, ProjectAll(r, now, checkedAt));
      && s.Ok? && s.value.components == Zeros(|r.components|) && FitsEvent(s.value.components)
      && s.value.projection.Some? && s.value.projection.value.projected == r.components
      && s.value.version == v.version + 1
      && s.value.vectorId == v.vectorId && s.value.projection.value.settlementAtMs.None?
  {
    hide Magnitude, Text.Print;
    assert SubEach(v.components, r.components) == Zeros(|r.components|);
    ZerosAddNothing(|r.components|);
  }

  /** Settling without gain or loss adds the principal, whether or not it was settled before. */
  lemma SettleState(v: Vector, r: OriginRequest, now: u64, checkedAt: u64)
    requires GoodVector(v) && v.projection.Some? && v.projection.value.projected == r.components && v.version < 10
    requires |v.components| == |r.components| && Magnitude(AddEach(v.components, r.components)) < U128_LIMIT
    ensures var s := NewState(v, Settle(r, now, checkedAt));
      && s.Ok? && s.value.components == AddEach(v.components, r.components) && s.value.version == v.version + 1
      && s.value.projection.Some? && s.value.projection.value.projected == r.components
      && s.value.vectorId == v.vectorId
    ensures UpdateFlow(v, Settle(r, now, checkedAt)) == NO_FLOW.(settled := Magnitude(r.components))
  {
    hide Magnitude, Text.Print;
    var zeros := Zeros(|r.components|);
    ZerosAddNothing(|r.components|);
    assert LossesCovered(r.components, zeros, zeros);
    assert Nets(r.components, zeros, zeros) == r.components;
    assert Credited(r.components, zeros) == zeros;
    assert Restored(v.components, r.components) == AddEach(v.components, r.components);
  }

  /** An accepted update of the one vector of a run. */
  lemma NextUpdate(env: Foreign, k: Kernel, hist: History, region: string, length: nat, n: nat, op: Op)
    returns (k': Kernel, hist': History, v: Vector)
    requires op.CertifyOp? || op.DrainOp? || op.ProjectOp? || op.ReconstructOp?
    requires PrintsHex(env) && InjectiveDigest(env) && Reached(env, k, hist, region, length, n) && n < 10
    requires op.id in k.states && ProperlyNamed(k.states[op.id], region, length)
    requires NewState(k.states[op.id], op).Ok? && FitsEvent(NewState(k.states[op.id], op).value.components)
    ensures UpdateStep(env, k, op).0 == k' && UpdateStep(env, k, op).1.Ok?
    ensures Reached(env, k', hist', region, length, n + 1)
    ensures v == NewState(k.states[op.id], op).value && k'.states == k.states[op.id := v]
    ensures ProperlyNamed(v, region, length) && GoodVector(v)
    ensures var f := UpdateFlow(k.states[op.id], op);
      && Live(k') == Live(k) - f.drained - f.projected + f.settled
      && Conservation.Escrow(k') == Conservation.Escrow(k) - Outstanding(k.states[op.id]) +
           if op.ProjectOp? then Magnitude(op.projected)
           else if op.ReconstructOp? then 0 else Outstanding(k.states[op.id])
  {
    hide UpdateStep, NewState, Inv, Timely, Numbered, PrintsHex, InjectiveDigest, GoodVector, Live, Magnitude,
      ProperlyNamed, LogInv, VectorStory, FitsEvent, Conservation.Escrow, UpdateFlow, Outstanding;
    UpdateAccepted(env, k, hist, region, length, op);
    k' := UpdateStep(env, k, op).0;
    hist' := UpdateKeeps(env, k, hist, op);
    v := NewState(k.states[op.id], op).value;
    InvStoresGood(k, hist);
    UpdateBalances(env, k, op);
    assert k'.states[op.id] == v && op.id in k'.states;
    VectorFacts(k', hist', op.id);
  }

  /** Origin and projection of the whole vector: both accepted, everything is in escrow. */
  lemma AllInEscrow(env: Foreign, r: OriginRequest, now: u64, checkedAt: u64)
    returns (k: Kernel, hist: History, v: Vector)
    requires Usable(env, r)
    ensures var first := OriginStep(env, EMPTY, r, now, checkedAt);
      && first.1.Ok? && UpdateStep(env, first.0, ProjectAll(r, now, checkedAt)).1.Ok?
      && k == UpdateStep(env, first.0, ProjectAll(r, now, checkedAt)).0
    ensures Reached(env, k, hist, r.spaceId, |r.vectorId|, 2) && r.vectorId in k.states && k.states[r.vectorId] == v
    ensures GoodVector(v) && ProperlyNamed(v, r.spaceId, |r.vectorId|) && v.version == 2
    ensures v.components == Zeros(|r.components|)
    ensures v.projection.Some? && v.projection.value.projected == r.components
    ensures Outstanding(v) == Magnitude(r.components)
    ensures Live(k) == 0 && Conservation.Escrow(k) == Magnitude(r.components)
  {
    hide OriginStep, UpdateStep, NewState, Inv, Timely, Numbered, PrintsHex, InjectiveDigest, GoodVector, Live,
      Magnitude, ProperlyNamed, LogInv, VectorStory, FitsEvent, Conservation.Escrow, Acceptable, ShortNames;
    EmptyReached(env, r.spaceId, |r.vectorId|);
    EmptyTotals();
    var k1, hist1, v1 := StartVector(env, EMPTY, map[], 0, r, now, checkedAt);
    VectorFacts(k1, hist1, r.vectorId);
    ProjectAllState(v1, r, now, checkedAt);
    k, hist, v := NextUpdate(env, k1, hist1, r.spaceId, |r.vectorId|, 1, ProjectAll(r, now, checkedAt));
  }

  /** Settled twice: all four operations are accepted, and the vector holds twice what was minted. */
  lemma SettledTwice(env: Foreign, r: OriginRequest, now: u64, checkedAt: u64)
    requires Usable(env, r) && CanReceive(r.components, r.components)
    ensures var k := UpdateStep(env, OriginStep(env, EMPTY, r, now, checkedAt).0, ProjectAll(r, now, checkedAt)).0;
      var once := UpdateStep(env, k, Settle(r, now, checkedAt));
      var twice := UpdateStep(env, once.0, Settle(r, now, checkedAt));
      && once.1.Ok? && twice.1.Ok? && Live(once.0) == Magnitude(r.components)
      && Live(twice.0) == 2 * Magnitude(r.components)
      && r.vectorId in twice.0.states && twice.0.states[r.vectorId].components == AddEach(r.components, r.components)
  {
    hide OriginStep, UpdateStep, NewState, Inv, Timely, Numbered, PrintsHex, InjectiveDigest, GoodVector, Live,
      Magnitude, ProperlyNamed, LogInv, VectorStory, FitsEvent, Conservation.Escrow, Acceptable, ShortNames,
      UpdateFlow, Outstanding;
    UsableFits(env, r);
    var k, hist, v := AllInEscrow(env, r, now, checkedAt);
    var op := Settle(r, now, checkedAt);
    assert AddEach(v.components, r.components) == r.components;
    SettleState(v, r, now, checkedAt);
    var k1, hist1, v1 := NextUpdate(env, k, hist, r.spaceId, |r.vectorId|, 2, op);
    SettleState(v1, r, now, checkedAt);
    var k2, hist2, v2 := NextUpdate(env, k1, hist1, r.spaceId, |r.vectorId|, 3, op);
  }

  /** Projected again: all three operations are accepted, and what was in escrow is neither live nor in escrow. */
  lemma EscrowForgotten(env: Foreign, r: OriginRequest, now: u64, checkedAt: u64)
    requires Usable(env, r)
    ensures var k := UpdateStep(env, OriginStep(env, EMPTY, r, now, checkedAt).0, ProjectAll(r, now, checkedAt)).0;
      var again := UpdateStep(env, k, ProjectOp(r.vectorId, Zeros(|r.components|), "escrow", now, checkedAt));
      && Live(k) + Conservation.Escrow(k) == Magnitude(r.components)
      && again.1.Ok? && Live(again.0) + Conservation.Escrow(again.0) == 0
  {
    hide OriginStep, UpdateStep, NewState, Inv, Timely, Numbered, PrintsHex, InjectiveDigest, GoodVector, Live,
      Magnitude, ProperlyNamed, LogInv, VectorStory, FitsEvent, Conservation.Escrow, Acceptable, ShortNames,
      Outstanding;
    var k, hist, v := AllInEscrow(env, r, now, checkedAt);
    var op := ProjectOp(r.vectorId, Zeros(|r.components|), "escrow", now, checkedAt);
    ProjectNothing(v, op);
    ZerosAddNothing(|r.components|);
    var k1, hist1, v1 := NextUpdate(env, k, hist, r.spaceId, |r.vectorId|, 2, op);
  }

  lemma ProjectNothing(v: Vector, op: Op)
    requires GoodVector(v) && op.ProjectOp? && v.components == Zeros(|v.components|) && op.projected == v.components
    requires v.version < 10
    ensures NewState(v, op).Ok? && FitsEvent(NewState(v, op).value.components)
  {
    hide Magnitude, Text.Print;
    assert SubEach(v.components, op.projected) == v.components;
    ZerosAddNothing(|v.components|);
  }
}
