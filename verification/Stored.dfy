/**
 * What every run stores. States are written before their events are built, so the store depends on
 * the operations alone, not on which events were accepted: nothing here assumes that a run is
 * admissible.
 */
module Stored {
  import opened Agreement
  import opened Base
  import opened Events
  import opened Invariant
  import opened Machine
  import opened Region
  import opened Vectors

  // ----- One operation -----

  /** An origin request that writes its vector, whether or not its event is accepted. */
  predicate StartsVector(env: Foreign, op: Op, id: string) {
    op.OriginOp? && op.request.vectorId == id && OriginState(env, op.request, op.now, op.checkedAt).Ok?
  }

  /** The store an operation leaves behind, whatever becomes of its events. */
  ghost function Written(env: Foreign, k: Kernel, op: Op): map<string, Vector> {
    match op
    case OriginOp(request, now, checkedAt) =>
      (match OriginState(env, request, now, checkedAt)
       case Err(_) => k.states
       case Ok(v) => Put(k, v).states)
    case TransferOp(_, _, _, _, _, _, _) =>
      if TransferWrites(k, op) then Put(Put(k, Sides(k, op).0), Sides(k, op).1).states else k.states
    case RegionOp(_, _, _) => k.states
    case CertifyOp(_, _, _) => UpdateWritten(k, op)
    case DrainOp(_, _, _, _) => UpdateWritten(k, op)
    case ProjectOp(_, _, _, _, _) => UpdateWritten(k, op)
    case ReconstructOp(_, _, _, _) => UpdateWritten(k, op)
  }

  ghost function UpdateWritten(k: Kernel, op: Op): map<string, Vector>
    requires op.CertifyOp? || op.DrainOp? || op.ProjectOp? || op.ReconstructOp?
  {
    if op.id in k.states && NewState(k.states[op.id], op).Ok? then Put(k, NewState(k.states[op.id], op).value).states
    else k.states
  }

  lemma EmitKeepsStates(env: Foreign, k: Kernel, before: Option<Vector>, after: Vector, op: OperationType, clock: u64,
                        time: u64, parents: seq<string>)
    ensures Emit(env, k, before, after, op, clock, time, parents).0.states == k.states
  {
    hide DraftTransition, AdmitProblem, Sealed;
  }

  lemma RegionKeepsStates(env: Foreign, k: Kernel, request: RegionRequest, actor: string, now: u64)
    ensures RegionStep(env, k, request, actor, now).0.states == k.states
  {
    hide AdmitProblem, Sealed, RegionTaken, RegionsListable, ValidateRequest, Log;
  }

  lemma UpdateWrites(env: Foreign, k: Kernel, op: Op)
    requires op.CertifyOp? || op.DrainOp? || op.ProjectOp? || op.ReconstructOp?
    ensures UpdateStep(env, k, op).0.states == UpdateWritten(k, op)
  {
    hide NewState, Emit, Log, ParentsFor;
    if op.id in k.states && NewState(k.states[op.id], op).Ok? {
      var v := k.states[op.id];
      var after := NewState(v, op).value;
      var stored := Put(k, after);
      EmitKeepsStates(env, stored, Some(v), after, EventKind(op), after.version, after.updatedAtMs,
        ParentsFor(Log(stored), after.vectorId));
    }
  }

  lemma TransferWritesSides(env: Foreign, k: Kernel, op: Op)
    requires op.TransferOp?
    ensures TransferStep(env, k, op).0.states == Written(env, k, op)
  {
    hide TransferStates, Emit, Log, ParentsFor;
    if TransferWrites(k, op) {
      var from, to := k.states[op.fromId], k.states[op.toId];
      var sides := Sides(k, op);
      var stored := Put(Put(k, sides.0), sides.1);
      var sent := EmitUpdate(env, stored, from, sides.0, OperationType.Transfer, op.sentAt).0;
      EmitKeepsStates(env, stored, Some(from), sides.0, OperationType.Transfer, sides.0.version, op.sentAt,
        ParentsFor(Log(stored), sides.0.vectorId));
      EmitKeepsStates(env, sent, Some(to), sides.1, OperationType.Transfer, sides.1.version, op.receivedAt,
        ParentsFor(Log(sent), sides.1.vectorId));
    }
  }

  lemma OriginWrites(env: Foreign, k: Kernel, op: Op)
    requires op.OriginOp?
    ensures OriginStep(env, k, op.request, op.now, op.checkedAt).0.states == Written(env, k, op)
  {
    hide OriginState, Emit;
    if OriginState(env, op.request, op.now, op.checkedAt).Ok? {
      var v := OriginState(env, op.request, op.now, op.checkedAt).value;
      EmitKeepsStates(env, Put(k, v), None, v, OperationType.OriginCreate, v.version, v.createdAtMs, []);
    }
  }

  /** The store after an operation does not depend on whether its events were accepted. */
  lemma StepWrites(env: Foreign, k: Kernel, op: Op)
    ensures Step(env, k, op).0.states == Written(env, k, op)
  {
    hide OriginStep, TransferStep, RegionStep, UpdateStep, UpdateWritten, TransferWrites, OriginState;
    match op
    case OriginOp(_, _, _) => OriginWrites(env, k, op);
    case TransferOp(_, _, _, _, _, _, _) => TransferWritesSides(env, k, op);
    case RegionOp(request, actor, now) => RegionKeepsStates(env, k, request, actor, now);
    case CertifyOp(_, _, _) => UpdateWrites(env, k, op);
    case DrainOp(_, _, _, _) => UpdateWrites(env, k, op);
    case ProjectOp(_, _, _, _, _) => UpdateWrites(env, k, op);
    case ReconstructOp(_, _, _, _) => UpdateWrites(env, k, op);
  }

  // ----- Stored vectors are validated and certified -----

  /** Every stored vector is certified, validated and stored under its own id. */
  ghost predicate AllGood(k: Kernel) {
    forall id :: id in k.states ==> GoodVector(k.states[id]) && k.states[id].vectorId == id
  }

  /** Every vector is still there, with its dimension unless an origin has written it anew. */
  ghost predicate KeepsDimensions(env: Foreign, k: Kernel, k': Kernel, op: Op) {
    forall id :: id in k.states ==>
      id in k'.states && (!StartsVector(env, op, id) ==> |k'.states[id].components| == |k.states[id].components|)
  }

  lemma UpdateStoresGood(env: Foreign, k: Kernel, op: Op)
    requires op.CertifyOp? || op.DrainOp? || op.ProjectOp? || op.ReconstructOp?
    requires AllGood(k)
    ensures AllGood(UpdateStep(env, k, op).0) && KeepsDimensions(env, k, UpdateStep(env, k, op).0, op)
    ensures UpdateStep(env, k, op).0.states.Keys == k.states.Keys
  {
    hide NewState, UpdateStep, GoodVector;
    UpdateWrites(env, k, op);
    if op.id in k.states && NewState(k.states[op.id], op).Ok? { NewStateSucceeds(k.states[op.id], op); }
  }

  lemma TransferStoresGood(env: Foreign, k: Kernel, op: Op)
    requires op.TransferOp? && AllGood(k)
    ensures AllGood(TransferStep(env, k, op).0) && KeepsDimensions(env, k, TransferStep(env, k, op).0, op)
    ensures TransferStep(env, k, op).0.states.Keys == k.states.Keys
  {
    hide TransferStates, TransferStep, GoodVector;
    TransferWritesSides(env, k, op);
    if TransferWrites(k, op) { TransferStatesSucceed(k.states[op.fromId], k.states[op.toId], op); }
  }

  lemma OriginStoresGood(env: Foreign, k: Kernel, op: Op)
    requires op.OriginOp? && AllGood(k)
    ensures var k', id := OriginStep(env, k, op.request, op.now, op.checkedAt).0, op.request.vectorId;
      && AllGood(k') && KeepsDimensions(env, k, k', op)
      && k'.states.Keys == k.states.Keys + (if StartsVector(env, op, id) then {id} else {})
      && (StartsVector(env, op, id) ==> |k'.states[id].components| == |op.request.components|)
  {
    hide OriginState, OriginStep, GoodVector;
    OriginWrites(env, k, op);
    if OriginState(env, op.request, op.now, op.checkedAt).Ok? {
      OriginStateGood(env, op.request, op.now, op.checkedAt);
    }
  }

  /** Every operation, on any kernel with good vectors and with any verdict, stores good vectors only. */
  lemma StepStoresGood(env: Foreign, k: Kernel, op: Op)
    requires AllGood(k)
    ensures AllGood(Step(env, k, op).0) && KeepsDimensions(env, k, Step(env, k, op).0, op)
    ensures forall id :: id in Step(env, k, op).0.states <==> id in k.states || StartsVector(env, op, id)
    ensures forall id :: StartsVector(env, op, id) ==>
      id in Step(env, k, op).0.states && |Step(env, k, op).0.states[id].components| == |op.request.components|
  {
    hide AllGood, KeepsDimensions, OriginStep, TransferStep, RegionStep, UpdateStep, OriginState;
    match op
    case OriginOp(_, _, _) => OriginStoresGood(env, k, op);
    case TransferOp(_, _, _, _, _, _, _) => TransferStoresGood(env, k, op);
    case RegionOp(request, actor, now) =>
      RegionKeepsStates(env, k, request, actor, now);
      SameStatesGood(env, k, RegionStep(env, k, request, actor, now).0, op);
    case CertifyOp(_, _, _) => UpdateStoresGood(env, k, op);
    case DrainOp(_, _, _, _) => UpdateStoresGood(env, k, op);
    case ProjectOp(_, _, _, _, _) => UpdateStoresGood(env, k, op);
    case ReconstructOp(_, _, _, _) => UpdateStoresGood(env, k, op);
  }

  lemma SameStatesGood(env: Foreign, k: Kernel, k': Kernel, op: Op)
    requires AllGood(k) && k'.states == k.states
    ensures AllGood(k') && KeepsDimensions(env, k, k', op)
  {
    hide GoodVector;
  }

  lemma InvStoresGood(k: Kernel, hist: History)
    requires Inv(k, hist)
    ensures AllGood(k)
  {
    hide Inv, LogInv, GoodVector, VectorStory;
    forall id | id in k.states ensures GoodVector(k.states[id]) && k.states[id].vectorId == id {
      VectorFacts(k, hist, id);
    }
  }

  // ----- Every run -----

  lemma {:induction false} RunStoresGood(env: Foreign, ops: seq<Op>)
    ensures AllGood(Run(env, ops))
  {
    hide GoodVector, Step;
    if ops != [] {
      RunStoresGood(env, ops[..|ops| - 1]);
      StepStoresGood(env, Run(env, ops[..|ops| - 1]), ops[|ops| - 1]);
    }
  }

  /** Certified above its threshold and admissible, with an escrow of its own dimension. */
  ghost predicate StoredSound(v: Vector) {
    && v.certification.certified && v.certification.threshold == 700
    && (v.certification.authRatio == 700 || v.certification.authRatio == 1000)
    && AcceptRecord(v.certification, DEFAULT_POLICY) && ValidateState(v).Ok?
    && (v.projection.Some? ==> |v.projection.value.projected| == |v.components|)
  }

  /** After every run, every stored vector is sound. */
  lemma RunStoresSound(env: Foreign, ops: seq<Op>, id: string)
    requires id in Run(env, ops).states
    ensures StoredSound(Run(env, ops).states[id]) && Run(env, ops).states[id].vectorId == id
  {
    hide Run;
    RunStoresGood(env, ops);
  }

  lemma RunNext(env: Foreign, ops: seq<Op>, op: Op)
    ensures Run(env, ops + [op]) == Step(env, Run(env, ops), op).0
  {
    hide Step;
    assert (ops + [op])[..|ops|] == ops;
  }

  /** A stored vector stays stored, with its dimension, until an origin under its id writes it anew. */
  lemma {:induction false} RunKeepsDimension(env: Foreign, ops: seq<Op>, more: seq<Op>, id: string)
    requires id in Run(env, ops).states && forall op :: op in more ==> !StartsVector(env, op, id)
    ensures id in Run(env, ops + more).states
    ensures |Run(env, ops + more).states[id].components| == |Run(env, ops).states[id].components|
    decreases |more|
  {
    hide Step, Run, StartsVector;
    if more == [] {
      assert ops + more == ops;
    } else {
      var front, op := more[..|more| - 1], more[|more| - 1];
      assert more == front + [op] && ops + more == (ops + front) + [op];
      RunKeepsDimension(env, ops, front, id);
      RunNext(env, ops + front, op);
      RunStoresGood(env, ops + front);
      StepStoresGood(env, Run(env, ops + front), op);
      assert op in more;
    }
  }

  /** The last operation of a run that wrote an origin under the id. */
  ghost predicate LastStart(env: Foreign, ops: seq<Op>, id: string, i: nat) {
    i < |ops| && StartsVector(env, ops[i], id) && forall j :: i < j < |ops| ==> !StartsVector(env, ops[j], id)
  }

  /** A vector is stored exactly when some origin wrote it, and has the dimension of the last one that did. */
  lemma {:induction false} DimensionIsLastOrigin(env: Foreign, ops: seq<Op>, id: string)
    ensures id in Run(env, ops).states <==> exists i: nat :: LastStart(env, ops, id, i)
    ensures forall i: nat :: LastStart(env, ops, id, i) ==>
      id in Run(env, ops).states && |Run(env, ops).states[id].components| == |ops[i].request.components|
  {
    hide Step, StartsVector;
    if ops != [] {
      var front, op := ops[..|ops| - 1], ops[|ops| - 1];
      DimensionIsLastOrigin(env, front, id);
      RunStoresGood(env, front);
      StepStoresGood(env, Run(env, front), op);
      StartIsOrigin(env, op, id);
      if StartsVector(env, op, id) {
        assert LastStart(env, ops, id, |front|);
      } else {
        forall i: nat ensures LastStart(env, ops, id, i) <==> LastStart(env, front, id, i) {
          if i < |front| { assert ops[i] == front[i]; }
        }
      }
    }
  }

  lemma StartIsOrigin(env: Foreign, op: Op, id: string)
    ensures StartsVector(env, op, id) ==> op.OriginOp?
  {
  }

  // ----- What this means for drains and reconstructions -----

  /**
   * After every run, a drain charges half the rate: never more than the exact half in total, and
   * within one unit of it in every component exactly when no component is above the cap of the
   * saturating product.
   */
  lemma DrainTakesHalf(env: Foreign, ops: seq<Op>, id: string, basisPoints: u16)
    requires id in Run(env, ops).states && basisPoints <= 10_000
    ensures var v, half: u16 := Run(env, ops).states[id], basisPoints / 2;
      var (fees, remaining) :=
        DrainOutcome(v.components, basisPoints, v.certification.authRatio, v.certification.threshold).value;
      && fees == Fees(v.components, half)
      && 10_000 * Magnitude(fees) <= Magnitude(v.components) * half
      && (WithinUnits(v.components, half) <==>
            forall i :: 0 <= i < |v.components| ==> BelowCap(v.components[i], half))
      && (WithinUnits(v.components, half) ==>
            Magnitude(v.components) * half < 10_000 * (Magnitude(fees) + |v.components|))
      && Magnitude(remaining) == Magnitude(v.components) - Magnitude(fees)
  {
    hide Magnitude, Run, WithinUnits, BelowCap;
    RunStoresSound(env, ops, id);
    var v := Run(env, ops).states[id];
    DrainFeeBound(v.components, basisPoints / 2);
    DrainConserves(v.components, basisPoints, v.certification.authRatio, v.certification.threshold);
  }

  /** After every run, a reconstruction only adds to existing components: it never appends one. */
  lemma ReconstructInPlace(env: Foreign, ops: seq<Op>, id: string, o: Outcome, now: u64)
    requires id in Run(env, ops).states && ReconstructOutcome(Run(env, ops).states[id], o, now).Ok?
    ensures var v := Run(env, ops).states[id];
      && v.projection.Some? && |v.projection.value.projected| == |o.gains| == |o.losses| == |v.components|
      && LossesCovered(v.projection.value.projected, o.gains, o.losses)
      && ReconstructOutcome(v, o, now).value.components ==
           AddEach(v.components, Nets(v.projection.value.projected, o.gains, o.losses))
  {
    hide LossesCovered, Run;
    RunStoresSound(env, ops, id);
    var v := Run(env, ops).states[id];
    var nets := Nets(v.projection.value.projected, o.gains, o.losses);
    assert Restored(v.components, nets) == AddEach(v.components, nets);
  }
}
