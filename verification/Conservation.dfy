/**
 * Where value comes from and where it goes: the total live magnitude of the store over whole runs,
 * and when value held in escrow survives.
 */
module Conservation {
  import opened Agreement
  import opened Base
  import opened Events
  import opened Invariant
  import opened Machine
  import opened Region
  import opened Stored
  import opened Validation
  import opened Vectors

  // ----- Totals over the store -----

  ghost function LiveAmounts(states: map<string, Vector>): map<string, int> {
    map id | id in states :: Magnitude(states[id].components)
  }

  /** The sum of all live components of all vectors. */
  ghost function Live(k: Kernel): int {
    Sum(LiveAmounts(k.states))
  }

  /** What a vector has in an escrow that has not been settled. */
  function Outstanding(v: Vector): int {
    if v.projection.Some? && v.projection.value.settlementAtMs.None? then Magnitude(v.projection.value.projected) else 0
  }

  ghost function EscrowAmounts(states: map<string, Vector>): map<string, int> {
    map id | id in states :: Outstanding(states[id])
  }

  ghost function Escrow(k: Kernel): int {
    Sum(EscrowAmounts(k.states))
  }

  function LiveAt(states: map<string, Vector>, id: string): int {
    if id in states then Magnitude(states[id].components) else 0
  }

  function EscrowAt(states: map<string, Vector>, id: string): int {
    if id in states then Outstanding(states[id]) else 0
  }

  /** Storing a vector moves both totals by the difference. */
  lemma PutMoves(states: map<string, Vector>, v: Vector)
    ensures Sum(LiveAmounts(states[v.vectorId := v])) ==
      Sum(LiveAmounts(states)) + Magnitude(v.components) - LiveAt(states, v.vectorId)
    ensures Sum(EscrowAmounts(states[v.vectorId := v])) ==
      Sum(EscrowAmounts(states)) + Outstanding(v) - EscrowAt(states, v.vectorId)
  {
    hide Magnitude, Outstanding, Sum;
    assert LiveAmounts(states[v.vectorId := v]) == LiveAmounts(states)[v.vectorId := Magnitude(v.components)];
    assert EscrowAmounts(states[v.vectorId := v]) == EscrowAmounts(states)[v.vectorId := Outstanding(v)];
    SumUpdate(LiveAmounts(states), v.vectorId, Magnitude(v.components));
    SumUpdate(EscrowAmounts(states), v.vectorId, Outstanding(v));
  }

  // ----- What an operation declares -----

  datatype Flow = Flow(minted: int, drained: int, projected: int, settled: int, gains: int, losses: int)

  const NO_FLOW := Flow(0, 0, 0, 0, 0, 0)

  function Add(a: Flow, b: Flow): Flow {
    Flow(a.minted + b.minted, a.drained + b.drained, a.projected + b.projected, a.settled + b.settled,
      a.gains + b.gains, a.losses + b.losses)
  }

  ghost predicate Settles(v: Vector, o: Outcome) {
    && v.projection.Some? && |v.projection.value.projected| == |o.gains| == |o.losses|
    && LossesCovered(v.projection.value.projected, o.gains, o.losses)
  }

  /** The flow of an update of `v`, were it to succeed. */
  ghost function UpdateFlow(v: Vector, op: Op): Flow
    requires op.CertifyOp? || op.DrainOp? || op.ProjectOp? || op.ReconstructOp?
  {
    match op
    case CertifyOp(_, _, _) => NO_FLOW
    case DrainOp(_, basisPoints, _, _) =>
      var rate := DrainRate(basisPoints, v.certification.authRatio, v.certification.threshold);
      NO_FLOW.(drained := Magnitude(Fees(v.components, rate)))
    case ProjectOp(_, projected, _, _, _) => NO_FLOW.(projected := Magnitude(projected))
    case ReconstructOp(_, o, _, _) =>
      if Settles(v, o) then
        NO_FLOW.(settled := Magnitude(Nets(v.projection.value.projected, o.gains, o.losses)),
                 gains := Magnitude(Credited(v.projection.value.projected, o.gains)), losses := Magnitude(o.losses))
      else NO_FLOW
  }

  /** The flow of an operation: nothing if it fails. */
  ghost function FlowOf(env: Foreign, k: Kernel, op: Op): Flow {
    if Step(env, k, op).1.Err? then NO_FLOW
    else
      match op
      case OriginOp(request, _, _) => NO_FLOW.(minted := Magnitude(request.components))
      case TransferOp(_, _, _, _, _, _, _) => NO_FLOW
      case RegionOp(_, _, _) => NO_FLOW
      case CertifyOp(id, _, _) => if id in k.states then UpdateFlow(k.states[id], op) else NO_FLOW
      case DrainOp(id, _, _, _) => if id in k.states then UpdateFlow(k.states[id], op) else NO_FLOW
      case ProjectOp(id, _, _, _, _) => if id in k.states then UpdateFlow(k.states[id], op) else NO_FLOW
      case ReconstructOp(id, _, _, _) => if id in k.states then UpdateFlow(k.states[id], op) else NO_FLOW
  }

  // ----- One vector -----

  /** The change of the live magnitude of one updated vector. */
  lemma UpdateMoves(v: Vector, op: Op)
    requires op.CertifyOp? || op.DrainOp? || op.ProjectOp? || op.ReconstructOp?
    requires GoodVector(v) && NewState(v, op).Ok? && FitsEvent(NewState(v, op).value.components)
    ensures var after, f := NewState(v, op).value, UpdateFlow(v, op);
      Magnitude(after.components) == Magnitude(v.components) - f.drained - f.projected + f.settled
  {
    hide Magnitude, CertifyState, ValidateState;
    match op
    case CertifyOp(_, _, _) =>
    case DrainOp(_, basisPoints, _, _) =>
      DrainConserves(v.components, basisPoints, v.certification.authRatio, v.certification.threshold);
    case ProjectOp(_, projected, _, _, _) =>
      MagnitudeSub(v.components, projected);
    case ReconstructOp(_, o, _, _) =>
      ReconstructConserves(v, Nets(v.projection.value.projected, o.gains, o.losses));
  }

  /** What an operation does to the escrow of its vector. */
  lemma UpdateEscrows(v: Vector, op: Op)
    requires op.CertifyOp? || op.DrainOp? || op.ProjectOp? || op.ReconstructOp?
    requires NewState(v, op).Ok?
    ensures Outstanding(NewState(v, op).value) ==
      if op.ProjectOp? then Magnitude(op.projected) else if op.ReconstructOp? then 0 else Outstanding(v)
  {
    hide Magnitude, CertifyState, ValidateState, DrainOutcome, LossesCovered, Restored;
  }

  // ----- One operation -----

  lemma EmitFits(env: Foreign, k: Kernel, before: Option<Vector>, after: Vector, op: OperationType, clock: u64,
                 time: u64, parents: seq<string>)
    requires Emit(env, k, before, after, op, clock, time, parents).1.Ok?
    ensures Emit(env, k, before, after, op, clock, time, parents).0.states == k.states && FitsEvent(after.components)
  {
    hide AdmitProblem, Sealed, NextSequence, Log;
  }

  lemma UpdateStores(env: Foreign, k: Kernel, op: Op)
    requires op.CertifyOp? || op.DrainOp? || op.ProjectOp? || op.ReconstructOp?
    requires AllGood(k) && UpdateStep(env, k, op).1.Ok?
    ensures op.id in k.states && GoodVector(k.states[op.id]) && NewState(k.states[op.id], op).Ok?
    ensures var after := NewState(k.states[op.id], op).value;
      && UpdateStep(env, k, op).0.states == k.states[op.id := after]
      && after.vectorId == op.id && FitsEvent(after.components)
  {
    UpdateStepIs(env, k, op);
    var before := k.states[op.id];
    NewStateSucceeds(before, op);
    hide NewState, UpdateStep, GoodVector, Emit, Log, FitsEvent;
    var after := NewState(before, op).value;
    var stored := Put(k, after);
    EmitFits(env, stored, Some(before), after, EventKind(op), after.version, after.updatedAtMs,
      ParentsFor(Log(stored), after.vectorId));
  }

  lemma TransferStores(env: Foreign, k: Kernel, op: Op) returns (sender: Vector, receiver: Vector)
    requires op.TransferOp? && AllGood(k) && TransferStep(env, k, op).1.Ok?
    ensures op.fromId in k.states && op.toId in k.states
    ensures TransferStep(env, k, op).0.states == k.states[op.fromId := sender][op.toId := receiver]
    ensures sender.vectorId == op.fromId && receiver.vectorId == op.toId
    ensures var from, to := k.states[op.fromId], k.states[op.toId];
      && Magnitude(sender.components) == Magnitude(from.components) - Magnitude(op.amount)
      && Magnitude(receiver.components) == Magnitude(to.components) + Magnitude(op.amount)
      && Outstanding(sender) == Outstanding(from) && Outstanding(receiver) == Outstanding(to)
  {
    hide TransferStep, TransferStates, GoodVector, Emit, Log, Succeeds, FitsEvent, Magnitude;
    TransferStepIs(env, k, op);
    var from, to := k.states[op.fromId], k.states[op.toId];
    var sides := TransferStates(from, to, op.amount, op.fromCheckedAt, op.toCheckedAt).value;
    sender, receiver := sides.0, sides.1;
    TransferStatesSucceed(from, to, op);
    var stored := Put(Put(k, sender), receiver);
    EmitFits(env, stored, Some(from), sender, OperationType.Transfer, sender.version, op.sentAt,
      ParentsFor(Log(stored), sender.vectorId));
    var sent := EmitUpdate(env, stored, from, sender, OperationType.Transfer, op.sentAt).0;
    EmitFits(env, sent, Some(to), receiver, OperationType.Transfer, receiver.version, op.receivedAt,
      ParentsFor(Log(sent), receiver.vectorId));
    TransferMoves(from, to, op);
  }

  lemma TransferMoves(from: Vector, to: Vector, op: Op)
    requires op.TransferOp? && TransferStates(from, to, op.amount, op.fromCheckedAt, op.toCheckedAt).Ok?
    requires FitsEvent(TransferStates(from, to, op.amount, op.fromCheckedAt, op.toCheckedAt).value.1.components)
    ensures var sides := TransferStates(from, to, op.amount, op.fromCheckedAt, op.toCheckedAt).value;
      && Magnitude(sides.0.components) == Magnitude(from.components) - Magnitude(op.amount)
      && Magnitude(sides.1.components) == Magnitude(to.components) + Magnitude(op.amount)
      && Outstanding(sides.0) == Outstanding(from) && Outstanding(sides.1) == Outstanding(to)
  {
    hide CertifyState, ValidateState, Magnitude;
    TransferConserves(from, to, op.amount);
  }

  /**
   * The operation destroys and invents nothing on its own: an origin overwrites no live value, and a
   * transfer to the same vector has no amount.
   */
  ghost predicate Declared(k: Kernel, op: Op) {
    && (op.OriginOp? ==> LiveAt(k.states, op.request.vectorId) == 0)
    && (op.TransferOp? && op.fromId == op.toId ==> Magnitude(op.amount) == 0)
  }

  /** A successful operation changes the live total by exactly its flow if and only if all of it is declared. */
  lemma StepBalancesIff(env: Foreign, k: Kernel, op: Op)
    requires AllGood(k) && Step(env, k, op).1.Ok?
    ensures var k', f := Step(env, k, op).0, FlowOf(env, k, op);
      Live(k') == Live(k) + f.minted - f.drained - f.projected + f.settled <==> Declared(k, op)
  {
    hide AllGood, UpdateStep, TransferStep, OriginStep, RegionStep, UpdateFlow, Magnitude, LiveAmounts;
    match op
    case OriginOp(request, now, checkedAt) => OriginBalances(env, k, request, now, checkedAt);
    case RegionOp(request, actor, now) => RegionKeepsStates(env, k, request, actor, now);
    case TransferOp(_, _, _, _, _, _, _) => TransferBalances(env, k, op);
    case CertifyOp(_, _, _) => UpdateBalances(env, k, op);
    case DrainOp(_, _, _, _) => UpdateBalances(env, k, op);
    case ProjectOp(_, _, _, _, _) => UpdateBalances(env, k, op);
    case ReconstructOp(_, _, _, _) => UpdateBalances(env, k, op);
  }

  /** What an operation must respect for the totals: a failure changes nothing, and a success is declared. */
  ghost predicate Conserving(env: Foreign, k: Kernel, op: Op) {
    if Step(env, k, op).1.Err? then Step(env, k, op).0 == k else Declared(k, op)
  }

  lemma StepBalances(env: Foreign, k: Kernel, op: Op)
    requires AllGood(k) && Conserving(env, k, op)
    ensures var k', f := Step(env, k, op).0, FlowOf(env, k, op);
      Live(k') == Live(k) + f.minted - f.drained - f.projected + f.settled
  {
    hide AllGood, Step, Declared, Live;
    if Step(env, k, op).1.Ok? { StepBalancesIff(env, k, op); } else { NoFlowOnFailure(env, k, op); }
  }

  lemma UpdateBalances(env: Foreign, k: Kernel, op: Op)
    requires op.CertifyOp? || op.DrainOp? || op.ProjectOp? || op.ReconstructOp?
    requires AllGood(k) && UpdateStep(env, k, op).1.Ok?
    ensures op.id in k.states
    ensures var k', f, v := UpdateStep(env, k, op).0, UpdateFlow(k.states[op.id], op), k.states[op.id];
      Live(k') == Live(k) - f.drained - f.projected + f.settled && f.minted == 0
      && Escrow(k') == Escrow(k) - Outstanding(v) +
           if op.ProjectOp? then Magnitude(op.projected) else if op.ReconstructOp? then 0 else Outstanding(v)
  {
    hide AllGood, UpdateStep, NewState, GoodVector, Magnitude, Nets, Fees, FitsEvent, LiveAmounts, EscrowAmounts,
      Outstanding;
    UpdateStores(env, k, op);
    var after := NewState(k.states[op.id], op).value;
    UpdateMoves(k.states[op.id], op);
    UpdateEscrows(k.states[op.id], op);
    PutMoves(k.states, after);
  }

  /**
   * A transfer between different vectors moves nothing in or out. One to the same vector adds its
   * amount, because the receiving side is the one stored.
   */
  lemma TransferBalances(env: Foreign, k: Kernel, op: Op)
    requires op.TransferOp? && AllGood(k) && TransferStep(env, k, op).1.Ok?
    ensures Live(TransferStep(env, k, op).0) == Live(k) + if op.fromId != op.toId then 0 else Magnitude(op.amount)
    ensures Escrow(TransferStep(env, k, op).0) == Escrow(k)
  {
    hide AllGood, TransferStep, Magnitude, LiveAmounts, EscrowAmounts, Outstanding;
    var sender, receiver := TransferStores(env, k, op);
    PutMoves(k.states, sender);
    PutMoves(k.states[op.fromId := sender], receiver);
  }

  lemma {:induction false} NothingMoves(amount: seq<u128>)
    requires forall i :: 0 <= i < |amount| ==> amount[i] == 0
    ensures Magnitude(amount) == 0
  {
    if amount != [] { NothingMoves(amount[..|amount| - 1]); }
  }

  /** An orderly transfer to the same vector has nothing to add. */
  lemma OrderlyMovesNothing(env: Foreign, k: Kernel, op: Op)
    requires op.TransferOp? && op.fromId == op.toId && TransferRetold(env, k, op)
    ensures Magnitude(op.amount) == 0
  {
    hide Retells, TransferStates, AfterSending, Magnitude;
    NothingMoves(op.amount);
  }

  /** An origin adds its components, in place of what its id held. */
  lemma OriginBalances(env: Foreign, k: Kernel, request: OriginRequest, now: u64, checkedAt: u64)
    requires OriginStep(env, k, request, now, checkedAt).1.Ok?
    ensures var k' := OriginStep(env, k, request, now, checkedAt).0;
      && Live(k') == Live(k) + Magnitude(request.components) - LiveAt(k.states, request.vectorId)
      && Escrow(k') == Escrow(k) - EscrowAt(k.states, request.vectorId)
  {
    hide OriginStep, OriginState, Magnitude, LiveAmounts, EscrowAmounts, GoodVector;
    var e := OriginAdds(env, k, request, now, checkedAt);
    OriginStateGood(env, request, now, checkedAt);
    NoEscrowYet(env, request, now, checkedAt);
    PutMoves(k.states, OriginState(env, request, now, checkedAt).value);
  }

  lemma NoEscrowYet(env: Foreign, request: OriginRequest, now: u64, checkedAt: u64)
    requires OriginState(env, request, now, checkedAt).Ok?
    ensures Outstanding(OriginState(env, request, now, checkedAt).value) == 0
  {
    hide VerifyOrigin, CertifyState, ValidateState;
  }

  lemma UnknownNotStored(k: Kernel, hist: History, id: string)
    requires Inv(k, hist) && Unknown(k, id)
    ensures id !in k.states
  {
    hide Inv, LogInv, LogOrdered, Log, GoodVector, VectorStory;
    LogInvOf(k, hist);
    LogIsOrdered(k.events, hist);
    LatestIs(k, hist, id);
  }

  // ----- Whole runs -----

  /** The total flow of a run. */
  ghost function TotalFlow(env: Foreign, ops: seq<Op>): Flow {
    if ops == [] then NO_FLOW
    else Add(TotalFlow(env, ops[..|ops| - 1]), FlowOf(env, Run(env, ops[..|ops| - 1]), ops[|ops| - 1]))
  }

  lemma EmptyTotals()
    ensures Live(EMPTY) == 0 && Escrow(EMPTY) == 0
  {
    assert LiveAmounts(map[]) == map[] && EscrowAmounts(map[]) == map[];
  }

  ghost predicate ConservingRun(env: Foreign, ops: seq<Op>) {
    ops == [] || (ConservingRun(env, ops[..|ops| - 1]) && Conserving(env, Run(env, ops[..|ops| - 1]), ops[|ops| - 1]))
  }

  /**
   * Over every conserving run, on any clock and whether or not it can be replayed, the live total is
   * what was minted, minus what was drained, minus what was projected, plus what was settled.
   * Transfers contribute nothing.
   */
  lemma {:induction false} RunBalances(env: Foreign, ops: seq<Op>)
    requires ConservingRun(env, ops)
    ensures var f := TotalFlow(env, ops); Live(Run(env, ops)) == f.minted - f.drained - f.projected + f.settled
  {
    hide AllGood, Step, Conserving, FlowOf, LiveAmounts;
    if ops == [] {
      EmptyTotals();
    } else {
      var front := ops[..|ops| - 1];
      RunBalances(env, front);
      RunStoresGood(env, front);
      StepBalances(env, Run(env, front), ops[|ops| - 1]);
    }
  }

  /** Admissible runs conserve. */
  lemma {:induction false} AdmissibleConserves(env: Foreign, ops: seq<Op>)
    requires PrintsHex(env) && AdmissibleRun(env, ops)
    ensures ConservingRun(env, ops)
  {
    if ops != [] {
      hide Inv, Step, Admissible, Conserving, PrintsHex;
      var front := ops[..|ops| - 1];
      AdmissibleConserves(env, front);
      var hist := RunKeeps(env, front);
      OrderlyConserves(env, Run(env, front), hist, ops[|ops| - 1]);
    }
  }

  lemma OrderlyConserves(env: Foreign, k: Kernel, hist: History, op: Op)
    requires Inv(k, hist) && Admissible(env, k, op)
    ensures Conserving(env, k, op)
  {
    hide Inv, Step, Unknown, TransferRetold, RegionId, Magnitude;
    if Step(env, k, op).1.Ok? {
      if op.OriginOp? { UnknownNotStored(k, hist, op.request.vectorId); }
      if op.TransferOp? && op.fromId == op.toId { OrderlyMovesNothing(env, k, op); }
    }
  }

  // ----- Value in escrow -----

  /** A projection finds no outstanding escrow, and a reconstruction finds its whole principal outstanding. */
  ghost predicate Alternates(k: Kernel, op: Op) {
    && (op.ProjectOp? && op.id in k.states ==> Outstanding(k.states[op.id]) == 0)
    && (op.ReconstructOp? && op.id in k.states && k.states[op.id].projection.Some? ==>
          Outstanding(k.states[op.id]) == Magnitude(k.states[op.id].projection.value.projected))
  }

  /** What a reconstruction settles is the principal plus credited gains minus losses. */
  lemma SettledFlow(v: Vector, op: Op)
    requires op.ReconstructOp? && NewState(v, op).Ok?
    ensures v.projection.Some?
    ensures var f := UpdateFlow(v, op);
      f.settled == Magnitude(v.projection.value.projected) + f.gains - f.losses && f.drained == f.projected == 0
  {
    hide CertifyState, ValidateState, Magnitude, Restored;
    NetsCredited(v.projection.value.projected, op.outcome.gains, op.outcome.losses);
  }

  lemma UpdateWealthIff(env: Foreign, k: Kernel, op: Op)
    requires op.CertifyOp? || op.DrainOp? || op.ProjectOp? || op.ReconstructOp?
    requires AllGood(k) && UpdateStep(env, k, op).1.Ok?
    ensures op.id in k.states
    ensures var k', f := UpdateStep(env, k, op).0, UpdateFlow(k.states[op.id], op);
      Live(k') + Escrow(k') == Live(k) + Escrow(k) - f.drained + f.gains - f.losses <==> Alternates(k, op)
  {
    hide AllGood, UpdateStep, NewState, Magnitude, Nets, Fees, Live, Escrow, Outstanding, LossesCovered, Settles,
      GoodVector;
    UpdateStores(env, k, op);
    UpdateBalances(env, k, op);
    if op.ReconstructOp? { SettledFlow(k.states[op.id], op); }
  }

  /** An origin overwrites no escrow either. */
  ghost predicate DeclaredWealth(k: Kernel, op: Op) {
    && (op.OriginOp? ==> LiveAt(k.states, op.request.vectorId) + EscrowAt(k.states, op.request.vectorId) == 0)
    && (op.TransferOp? && op.fromId == op.toId ==> Magnitude(op.amount) == 0)
    && Alternates(k, op)
  }

  /**
   * Live value and outstanding escrow together change by mint, fee, credited gain and loss alone
   * exactly when the operation is declared and projections and reconstructions alternate: projecting
   * again forgets the principal in escrow, and reconstructing again pays it out twice. Gains are
   * credited in full exactly when they fit (`Vectors.CreditedInFull`).
   */
  lemma StepWealthIff(env: Foreign, k: Kernel, op: Op)
    requires AllGood(k) && Step(env, k, op).1.Ok?
    ensures var k', f := Step(env, k, op).0, FlowOf(env, k, op);
      Live(k') + Escrow(k') == Live(k) + Escrow(k) + f.minted - f.drained + f.gains - f.losses <==>
        DeclaredWealth(k, op)
  {
    hide AllGood, UpdateStep, TransferStep, OriginStep, RegionStep, Magnitude, Live, Escrow, Outstanding, UpdateFlow;
    match op
    case OriginOp(request, now, checkedAt) => OriginBalances(env, k, request, now, checkedAt);
    case RegionOp(request, actor, now) => RegionWealth(env, k, request, actor, now);
    case TransferOp(_, _, _, _, _, _, _) => TransferBalances(env, k, op);
    case CertifyOp(_, _, _) => UpdateWealthIff(env, k, op); NothingMinted(k.states[op.id], op);
    case DrainOp(_, _, _, _) => UpdateWealthIff(env, k, op); NothingMinted(k.states[op.id], op);
    case ProjectOp(_, _, _, _, _) => UpdateWealthIff(env, k, op); NothingMinted(k.states[op.id], op);
    case ReconstructOp(_, _, _, _) => UpdateWealthIff(env, k, op); NothingMinted(k.states[op.id], op);
  }

  lemma NothingMinted(v: Vector, op: Op)
    requires op.CertifyOp? || op.DrainOp? || op.ProjectOp? || op.ReconstructOp?
    ensures UpdateFlow(v, op).minted == 0
  {
    hide Magnitude, Settles, Nets, Fees;
  }

  lemma RegionWealth(env: Foreign, k: Kernel, request: RegionRequest, actor: string, now: u64)
    ensures Live(RegionStep(env, k, request, actor, now).0) == Live(k)
    ensures Escrow(RegionStep(env, k, request, actor, now).0) == Escrow(k)
  {
    hide RegionStep, LiveAmounts, EscrowAmounts;
    RegionKeepsStates(env, k, request, actor, now);
  }

  /** Failing operations change nothing, successful ones are declared, and projections and reconstructions alternate. */
  ghost predicate AlternatingRun(env: Foreign, ops: seq<Op>) {
    ops == [] ||
    var front, op := ops[..|ops| - 1], ops[|ops| - 1];
    && AlternatingRun(env, front)
    && if Step(env, Run(env, front), op).1.Ok? then DeclaredWealth(Run(env, front), op)
       else Step(env, Run(env, front), op).0 == Run(env, front)
  }

  /** Over an alternating run, live value and outstanding escrow change by mint, fee, gain and loss alone. */
  lemma {:induction false} RunConservesWealth(env: Foreign, ops: seq<Op>)
    requires AlternatingRun(env, ops)
    ensures var f := TotalFlow(env, ops);
      Live(Run(env, ops)) + Escrow(Run(env, ops)) == f.minted - f.drained + f.gains - f.losses
  {
    hide AllGood, Step, Live, Escrow, DeclaredWealth;
    if ops == [] {
      EmptyTotals();
    } else {
      var front, op := ops[..|ops| - 1], ops[|ops| - 1];
      RunConservesWealth(env, front);
      RunStoresGood(env, front);
      if Step(env, Run(env, front), op).1.Ok? {
        StepWealthIff(env, Run(env, front), op);
      } else {
        NoFlowOnFailure(env, Run(env, front), op);
      }
    }
  }

  lemma NoFlowOnFailure(env: Foreign, k: Kernel, op: Op)
    requires Step(env, k, op).1.Err?
    ensures FlowOf(env, k, op) == NO_FLOW
  {
    hide Step;
  }
}
