/** The kernel as a state machine: a store, a log, and the effect of each operation on both. */
module Machine {
  import opened Base
  import opened Errors
  import opened Events
  import opened Graph
  import opened Ordering
  import opened Region
  import opened Registry
  import opened Validation
  import opened Vectors
  import Text

  /** Stored vectors by id, and stored events by hash. */
  datatype Kernel = Kernel(states: map<string, Vector>, events: map<string, VectorEvent>)

  const EMPTY := Kernel(map[], map[])

  // ----- Reading the log -----

  lemma StoredKeys(events: map<string, VectorEvent>)
    ensures forall h :: h in Text.SortedKeys(events.Keys) <==> h in events
  {
    Text.SortedKeysSorted(events.Keys);
    assert forall h :: h in Text.SortedKeys(events.Keys) <==> h in Elems(Text.SortedKeys(events.Keys));
  }

  /** The stored events sorted by key. */
  ghost function Log(k: Kernel): seq<VectorEvent> {
    StoredKeys(k.events);
    SortEvents(LogKey, Lookup(k.events, Text.SortedKeys(k.events.Keys)))
  }

  /** The last event of an entity in a log. */
  function LatestOf(log: seq<VectorEvent>, id: string): Option<VectorEvent> {
    if log == [] then None
    else if log[|log| - 1].entityId == id then Some(log[|log| - 1])
    else LatestOf(log[..|log| - 1], id)
  }

  function ParentsFor(log: seq<VectorEvent>, id: string): seq<string> {
    match LatestOf(log, id)
    case None => []
    case Some(e) => [e.eventHash]
  }

  function CountOf(log: seq<VectorEvent>, id: string, region: string): nat {
    if log == [] then 0
    else
      var last := log[|log| - 1];
      CountOf(log[..|log| - 1], id, region) + if last.entityId == id && last.regionId == region then 1 else 0
  }

  function NextSequence(log: seq<VectorEvent>, id: string, region: string): Result<u64, KernelError> {
    var next := CountOf(log, id, region) + 1;
    if next < U64_LIMIT then Ok(next) else Err(InvalidState("event sequence overflow"))
  }

  /** One more than the clock of the last event, without wrapping. */
  function NextClock(log: seq<VectorEvent>): u64 {
    if log == [] then 0
    else
      var c := log[|log| - 1].logicalClock;
      if c + 1 < U64_LIMIT then c + 1 else c
  }

  // ----- Storing an event -----

  function AppendProblem(events: map<string, VectorEvent>, e: VectorEvent): Result<(), KernelError> {
    if e.eventId == "" then Err(InvalidState("attempted to append event with empty event_id"))
    else if e.eventHash == "" then Err(InvalidState("attempted to append event with empty event_hash"))
    else if e.eventHash in events then Err(InvalidState("duplicate canonical event_hash detected"))
    else if exists h :: h in events && events[h].eventId == e.eventId then
      Err(InvalidState("duplicate event_id detected"))
    else Ok(())
  }

  predicate ParentsStored(events: map<string, VectorEvent>, e: VectorEvent) {
    forall p :: p in e.parentHashes ==> p in events
  }

  ghost function AdmitProblem(env: Foreign, events: map<string, VectorEvent>, e: VectorEvent): Result<(), KernelError> {
    if CheckEvent(env, e).Err? then CheckEvent(env, e)
    else if !ParentsStored(events, e) then Err(InvalidState("orphan event references missing parent"))
    else AppendProblem(events, e)
  }

  /** Validates an event and stores it under its hash. */
  ghost function Admit(env: Foreign, k: Kernel, e: VectorEvent): (Kernel, Result<(), KernelError>) {
    if AdmitProblem(env, k.events, e).Err? then (k, AdmitProblem(env, k.events, e))
    else (k.(events := k.events[e.eventHash := e]), Ok(()))
  }

  // ----- Transition events -----

  /** The bit patterns of 0.7 and 1.0, the two ratios a valid state can have. */
  function RatioBits(ratio: u16): u64 {
    if ratio == 700 then 0x3FE6_6666_6666_6666 else ONE_BITS
  }

  function ZeroState(dimensions: nat, owner: string, tag: string): VectorState {
    VectorState(seq(dimensions, i => 0), owner, tag, map[])
  }

  function BeforeState(before: Option<Vector>, after: Vector): Result<VectorState, KernelError> {
    match before
    case Some(v) => ToEventState(v)
    case None => Ok(ZeroState(|after.components|, after.ownerPubkey, TypeTag(after.vectorType)))
  }

  /** The unsealed event that records the change from `before` to `after`. */
  function DraftTransition(log: seq<VectorEvent>, before: Option<Vector>, after: Vector, op: OperationType,
                           clock: u64, time: u64, parents: seq<string>): Result<VectorEvent, KernelError> {
    var vectorBefore :- BeforeState(before, after);
    var vectorAfter :- ToEventState(after);
    var sequence :- NextSequence(log, after.vectorId, after.spaceId);
    Ok(VectorEvent(EventId(after.vectorId, after.spaceId, op, clock, sequence), parents,
      after.spaceId, after.vectorId, op,
      vectorBefore, vectorAfter, RatioBits(after.certification.authRatio), after.certification.certified,
      after.ownerPubkey, clock, time, "", "", ""))
  }

  ghost function Emit(env: Foreign, k: Kernel, before: Option<Vector>, after: Vector, op: OperationType,
                      clock: u64, time: u64, parents: seq<string>): (Kernel, Result<(), KernelError>) {
    match DraftTransition(Log(k), before, after, op, clock, time, parents)
    case Err(error) => (k, Err(error))
    case Ok(draft) => Admit(env, k, Sealed(env, draft))
  }

  ghost function Put(k: Kernel, v: Vector): Kernel {
    k.(states := k.states[v.vectorId := v])
  }

  /** Records a change behind the latest event of its vector. */
  ghost function EmitUpdate(env: Foreign, k: Kernel, before: Vector, after: Vector, op: OperationType, time: u64)
    : (Kernel, Result<(), KernelError>)
  {
    Emit(env, k, Some(before), after, op, after.version, time, ParentsFor(Log(k), after.vectorId))
  }

  // ----- The operations -----

  datatype Op =
    | CertifyOp(id: string, checkedAt: u64, now: u64)
    | OriginOp(request: OriginRequest, now: u64, checkedAt: u64)
    | TransferOp(fromId: string, toId: string, amount: seq<u128>, fromCheckedAt: u64, toCheckedAt: u64,
                 sentAt: u64, receivedAt: u64)
    | DrainOp(id: string, basisPoints: u16, checkedAt: u64, now: u64)
    | ProjectOp(id: string, projected: seq<u128>, escrowId: string, now: u64, checkedAt: u64)
    | ReconstructOp(id: string, outcome: Outcome, now: u64, checkedAt: u64)
    | RegionOp(region: RegionRequest, actor: string, now: u64)

  function Find(k: Kernel, id: string): Result<Vector, KernelError> {
    if id in k.states then Ok(k.states[id]) else Err(VectorNotFound)
  }

  /** Recertifies a state and checks it. */
  function Certified(v: Vector, checkedAt: u64): Result<Vector, KernelError> {
    var c :- CertifyState(v, true, true, checkedAt);
    var after := v.(certification := c);
    var _ :- ValidateState(after);
    Ok(after)
  }

  /** Recertifies a state, moves it to its next version and checks it. */
  function Bumped(v: Vector, checkedAt: u64, now: u64): Result<Vector, KernelError> {
    var c :- CertifyState(v, true, true, checkedAt);
    if v.version + 1 >= U64_LIMIT then Err(Panicked)
    else
      var after := v.(certification := c, updatedAtMs := now, version := v.version + 1);
      var _ :- ValidateState(after);
      Ok(after)
  }

  /** The state a single-vector operation is about to store. */
  ghost function NewState(v: Vector, op: Op): Result<Vector, KernelError>
    requires op.CertifyOp? || op.DrainOp? || op.ProjectOp? || op.ReconstructOp?
  {
    match op
    case CertifyOp(_, checkedAt, now) =>
      Bumped(v, checkedAt, now)
    case DrainOp(_, basisPoints, checkedAt, now) =>
      var (_, remaining) :-
        DrainOutcome(v.components, basisPoints, v.certification.authRatio, v.certification.threshold);
      Bumped(v.(components := remaining), checkedAt, now)
    case ProjectOp(_, projected, escrowId, now, checkedAt) =>
      var after :- ProjectOutcome(v, projected, escrowId, now);
      Certified(after, checkedAt)
    case ReconstructOp(_, outcome, now, checkedAt) =>
      var after :- ReconstructOutcome(v, outcome, now);
      Certified(after, checkedAt)
  }

  function EventKind(op: Op): OperationType
    requires op.CertifyOp? || op.DrainOp? || op.ProjectOp? || op.ReconstructOp?
  {
    match op
    case CertifyOp(_, _, _) => OperationType.Certify
    case DrainOp(_, _, _, _) => OperationType.Drain
    case ProjectOp(_, _, _, _, _) => OperationType.Project
    case ReconstructOp(_, _, _, _) => OperationType.Reconstruct
  }

  ghost function UpdateStep(env: Foreign, k: Kernel, op: Op): (Kernel, Result<(), KernelError>)
    requires op.CertifyOp? || op.DrainOp? || op.ProjectOp? || op.ReconstructOp?
  {
    match Find(k, op.id)
    case Err(error) => (k, Err(error))
    case Ok(v) =>
      match NewState(v, op)
      case Err(error) => (k, Err(error))
      case Ok(after) => EmitUpdate(env, Put(k, after), v, after, EventKind(op), after.updatedAtMs)
  }

  function OriginState(env: Foreign, request: OriginRequest, now: u64, checkedAt: u64): Result<Vector, KernelError> {
    var v :- CreateOriginVector(env, request, now);
    var _ :- ValidateState(v);
    Certified(v, checkedAt)
  }

  ghost function OriginStep(env: Foreign, k: Kernel, request: OriginRequest, now: u64, checkedAt: u64)
    : (Kernel, Result<(), KernelError>)
  {
    match OriginState(env, request, now, checkedAt)
    case Err(error) => (k, Err(error))
    case Ok(v) => Emit(env, Put(k, v), None, v, OperationType.OriginCreate, v.version, v.createdAtMs, [])
  }

  /** Both sides of a transfer, recertified and checked before either is stored. */
  function TransferStates(from: Vector, to: Vector, amount: seq<u128>, fromCheckedAt: u64, toCheckedAt: u64)
    : Result<(Vector, Vector), KernelError>
  {
    var (sender, receiver) :- TransferOutcome(from, to, amount);
    var fromCert :- CertifyState(sender, true, true, fromCheckedAt);
    var toCert :- CertifyState(receiver, true, true, toCheckedAt);
    var sender', receiver' := sender.(certification := fromCert), receiver.(certification := toCert);
    var _ :- ValidateState(sender');
    var _ :- ValidateState(receiver');
    Ok((sender', receiver'))
  }

  /** The transfers whose states are written before their events are built. */
  predicate TransferWrites(k: Kernel, op: Op)
    requires op.TransferOp?
  {
    op.fromId in k.states && op.toId in k.states
    && TransferStates(k.states[op.fromId], k.states[op.toId], op.amount, op.fromCheckedAt, op.toCheckedAt).Ok?
  }

  /** The states that such a transfer writes. */
  function Sides(k: Kernel, op: Op): (Vector, Vector)
    requires op.TransferOp? && TransferWrites(k, op)
  {
    TransferStates(k.states[op.fromId], k.states[op.toId], op.amount, op.fromCheckedAt, op.toCheckedAt).value
  }

  ghost function TransferStep(env: Foreign, k: Kernel, op: Op): (Kernel, Result<(), KernelError>)
    requires op.TransferOp?
  {
    match Find(k, op.fromId)
    case Err(error) => (k, Err(error))
    case Ok(from) =>
      match Find(k, op.toId)
      case Err(error) => (k, Err(error))
      case Ok(to) =>
        match TransferStates(from, to, op.amount, op.fromCheckedAt, op.toCheckedAt)
        case Err(error) => (k, Err(error))
        case Ok(sides) =>
          RecordTransfer(env, Put(Put(k, sides.0), sides.1), from, to, sides.0, sides.1, op.sentAt, op.receivedAt)
  }

  /** Both events of a transfer whose states are stored; the receiver's only if the sender's is accepted. */
  ghost function RecordTransfer(env: Foreign, k: Kernel, from: Vector, to: Vector, sender: Vector, receiver: Vector,
                                sentAt: u64, receivedAt: u64)
    : (Kernel, Result<(), KernelError>)
  {
    var sent := EmitUpdate(env, k, from, sender, OperationType.Transfer, sentAt);
    if sent.1.Err? then sent else EmitUpdate(env, sent.0, to, receiver, OperationType.Transfer, receivedAt)
  }

  /** The log lists a region under the given normalized name and prefix. */
  ghost predicate RegionTaken(log: seq<VectorEvent>, name: string, prefix: Option<string>) {
    exists id :: id in RegionMap(log) && MatchesKey(RegionMap(log)[id], name, prefix)
  }

  predicate MatchesKey(region: RegionState, name: string, prefix: Option<string>) {
    region.normalizedName == NormalizedName(name) && NormalizedPrefix(region.regionPrefix) == NormalizedPrefix(prefix)
  }

  /** Listing regions fails when a region creation cannot be read. */
  ghost predicate RegionsListable(log: seq<VectorEvent>) {
    forall e :: e in log && IsRegionCreate(e) ==> RegionFromEvent(e).Ok?
  }

  ghost function RegionStep(env: Foreign, k: Kernel, request: RegionRequest, actor: string, now: u64)
    : (Kernel, Result<(), KernelError>)
  {
    if ValidateRequest(request).Err? then (k, Err(ValidateRequest(request).error))
    else if !env.requestSigned(actor, request) then
      (k, Err(InvalidState("region request signature verification failed")))
    else if !RegionsListable(Log(k)) then (k, Err(InvalidState("unreadable region event")))
    else if RegionTaken(Log(k), request.regionName, request.regionPrefix) then
      (k, Err(InvalidState("region already exists for this lookup key")))
    else if Text.Trim(actor) == "" then (k, Err(InvalidState("actor_public_key cannot be empty")))
    else Admit(env, k, Sealed(env, GenesisDraft(env, request, actor, NextClock(Log(k)), now, 1)))
  }

  /** One operation: the kernel it leaves behind, whether it succeeds or not, and its verdict. */
  ghost function Step(env: Foreign, k: Kernel, op: Op): (Kernel, Result<(), KernelError>) {
    match op
    case OriginOp(request, now, checkedAt) => OriginStep(env, k, request, now, checkedAt)
    case TransferOp(_, _, _, _, _, _, _) => TransferStep(env, k, op)
    case RegionOp(request, actor, now) => RegionStep(env, k, request, actor, now)
    case CertifyOp(_, _, _) => UpdateStep(env, k, op)
    case DrainOp(_, _, _, _) => UpdateStep(env, k, op)
    case ProjectOp(_, _, _, _, _) => UpdateStep(env, k, op)
    case ReconstructOp(_, _, _, _) => UpdateStep(env, k, op)
  }

  /** The kernel after a run of operations from the empty store. */
  ghost function Run(env: Foreign, ops: seq<Op>): Kernel {
    if ops == [] then EMPTY else Step(env, Run(env, ops[..|ops| - 1]), ops[|ops| - 1]).0
  }
}
