/**
 * Operations that fail: what they leave behind, and when log and store still agree. States are
 * written before their events are built, so a refused operation may have changed the store.
 */
module Refusals {
  import opened Agreement
  import opened Base
  import opened Events
  import opened Exactness
  import opened Histories
  import opened Invariant
  import opened Machine
  import opened Region
  import opened Registry
  import opened Replay
  import opened Stored
  import opened Validation
  import opened Vectors
  import Text

  // ----- Operations that fail after they have written -----

  /** Both maps show the same to an event. */
  ghost predicate SameForms(a: map<string, Vector>, b: map<string, Vector>) {
    a.Keys == b.Keys && forall id :: id in a ==> ToEventState(a[id]) == ToEventState(b[id])
  }

  /**
   * When an operation fails without an event, the log agrees with what it wrote exactly when
   * nothing visible changed.
   */
  lemma SilentWriteAgreesIff(env: Foreign, k: Kernel, k': Kernel)
    requires Agrees(env, k) && k'.events == k.events
    ensures Agrees(env, k') <==> SameForms(k.states, k'.states)
  {
    hide Log, ReplayOf, Replayable, ToEventState;
    SameEventsSameLog(k, k');
  }

  /** A failing update of a known vector wrote exactly when its own checks had passed. */
  lemma FailedUpdateIs(env: Foreign, k: Kernel, op: Op)
    requires op.CertifyOp? || op.DrainOp? || op.ProjectOp? || op.ReconstructOp?
    requires op.id in k.states && UpdateStep(env, k, op).1.Err?
    ensures UpdateStep(env, k, op).0 ==
      match NewState(k.states[op.id], op) { case Err(_) => k case Ok(after) => Put(k, after) }
  {
    hide NewState, AdmitProblem, DraftTransition, Sealed, Log;
  }

  /** A failing update left the kernel as it was exactly when its vector is unknown or its own checks failed. */
  lemma FailedUpdateUnchangedIff(env: Foreign, k: Kernel, op: Op)
    requires op.CertifyOp? || op.DrainOp? || op.ProjectOp? || op.ReconstructOp?
    requires AllGood(k) && UpdateStep(env, k, op).1.Err?
    ensures UpdateStep(env, k, op).0 == k <==> op.id !in k.states || NewState(k.states[op.id], op).Err?
  {
    hide NewState, UpdateStep, GoodVector;
    if op.id in k.states {
      FailedUpdateIs(env, k, op);
      if NewState(k.states[op.id], op).Ok? {
        NewStateSucceeds(k.states[op.id], op);
        PutSame(k, NewState(k.states[op.id], op).value);
      }
    } else {
      UnknownUpdateIs(env, k, op);
    }
  }

  lemma UnknownUpdateIs(env: Foreign, k: Kernel, op: Op)
    requires op.CertifyOp? || op.DrainOp? || op.ProjectOp? || op.ReconstructOp?
    requires op.id !in k.states
    ensures UpdateStep(env, k, op).0 == k
  {
    hide NewState, EmitUpdate;
  }

  lemma NewStateKeepsId(v: Vector, op: Op)
    requires op.CertifyOp? || op.DrainOp? || op.ProjectOp? || op.ReconstructOp?
    requires GoodVector(v) && NewState(v, op).Ok?
    ensures NewState(v, op).value.vectorId == v.vectorId
  {
    hide GoodVector, NewState;
    NewStateSucceeds(v, op);
  }

  /** A failing update agrees with the log exactly when its own checks failed or it changed nothing visible. */
  lemma FailedUpdateAgreesIff(env: Foreign, k: Kernel, hist: History, op: Op)
    requires op.CertifyOp? || op.DrainOp? || op.ProjectOp? || op.ReconstructOp?
    requires Inv(k, hist) && Capacity(k) && op.id in k.states && UpdateStep(env, k, op).1.Err?
    ensures Agrees(env, UpdateStep(env, k, op).0) <==>
      var r := NewState(k.states[op.id], op);
      r.Err? || ToEventState(r.value) == ToEventState(k.states[op.id])
  {
    hide Inv, NewState, ToEventState, UpdateStep, Agrees, GoodVector, VectorStory, LogInv, RegionMap, Log, Succeeds;
    var v := k.states[op.id];
    VectorFacts(k, hist, op.id);
    FailedUpdateIs(env, k, op);
    InvAgrees(env, k, hist);
    SilentWriteAgreesIff(env, k, UpdateStep(env, k, op).0);
    if NewState(v, op).Ok? { NewStateKeepsId(v, op); }
  }

  // ----- Refused origins -----

  /** The origin requests whose state is written before their event is built. */
  ghost predicate Writes(env: Foreign, r: OriginRequest) {
    && HasProof(env, r.seed, r.nonce, r.difficulty) && r.components != [] && Magnitude(r.components) < U128_LIMIT
    && r.vectorId != "" && r.spaceId != "" && r.ownerPubkey != ""
  }

  lemma OriginStateIff(env: Foreign, r: OriginRequest, now: u64, checkedAt: u64)
    ensures OriginState(env, r, now, checkedAt).Ok? <==> Writes(env, r)
    ensures OriginState(env, r, now, checkedAt).Ok? ==>
      var v := OriginState(env, r, now, checkedAt).value;
      && v.vectorId == r.vectorId && v.spaceId == r.spaceId && v.ownerPubkey == r.ownerPubkey
      && v.components == r.components
      && v.vectorType.Origin? && v.typeMetadata == map[]
  {
    hide VerifyOrigin, HasProof, Magnitude, Text.Print;
    ProofMeans(env, r.seed, r.nonce, r.difficulty);
  }

  lemma FailedOriginIs(env: Foreign, k: Kernel, request: OriginRequest, now: u64, checkedAt: u64)
    requires OriginStep(env, k, request, now, checkedAt).1.Err?
    ensures OriginStep(env, k, request, now, checkedAt).0 ==
      match OriginState(env, request, now, checkedAt) { case Err(_) => k case Ok(v) => Put(k, v) }
  {
    hide OriginState, AdmitProblem, DraftTransition, Sealed, Log;
  }

  /** A refused origin left the kernel as it was exactly when it wrote nothing, or wrote what was there. */
  lemma FailedOriginUnchangedIff(env: Foreign, k: Kernel, request: OriginRequest, now: u64, checkedAt: u64)
    requires OriginStep(env, k, request, now, checkedAt).1.Err?
    ensures OriginStep(env, k, request, now, checkedAt).0 == k <==>
      !Writes(env, request)
      || (request.vectorId in k.states && Ok(k.states[request.vectorId]) == OriginState(env, request, now, checkedAt))
  {
    hide OriginState, OriginStep, Writes;
    FailedOriginIs(env, k, request, now, checkedAt);
    OriginStateIff(env, request, now, checkedAt);
    if Writes(env, request) { PutSame(k, OriginState(env, request, now, checkedAt).value); }
  }

  lemma PutSame(k: Kernel, v: Vector)
    ensures Put(k, v) == k <==> v.vectorId in k.states && k.states[v.vectorId] == v
  {
    assert v.vectorId in Put(k, v).states && Put(k, v).states[v.vectorId] == v;
    if v.vectorId in k.states && k.states[v.vectorId] == v {
      assert Put(k, v).states == k.states;
    }
  }

  /** The stored vector looks to an event like the one requested. */
  predicate LooksLike(v: Vector, r: OriginRequest) {
    v.vectorType.Origin? && v.components == r.components && v.ownerPubkey == r.ownerPubkey
  }

  /** A refused origin leaves log and store in agreement exactly when it wrote nothing, or nothing an event shows. */
  lemma FailedOriginAgreesIff(env: Foreign, k: Kernel, hist: History, request: OriginRequest, now: u64, checkedAt: u64)
    requires Inv(k, hist) && Capacity(k) && OriginStep(env, k, request, now, checkedAt).1.Err?
    ensures Agrees(env, OriginStep(env, k, request, now, checkedAt).0) <==>
      !Writes(env, request) || (request.vectorId in k.states && LooksLike(k.states[request.vectorId], request))
  {
    hide OriginState, OriginStep, Writes, Inv, Agrees, ToEventState, RegionMap, Log, FitsEvent, GoodVector, LogInv,
      VectorStory;
    FailedOriginIs(env, k, request, now, checkedAt);
    OriginStateIff(env, request, now, checkedAt);
    InvAgrees(env, k, hist);
    SilentWriteAgreesIff(env, k, OriginStep(env, k, request, now, checkedAt).0);
    if Writes(env, request) && request.vectorId in k.states {
      VectorFacts(k, hist, request.vectorId);
      StoredHasForm(k, hist, request.vectorId);
      PlainMetadata(k.states[request.vectorId]);
      FormIff(k.states[request.vectorId], OriginState(env, request, now, checkedAt).value);
    }
  }

  lemma PlainMetadata(v: Vector)
    requires GoodVector(v)
    ensures v.typeMetadata == map[]
  {
    hide ValidateState;
  }

  /** What the event form of a vector with plain metadata shows. */
  lemma FormIff(v: Vector, w: Vector)
    requires FitsEvent(v.components) && v.typeMetadata == map[] && w.typeMetadata == map[]
    ensures ToEventState(w) == ToEventState(v) <==>
      w.components == v.components && w.ownerPubkey == v.ownerPubkey && w.vectorType == v.vectorType
  {
    assert TypeTag(w.vectorType) == TypeTag(v.vectorType) <==> w.vectorType == v.vectorType;
  }

  // ----- Refused transfers -----

  /** Both states of a transfer are stored, the receiver's last. */
  ghost function TransferStored(k: Kernel, op: Op): Kernel
    requires op.TransferOp? && TransferWrites(k, op)
  {
    var sides := Sides(k, op);
    Put(Put(k, sides.0), sides.1)
  }

  /** The event of the sender is accepted. */
  ghost predicate SenderAccepted(env: Foreign, k: Kernel, op: Op)
    requires op.TransferOp? && TransferWrites(k, op)
  {
    var from := k.states[op.fromId];
    var sides := TransferStates(from, k.states[op.toId], op.amount, op.fromCheckedAt, op.toCheckedAt).value;
    EmitUpdate(env, TransferStored(k, op), from, sides.0, OperationType.Transfer, op.sentAt).1.Ok?
  }

  lemma EmitErrs(env: Foreign, k: Kernel, before: Vector, after: Vector, op: OperationType, time: u64)
    requires EmitUpdate(env, k, before, after, op, time).1.Err?
    ensures EmitUpdate(env, k, before, after, op, time).0 == k
  {
    hide DraftTransition, AdmitProblem, Sealed, Log, ParentsFor;
  }

  /** What a refused transfer leaves behind: nothing new, both states, or both states and the sender's event. */
  lemma FailedTransferIs(env: Foreign, k: Kernel, op: Op)
    requires op.TransferOp? && TransferStep(env, k, op).1.Err?
    ensures TransferStep(env, k, op).0 ==
      if !TransferWrites(k, op) then k
      else if !SenderAccepted(env, k, op) then TransferStored(k, op)
      else AfterSending(env, k, op)
  {
    hide TransferStates, EmitUpdate;
    if TransferWrites(k, op) {
      var from, to := k.states[op.fromId], k.states[op.toId];
      var sides := TransferStates(from, to, op.amount, op.fromCheckedAt, op.toCheckedAt).value;
      var stored := TransferStored(k, op);
      if !SenderAccepted(env, k, op) {
        EmitErrs(env, stored, from, sides.0, OperationType.Transfer, op.sentAt);
      } else {
        EmitErrs(env, AfterSending(env, k, op), to, sides.1, OperationType.Transfer, op.receivedAt);
      }
    }
  }

  /**
   * A refused transfer left the kernel as it was exactly when it wrote nothing, or wrote what was
   * there and no event.
   */
  lemma FailedTransferUnchangedIff(env: Foreign, k: Kernel, op: Op)
    requires op.TransferOp? && TransferStep(env, k, op).1.Err?
    ensures TransferStep(env, k, op).0 == k <==>
      !TransferWrites(k, op) || (!SenderAccepted(env, k, op) && TransferStored(k, op).states == k.states)
  {
    hide TransferStep, TransferWrites, TransferStates, Emit, Log, ToEventState, Named, CheckEvent;
    FailedTransferIs(env, k, op);
    if TransferWrites(k, op) && SenderAccepted(env, k, op) { SendingAdds(env, k, op); }
  }

  /** An accepted sender's event is new. */
  lemma SendingAdds(env: Foreign, k: Kernel, op: Op)
    requires op.TransferOp? && TransferWrites(k, op) && SenderAccepted(env, k, op)
    ensures AfterSending(env, k, op).events != k.events
    ensures AfterSending(env, k, op).states == TransferStored(k, op).states
  {
    hide TransferStates, Emit, Log, ToEventState, Named, CheckEvent;
    var from := k.states[op.fromId];
    var sides := TransferStates(from, k.states[op.toId], op.amount, op.fromCheckedAt, op.toCheckedAt).value;
    var stored := TransferStored(k, op);
    var parents := ParentsFor(Log(stored), sides.0.vectorId);
    var e := EmitAdds(env, stored, Some(from), sides.0, OperationType.Transfer, sides.0.version, op.sentAt, parents);
    assert e.eventHash in AfterSending(env, k, op).events;
  }

  predicate NoAmount(amount: seq<u128>) {
    forall i :: 0 <= i < |amount| ==> amount[i] == 0
  }

  /** What the event forms of both sides of a transfer show. */
  lemma SideForms(from: Vector, to: Vector, op: Op)
    requires op.TransferOp? && TransferStates(from, to, op.amount, op.fromCheckedAt, op.toCheckedAt).Ok?
    requires FitsEvent(from.components) && FitsEvent(to.components)
    ensures var sides := TransferStates(from, to, op.amount, op.fromCheckedAt, op.toCheckedAt).value;
      && (ToEventState(sides.0) == ToEventState(from) <==> NullTransfer(from, op.amount))
      && (ToEventState(sides.1) == ToEventState(to) <==> NullTransfer(to, op.amount))
      && (from == to ==> (ToEventState(sides.1) == ToEventState(sides.0) <==> NoAmount(op.amount)))
  {
    hide CertifyState, TransferOutcome;
    NullIffSame(from, to, op);
    ReceiverForm(from, to, op);
    if from == to { EqualSides(from, op); }
  }

  lemma ReceiverForm(from: Vector, to: Vector, op: Op)
    requires op.TransferOp? && TransferStates(from, to, op.amount, op.fromCheckedAt, op.toCheckedAt).Ok?
    requires FitsEvent(to.components)
    ensures var receiver := TransferStates(from, to, op.amount, op.fromCheckedAt, op.toCheckedAt).value.1;
      ToEventState(receiver) == ToEventState(to) <==> NullTransfer(to, op.amount)
  {
    hide CertifyState;
    var receiver := TransferStates(from, to, op.amount, op.fromCheckedAt, op.toCheckedAt).value.1;
    assert receiver.components == AddEach(to.components, op.amount);
    if NullTransfer(to, op.amount) {
      assert receiver.components == to.components;
    } else if to.vectorType == Standard {
      var i :| 0 <= i < |op.amount| && op.amount[i] != 0;
      assert to.components[i] < U64_LIMIT && receiver.components[i] != to.components[i];
    } else {
      assert TypeTag(Standard) != TypeTag(to.vectorType);
    }
  }

  lemma EqualSides(v: Vector, op: Op)
    requires op.TransferOp? && TransferStates(v, v, op.amount, op.fromCheckedAt, op.toCheckedAt).Ok?
    requires FitsEvent(v.components)
    ensures var sides := TransferStates(v, v, op.amount, op.fromCheckedAt, op.toCheckedAt).value;
      ToEventState(sides.1) == ToEventState(sides.0) <==> NoAmount(op.amount)
  {
    hide CertifyState;
    var sides := TransferStates(v, v, op.amount, op.fromCheckedAt, op.toCheckedAt).value;
    assert sides.0.components == SubEach(v.components, op.amount);
    assert sides.1.components == AddEach(v.components, op.amount);
    if NoAmount(op.amount) {
      assert sides.0.components == v.components == sides.1.components;
    } else {
      var i :| 0 <= i < |op.amount| && op.amount[i] != 0;
      assert v.components[i] < U64_LIMIT && sides.1.components[i] != sides.0.components[i];
    }
  }

  /** What an event of the first side shows has not changed, whatever was written. */
  ghost predicate RefusedSilently(env: Foreign, k: Kernel, op: Op)
    requires op.TransferOp? && TransferWrites(k, op)
  {
    var from, to := k.states[op.fromId], k.states[op.toId];
    var sides := TransferStates(from, to, op.amount, op.fromCheckedAt, op.toCheckedAt).value;
    if !SenderAccepted(env, k, op) then
      NullTransfer(from, op.amount) && NullTransfer(to, op.amount)
    else
      Retells(k, from, sides.0, OperationType.Transfer, op.sentAt)
      && if op.fromId != op.toId then NullTransfer(to, op.amount) else NoAmount(op.amount)
  }

  /**
   * A refused transfer leaves log and store in agreement exactly when it wrote nothing; or neither
   * event was accepted and both sides look unchanged; or the sender's event was, replay can tell it,
   * and the receiving side looks unchanged.
   */
  lemma FailedTransferAgreesIff(env: Foreign, k: Kernel, hist: History, op: Op)
    requires op.TransferOp? && Inv(k, hist) && Capacity(k) && TransferStep(env, k, op).1.Err?
    ensures Agrees(env, TransferStep(env, k, op).0) <==> !TransferWrites(k, op) || RefusedSilently(env, k, op)
  {
    hide TransferStep, TransferStates, Inv, Agrees, Capacity, SenderAccepted, ToEventState, Retells, NullTransfer,
      NoAmount, Log, LogInv, GoodVector, VectorStory, EmitUpdate;
    FailedTransferIs(env, k, op);
    InvAgrees(env, k, hist);
    CapacityIs(k);
    if TransferWrites(k, op) {
      var from, to := k.states[op.fromId], k.states[op.toId];
      VectorFacts(k, hist, op.fromId);
      VectorFacts(k, hist, op.toId);
      StoredHasForm(k, hist, op.fromId);
      StoredHasForm(k, hist, op.toId);
      SideForms(from, to, op);
      if !SenderAccepted(env, k, op) {
        StoredSilently(k, op);
        SilentWriteAgreesIff(env, k, TransferStored(k, op));
      } else {
        SentSilently(env, k, hist, op);
      }
    }
  }

  lemma StoredSilently(k: Kernel, op: Op)
    requires op.TransferOp? && TransferWrites(k, op) && k.states[op.fromId].vectorId == op.fromId
    requires k.states[op.toId].vectorId == op.toId
    ensures var from, to := k.states[op.fromId], k.states[op.toId];
      var sides := TransferStates(from, to, op.amount, op.fromCheckedAt, op.toCheckedAt).value;
      SameForms(k.states, TransferStored(k, op).states) <==>
        && (op.fromId != op.toId ==> ToEventState(sides.0) == ToEventState(from))
        && ToEventState(sides.1) == ToEventState(to)
  {
    hide ToEventState, TransferStates;
    var from, to := k.states[op.fromId], k.states[op.toId];
    SidesKeepIds(from, to, op);
    var stored := TransferStored(k, op).states;
    assert op.toId in stored && op.fromId in stored;
    assert forall id :: id in k.states && id != op.fromId && id != op.toId ==> stored[id] == k.states[id];
  }

  lemma SidesKeepIds(from: Vector, to: Vector, op: Op)
    requires op.TransferOp? && TransferStates(from, to, op.amount, op.fromCheckedAt, op.toCheckedAt).Ok?
    ensures var sides := TransferStates(from, to, op.amount, op.fromCheckedAt, op.toCheckedAt).value;
      sides.0.vectorId == from.vectorId && sides.1.vectorId == to.vectorId
  {
    hide CertifyState, ValidateState, SubEach, AddEach;
  }

  /** The kernel after the sender's event, seen as one whose receiving side was overwritten. */
  lemma SentSilently(env: Foreign, k: Kernel, hist: History, op: Op)
    requires op.TransferOp? && TransferWrites(k, op) && SenderAccepted(env, k, op) && Inv(k, hist) && Capacity(k)
    ensures var from, to := k.states[op.fromId], k.states[op.toId];
      var sides := TransferStates(from, to, op.amount, op.fromCheckedAt, op.toCheckedAt).value;
      Agrees(env, AfterSending(env, k, op)) <==>
        Retells(k, from, sides.0, OperationType.Transfer, op.sentAt)
        && ToEventState(sides.1) == ToEventState(if op.fromId != op.toId then to else sides.0)
  {
    hide TransferStates, Inv, Agrees, Capacity, ToEventState, Retells, Log, LogInv, GoodVector, VectorStory,
      EmitUpdate, Succeeds, Replayable, Told, Entities;
    var from, to := k.states[op.fromId], k.states[op.toId];
    var sides := TransferStates(from, to, op.amount, op.fromCheckedAt, op.toCheckedAt).value;
    VectorFacts(k, hist, op.fromId);
    VectorFacts(k, hist, op.toId);
    TransferStatesSucceed(from, to, op);
    var stored, sent := TransferStored(k, op), AfterSending(env, k, op);
    RetellsByEvents(k, stored, from, sides.0, OperationType.Transfer, op.sentAt);
    if Retells(k, from, sides.0, OperationType.Transfer, op.sentAt) {
      var mid := RecordExtends(env, stored, hist, from, sides.0, OperationType.Transfer, op.sentAt);
      var half := Put(k, sides.0).(events := sent.events);
      InvReplaces(k, hist, half, mid, sides.0);
      SameCapacity(k, hist, half, mid);
      InvAgrees(env, half, mid);
      CapacityIs(half);
      SilentWriteAgreesIff(env, half, sent);
      OverwrittenForms(half.states, sides.1);
    } else {
      RecordBreaks(env, stored, hist, from, sides.0, OperationType.Transfer, op.sentAt);
      Untold(env, sent, op.fromId);
      AgreesReplays(env, sent);
    }
  }

  lemma OverwrittenForms(states: map<string, Vector>, v: Vector)
    requires v.vectorId in states
    ensures SameForms(states, states[v.vectorId := v]) <==> ToEventState(v) == ToEventState(states[v.vectorId])
  {
    hide ToEventState;
    var states' := states[v.vectorId := v];
    assert v.vectorId in states';
  }

  /** Events of vectors leave the number of regions as it was. */
  lemma SameCapacity(k: Kernel, hist: History, k': Kernel, hist': History)
    requires Inv(k, hist) && Inv(k', hist') && hist'.Keys == hist.Keys && k'.states.Keys == k.states.Keys
    ensures Capacity(k') <==> Capacity(k)
  {
    hide Inv, RegionMap, Log;
    RegionsOfLog(k, hist);
    RegionsOfLog(k', hist');
    SameKeysSameSize(RegionMap(Log(k)), RegionMap(Log(k')));
  }

  lemma SameKeysSameSize(a: map<string, RegionState>, b: map<string, RegionState>)
    requires a.Keys == b.Keys
    ensures |a| == |b|
  {
    assert |a| == |a.Keys| && |b| == |b.Keys|;
  }

  // ----- Values an event cannot hold -----

  /** The log never agrees with a store that holds a component of 64 bits or more. */
  lemma OversizedDisagrees(env: Foreign, k: Kernel, id: string)
    requires id in k.states && !FitsEvent(k.states[id].components)
    ensures !Agrees(env, k)
  {
    hide Log, ReplayOf, Replayable;
  }

  lemma OversizedEmits(env: Foreign, k: Kernel, before: Option<Vector>, after: Vector, op: OperationType, clock: u64,
                       time: u64, parents: seq<string>)
    requires !FitsEvent(after.components)
    ensures Emit(env, k, before, after, op, clock, time, parents).1.Err?
    ensures Emit(env, k, before, after, op, clock, time, parents).0 == k
  {
    hide NextSequence, Log, FitsEvent;
  }

  /** An origin is stored before its components are converted: an oversized one is refused and stays. */
  lemma OversizedOriginStays(env: Foreign, k: Kernel, request: OriginRequest, now: u64, checkedAt: u64)
    requires OriginState(env, request, now, checkedAt).Ok? && !FitsEvent(request.components)
    ensures OriginStep(env, k, request, now, checkedAt).1.Err?
    ensures var k' := OriginStep(env, k, request, now, checkedAt).0;
      k' == Put(k, OriginState(env, request, now, checkedAt).value) && !Agrees(env, k')
  {
    OriginStateGood(env, request, now, checkedAt);
    var v := OriginState(env, request, now, checkedAt).value;
    hide OriginState, Emit, FitsEvent, Agrees;
    OversizedEmits(env, Put(k, v), None, v, OperationType.OriginCreate, v.version, v.createdAtMs, []);
    OversizedDisagrees(env, OriginStep(env, k, request, now, checkedAt).0, v.vectorId);
  }

  /** A reconstruction that settles to an oversized component is refused and stays as well. */
  lemma OversizedUpdateStays(env: Foreign, k: Kernel, op: Op)
    requires op.CertifyOp? || op.DrainOp? || op.ProjectOp? || op.ReconstructOp?
    requires op.id in k.states && NewState(k.states[op.id], op).Ok?
    requires !FitsEvent(NewState(k.states[op.id], op).value.components)
    ensures UpdateStep(env, k, op).1.Err? && UpdateStep(env, k, op).0 == Put(k, NewState(k.states[op.id], op).value)
    ensures !Agrees(env, UpdateStep(env, k, op).0)
  {
    var before, after := k.states[op.id], NewState(k.states[op.id], op).value;
    hide NewState, Emit, FitsEvent, Agrees, Log;
    var stored := Put(k, after);
    OversizedEmits(env, stored, Some(before), after, EventKind(op), after.version, after.updatedAtMs,
      ParentsFor(Log(stored), after.vectorId));
    OversizedDisagrees(env, stored, after.vectorId);
  }

  /** The receiving side of a transfer is stored before its event is built: an oversized one is refused and stays. */
  lemma OversizedTransferStays(env: Foreign, k: Kernel, op: Op)
    requires op.TransferOp? && TransferWrites(k, op)
    requires var receiver := Sides(k, op).1;
      !FitsEvent(receiver.components)
    ensures TransferStep(env, k, op).1.Err? && !Agrees(env, TransferStep(env, k, op).0)
    ensures TransferStep(env, k, op).0 ==
      if SenderAccepted(env, k, op) then AfterSending(env, k, op) else TransferStored(k, op)
  {
    hide TransferStates, Emit, FitsEvent, Agrees, Log, ParentsFor;
    var from, to := k.states[op.fromId], k.states[op.toId];
    var sides := TransferStates(from, to, op.amount, op.fromCheckedAt, op.toCheckedAt).value;
    var stored := Put(Put(k, sides.0), sides.1);
    var sent := EmitUpdate(env, stored, from, sides.0, OperationType.Transfer, op.sentAt).0;
    EmitKeepsStates(env, stored, Some(from), sides.0, OperationType.Transfer, sides.0.version, op.sentAt,
      ParentsFor(Log(stored), sides.0.vectorId));
    OversizedEmits(env, sent, Some(to), sides.1, OperationType.Transfer, sides.1.version, op.receivedAt,
      ParentsFor(Log(sent), sides.1.vectorId));
    OversizedDisagrees(env, TransferStep(env, k, op).0, sides.1.vectorId);
    FailedTransferIs(env, k, op);
  }

  /** A first operation that breaks the agreement of log and store. */
  lemma OversizedOriginExample(env: Foreign)
    ensures var request := OriginRequest("v", "owner", "space", [U64_LIMIT], "seed", 0, 0);
      OriginStep(env, EMPTY, request, 0, 0).1.Err? && "v" in OriginStep(env, EMPTY, request, 0, 0).0.states
      && !Agrees(env, OriginStep(env, EMPTY, request, 0, 0).0)
  {
    var request := OriginRequest("v", "owner", "space", [U64_LIMIT], "seed", 0, 0);
    assert Magnitude([U64_LIMIT]) == U64_LIMIT by { assert [U64_LIMIT][..0] == []; }
    assert !FitsEvent(request.components);
    assert OriginState(env, request, 0, 0).Ok? by { OriginExampleState(env, request); }
    hide OriginState, Agrees, FitsEvent;
    OversizedOriginStays(env, EMPTY, request, 0, 0);
    OriginStateGoodId(env, request);
  }

  lemma OriginExampleState(env: Foreign, request: OriginRequest)
    requires request.vectorId != "" && request.ownerPubkey != "" && request.spaceId != "" && request.difficulty == 0
    requires request.components != [] && Magnitude(request.components) < U128_LIMIT
    ensures OriginState(env, request, 0, 0).Ok?
  {
  }

  lemma OriginStateGoodId(env: Foreign, request: OriginRequest)
    requires OriginState(env, request, 0, 0).Ok?
    ensures OriginState(env, request, 0, 0).value.vectorId == request.vectorId
  {
    OriginStateGood(env, request, 0, 0);
  }
}
