/** What the kernel answers when it refuses an event, a region, an origin or a step of replay. */
module Answers {
  import opened Base
  import opened Errors
  import opened Events
  import opened Machine
  import opened Region
  import opened Replay
  import opened Serialization
  import opened Validation
  import opened Vectors
  import Text

  /** Why an event does not validate: names first, then ratio and shape, then the hashes, then signatures. */
  lemma ValidationAnswers(env: Foreign, e: VectorEvent)
    requires CheckEvent(env, e).Err?
    ensures CheckEvent(env, e).error ==
      if Text.Blank(e.eventId) then InvalidState("event_id is required")
      else if Text.Blank(e.regionId) then InvalidState("region_id is required")
      else if Text.Blank(e.entityId) then InvalidState("entity_id is required")
      else if Text.Blank(e.actorPublicKey) then InvalidState("actor_public_key is required")
      else if !UnitBits(e.authRatio) then InvalidState("auth_ratio must be in [0, 1]")
      else if |e.vectorBefore.components| != |e.vectorAfter.components| then DimensionMismatch
      else if e.payloadHash != env.blake3(PayloadBytes(e)) then InvalidState("payload_hash mismatch")
      else if e.eventHash != env.blake3(EventBytes(e)) then InvalidState("event_hash mismatch")
      else if !IsRegionCreate(e) then InvalidState("event signature verification failed")
      else if Text.Blank(e.signature) then InvalidState("region create event requires a signature")
      else if e.parentHashes != [] then InvalidState("region create event must be a root event")
      else InvalidState("region create event has invalid operation tag")
  {
    hide Text.Trim, Text.Blank, PayloadBytes, EventBytes, IsRegionCreate, UnitBits;
    Text.BlankIff(e.eventId);
    Text.BlankIff(e.regionId);
    Text.BlankIff(e.entityId);
    Text.BlankIff(e.actorPublicKey);
    Text.BlankIff(e.signature);
  }

  /** Why an event is not stored: an event that validates has an id, so the store's own check of ids never fires. */
  lemma StoreAnswers(env: Foreign, events: map<string, VectorEvent>, e: VectorEvent)
    requires AdmitProblem(env, events, e).Err?
    ensures AdmitProblem(env, events, e).error ==
      if CheckEvent(env, e).Err? then CheckEvent(env, e).error
      else if exists p :: p in e.parentHashes && p !in events then
        InvalidState("orphan event references missing parent")
      else if e.eventHash == "" then InvalidState("attempted to append event with empty event_hash")
      else if e.eventHash in events then InvalidState("duplicate canonical event_hash detected")
      else InvalidState("duplicate event_id detected")
  {
    hide Text.Trim, PayloadBytes, EventBytes, IsRegionCreate;
    if CheckEvent(env, e).Ok? {
      ValidatesIff(env, e);
      assert Text.Blank("");
    }
  }

  predicate TooBig(components: seq<u128>) {
    exists i :: 0 <= i < |components| && components[i] > 0xFFFF_FFFF_FFFF_FFFF
  }

  /** Why a change has no event: a component of the old or the new state, or the number of the event, is too big. */
  lemma EventAnswers(log: seq<VectorEvent>, before: Option<Vector>, after: Vector, op: OperationType, clock: u64,
                     time: u64, parents: seq<string>)
    ensures var r := DraftTransition(log, before, after, op, clock, time, parents);
      if TooBig(after.components) || (before.Some? && TooBig(before.value.components)) then
        r == Err(InvalidState("component value exceeds u64 canonical event limit"))
      else if CountOf(log, after.vectorId, after.spaceId) >= 0xFFFF_FFFF_FFFF_FFFF then
        r == Err(InvalidState("event sequence overflow"))
      else r.Ok?
  {
    hide EventId, CountOf, ToEventState, TooBig, RatioBits, BeforeState, NextSequence;
    FormAnswers(after);
    BeforeAnswers(before, after);
    NumberAnswers(log, after.vectorId, after.spaceId);
  }

  lemma FormAnswers(v: Vector)
    ensures ToEventState(v).Ok? <==> !TooBig(v.components)
    ensures ToEventState(v).Err? ==>
      ToEventState(v).error == InvalidState("component value exceeds u64 canonical event limit")
  {
  }

  lemma BeforeAnswers(before: Option<Vector>, after: Vector)
    ensures BeforeState(before, after).Err? <==> before.Some? && TooBig(before.value.components)
    ensures BeforeState(before, after).Err? ==>
      BeforeState(before, after).error == InvalidState("component value exceeds u64 canonical event limit")
  {
    hide ToEventState, TooBig, TypeTag;
    if before.Some? { FormAnswers(before.value); }
  }

  lemma NumberAnswers(log: seq<VectorEvent>, id: string, region: string)
    ensures NextSequence(log, id, region).Ok? <==> CountOf(log, id, region) < 0xFFFF_FFFF_FFFF_FFFF
    ensures NextSequence(log, id, region).Err? ==>
      NextSequence(log, id, region).error == InvalidState("event sequence overflow")
  {
    hide CountOf;
  }

  /** Why an origin fails its own checks. */
  lemma OriginAnswers(env: Foreign, r: OriginRequest, now: u64, checkedAt: u64)
    requires OriginState(env, r, now, checkedAt).Err?
    ensures OriginState(env, r, now, checkedAt).error ==
      if !HasProof(env, r.seed, r.nonce, r.difficulty) then OriginRejected
      else if r.components == [] then InvalidState("a vector must contain at least one component")
      else if r.ownerPubkey == "" || r.vectorId == "" || r.spaceId == "" then
        InvalidState("vector_id, owner_pubkey, and space_id are required")
      else Panicked
  {
    hide Magnitude, AuthRatio, Text.Print, VerifyOrigin, HasProof;
    ProofMeans(env, r.seed, r.nonce, r.difficulty);
  }

  /** Why a region request is not valid. */
  lemma RequestAnswers(r: RegionRequest)
    requires ValidateRequest(r).Err?
    ensures ValidateRequest(r).error ==
      InvalidState(
        if Text.Blank(r.regionName) then "region_name cannot be empty"
        else if r.section == 0 then "section must be greater than zero"
        else if Text.Blank(r.triggerEventHash) then "trigger_event_hash cannot be empty"
        else if Text.Blank(r.creationProof) then "creation_proof cannot be empty"
        else if Text.Blank(r.requestSignature) then "request_signature cannot be empty"
        else if r.visibility.Public? then "public regions must not include an access_key"
        else "private regions require a non-empty access_key")
  {
    hide Text.Trim, Text.Blank;
    Text.BlankIff(r.regionName);
    Text.BlankIff(r.triggerEventHash);
    Text.BlankIff(r.creationProof);
    Text.BlankIff(r.requestSignature);
  }

  /** Why a valid, signed request creates no region although all stored creations can be read. */
  lemma RegionAnswers(env: Foreign, k: Kernel, op: Op)
    requires op.RegionOp? && ValidateRequest(op.region).Ok? && RegionsListable(Log(k))
    requires Step(env, k, op).1.Err?
    ensures Step(env, k, op).0 == k
    ensures var r, actor, error := op.region, op.actor, Step(env, k, op).1.error;
      if !env.requestSigned(actor, r) then error == InvalidState("region request signature verification failed")
      else if RegionTaken(Log(k), r.regionName, r.regionPrefix) then
        error == InvalidState("region already exists for this lookup key")
      else if Text.Blank(actor) then error == InvalidState("actor_public_key cannot be empty")
      else
        var creation := Sealed(env, GenesisDraft(env, r, actor, NextClock(Log(k)), op.now, 1));
        var problem := AdmitProblem(env, k.events, creation);
        problem.Err? && error == problem.error
  {
    hide Log, ValidateRequest, RegionsListable, RegionTaken, AdmitProblem, Sealed, GenesisDraft, NextClock, Text.Trim;
    Text.BlankIff(op.actor);
  }

  /** Why a region does not enter the registry. */
  lemma RegistryAnswers(env: Foreign, core: CoreState, region: RegionState)
    ensures var r := InsertRegion(env, core, region);
      if region.regionId in core.regions then r == Err(InvalidState("region already exists in core"))
      else if core.totalAuthRatioBps + region.authRatioBps > 0xFFFF_FFFF_FFFF_FFFF then
        r == Err(InvalidState("core auth ratio overflow"))
      else if core.version == 0xFFFF_FFFF_FFFF_FFFF then r == Err(InvalidState("core version overflow"))
      else
        && r.Ok? && r.value.regions == core.regions[region.regionId := region]
        && r.value.totalAuthRatioBps == core.totalAuthRatioBps + region.authRatioBps
        && r.value.version == core.version + 1
        && r.value.coreRoot == env.blake3(env.coreJson(r.value.regions, r.value.totalAuthRatioBps, r.value.version))
  {
  }

  /** Why an event cannot be applied: an origin of a known entity, an unknown entity, or another state than it left. */
  lemma ReplayAnswers(env: Foreign, state: map<string, VectorState>, core: CoreState, e: VectorEvent)
    requires !IsRegionCreate(e)
    ensures var r, known := ApplyEvent(env, state, core, e), e.entityId in state;
      if e.operation.OriginCreate? && known then r == Err(OriginExists(e.entityId))
      else if !e.operation.OriginCreate? && !known then r == Err(EntityMissing(e.entityId))
      else if !e.operation.OriginCreate? && state[e.entityId] != e.vectorBefore then
        r == Err(BeforeMismatch(e.entityId))
      else r == Ok((state[e.entityId := e.vectorAfter], core))
  {
    hide IsRegionCreate;
  }

  /** A region creation is applied exactly when the registry takes it, whatever its entity's state is. */
  lemma CreationAnswers(env: Foreign, state: map<string, VectorState>, core: CoreState, e: VectorEvent)
    requires IsRegionCreate(e)
    ensures var r, applied := ApplyEvent(env, state, core, e), ApplyRegionEvent(env, core, e);
      if applied.Err? then r == Err(BadRegion(applied.error))
      else r == Ok((state[e.entityId := e.vectorAfter], applied.value))
  {
    hide IsRegionCreate, ApplyRegionEvent;
  }
}
