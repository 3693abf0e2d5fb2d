/** The checks every event passes before it is stored (src/validation.rs) and origin proofs (src/origin.rs). */
module Validation {
  import opened Base
  import opened Bytes
  import opened Decoding
  import opened Errors
  import opened Events
  import opened Region
  import opened Serialization
  import opened Vectors
  import Text

  /** The bit patterns of the numbers in [0, 1], negative zero included. */
  predicate UnitBits(bits: u64) {
    bits <= ONE_BITS || bits == 0x8000_0000_0000_0000
  }

  /** The checks that do not involve hashes. */
  function CheckFields(e: VectorEvent): Result<(), KernelError> {
    if Text.Trim(e.eventId) == "" then Err(InvalidState("event_id is required"))
    else if Text.Trim(e.regionId) == "" then Err(InvalidState("region_id is required"))
    else if Text.Trim(e.entityId) == "" then Err(InvalidState("entity_id is required"))
    else if Text.Trim(e.actorPublicKey) == "" then Err(InvalidState("actor_public_key is required"))
    else if !UnitBits(e.authRatio) then Err(InvalidState("auth_ratio must be in [0, 1]"))
    else if |e.vectorBefore.components| != |e.vectorAfter.components| then Err(DimensionMismatch)
    else Ok(())
  }

  /** The checks on signatures and on region creations. */
  function CheckOrigin(env: Foreign, e: VectorEvent): Result<(), KernelError> {
    if IsRegionCreate(e) then
      if Text.Trim(e.signature) == "" then Err(InvalidState("region create event requires a signature"))
      else if e.parentHashes != [] then Err(InvalidState("region create event must be a root event"))
      else if e.operation != Other(REGION_CREATE) then
        Err(InvalidState("region create event has invalid operation tag"))
      else Ok(())
    else if e.signature != "" && !env.eventSigned(e) then Err(InvalidState("event signature verification failed"))
    else Ok(())
  }

  /** Both hashes are those of the event's content. */
  ghost predicate IsSealed(env: Foreign, e: VectorEvent) {
    e.payloadHash == env.blake3(PayloadBytes(e)) && e.eventHash == env.blake3(EventBytes(e))
  }

  ghost function CheckEvent(env: Foreign, e: VectorEvent): Result<(), KernelError> {
    if CheckFields(e).Err? then CheckFields(e)
    else if e.payloadHash != env.blake3(PayloadBytes(e)) then Err(InvalidState("payload_hash mismatch"))
    else if e.eventHash != env.blake3(EventBytes(e)) then Err(InvalidState("event_hash mismatch"))
    else CheckOrigin(env, e)
  }

  method ValidateEvent(env: Foreign, e: VectorEvent) returns (r: Result<(), KernelError>)
    ensures r == CheckEvent(env, e)
  {
    var fields := CheckFields(e);
    if fields.Err? {
      return fields;
    }
    var payload := CanonicalEventPayloadBytes(e);
    if e.payloadHash != env.blake3(payload) {
      return Err(InvalidState("payload_hash mismatch"));
    }
    var bytes := CanonicalEventBytes(e);
    if e.eventHash != env.blake3(bytes) {
      return Err(InvalidState("event_hash mismatch"));
    }
    r := CheckOrigin(env, e);
  }

  /** What the checks on signatures and region creations come to. */
  ghost predicate ProperlySigned(env: Foreign, e: VectorEvent) {
    if IsRegionCreate(e) then
      Text.Trim(e.signature) != "" && e.parentHashes == [] && e.operation.Other? && e.operation.name == "REGION_CREATE"
    else e.signature == "" || env.eventSigned(e)
  }

  /**
   * An event validates exactly when its names are not blank, its ratio lies between zero and one, it
   * keeps the dimension, it carries the digests of its own content, and it is properly signed.
   */
  lemma ValidatesIff(env: Foreign, e: VectorEvent)
    ensures CheckEvent(env, e).Ok? <==>
      && !Text.Blank(e.eventId) && !Text.Blank(e.regionId) && !Text.Blank(e.entityId) && !Text.Blank(e.actorPublicKey)
      && UnitBits(e.authRatio) && |e.vectorBefore.components| == |e.vectorAfter.components|
      && e.payloadHash == env.blake3(PayloadBytes(e)) && e.eventHash == env.blake3(EventBytes(e))
      && ProperlySigned(env, e)
  {
    hide Text.Trim, PayloadBytes, EventBytes, IsRegionCreate, UnitBits;
    Text.BlankIff(e.eventId);
    Text.BlankIff(e.regionId);
    Text.BlankIff(e.entityId);
    Text.BlankIff(e.actorPublicKey);
  }

  lemma SealedIsSealed(env: Foreign, e: VectorEvent)
    ensures IsSealed(env, Sealed(env, e))
  {
    var s := Sealed(env, e);
    assert PayloadBytes(s) == PayloadBytes(e);
    assert EventBytes(s) == EventBytes(e.(payloadHash := s.payloadHash));
  }

  /** With an injective digest, an event hash binds every field of a sealed event but its signature. */
  lemma SealBinds(env: Foreign, e: VectorEvent, f: VectorEvent)
    requires InjectiveDigest(env)
    requires IsSealed(env, e) && IsSealed(env, f) && EventFits(e) && EventFits(f) && e.eventHash == f.eventHash
    ensures e == f.(signature := e.signature)
  {
    hide EventFits, EventBytes, PayloadBytes;
    assert EventBytes(e) == EventBytes(f);
    EventSeparates(e, f, [], []);
  }

  // ----- Origin proofs -----

  function LeadingZeros(s: string): nat {
    if s != "" && s[0] == '0' then 1 + LeadingZeros(s[1..]) else 0
  }

  function OriginProofHash(env: Foreign, seed: string, nonce: u64): string {
    env.blake3(Utf8(seed) + Word(nonce))
  }

  function VerifyOrigin(env: Foreign, seed: string, nonce: u64, difficulty: u32): bool {
    LeadingZeros(OriginProofHash(env, seed, nonce)) >= difficulty
  }

  lemma {:induction false} LeadingZerosMeans(s: string, d: nat)
    ensures LeadingZeros(s) >= d <==> |s| >= d && forall i :: 0 <= i < d ==> s[i] == '0'
  {
    if d > 0 && s != "" && s[0] == '0' {
      LeadingZerosMeans(s[1..], d - 1);
      if |s| >= d { assert forall i :: 1 <= i < d ==> s[i] == s[1..][i - 1]; }
      if LeadingZeros(s) >= d {
        forall i | 0 <= i < d ensures s[i] == '0' {
          if i > 0 { assert s[1..][i - 1] == '0'; }
        }
      } else if |s| >= d {
        var i :| 0 <= i < d - 1 && s[1..][i] != '0';
        assert s[i + 1] != '0';
      }
    }
  }

  /** The digest of the seed and the eight bytes of the nonce starts with that many zeros. */
  ghost predicate HasProof(env: Foreign, seed: string, nonce: u64, difficulty: u32) {
    var h := env.blake3(Utf8(seed) + Word(nonce));
    |h| >= difficulty && forall i :: 0 <= i < difficulty ==> h[i] == '0'
  }

  lemma ProofMeans(env: Foreign, seed: string, nonce: u64, difficulty: u32)
    ensures VerifyOrigin(env, seed, nonce, difficulty) <==> HasProof(env, seed, nonce, difficulty)
  {
    hide Utf8, Word;
    LeadingZerosMeans(OriginProofHash(env, seed, nonce), difficulty);
  }

  datatype OriginRequest = OriginRequest(
    vectorId: string,
    ownerPubkey: string,
    spaceId: string,
    components: seq<u128>,
    seed: string,
    nonce: u64,
    difficulty: u32)

  function CreateOriginVector(env: Foreign, r: OriginRequest, now: u64): Result<Vector, KernelError> {
    if !VerifyOrigin(env, r.seed, r.nonce, r.difficulty) then Err(OriginRejected)
    else
      Ok(Vector(STATE_SCHEMA, r.vectorId, r.ownerPubkey, r.spaceId, VectorType.Origin, Active, r.components, map[],
        Certification(true, 1000, 700, now, None), None,
        Some(OriginProof(r.seed, r.nonce, r.difficulty, OriginProofHash(env, r.seed, r.nonce))), 1, now, now))
  }
}
