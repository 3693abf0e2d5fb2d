/** Regions and the core registry (src/region.rs). */
module Region {
  import opened Base
  import opened Bytes
  import opened Errors
  import opened Events
  import opened Serialization
  import Text

  const REGION_CREATE := "REGION_CREATE"
  const REGION_TAG := "region"
  const DEFAULT_AUTH_RATIO_BPS: u64 := 1000

  datatype Visibility = Public | Private

  datatype RegionRequest = RegionRequest(
    regionName: string,
    regionPrefix: Option<string>,
    suggestedTitle: Option<string>,
    visibility: Visibility,
    section: u64,
    triggerEventHash: string,
    creationProof: string,
    accessKey: Option<string>,
    metadata: map<string, string>,
    requestSignature: string)

  datatype RegionState = RegionState(
    regionId: string,
    regionRoot: string,
    regionName: string,
    normalizedName: string,
    regionPrefix: Option<string>,
    suggestedTitle: Option<string>,
    visibility: Visibility,
    section: u64,
    authRatioBps: u64,
    creatorPublicKey: string,
    triggerEventHash: string,
    creationProofHash: string,
    accessKeyHash: Option<string>,
    createdAtMs: u64,
    updatedAtMs: u64,
    version: u64,
    metadata: map<string, string>)

  datatype CoreState = CoreState(
    regions: map<string, RegionState>,
    totalAuthRatioBps: u64,
    coreRoot: string,
    version: u64)

  /** The foreign code the kernel calls: the digest, the JSON printer and signature checks. */
  datatype Foreign = Foreign(
    blake3: seq<byte> -> string,
    coreJson: (map<string, RegionState>, int, int) -> seq<byte>,
    seedJson: (RegionRequest, string) -> seq<byte>,
    requestSigned: (string, RegionRequest) -> bool,
    eventSigned: VectorEvent -> bool)

  function HashHex(env: Foreign, s: string): string {
    env.blake3(Utf8(s))
  }

  // ----- Lookup keys -----

  function NormalizedName(name: string): string {
    Text.Lower(Text.Trim(name))
  }

  function NormalizedPrefix(prefix: Option<string>): Option<string> {
    match prefix
    case None => None
    case Some(p) =>
      var q := Text.Upper(Text.Trim(p));
      if q == "" then None else Some(q)
  }

  function OrEmpty(s: Option<string>): string {
    match s
    case None => ""
    case Some(v) => v
  }

  /** A metadata value that is absent or blank reads back as nothing. */
  function NonBlank(md: map<string, string>, key: string): Option<string> {
    if key in md && Text.Trim(md[key]) != "" then Some(md[key]) else None
  }

  // ----- Region creation events -----

  function VisibilityName(v: Visibility): string {
    match v
    case Public => "public"
    case Private => "private"
  }

  predicate IsRegionCreate(e: VectorEvent) {
    || (&& e.operation.OriginCreate? && "region_kind" in e.vectorAfter.metadata
        && e.vectorAfter.metadata["region_kind"] == REGION_TAG)
    || (e.operation.Other? && e.operation.name == REGION_CREATE)
  }

  function ValidateRequest(r: RegionRequest): Result<(), KernelError> {
    if Text.Trim(r.regionName) == "" then Err(InvalidState("region_name cannot be empty"))
    else if r.section == 0 then Err(InvalidState("section must be greater than zero"))
    else if Text.Trim(r.triggerEventHash) == "" then Err(InvalidState("trigger_event_hash cannot be empty"))
    else if Text.Trim(r.creationProof) == "" then Err(InvalidState("creation_proof cannot be empty"))
    else if Text.Trim(r.requestSignature) == "" then Err(InvalidState("request_signature cannot be empty"))
    else if r.visibility.Public? && r.accessKey.Some? then
      Err(InvalidState("public regions must not include an access_key"))
    else if r.visibility.Private? && Text.Trim(OrEmpty(r.accessKey)) == "" then
      Err(InvalidState("private regions require a non-empty access_key"))
    else Ok(())
  }

  /**
   * A request is valid exactly when name, trigger, proof and signature are not blank, the section is
   * not zero, and it has an access key exactly if it is private, one that is not blank.
   */
  lemma ValidRequestIff(r: RegionRequest)
    ensures ValidateRequest(r).Ok? <==>
      && !Text.Blank(r.regionName) && r.section > 0 && !Text.Blank(r.triggerEventHash) && !Text.Blank(r.creationProof)
      && !Text.Blank(r.requestSignature)
      && (match r.visibility
          case Public => r.accessKey.None?
          case Private => r.accessKey.Some? && !Text.Blank(r.accessKey.value))
  {
    hide Text.Trim;
    Text.BlankIff(r.regionName);
    Text.BlankIff(r.triggerEventHash);
    Text.BlankIff(r.creationProof);
    Text.BlankIff(r.requestSignature);
    Text.BlankIff(OrEmpty(r.accessKey));
    assert Text.Blank("");
  }

  function RegionId(env: Foreign, r: RegionRequest, actor: string, sequence: u64): string {
    var digest := env.blake3(env.seedJson(r, actor));
    var short := if |digest| < 24 then digest else digest[..24];
    var prefix := match NormalizedPrefix(r.regionPrefix) case None => "RGN" case Some(p) => p;
    prefix + "::rgn_" + short + "::" + Text.Print(sequence)
  }

  const META := "meta:"

  predicate IsMeta(k: string) {
    META <= k
  }

  /** The caller's metadata, stored under prefixed keys. */
  function Prefixed(md: map<string, string>): map<string, string> {
    map key | key in (set k | k in md :: META + k) :: md[key[|META|..]]
  }

  /** The caller's metadata, read back from prefixed keys. */
  function Stripped(md: map<string, string>): map<string, string> {
    assert forall k :: IsMeta(k) ==> META + k[|META|..] == k;
    map key | key in (set k | k in md && IsMeta(k) :: k[|META|..]) :: md[META + key]
  }

  function RequestMetadata(env: Foreign, r: RegionRequest, actor: string): map<string, string> {
    map[
      "region_kind" := REGION_TAG,
      "region_name" := r.regionName,
      "normalized_name" := NormalizedName(r.regionName),
      "region_prefix" := OrEmpty(NormalizedPrefix(r.regionPrefix)),
      "section" := Text.Print(r.section),
      "suggested_title" := OrEmpty(r.suggestedTitle),
      "visibility" := VisibilityName(r.visibility),
      "creator_public_key" := actor,
      "trigger_event_hash" := r.triggerEventHash,
      "creation_proof_hash" := HashHex(env, r.creationProof),
      "access_key_hash" := (match r.accessKey case None => "" case Some(k) => HashHex(env, k)),
      "initial_auth_ratio_bps" := Text.Print(DEFAULT_AUTH_RATIO_BPS),
      "core_registry" := "core",
      "default_auth_ratio" := "1.0"]
  }

  function GenesisMetadata(env: Foreign, r: RegionRequest, actor: string): map<string, string> {
    RequestMetadata(env, r, actor) + Prefixed(r.metadata)
  }

  /** The bit pattern of 1.0. */
  const ONE_BITS: u64 := 0x3FF0_0000_0000_0000

  function EventId(entity: string, region: string, op: OperationType, clock: u64, sequence: u64): string {
    entity + "::" + region + "::" + CanonicalName(op) + "::" + Text.Print(clock) + "::" + Text.Print(sequence)
  }

  /** Fills in the two hashes. */
  ghost function Sealed(env: Foreign, e: VectorEvent): VectorEvent {
    var p := e.(payloadHash := env.blake3(PayloadBytes(e)));
    p.(eventHash := env.blake3(EventBytes(p)))
  }

  method Seal(env: Foreign, e: VectorEvent) returns (r: VectorEvent)
    ensures r == Sealed(env, e)
  {
    var payload := CanonicalEventPayloadBytes(e);
    var p := e.(payloadHash := env.blake3(payload));
    var bytes := CanonicalEventBytes(p);
    r := p.(eventHash := env.blake3(bytes));
  }

  function GenesisDraft(env: Foreign, r: RegionRequest, actor: string, clock: u64, time: u64, sequence: u64)
    : VectorEvent
  {
    var id := RegionId(env, r, actor, sequence);
    VectorEvent(
      EventId(id, id, Other(REGION_CREATE), clock, sequence), [], id, id, Other(REGION_CREATE),
      VectorState([], "", REGION_TAG, map[]),
      VectorState([], "", REGION_TAG, GenesisMetadata(env, r, actor)),
      ONE_BITS, true, actor, clock, time, "", "", r.requestSignature)
  }

  method BuildRegionGenesisEvent(env: Foreign, r: RegionRequest, actor: string, clock: u64, time: u64, sequence: u64)
    returns (e: Result<VectorEvent, KernelError>)
    ensures e.Ok? <==> ValidateRequest(r).Ok?
    ensures e.Ok? ==> e.value == Sealed(env, GenesisDraft(env, r, actor, clock, time, sequence))
  {
    var _ :- ValidateRequest(r);
    var event := Seal(env, GenesisDraft(env, r, actor, clock, time, sequence));
    e := Ok(event);
  }

  // ----- Regions read back from the log -----

  function Required(md: map<string, string>, key: string): Result<string, KernelError> {
    if key in md then Ok(md[key]) else Err(InvalidState("missing " + key))
  }

  function RegionFromEvent(e: VectorEvent): (r: Result<RegionState, KernelError>)
    ensures r.Ok? ==> IsRegionCreate(e) && r.value.regionId == e.entityId && r.value.authRatioBps > 0
  {
    if !IsRegionCreate(e) then Err(InvalidState("event is not a region creation event"))
    else if Text.Trim(e.eventHash) == "" then Err(InvalidState("region event hash cannot be empty"))
    else
      var md := e.vectorAfter.metadata;
      var regionName :- Required(md, "region_name");
      var normalizedName :- Required(md, "normalized_name");
      var sectionText :- Required(md, "section");
      match Text.ParseU64(sectionText)
      case None => Err(InvalidState("invalid section"))
      case Some(section) =>
        match (if "initial_auth_ratio_bps" in md then Text.ParseU64(md["initial_auth_ratio_bps"])
               else Some(DEFAULT_AUTH_RATIO_BPS))
        case None => Err(InvalidState("invalid initial_auth_ratio_bps"))
        case Some(bps) =>
          if bps == 0 then Err(InvalidState("initial_auth_ratio_bps must be greater than zero"))
          else
            var visibilityText :- Required(md, "visibility");
            if visibilityText != "public" && visibilityText != "private" then
              Err(InvalidState("invalid region visibility"))
            else
              var creator :- Required(md, "creator_public_key");
              var trigger :- Required(md, "trigger_event_hash");
              var proof :- Required(md, "creation_proof_hash");
              Ok(RegionState(e.entityId, e.eventHash, regionName, normalizedName, NonBlank(md, "region_prefix"),
                NonBlank(md, "suggested_title"), if visibilityText == "public" then Public else Private,
                section, bps, creator, trigger,
                proof, NonBlank(md, "access_key_hash"), e.timestamp, e.timestamp, 1, Stripped(md)))
  }

  // ----- Writing a region and reading it back -----

  predicate IsHex(s: string) {
    s != "" && forall i :: 0 <= i < |s| ==> ('0' <= s[i] <= '9' || 'a' <= s[i] <= 'f')
  }

  /** Digests print as hexadecimal digits. */
  ghost predicate PrintsHex(env: Foreign) {
    forall bytes :: IsHex(env.blake3(bytes))
  }

  /** Different bytes have different digests. */
  ghost predicate InjectiveDigest(env: Foreign) {
    forall a, b :: env.blake3(a) == env.blake3(b) ==> a == b
  }

  lemma HexNotBlank(s: string)
    requires IsHex(s)
    ensures Text.Trim(s) == s && s != ""
  {
    assert Text.IsTrimmed(s);
    Text.TrimmedUnchanged(s);
  }

  lemma PrefixReadsBack(prefix: Option<string>)
    ensures Text.Trim(OrEmpty(NormalizedPrefix(prefix))) == OrEmpty(NormalizedPrefix(prefix))
    ensures NormalizedPrefix(NormalizedPrefix(prefix)) == NormalizedPrefix(prefix)
  {
    if prefix.Some? { Text.UpperTrimIdempotent(prefix.value); }
  }

  /** The caller's metadata survives among the built-in keys. */
  lemma MetadataReadsBack(env: Foreign, r: RegionRequest, actor: string)
    ensures Stripped(GenesisMetadata(env, r, actor)) == r.metadata
    ensures Extends(GenesisMetadata(env, r, actor), RequestMetadata(env, r, actor))
  {
    hide RequestMetadata;
    var base := RequestMetadata(env, r, actor);
    forall k | k in base ensures !IsMeta(k) {
      BuiltInKeys(env, r, actor, k);
    }
    PrefixedReadsBack(base, r.metadata);
  }

  lemma PrefixedReadsBack(base: map<string, string>, metadata: map<string, string>)
    requires forall k :: k in base ==> !IsMeta(k)
    ensures Stripped(base + Prefixed(metadata)) == metadata && Extends(base + Prefixed(metadata), base)
  {
    var md := base + Prefixed(metadata);
    forall k | k in Prefixed(metadata) ensures IsMeta(k) {}
    forall key ensures key in Stripped(md) <==> key in metadata {
      assert (META + key)[|META|..] == key;
      assert IsMeta(META + key);
      if key in metadata { assert META + key in Prefixed(metadata); }
    }
    forall key | key in metadata ensures Stripped(md)[key] == metadata[key] {
      assert (META + key)[|META|..] == key;
      assert META + key in Prefixed(metadata);
    }
  }

  lemma BuiltInKeys(env: Foreign, r: RegionRequest, actor: string, k: string)
    requires k in RequestMetadata(env, r, actor)
    ensures !IsMeta(k)
  {
    assert k[0] != 'm';
  }

  /** The region a creation request asks for. */
  ghost function RequestedRegion(env: Foreign, r: RegionRequest, actor: string, e: VectorEvent): RegionState {
    RegionState(e.entityId, e.eventHash, r.regionName, NormalizedName(r.regionName), NormalizedPrefix(r.regionPrefix),
      if Text.Trim(OrEmpty(r.suggestedTitle)) == "" then None else r.suggestedTitle,
      r.visibility, r.section, DEFAULT_AUTH_RATIO_BPS, actor, r.triggerEventHash, HashHex(env, r.creationProof),
      (match r.accessKey case None => None case Some(k) => Some(HashHex(env, k))),
      e.timestamp, e.timestamp, 1, r.metadata)
  }

  lemma IdentityEntries(env: Foreign, r: RegionRequest, actor: string)
    ensures var md := RequestMetadata(env, r, actor);
      && Required(md, "region_name") == Ok(r.regionName)
      && Required(md, "normalized_name") == Ok(NormalizedName(r.regionName))
      && Required(md, "visibility") == Ok(VisibilityName(r.visibility))
      && Required(md, "creator_public_key") == Ok(actor)
  {
  }

  lemma ProofEntries(env: Foreign, r: RegionRequest, actor: string)
    ensures var md := RequestMetadata(env, r, actor);
      && Required(md, "trigger_event_hash") == Ok(r.triggerEventHash)
      && Required(md, "creation_proof_hash") == Ok(HashHex(env, r.creationProof))
      && Required(md, "section") == Ok(Text.Print(r.section))
      && Required(md, "initial_auth_ratio_bps") == Ok(Text.Print(DEFAULT_AUTH_RATIO_BPS))
  {
  }

  lemma OptionalEntries(env: Foreign, r: RegionRequest, actor: string)
    requires PrintsHex(env)
    ensures var md := RequestMetadata(env, r, actor);
      "region_prefix" in md && "suggested_title" in md && "access_key_hash" in md
      && NonBlank(md, "region_prefix") == NormalizedPrefix(r.regionPrefix)
      && NonBlank(md, "suggested_title") ==
        (if Text.Trim(OrEmpty(r.suggestedTitle)) == "" then None else r.suggestedTitle)
      && NonBlank(md, "access_key_hash") == (match r.accessKey case None => None case Some(k) => Some(HashHex(env, k)))
  {
    PrefixReadsBack(r.regionPrefix);
    BlankAccessKey(env, r);
    var md := RequestMetadata(env, r, actor);
    assert md["region_prefix"] == OrEmpty(NormalizedPrefix(r.regionPrefix));
    assert md["suggested_title"] == OrEmpty(r.suggestedTitle);
    assert md["access_key_hash"] == (match r.accessKey case None => "" case Some(k) => HashHex(env, k));
  }

  lemma OperationOf(e: VectorEvent)
    requires e.operation == Other(REGION_CREATE)
    ensures IsRegionCreate(e)
  {
  }

  /** `md` answers every question `base` answers. */
  ghost predicate Extends(md: map<string, string>, base: map<string, string>) {
    forall k :: k in base ==> k in md && md[k] == base[k]
  }

  lemma ExtendedEntry(md: map<string, string>, base: map<string, string>, k: string)
    requires Extends(md, base)
    ensures Required(base, k).Ok? ==> Required(md, k) == Required(base, k)
    ensures k in base ==> NonBlank(md, k) == NonBlank(base, k)
  {
  }

  lemma EntriesReadBack(md: map<string, string>, env: Foreign, r: RegionRequest, actor: string)
    requires PrintsHex(env) && Extends(md, RequestMetadata(env, r, actor))
    ensures Required(md, "region_name") == Ok(r.regionName)
    ensures Required(md, "normalized_name") == Ok(NormalizedName(r.regionName))
    ensures Required(md, "visibility") == Ok(VisibilityName(r.visibility))
    ensures Required(md, "creator_public_key") == Ok(actor)
    ensures Required(md, "trigger_event_hash") == Ok(r.triggerEventHash)
    ensures Required(md, "creation_proof_hash") == Ok(HashHex(env, r.creationProof))
    ensures Required(md, "section") == Ok(Text.Print(r.section))
    ensures Required(md, "initial_auth_ratio_bps") == Ok(Text.Print(DEFAULT_AUTH_RATIO_BPS))
    ensures NonBlank(md, "region_prefix") == NormalizedPrefix(r.regionPrefix)
    ensures NonBlank(md, "suggested_title") ==
      (if Text.Trim(OrEmpty(r.suggestedTitle)) == "" then None else r.suggestedTitle)
    ensures NonBlank(md, "access_key_hash") ==
      (match r.accessKey case None => None case Some(k) => Some(HashHex(env, k)))
  {
    IdentityEntries(env, r, actor);
    ProofEntries(env, r, actor);
    OptionalEntries(env, r, actor);
    var base := RequestMetadata(env, r, actor);
    ExtendedEntry(md, base, "region_name");
    ExtendedEntry(md, base, "normalized_name");
    ExtendedEntry(md, base, "visibility");
    ExtendedEntry(md, base, "creator_public_key");
    ExtendedEntry(md, base, "trigger_event_hash");
    ExtendedEntry(md, base, "creation_proof_hash");
    ExtendedEntry(md, base, "section");
    ExtendedEntry(md, base, "initial_auth_ratio_bps");
    ExtendedEntry(md, base, "region_prefix");
    ExtendedEntry(md, base, "suggested_title");
    ExtendedEntry(md, base, "access_key_hash");
  }

  /** Reading an event whose metadata has every required entry. */
  lemma Assembled(e: VectorEvent, region: RegionState, sectionText: string, bpsText: string)
    requires IsRegionCreate(e) && Text.Trim(e.eventHash) != ""
    requires Text.ParseU64(sectionText) == Some(region.section) && Text.ParseU64(bpsText) == Some(region.authRatioBps)
    requires region.authRatioBps != 0
    requires Required(e.vectorAfter.metadata, "region_name") == Ok(region.regionName)
    requires Required(e.vectorAfter.metadata, "normalized_name") == Ok(region.normalizedName)
    requires Required(e.vectorAfter.metadata, "section") == Ok(sectionText)
    requires Required(e.vectorAfter.metadata, "initial_auth_ratio_bps") == Ok(bpsText)
    requires Required(e.vectorAfter.metadata, "visibility") == Ok(VisibilityName(region.visibility))
    requires Required(e.vectorAfter.metadata, "creator_public_key") == Ok(region.creatorPublicKey)
    requires Required(e.vectorAfter.metadata, "trigger_event_hash") == Ok(region.triggerEventHash)
    requires Required(e.vectorAfter.metadata, "creation_proof_hash") == Ok(region.creationProofHash)
    requires NonBlank(e.vectorAfter.metadata, "region_prefix") == region.regionPrefix
    requires NonBlank(e.vectorAfter.metadata, "suggested_title") == region.suggestedTitle
    requires NonBlank(e.vectorAfter.metadata, "access_key_hash") == region.accessKeyHash
    requires Stripped(e.vectorAfter.metadata) == region.metadata
    requires region.regionId == e.entityId && region.regionRoot == e.eventHash && region.version == 1
    requires region.createdAtMs == region.updatedAtMs == e.timestamp
    ensures RegionFromEvent(e) == Ok(region)
  {
  }

  lemma EventReadsBack(env: Foreign, r: RegionRequest, actor: string, e: VectorEvent)
    requires PrintsHex(env) && IsRegionCreate(e) && IsHex(e.eventHash)
    requires Extends(e.vectorAfter.metadata, RequestMetadata(env, r, actor))
    requires Stripped(e.vectorAfter.metadata) == r.metadata
    ensures RegionFromEvent(e) == Ok(RequestedRegion(env, r, actor, e))
  {
    EntriesReadBack(e.vectorAfter.metadata, env, r, actor);
    HexNotBlank(e.eventHash);
    Text.ParsePrint(r.section);
    Text.ParsePrint(DEFAULT_AUTH_RATIO_BPS);
    Assembled(e, RequestedRegion(env, r, actor, e), Text.Print(r.section), Text.Print(DEFAULT_AUTH_RATIO_BPS));
  }

  /** Replaying the genesis event of an accepted request yields exactly the requested region. */
  lemma GenesisReadsBack(env: Foreign, r: RegionRequest, actor: string, clock: u64, time: u64, sequence: u64)
    requires PrintsHex(env)
    ensures var e := Sealed(env, GenesisDraft(env, r, actor, clock, time, sequence));
      IsRegionCreate(e) && RegionFromEvent(e) == Ok(RequestedRegion(env, r, actor, e))
  {
    var e := Sealed(env, GenesisDraft(env, r, actor, clock, time, sequence));
    OperationOf(e);
    MetadataReadsBack(env, r, actor);
    EventReadsBack(env, r, actor, e);
  }

  lemma BlankAccessKey(env: Foreign, r: RegionRequest)
    requires PrintsHex(env)
    ensures r.accessKey.Some? ==> Text.Trim(HashHex(env, r.accessKey.value)) != ""
    ensures Text.Trim("") == ""
  {
    if r.accessKey.Some? { HexNotBlank(HashHex(env, r.accessKey.value)); }
  }

  // ----- Access -----

  function AuthorizeAccess(env: Foreign, region: RegionState, key: Option<string>): bool {
    || region.visibility.Public?
    || (region.accessKeyHash.Some? && key.Some? && HashHex(env, key.value) == region.accessKeyHash.value)
  }

  /** With an injective digest, a created region opens to everyone if public and to its own key alone if private. */
  lemma AccessByOwnKey(env: Foreign, r: RegionRequest, actor: string, e: VectorEvent, key: Option<string>)
    requires InjectiveDigest(env)
    requires ValidateRequest(r).Ok?
    ensures AuthorizeAccess(env, RequestedRegion(env, r, actor, e), key) <==> r.visibility.Public? || key == r.accessKey
  {
    if r.accessKey.Some? && key.Some? && HashHex(env, key.value) == HashHex(env, r.accessKey.value) {
      Utf8Injective(key.value, r.accessKey.value);
    }
  }

  // ----- The core registry -----

  function CoreRoot(env: Foreign, regions: map<string, RegionState>, total: int, version: int): string {
    env.blake3(env.coreJson(regions, total, version))
  }

  function EmptyCore(env: Foreign): CoreState {
    CoreState(map[], 0, CoreRoot(env, map[], 0, 0), 0)
  }

  function InsertRegion(env: Foreign, core: CoreState, region: RegionState): Result<CoreState, KernelError> {
    if region.regionId in core.regions then Err(InvalidState("region already exists in core"))
    else if core.totalAuthRatioBps + region.authRatioBps >= U64_LIMIT then Err(InvalidState("core auth ratio overflow"))
    else if core.version + 1 >= U64_LIMIT then Err(InvalidState("core version overflow"))
    else
      var regions := core.regions[region.regionId := region];
      var total, version := core.totalAuthRatioBps + region.authRatioBps, core.version + 1;
      Ok(CoreState(regions, total, CoreRoot(env, regions, total, version), version))
  }

  function ApplyRegionEvent(env: Foreign, core: CoreState, e: VectorEvent): Result<CoreState, KernelError> {
    var region :- RegionFromEvent(e);
    InsertRegion(env, core, region)
  }

  /** The registry after the region events of `events`, in log order. */
  ghost function CoreFold(env: Foreign, events: seq<VectorEvent>): Result<CoreState, KernelError> {
    if events == [] then Ok(EmptyCore(env))
    else
      var core :- CoreFold(env, events[..|events| - 1]);
      var last := events[|events| - 1];
      if IsRegionCreate(last) then ApplyRegionEvent(env, core, last) else Ok(core)
  }

  /** The registry object; its total is updated before its version is checked. */
  class Core {
    const env: Foreign
    var regions: map<string, RegionState>
    var totalAuthRatioBps: u64
    var coreRoot: string
    var version: u64

    ghost function View(): CoreState
      reads this
    {
      CoreState(regions, totalAuthRatioBps, coreRoot, version)
    }

    constructor (env: Foreign)
      ensures this.env == env && View() == EmptyCore(env)
    {
      this.env := env;
      regions, totalAuthRatioBps, coreRoot, version := map[], 0, CoreRoot(env, map[], 0, 0), 0;
    }

    /** A failing insertion changes nothing, except that an exhausted version counter is noticed too late. */
    method Insert(region: RegionState) returns (r: Result<(), KernelError>)
      modifies this
      ensures r.Ok? <==> InsertRegion(env, old(View()), region).Ok?
      ensures r.Ok? ==> InsertRegion(env, old(View()), region) == Ok(View())
      ensures r.Err? ==> InsertRegion(env, old(View()), region) == Err(r.error)
      ensures r.Err? ==>
        (View() != old(View()) <==>
           && old(version) + 1 == U64_LIMIT && region.regionId !in old(regions)
           && old(totalAuthRatioBps) + region.authRatioBps < U64_LIMIT)
    {
      if region.regionId in regions {
        return Err(InvalidState("region already exists in core"));
      }
      if totalAuthRatioBps + region.authRatioBps >= U64_LIMIT {
        return Err(InvalidState("core auth ratio overflow"));
      }
      totalAuthRatioBps := totalAuthRatioBps + region.authRatioBps;
      regions := regions[region.regionId := region];
      assert region.regionId in regions && region.regionId !in old(regions);
      if version + 1 >= U64_LIMIT {
        return Err(InvalidState("core version overflow"));
      }
      version := version + 1;
      coreRoot := CoreRoot(env, regions, totalAuthRatioBps, version);
      r := Ok(());
    }

    method Apply(e: VectorEvent) returns (r: Result<(), KernelError>)
      modifies this
      ensures r.Ok? <==> ApplyRegionEvent(env, old(View()), e).Ok?
      ensures r.Ok? ==> ApplyRegionEvent(env, old(View()), e) == Ok(View())
      ensures r.Err? ==> ApplyRegionEvent(env, old(View()), e) == Err(r.error)
    {
      hide RegionFromEvent, InsertRegion;
      var region :- RegionFromEvent(e);
      r := Insert(region);
    }
  }

  method CoreStateFromEvents(env: Foreign, events: seq<VectorEvent>) returns (core: Core, r: Result<(), KernelError>)
    ensures fresh(core) && core.env == env
    ensures r.Ok? <==> CoreFold(env, events).Ok?
    ensures r.Ok? ==> CoreFold(env, events) == Ok(core.View())
  {
    hide ApplyRegionEvent, IsRegionCreate;
    core := new Core(env);
    r := Ok(());
    for i := 0 to |events|
      invariant CoreFold(env, events[..i]) == Ok(core.View())
    {
      assert events[..i + 1][..i] == events[..i];
      if IsRegionCreate(events[i]) {
        r := core.Apply(events[i]);
        if r.Err? {
          CoreFoldFails(env, events, i + 1);
          return;
        }
      }
    }
    TakeAll(events);
    r := Ok(());
  }

  lemma {:induction false} CoreFoldFails(env: Foreign, events: seq<VectorEvent>, k: nat)
    requires k <= |events| && CoreFold(env, events[..k]).Err?
    ensures CoreFold(env, events).Err?
    decreases |events|
  {
    if k < |events| {
      assert events[..|events| - 1][..k] == events[..k];
      CoreFoldFails(env, events[..|events| - 1], k);
    } else {
      TakeAll(events);
    }
  }
}
