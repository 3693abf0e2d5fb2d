/**
 * What the primitive formats mean, stated without the functions that compute them: positional digits,
 * UTF-8, names, field layouts, and the ratios that double-precision bit patterns stand for.
 */
module Formats {
  import opened Base
  import opened Bytes
  import opened Effects
  import opened Errors
  import opened Events
  import opened Machine
  import opened Region
  import opened Replay
  import opened Serialization
  import opened StateRoots
  import opened Validation
  import opened Vectors
  import Json
  import Text

  // ----- Numbers -----

  /** Byte `i` of a big-endian number is its digit to base 256, counted from the most significant. */
  lemma {:induction false} BigEndianDigits(n: nat, k: nat, i: nat)
    requires i < k
    ensures Radix(k - 1 - i) > 0 && BigEndian(n, k)[i] == n / Radix(k - 1 - i) % 256
  {
    if i < k - 1 {
      BigEndianDigits(n / 256, k - 1, i);
      assert Radix(k - 1 - i) == 256 * Radix(k - 2 - i);
      DivideTwice(n, 256, Radix(k - 2 - i));
    }
  }

  lemma DivideTwice(n: nat, a: nat, b: nat)
    requires a > 0 && b > 0
    ensures n / a / b == n / (a * b)
  {
    var q, r := n / a / b, n / a % b;
    assert n / a == b * q + r;
    assert n == a * (b * q + r) + n % a;
    assert a * r + n % a < a * b by {
      assert a * r <= a * (b - 1);
      assert a * (b - 1) == a * b - a;
    }
    assert n == (a * b) * q + (a * r + n % a) by {
      assert a * (b * q + r) == (a * b) * q + a * r;
    }
    QuotientIs(n, a * b, q, a * r + n % a);
  }

  lemma QuotientIs(n: nat, d: nat, q: nat, r: nat)
    requires d > 0 && r < d && n == d * q + r
    ensures n / d == q
  {
    var p := n / d;
    assert d * p <= n < d * p + d;
    if p < q {
      TimesOrder(d, p + 1, q);
      assert false;
    }
    if p > q {
      TimesOrder(d, q + 1, p);
      assert false;
    }
  }

  lemma TimesOrder(d: nat, a: nat, b: nat)
    requires a <= b
    ensures d * a <= d * b && d * (a + 1) == d * a + d
  {
  }

  function Zeroes(k: nat): string {
    seq(k, i => '0')
  }

  /** A printed number has no leading zero, and its last digit is its remainder by ten. */
  lemma PrintMeans(n: nat)
    ensures n < 10 ==> Text.Print(n) == ["0123456789"[n]]
    ensures n >= 10 ==> Text.Print(n) == Text.Print(n / 10) + Text.Print(n % 10)
    ensures n > 0 ==> Text.Print(n)[0] != '0'
    decreases n
  {
    if n >= 10 { PrintMeans(n / 10); }
  }

  lemma {:induction false} DigitsArePrinted(s: string)
    requires s != [] && Text.AllDigits(s)
    ensures exists k: nat :: s == Zeroes(k) + Text.Print(Text.ValueOf(s))
  {
    hide Text.Print, Text.ValueOf, Zeroes;
    var front := s[..|s| - 1];
    if front == [] {
      OneDigit(s);
    } else {
      DigitsArePrinted(front);
      var k: nat :| front == Zeroes(k) + Text.Print(Text.ValueOf(front));
      assert s == front + [s[|s| - 1]];
      OneMoreDigit(front, s[|s| - 1], k);
    }
  }

  lemma OneDigit(s: string)
    requires |s| == 1 && '0' <= s[0] <= '9'
    ensures s == Zeroes(0) + Text.Print(Text.ValueOf(s))
  {
    hide Text.Print;
    assert s[..0] == [] && Text.ValueOf([]) == 0;
    PrintDigit(s[0] as int - '0' as int);
  }

  lemma OneMoreDigit(front: string, c: char, k: nat)
    requires Text.AllDigits(front) && '0' <= c <= '9' && front == Zeroes(k) + Text.Print(Text.ValueOf(front))
    ensures Text.AllDigits(front + [c])
    ensures front + [c] ==
      Zeroes(if Text.ValueOf(front) == 0 then k + 1 else k) + Text.Print(Text.ValueOf(front + [c]))
  {
    hide Text.Print, Text.ValueOf, Zeroes;
    ValueNext(front, c);
    AppendDigit(front, Text.ValueOf(front), c as int - '0' as int, k);
  }

  lemma ValueNext(front: string, c: char)
    requires Text.AllDigits(front) && '0' <= c <= '9'
    ensures Text.AllDigits(front + [c])
    ensures Text.ValueOf(front + [c]) == Text.ValueOf(front) * 10 + (c as int - '0' as int)
  {
    assert (front + [c])[..|front|] == front;
  }

  lemma AppendDigit(front: string, m: nat, d: nat, k: nat)
    requires d < 10 && front == Zeroes(k) + Text.Print(m)
    ensures front + [(d + '0' as int) as char] == Zeroes(if m == 0 then k + 1 else k) + Text.Print(m * 10 + d)
  {
    hide Text.Print;
    PrintDigit(d);
    if m == 0 {
      PrintDigit(0);
      assert Zeroes(k + 1) == Zeroes(k) + ['0'];
    } else {
      PrintNext(m, d);
    }
  }

  lemma PrintDigit(d: nat)
    requires d < 10
    ensures Text.Print(d) == [(d + '0' as int) as char]
  {
  }

  lemma PrintNext(m: nat, d: nat)
    requires m > 0 && d < 10
    ensures Text.Print(m * 10 + d) == Text.Print(m) + [(d + '0' as int) as char]
  {
  }

  lemma {:induction false} ZeroesAddNothing(k: nat, t: string)
    requires Text.AllDigits(t)
    ensures Text.AllDigits(Zeroes(k) + t)
    ensures Text.ValueOf(Zeroes(k) + t) == Text.ValueOf(t)
    decreases |t|, k
  {
    var s := Zeroes(k) + t;
    if t != [] {
      ZeroesAddNothing(k, t[..|t| - 1]);
      assert s[..|s| - 1] == Zeroes(k) + t[..|t| - 1];
    } else if k > 0 {
      ZeroesAddNothing(k - 1, t);
      assert s[..|s| - 1] == Zeroes(k - 1) + t;
    }
  }

  lemma DigitsOnly(s: string, digits: string)
    requires Text.ParseU64(s).Some? && digits == if s != [] && s[0] == '+' then s[1..] else s
    ensures digits != [] && Text.AllDigits(digits)
    ensures Text.ParseU64(s) == Some(Text.ValueOf(digits))
  {
  }

  /** The decimal digits of a number, behind any zeros, behind at most one plus sign. */
  ghost predicate WritesNumber(s: string, n: nat) {
    exists k: nat :: s == Zeroes(k) + Text.Print(n) || s == "+" + (Zeroes(k) + Text.Print(n))
  }

  lemma ReadsDigits(s: string)
    requires Text.ParseU64(s).Some?
    ensures WritesNumber(s, Text.ParseU64(s).value)
  {
    hide Text.Print, Text.ValueOf, Zeroes;
    var digits := if s != [] && s[0] == '+' then s[1..] else s;
    DigitsOnly(s, digits);
    DigitsArePrinted(digits);
    var k: nat :| digits == Zeroes(k) + Text.Print(Text.ValueOf(digits));
    assert s == digits || s == "+" + digits;
  }

  lemma DigitsRead(s: string, n: u64, k: nat)
    requires s == Zeroes(k) + Text.Print(n) || s == "+" + (Zeroes(k) + Text.Print(n))
    ensures Text.ParseU64(s) == Some(n)
  {
    hide Text.Print, Text.ValueOf;
    ZeroesAddNothing(k, Text.Print(n));
    Text.ValueOfPrint(n);
    var digits := Zeroes(k) + Text.Print(n);
    assert digits != [] && digits[0] != '+';
    assert ("+" + digits)[1..] == digits;
  }

  /** What reads as a number is exactly what writes it. */
  lemma ParsesIff(s: string, n: u64)
    ensures Text.ParseU64(s) == Some(n) <==> WritesNumber(s, n)
  {
    hide Text.Print, Text.ParseU64, Zeroes;
    if Text.ParseU64(s) == Some(n) { ReadsDigits(s); }
    if WritesNumber(s, n) {
      var k: nat :| s == Zeroes(k) + Text.Print(n) || s == "+" + (Zeroes(k) + Text.Print(n));
      DigitsRead(s, n, k);
    }
  }

  // ----- Characters -----

  /** The six bits that a following byte carries. */
  function SixBits(b: byte): int {
    b as int - 0x80
  }

  /** The UTF-8 form of a character: the lead byte says how many bytes follow, each with six bits. */
  ghost predicate IsUtf8(n: int, b: seq<byte>) {
    && (forall i :: 1 <= i < |b| ==> 0x80 <= b[i] < 0xC0)
    && if n < 0x80 then |b| == 1 && b[0] == n
       else if n < 0x800 then |b| == 2 && 0xC0 <= b[0] < 0xE0 && n == (b[0] as int - 0xC0) * 0x40 + SixBits(b[1])
       else if n < 0x10000 then
         |b| == 3 && 0xE0 <= b[0] < 0xF0
         && n == (b[0] as int - 0xE0) * 0x1000 + SixBits(b[1]) * 0x40 + SixBits(b[2])
       else
         |b| == 4 && 0xF0 <= b[0] < 0xF8
         && n == (b[0] as int - 0xF0) * 0x40000 + SixBits(b[1]) * 0x1000 + SixBits(b[2]) * 0x40 + SixBits(b[3])
  }

  lemma Utf8Means(c: char)
    ensures IsUtf8(c as int, Utf8Char(c))
  {
    var n := c as int;
    assert n / 4096 == n / 64 / 64 && n / 262144 == n / 4096 / 64;
    if n < 0x800 {
      assert n == n / 64 * 64 + n % 64;
    } else if n < 0x10000 {
      assert n == n / 4096 * 4096 + n / 64 % 64 * 64 + n % 64;
    } else {
      assert n == n / 262144 * 262144 + n / 4096 % 64 * 4096 + n / 64 % 64 * 64 + n % 64;
    }
  }

  // ----- Names -----

  /** The names under which operations are written. */
  lemma OperationNames()
    ensures CanonicalName(OriginCreate) == "ORIGIN_CREATE" && CanonicalName(Certify) == "CERTIFY"
    ensures CanonicalName(Transfer) == "TRANSFER" && CanonicalName(Drain) == "DRAIN"
    ensures CanonicalName(Project) == "PROJECT" && CanonicalName(Reconstruct) == "RECONSTRUCT"
    ensures CanonicalName(Move) == "MOVE" && CanonicalName(Rotate) == "ROTATE" && CanonicalName(Scale) == "SCALE"
    ensures CanonicalName(Normalize) == "NORMALIZE" && CanonicalName(Constrain) == "CONSTRAIN"
    ensures CanonicalName(Query) == "QUERY" && CanonicalName(Record) == "RECORD"
    ensures forall name :: CanonicalName(Other(name)) == "OTHER"
  {
  }

  /** The names of types and states in a state root are those of events in capitals. */
  lemma TypeNames(t: VectorType, s: VectorStatus)
    ensures TypeName(t) == Text.Upper(TypeTag(t))
    ensures match s
      case Active => StatusName(s) == "ACTIVE"
      case Projected => StatusName(s) == "PROJECTED"
      case Escrowed => StatusName(s) == "ESCROWED"
      case Settled => StatusName(s) == "SETTLED"
      case Archived => StatusName(s) == "ARCHIVED"
  {
  }

  // ----- Layouts -----

  /** The thirteen fields of an event hash, in order. */
  lemma EventLayout(e: VectorEvent)
    ensures EventBytes(e) ==
      Str(e.eventId) + List(Str, e.parentHashes) + Str(e.regionId) + Str(e.entityId)
      + (Str(CanonicalName(e.operation)) + if e.operation.Other? then Str(e.operation.name) else [])
      + StateLayout(e.vectorBefore) + StateLayout(e.vectorAfter)
      + Word(e.authRatio) + [if e.certified then 1 else 0] + Str(e.actorPublicKey)
      + Word(e.logicalClock) + Word(e.timestamp) + Str(e.payloadHash)
  {
    hide Word, Str, List, CanonicalName;
    var tail := TailBytes(e);
    assert tail == Word(e.authRatio) + [if e.certified then 1 else 0] + Str(e.actorPublicKey) + Word(e.logicalClock)
      + Word(e.timestamp);
  }

  /** Components, owner, type and the metadata in key order. */
  ghost function StateLayout(v: VectorState): seq<byte> {
    List(U64Bytes, v.components) + Str(v.ownerPublicKey) + Str(v.typeTag) + List(TextEntryBytes, Entries(v.metadata))
  }

  /** An optional part: a flag, and the part if there is one. */
  function Optional(part: Option<seq<byte>>): seq<byte> {
    match part case None => [0] case Some(bytes) => [1] + bytes
  }

  /** All fields of a stored vector, in order. */
  lemma VectorLayout(v: Vector)
    ensures VectorBytes(v) ==
      Str(v.schema) + Str(v.vectorId) + Str(v.ownerPubkey) + Str(v.spaceId) + Str(TypeName(v.vectorType))
      + Str(StatusName(v.status)) + List(U128Bytes, v.components) + List(TextEntryBytes, Entries(v.typeMetadata))
      + CertificationBytes(v.certification)
      + Optional(if v.projection.Some? then Some(EscrowBytes(v.projection.value)) else None)
      + Optional(if v.origin.Some? then Some(OriginBytes(v.origin.value)) else None)
      + Word(v.version) + Word(v.createdAtMs) + Word(v.updatedAtMs)
  {
    OptionalParts(v);
    hide Word, Str, List, TypeName, StatusName, CertificationBytes, EscrowBytes, OriginBytes, Opt, Optional, Entries;
    var p, o := Opt(EscrowBytes, v.projection), Opt(OriginBytes, v.origin);
    var a := Str(v.schema) + Str(v.vectorId) + Str(v.ownerPubkey) + Str(v.spaceId);
    var l, m, c := List(U128Bytes, v.components), List(TextEntryBytes, Entries(v.typeMetadata)),
      CertificationBytes(v.certification);
    Regroup(a, Str(TypeName(v.vectorType)), Str(StatusName(v.status)), l, m, c, p, o, Word(v.version),
      Word(v.createdAtMs), Word(v.updatedAtMs));
  }

  lemma OptionalParts(v: Vector)
    ensures Opt(EscrowBytes, v.projection) ==
      Optional(if v.projection.Some? then Some(EscrowBytes(v.projection.value)) else None)
    ensures Opt(OriginBytes, v.origin) == Optional(if v.origin.Some? then Some(OriginBytes(v.origin.value)) else None)
  {
    hide EscrowBytes, OriginBytes;
  }

  lemma Regroup(a: seq<byte>, t: seq<byte>, s: seq<byte>, l: seq<byte>, m: seq<byte>, c: seq<byte>, p: seq<byte>,
                o: seq<byte>, x: seq<byte>, y: seq<byte>, z: seq<byte>)
    ensures (a + (t + s)) + (l + m + c + (p + o)) + (x + y + z) == a + t + s + l + m + c + p + o + x + y + z
  {
    var head, body := a + t + s, l + m + c;
    assert a + (t + s) == head && body + (p + o) == body + p + o;
    assert head + (body + p + o) == head + l + m + c + p + o;
    var front := head + l + m + c + p + o;
    assert front + (x + y + z) == front + x + y + z;
  }

  /** Both roots start with the same tag, and a replay hash with its own, behind its length. */
  lemma Tags(state: seq<byte>, count: nat, clock: u64, ordered: seq<Vector>, hashes: seq<string>)
    ensures RootBytes(state, count, clock) ==
      Utf8("v-kernelx/state-root-v1") + Word(count) + Word(clock) + Word(|state|) + state
    ensures RootMaterial(ordered, clock) ==
      Utf8("v-kernelx/state-root-v1") + Word(|ordered|) + Word(clock) + Items(VectorBlock, ordered)
    ensures ReplayBytes(hashes) == Word(9) + Utf8("replay-v1") + Word(0) + List(Str, hashes)
  {
    hide Word, Items, List;
    AsciiFits("replay-v1");
    assert Word(0) + [] == Word(0);
  }

  /** What the two digests of the registry are taken of. */
  lemma Digests(env: Foreign, regions: map<string, RegionState>, total: int, version: int, secret: string)
    ensures CoreRoot(env, regions, total, version) == env.blake3(env.coreJson(regions, total, version))
    ensures HashHex(env, secret) == env.blake3(Utf8(secret))
  {
  }

  /** The tag of every kind of JSON value, and what follows it. */
  lemma JsonTags(text: string, b: bool, items: seq<Json.Value>, fields: map<string, Json.Value>)
    ensures Json.Encoded(Json.Null) == [0] && Json.Encoded(Json.Bool(b)) == [1, if b then 1 else 0]
    ensures Json.Encoded(Json.Number(text)) == [2] + Str(text) && Json.Encoded(Json.String(text)) == [3] + Str(text)
    ensures Json.Encoded(Json.Array(items)) == [4] + (Word(|items|) + Json.ItemsFrom(Json.Array(items), 0))
    ensures Json.Encoded(Json.Object(fields)) == [5] + (Word(|fields|) + Json.FieldsFrom(Json.Object(fields), 0))
  {
    hide Word, Str;
  }

  // ----- Limits -----

  /** A vector has an event form exactly when 64 bits hold every component. */
  lemma EventFormIff(v: Vector)
    ensures ToEventState(v).Ok? <==> forall i :: 0 <= i < |v.components| ==> v.components[i] <= 0xFFFF_FFFF_FFFF_FFFF
    ensures ToEventState(v).Ok? ==>
      ToEventState(v).value == VectorState(v.components, v.ownerPubkey, TypeTag(v.vectorType), v.typeMetadata)
    ensures ToEventState(v).Err? ==>
      ToEventState(v).error == InvalidState("component value exceeds u64 canonical event limit")
  {
  }

  /** The score of a state: 100, 300 for any value at all, 200 for components, 300 for the owner, 100 for structure. */
  lemma ScoreMeans(v: Vector, ownership: bool, structure: bool, now: u64)
    ensures CertifyState(v, ownership, structure, now).Ok? ==>
      var c := CertifyState(v, ownership, structure, now).value;
      && c.authRatio ==
           100 + (if AllZero(v.components) then 0 else 300) + (if |v.components| > 0 then 200 else 0)
           + (if ownership then 300 else 0) + (if structure then 100 else 0)
      && c.threshold == v.certification.threshold && c.lastCheckedAtMs == now
      && (c.certified <==> c.authRatio >= c.threshold)
      && (c.reason.None? <==> c.certified)
      && (!c.certified ==>
            c.reason.value == "auth_ratio " + Text.Print(c.authRatio) + " below threshold " + Text.Print(c.threshold))
  {
    hide Magnitude, Text.Print;
    ZeroMagnitude(v.components);
  }

  /** Records need a certified state of at least 700. */
  lemma PolicyMeans(c: Certification)
    ensures AcceptRecord(c, DEFAULT_POLICY) <==> c.certified && c.authRatio >= 700
  {
  }

  /** A region opens to everyone if public, and otherwise to a key with the stored digest. */
  lemma AccessMeans(env: Foreign, region: RegionState, key: Option<string>)
    ensures AuthorizeAccess(env, region, key) <==>
      region.visibility.Public? || (key.Some? && region.accessKeyHash == Some(env.blake3(Utf8(key.value))))
  {
  }

  // ----- Regions read from events -----

  const NEEDED_KEYS: set<string> := {
    "region_name", "normalized_name", "section", "visibility", "creator_public_key", "trigger_event_hash",
    "creation_proof_hash"}

  /** The share of a region, one thousand unless the event says otherwise. */
  function ShareOf(md: map<string, string>): Option<u64> {
    if "initial_auth_ratio_bps" in md then Text.ParseU64(md["initial_auth_ratio_bps"]) else Some(1000)
  }

  function Unless(md: map<string, string>, key: string): Option<string> {
    if key in md && !Text.Blank(md[key]) then Some(md[key]) else None
  }

  /** Which events read as regions, and as what. */
  lemma RegionReadsIff(e: VectorEvent)
    ensures IsRegionCreate(e) <==>
      || (e.operation.OriginCreate? && "region_kind" in e.vectorAfter.metadata
          && e.vectorAfter.metadata["region_kind"] == "region")
      || (e.operation.Other? && e.operation.name == "REGION_CREATE")
    ensures var md := e.vectorAfter.metadata;
      RegionFromEvent(e).Ok? <==>
        && IsRegionCreate(e) && !Text.Blank(e.eventHash) && NEEDED_KEYS <= md.Keys && Text.ParseU64(md["section"]).Some?
        && ShareOf(md).Some? && ShareOf(md).value > 0 && md["visibility"] in {"public", "private"}
    ensures RegionFromEvent(e).Ok? ==>
      var md, r := e.vectorAfter.metadata, RegionFromEvent(e).value;
      && r.regionId == e.entityId && r.regionRoot == e.eventHash && r.regionName == md["region_name"]
      && r.normalizedName == md["normalized_name"] && Text.ParseU64(md["section"]) == Some(r.section)
      && ShareOf(md) == Some(r.authRatioBps) && (r.visibility.Public? <==> md["visibility"] == "public")
      && r.creatorPublicKey == md["creator_public_key"] && r.triggerEventHash == md["trigger_event_hash"]
      && r.creationProofHash == md["creation_proof_hash"] && r.regionPrefix == Unless(md, "region_prefix")
      && r.suggestedTitle == Unless(md, "suggested_title") && r.accessKeyHash == Unless(md, "access_key_hash")
      && r.createdAtMs == e.timestamp == r.updatedAtMs && r.version == 1
      && (forall key :: key in r.metadata <==> "meta:" + key in md)
      && (forall key :: key in r.metadata ==> r.metadata[key] == md["meta:" + key])
  {
    hide Text.Trim, Text.Blank, Text.ParseU64, Stripped;
    var md := e.vectorAfter.metadata;
    Text.BlankIff(e.eventHash);
    forall key | key in md ensures Text.Trim(md[key]) == "" <==> Text.Blank(md[key]) { Text.BlankIff(md[key]); }
    StrippedMeans(md);
  }

  lemma StrippedMeans(md: map<string, string>)
    ensures forall key :: key in Stripped(md) <==> "meta:" + key in md
    ensures forall key :: key in Stripped(md) ==> Stripped(md)[key] == md["meta:" + key]
  {
    forall key
      ensures key in Stripped(md) <==> "meta:" + key in md
      ensures key in Stripped(md) ==> Stripped(md)[key] == md["meta:" + key]
    {
      assert ("meta:" + key)[5..] == key;
      if "meta:" + key in md { assert IsMeta("meta:" + key); }
      if key in Stripped(md) {
        var k :| k in md && IsMeta(k) && k[5..] == key;
        assert k == "meta:" + key;
      }
    }
  }

  // ----- Ratios -----

  ghost function PowerOfTwo(n: nat): nat {
    if n == 0 then 1 else 2 * PowerOfTwo(n - 1)
  }

  lemma {:induction false} PowersGrow(m: nat, n: nat)
    requires m <= n
    ensures 0 < PowerOfTwo(m) <= PowerOfTwo(n)
    decreases n
  {
    if n > 0 { PowersGrow(if m == n then m - 1 else m, n - 1); }
  }

  lemma {:induction false} PowersAdd(m: nat, n: nat)
    ensures PowerOfTwo(m + n) == PowerOfTwo(m) * PowerOfTwo(n)
  {
    if m > 0 { PowersAdd(m - 1, n); }
  }

  lemma Power52()
    ensures PowerOfTwo(52) == 0x10_0000_0000_0000 && PowerOfTwo(53) == 0x20_0000_0000_0000
  {
    assert PowerOfTwo(8) == 256 && PowerOfTwo(4) == 16;
    PowersAdd(8, 8);
    PowersAdd(16, 16);
    PowersAdd(32, 16);
    PowersAdd(48, 4);
  }

  /** The parts of a double-precision bit pattern. */
  function Exponent(bits: u64): nat {
    bits / 0x10_0000_0000_0000 % 0x800
  }

  function Fraction(bits: u64): nat {
    bits % 0x10_0000_0000_0000
  }

  predicate Negative(bits: u64) {
    bits >= 0x8000_0000_0000_0000
  }

  predicate IsFinite(bits: u64) {
    Exponent(bits) < 0x7FF
  }

  /** The absolute value of a finite double-precision number, in units of the least positive one. */
  ghost function Units(bits: u64): nat
    requires IsFinite(bits)
  {
    if Exponent(bits) == 0 then Fraction(bits)
    else (0x10_0000_0000_0000 + Fraction(bits)) * PowerOfTwo(Exponent(bits) - 1)
  }

  lemma UnitsAgainstOne(bits: u64)
    requires IsFinite(bits)
    ensures Units(bits) <= PowerOfTwo(1074) <==>
      Exponent(bits) < 1023 || (Exponent(bits) == 1023 && Fraction(bits) == 0)
    ensures Units(bits) == 0 <==> Exponent(bits) == 0 && Fraction(bits) == 0
  {
    hide PowerOfTwo;
    Power52();
    var e, f := Exponent(bits), Fraction(bits);
    if e == 0 {
      PowersGrow(52, 1074);
    } else {
      PowersGrow(0, e - 1);
      PowersAdd(52, e - 1);
      PowersAdd(53, e - 1);
      var p := PowerOfTwo(e - 1);
      assert Units(bits) == PowerOfTwo(e + 51) + f * p;
      Product(f, p, 0x10_0000_0000_0000);
      if e < 1023 {
        PowersGrow(e + 52, 1074);
        assert PowerOfTwo(e + 52) == 0x20_0000_0000_0000 * p;
      } else if e > 1023 {
        PowersGrow(1075, e + 51);
        PowersAdd(1, 1074);
        PowersGrow(0, 1074);
        OnePower();
      }
    }
  }

  lemma OnePower()
    ensures PowerOfTwo(1) == 2
  {
    assert PowerOfTwo(0) == 1;
  }

  lemma Product(f: nat, p: nat, n: nat)
    requires f < n && p > 0
    ensures 0 <= f * p < n * p && (f * p == 0 <==> f == 0)
  {
  }

  /** The accepted ratios are exactly the finite numbers from zero to one, with the zero of either sign. */
  lemma UnitRatios(bits: u64)
    ensures UnitBits(bits) <==>
      IsFinite(bits) && Units(bits) <= PowerOfTwo(1074) && (Negative(bits) ==> Units(bits) == 0)
  {
    hide PowerOfTwo;
    if IsFinite(bits) { UnitsAgainstOne(bits); }
  }

  /** The recorded ratios are one, and the number nearest to seven tenths: half a unit in the last place is 5 / 10. */
  lemma RecordedRatios()
    ensures var one := RatioBits(1000); Exponent(one) == 1023 && Fraction(one) == 0 && !Negative(one)
    ensures var b := RatioBits(700);
      var mantissa := 0x10_0000_0000_0000 + Fraction(b);
      Exponent(b) == 1022 && !Negative(b) && -5 <= 10 * mantissa - 7 * 0x20_0000_0000_0000 <= 5
  {
  }
}
