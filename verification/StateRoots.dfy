/** The state root: a hash of every stored vector in id order (src/state.rs). */
module StateRoots {
  import opened Base
  import opened Bytes
  import opened Decoding
  import opened Region
  import opened Replay
  import opened Serialization
  import opened Vectors
  import Text

  // ----- What is written -----

  function U128Bytes(v: u128): seq<byte> {
    BigEndian(v, 16)
  }

  function TypeName(t: VectorType): string {
    match t
    case Standard => "STANDARD"
    case Origin => "ORIGIN"
    case Projected => "PROJECTED"
    case Escrow => "ESCROW"
    case Settlement => "SETTLEMENT"
    case Locked => "LOCKED"
  }

  function StatusName(s: VectorStatus): string {
    match s
    case Active => "ACTIVE"
    case Projected => "PROJECTED"
    case Escrowed => "ESCROWED"
    case Settled => "SETTLED"
    case Archived => "ARCHIVED"
  }

  /** A presence flag, and the value if there is one. */
  function Opt<T>(enc: T -> seq<byte>, o: Option<T>): seq<byte> {
    Flag(o.Some?) + if o.Some? then enc(o.value) else []
  }

  function CertificationBytes(c: Certification): seq<byte> {
    Flag(c.certified) + Word(c.authRatio) + Word(c.threshold) + Word(c.lastCheckedAtMs) + Opt(Str, c.reason)
  }

  function EscrowBytes(p: Projection): seq<byte> {
    Str(p.escrowId) + List(U128Bytes, p.projected) + List(U128Bytes, p.settled) + Word(p.startedAtMs)
    + (Opt(U64Bytes, p.settlementAtMs) + Opt(Str, p.outcomeTag))
  }

  function OriginBytes(o: OriginProof): seq<byte> {
    Str(o.seed) + Word(o.nonce) + Word(o.difficulty) + Str(o.proofHash)
  }

  function IdentityBytes(v: Vector): seq<byte> {
    Str(v.schema) + Str(v.vectorId) + Str(v.ownerPubkey) + Str(v.spaceId)
    + (Str(TypeName(v.vectorType)) + Str(StatusName(v.status)))
  }

  ghost function ContentBytes(v: Vector): seq<byte> {
    List(U128Bytes, v.components) + List(TextEntryBytes, Entries(v.typeMetadata)) + CertificationBytes(v.certification)
    + (Opt(EscrowBytes, v.projection) + Opt(OriginBytes, v.origin))
  }

  function ClockBytes(v: Vector): seq<byte> {
    Word(v.version) + Word(v.createdAtMs) + Word(v.updatedAtMs)
  }

  /** The canonical bytes of one vector. */
  ghost function VectorBytes(v: Vector): seq<byte> {
    IdentityBytes(v) + ContentBytes(v) + ClockBytes(v)
  }

  /** One vector in the root material, behind its length. */
  ghost function VectorBlock(v: Vector): seq<byte> {
    Word(|VectorBytes(v)|) + VectorBytes(v)
  }

  /** The material hashed for a list of vectors that is already in order. */
  ghost function RootMaterial(ordered: seq<Vector>, clock: u64): seq<byte> {
    Utf8(ROOT_TAG) + Word(|ordered|) + Word(clock) + Items(VectorBlock, ordered)
  }

  // ----- The order -----

  predicate VectorLeq(a: Vector, b: Vector) {
    if a.vectorId != b.vectorId then Text.Leq(a.vectorId, b.vectorId)
    else if a.version != b.version then a.version < b.version
    else a.updatedAtMs <= b.updatedAtMs
  }

  function InsertVector(v: Vector, s: seq<Vector>): seq<Vector> {
    if s == [] then [v] else if VectorLeq(v, s[0]) then [v] + s else [s[0]] + InsertVector(v, s[1..])
  }

  /** The library sort by id, version and update time. */
  function SortVectors(s: seq<Vector>): seq<Vector> {
    if s == [] then [] else InsertVector(s[0], SortVectors(s[1..]))
  }

  ghost predicate IdsAscend(s: seq<Vector>) {
    forall i, j :: 0 <= i < j < |s| ==> Text.Leq(s[i].vectorId, s[j].vectorId)
  }

  ghost predicate DistinctIds(s: seq<Vector>) {
    forall i, j :: 0 <= i < j < |s| ==> s[i].vectorId != s[j].vectorId
  }

  lemma {:induction false} InsertVectorMultiset(v: Vector, s: seq<Vector>)
    ensures multiset(InsertVector(v, s)) == multiset(s) + multiset{v}
  {
    hide VectorLeq;
    if s != [] {
      assert s == [s[0]] + s[1..];
      if !VectorLeq(v, s[0]) { InsertVectorMultiset(v, s[1..]); }
    }
  }

  /** By id, then version, then time of the last update. */
  predicate InRootOrder(v: Vector, w: Vector) {
    && Text.Leq(v.vectorId, w.vectorId)
    && (v.vectorId == w.vectorId ==>
          v.version <= w.version && (v.version == w.version ==> v.updatedAtMs <= w.updatedAtMs))
  }

  ghost predicate RootOrder(s: seq<Vector>) {
    forall i, j :: 0 <= i < j < |s| ==> InRootOrder(s[i], s[j])
  }

  lemma VectorLeqMeans(v: Vector, w: Vector)
    ensures VectorLeq(v, w) <==> InRootOrder(v, w)
    ensures !VectorLeq(v, w) ==> VectorLeq(w, v)
  {
    Text.LeqReflexive(v.vectorId);
    Text.LeqTotal(v.vectorId, w.vectorId);
  }

  lemma VectorLeqTransitive(u: Vector, v: Vector, w: Vector)
    requires VectorLeq(u, v) && VectorLeq(v, w)
    ensures VectorLeq(u, w)
  {
    hide Text.Leq;
    if u.vectorId != v.vectorId && v.vectorId != w.vectorId {
      Text.LeqTransitive(u.vectorId, v.vectorId, w.vectorId);
      if u.vectorId == w.vectorId { Text.LeqAntisymmetric(u.vectorId, v.vectorId); }
    }
  }

  ghost predicate VectorsAscend(s: seq<Vector>) {
    forall i, j :: 0 <= i < j < |s| ==> VectorLeq(s[i], s[j])
  }

  lemma {:induction false} InsertVectorAscends(v: Vector, s: seq<Vector>)
    requires VectorsAscend(s)
    ensures VectorsAscend(InsertVector(v, s))
  {
    hide VectorLeq;
    if s != [] {
      VectorLeqMeans(v, s[0]);
      if VectorLeq(v, s[0]) {
        forall i | 0 <= i < |s| ensures VectorLeq(v, s[i]) {
          if i > 0 { VectorLeqTransitive(v, s[0], s[i]); }
        }
      } else {
        InsertVectorAscends(v, s[1..]);
        InsertVectorMultiset(v, s[1..]);
        var t := InsertVector(v, s[1..]);
        forall w | w in t ensures VectorLeq(s[0], w) {
          assert w in multiset(t);
          if w != v {
            assert w in s[1..];
            var i :| 0 <= i < |s[1..]| && s[1..][i] == w;
            assert s[i + 1] == w;
          }
        }
      }
    }
  }

  lemma {:induction false} SortVectorsAscends(s: seq<Vector>)
    ensures VectorsAscend(SortVectors(s)) && multiset(SortVectors(s)) == multiset(s)
  {
    hide VectorLeq;
    if s != [] {
      SortVectorsAscends(s[1..]);
      InsertVectorAscends(s[0], SortVectors(s[1..]));
      InsertVectorMultiset(s[0], SortVectors(s[1..]));
      assert s == [s[0]] + s[1..];
    }
  }

  lemma SortVectorsCorrect(s: seq<Vector>)
    ensures IdsAscend(SortVectors(s)) && multiset(SortVectors(s)) == multiset(s) && RootOrder(SortVectors(s))
  {
    hide VectorLeq, SortVectors, Text.Leq;
    SortVectorsAscends(s);
    var t := SortVectors(s);
    forall i, j | 0 <= i < j < |t| ensures InRootOrder(t[i], t[j]) { VectorLeqMeans(t[i], t[j]); }
  }

  ghost function Ids(s: seq<Vector>): (r: seq<string>)
    ensures |r| == |s| && forall i :: 0 <= i < |s| ==> r[i] == s[i].vectorId
  {
    seq(|s|, i requires 0 <= i < |s| => s[i].vectorId)
  }

  lemma IdsWithin(a: seq<Vector>, b: seq<Vector>)
    requires forall v :: v in a ==> v in b
    ensures forall x :: x in Ids(a) ==> x in Ids(b)
  {
    forall x | x in Ids(a) ensures x in Ids(b) {
      var i :| 0 <= i < |a| && Ids(a)[i] == x;
      assert a[i] in b;
      var j :| 0 <= j < |b| && b[j] == a[i];
      assert Ids(b)[j] == x;
    }
  }

  lemma IdsSorted(a: seq<Vector>)
    requires IdsAscend(a) && DistinctIds(a)
    ensures NoDup(Ids(a)) && Text.Ascending(Ids(a)) && Ids(a) == Text.SortedKeys(Elems(Ids(a)))
  {
    hide Text.Leq, Text.SortedKeys;
    Text.SortedKeysUnique(Ids(a));
  }

  /** Vectors with distinct ids have one ascending order. */
  lemma AscendingIdsUnique(a: seq<Vector>, b: seq<Vector>)
    requires IdsAscend(a) && IdsAscend(b) && DistinctIds(a) && DistinctIds(b) && Elems(a) == Elems(b)
    ensures a == b
  {
    hide IdsAscend, Text.Ascending, Text.SortedKeys;
    assert forall v :: v in a <==> v in Elems(a);
    assert forall v :: v in b <==> v in Elems(b);
    IdsWithin(a, b);
    IdsWithin(b, a);
    assert Elems(Ids(a)) == Elems(Ids(b));
    IdsSorted(a);
    IdsSorted(b);
    forall i | 0 <= i < |a| ensures a[i] == b[i] {
      assert a[i] in b;
      var j :| 0 <= j < |b| && b[j] == a[i];
      assert Ids(a)[i] == Ids(b)[i] && Ids(b)[j] == Ids(a)[i];
    }
  }

  lemma DistinctIdsPerm(a: seq<Vector>, b: seq<Vector>)
    requires multiset(a) == multiset(b) && DistinctIds(a)
    ensures DistinctIds(b)
  {
    SameMultisetSameElems(a, b);
    NoDupPerm(a, b);
    forall i, j | 0 <= i < j < |b| ensures b[i].vectorId != b[j].vectorId {
      assert b[i] in Elems(a) && b[j] in Elems(a);
      var m :| 0 <= m < |a| && a[m] == b[i];
      var n :| 0 <= n < |a| && a[n] == b[j];
      assert m < n || n < m || m == n;
    }
  }

  // ----- Computing the root -----

  method WriteAmounts(buf: ByteBuffer, values: seq<u128>)
    modifies buf
    ensures buf.data == old(buf.data) + List(U128Bytes, values)
  {
    ghost var start := buf.data;
    buf.WriteU64(|values|);
    for i := 0 to |values|
      invariant buf.data == start + Word(|values|) + Items(U128Bytes, values[..i])
    {
      ItemsStep(U128Bytes, start + Word(|values|), values, i);
      buf.Extend(BigEndian(values[i], 16));
    }
    TakeAll(values);
    Joined(start, Word(|values|), Items(U128Bytes, values));
  }

  method WriteReason(buf: ByteBuffer, reason: Option<string>)
    modifies buf
    ensures buf.data == old(buf.data) + Opt(Str, reason)
  {
    hide Str;
    ghost var start := buf.data;
    match reason
    case Some(text) =>
      buf.WriteBool(true);
      buf.WriteStr(text);
      Joined(start, Flag(true), Str(text));
    case None =>
      buf.WriteBool(false);
      NothingBehind(Flag(false));
  }

  method WriteTime(buf: ByteBuffer, time: Option<u64>)
    modifies buf
    ensures buf.data == old(buf.data) + Opt(U64Bytes, time)
  {
    hide Word;
    ghost var start := buf.data;
    match time
    case Some(t) =>
      buf.WriteBool(true);
      buf.WriteU64(t);
      Joined(start, Flag(true), U64Bytes(t));
    case None =>
      buf.WriteBool(false);
      NothingBehind(Flag(false));
  }

  lemma NothingBehind(bytes: seq<byte>)
    ensures bytes + [] == bytes
  {
  }

  method WriteCertification(buf: ByteBuffer, c: Certification)
    modifies buf
    ensures buf.data == old(buf.data) + CertificationBytes(c)
  {
    hide Word, Opt;
    ghost var start := buf.data;
    buf.WriteBool(c.certified);
    ghost var done := Flag(c.certified);
    buf.WriteU64(c.authRatio);
    Joined(start, done, Word(c.authRatio));
    done := done + Word(c.authRatio);
    buf.WriteU64(c.threshold);
    Joined(start, done, Word(c.threshold));
    done := done + Word(c.threshold);
    buf.WriteU64(c.lastCheckedAtMs);
    Joined(start, done, Word(c.lastCheckedAtMs));
    done := done + Word(c.lastCheckedAtMs);
    WriteReason(buf, c.reason);
    Joined(start, done, Opt(Str, c.reason));
  }

  method WriteEscrow(buf: ByteBuffer, p: Projection)
    modifies buf
    ensures buf.data == old(buf.data) + EscrowBytes(p)
  {
    hide Word, Opt, List, Str;
    ghost var start := buf.data;
    buf.WriteStr(p.escrowId);
    ghost var done := Str(p.escrowId);
    WriteAmounts(buf, p.projected);
    Joined(start, done, List(U128Bytes, p.projected));
    done := done + List(U128Bytes, p.projected);
    WriteAmounts(buf, p.settled);
    Joined(start, done, List(U128Bytes, p.settled));
    done := done + List(U128Bytes, p.settled);
    buf.WriteU64(p.startedAtMs);
    Joined(start, done, Word(p.startedAtMs));
    done := done + Word(p.startedAtMs);
    ghost var front, tail := buf.data, Opt(U64Bytes, p.settlementAtMs);
    WriteTime(buf, p.settlementAtMs);
    WriteReason(buf, p.outcomeTag);
    Joined(front, tail, Opt(Str, p.outcomeTag));
    Joined(start, done, tail + Opt(Str, p.outcomeTag));
  }

  method WriteOriginProof(buf: ByteBuffer, o: OriginProof)
    modifies buf
    ensures buf.data == old(buf.data) + OriginBytes(o)
  {
    hide Word, Str;
    ghost var start := buf.data;
    buf.WriteStr(o.seed);
    ghost var done := Str(o.seed);
    buf.WriteU64(o.nonce);
    Joined(start, done, Word(o.nonce));
    done := done + Word(o.nonce);
    buf.WriteU64(o.difficulty);
    Joined(start, done, Word(o.difficulty));
    done := done + Word(o.difficulty);
    buf.WriteStr(o.proofHash);
    Joined(start, done, Str(o.proofHash));
  }

  method WriteIdentity(buf: ByteBuffer, v: Vector)
    modifies buf
    ensures buf.data == old(buf.data) + IdentityBytes(v)
  {
    hide Str;
    ghost var start := buf.data;
    buf.WriteStr(v.schema);
    ghost var done := Str(v.schema);
    buf.WriteStr(v.vectorId);
    Joined(start, done, Str(v.vectorId));
    done := done + Str(v.vectorId);
    buf.WriteStr(v.ownerPubkey);
    Joined(start, done, Str(v.ownerPubkey));
    done := done + Str(v.ownerPubkey);
    buf.WriteStr(v.spaceId);
    Joined(start, done, Str(v.spaceId));
    done := done + Str(v.spaceId);
    ghost var front := buf.data;
    buf.WriteStr(TypeName(v.vectorType));
    buf.WriteStr(StatusName(v.status));
    Joined(front, Str(TypeName(v.vectorType)), Str(StatusName(v.status)));
    Joined(start, done, Str(TypeName(v.vectorType)) + Str(StatusName(v.status)));
  }

  /** Both optional parts, each behind its presence flag. */
  method WriteOptionalParts(buf: ByteBuffer, v: Vector)
    modifies buf
    ensures buf.data == old(buf.data) + (Opt(EscrowBytes, v.projection) + Opt(OriginBytes, v.origin))
  {
    hide EscrowBytes, OriginBytes;
    ghost var start := buf.data;
    match v.projection {
      case Some(p) =>
        buf.WriteBool(true);
        WriteEscrow(buf, p);
        Joined(start, Flag(true), EscrowBytes(p));
      case None =>
        buf.WriteBool(false);
        NothingBehind(Flag(false));
    }
    ghost var mid := buf.data;
    match v.origin {
      case Some(o) =>
        buf.WriteBool(true);
        WriteOriginProof(buf, o);
        Joined(mid, Flag(true), OriginBytes(o));
      case None =>
        buf.WriteBool(false);
        NothingBehind(Flag(false));
    }
    Joined(start, Opt(EscrowBytes, v.projection), Opt(OriginBytes, v.origin));
  }

  /** Writes every field in sequence. */
  method CanonicalVectorBytes(v: Vector) returns (bytes: seq<byte>)
    ensures bytes == VectorBytes(v)
  {
    hide Word, Opt, List, IdentityBytes, CertificationBytes, EscrowBytes, OriginBytes;
    var buf := new ByteBuffer();
    WriteIdentity(buf, v);
    FromEmpty(IdentityBytes(v));
    ghost var start, content := buf.data, List(U128Bytes, v.components);
    WriteAmounts(buf, v.components);
    buf.WriteTextMap(v.typeMetadata);
    Joined(start, content, List(TextEntryBytes, Entries(v.typeMetadata)));
    content := content + List(TextEntryBytes, Entries(v.typeMetadata));
    WriteCertification(buf, v.certification);
    Joined(start, content, CertificationBytes(v.certification));
    content := content + CertificationBytes(v.certification);
    WriteOptionalParts(buf, v);
    Joined(start, content, Opt(EscrowBytes, v.projection) + Opt(OriginBytes, v.origin));
    ghost var front, clock := buf.data, Word(v.version);
    buf.WriteU64(v.version);
    buf.WriteU64(v.createdAtMs);
    Joined(front, clock, Word(v.createdAtMs));
    clock := clock + Word(v.createdAtMs);
    buf.WriteU64(v.updatedAtMs);
    Joined(front, clock, Word(v.updatedAtMs));
    bytes := buf.data;
  }

  lemma BlockIs(v: Vector, bytes: seq<byte>)
    requires bytes == VectorBytes(v)
    ensures Word(|bytes|) + bytes == VectorBlock(v)
  {
  }

  lemma NoItems(prefix: seq<byte>)
    ensures prefix + Items(VectorBlock, []) == prefix
  {
  }

  method ComputeStateRoot(env: Foreign, states: seq<Vector>, clock: u64) returns (root: StateRoot)
    ensures root == StateRoot(env.blake3(RootMaterial(SortVectors(states), clock)), |states|, clock)
    ensures multiset(SortVectors(states)) == multiset(states) && RootOrder(SortVectors(states))
  {
    hide VectorBytes, Word, VectorBlock, Items, RootOrder;
    var ordered := SortVectors(states);
    SortVectorsCorrect(states);
    SameMultisetSameElems(ordered, states);
    var buf := new ByteBuffer();
    buf.Extend(Utf8(ROOT_TAG));
    FromEmpty(Utf8(ROOT_TAG));
    buf.WriteU64(|ordered|);
    buf.WriteU64(clock);
    ghost var prefix := buf.data;
    NoItems(prefix);
    for i := 0 to |ordered|
      invariant buf.data == prefix + Items(VectorBlock, ordered[..i])
    {
      ItemsStep(VectorBlock, prefix, ordered, i);
      var bytes := CanonicalVectorBytes(ordered[i]);
      ghost var before := buf.data;
      buf.WriteU64(|bytes|);
      buf.Extend(bytes);
      Joined(before, Word(|bytes|), bytes);
      BlockIs(ordered[i], bytes);
    }
    TakeAll(ordered);
    root := StateRoot(env.blake3(buf.data), |states|, clock);
  }

  // ----- The material is a canonical form -----

  ghost predicate OptFits(s: Option<string>) {
    s.Some? ==> StrFits(s.value)
  }

  ghost predicate EscrowFits(p: Projection) {
    StrFits(p.escrowId) && FitsPrefix(|p.projected|) && FitsPrefix(|p.settled|) && OptFits(p.outcomeTag)
  }

  ghost predicate VectorFits(v: Vector) {
    && StrFits(v.schema) && StrFits(v.vectorId) && StrFits(v.ownerPubkey) && StrFits(v.spaceId)
    && FitsPrefix(|v.components|) && TextMapFits(v.typeMetadata) && OptFits(v.certification.reason)
    && (v.projection.Some? ==> EscrowFits(v.projection.value))
    && (v.origin.Some? ==> StrFits(v.origin.value.seed) && StrFits(v.origin.value.proofHash))
    && FitsPrefix(|VectorBytes(v)|)
  }

  lemma U128Separates(m: u128, n: u128)
    ensures Separates(U128Bytes, m, n)
  {
    forall r, s | U128Bytes(m) + r == U128Bytes(n) + s ensures m == n && r == s {
      SplitAt(16, U128Bytes(m), r, U128Bytes(n), s);
      RadixOfWord();
      BigEndianInjective(m, n, 16);
    }
  }

  lemma AmountsSeparate(a: seq<u128>, b: seq<u128>, r: seq<byte>, s: seq<byte>)
    requires FitsPrefix(|a|) && FitsPrefix(|b|) && List(U128Bytes, a) + r == List(U128Bytes, b) + s
    ensures a == b && r == s
  {
    forall x, y | x in a && y in b ensures Separates(U128Bytes, x, y) { U128Separates(x, y); }
    ListSeparates(U128Bytes, a, b, r, s);
  }

  lemma OptSeparates<T(!new)>(enc: T -> seq<byte>, a: Option<T>, b: Option<T>, r: seq<byte>, s: seq<byte>)
    requires a.Some? && b.Some? ==> Separates(enc, a.value, b.value)
    requires Opt(enc, a) + r == Opt(enc, b) + s
    ensures a == b && r == s
  {
    hide Flag;
    var x, y := if a.Some? then enc(a.value) else [], if b.Some? then enc(b.value) else [];
    Assoc(Flag(a.Some?), x, r);
    Assoc(Flag(b.Some?), y, s);
    FlagSeparates(a.Some?, b.Some?, x + r, y + s);
    if a.Some? {
      assert Separates(enc, a.value, b.value);
    } else {
      FromEmpty(r);
      FromEmpty(s);
    }
  }

  lemma OptTextSeparates(a: Option<string>, b: Option<string>, r: seq<byte>, s: seq<byte>)
    requires OptFits(a) && OptFits(b) && Opt(Str, a) + r == Opt(Str, b) + s
    ensures a == b && r == s
  {
    hide Opt;
    if a.Some? && b.Some? { StringSeparates(a.value, b.value); }
    OptSeparates(Str, a, b, r, s);
  }

  lemma CertificationSeparates(a: Certification, b: Certification, r: seq<byte>, s: seq<byte>)
    requires OptFits(a.reason) && OptFits(b.reason) && CertificationBytes(a) + r == CertificationBytes(b) + s
    ensures a == b && r == s
  {
    hide Word, Opt, Flag;
    Regroup5(Flag(a.certified), Word(a.authRatio), Word(a.threshold), Word(a.lastCheckedAtMs), Opt(Str, a.reason), r);
    Regroup5(Flag(b.certified), Word(b.authRatio), Word(b.threshold), Word(b.lastCheckedAtMs), Opt(Str, b.reason), s);
    var x, y := Opt(Str, a.reason) + r, Opt(Str, b.reason) + s;
    FlagSeparates(a.certified, b.certified, Word(a.authRatio) + (Word(a.threshold) + (Word(a.lastCheckedAtMs) + x)),
      Word(b.authRatio) + (Word(b.threshold) + (Word(b.lastCheckedAtMs) + y)));
    WordSeparates(a.authRatio, b.authRatio, Word(a.threshold) + (Word(a.lastCheckedAtMs) + x),
      Word(b.threshold) + (Word(b.lastCheckedAtMs) + y));
    WordSeparates(a.threshold, b.threshold, Word(a.lastCheckedAtMs) + x, Word(b.lastCheckedAtMs) + y);
    WordSeparates(a.lastCheckedAtMs, b.lastCheckedAtMs, x, y);
    OptTextSeparates(a.reason, b.reason, r, s);
  }

  lemma EscrowSeparates(a: Projection, b: Projection, r: seq<byte>, s: seq<byte>)
    requires EscrowFits(a) && EscrowFits(b) && EscrowBytes(a) + r == EscrowBytes(b) + s
    ensures a == b && r == s
  {
    hide Word, Opt, Str, List;
    var m, n := Opt(Str, a.outcomeTag) + r, Opt(Str, b.outcomeTag) + s;
    Regroup5(Str(a.escrowId), List(U128Bytes, a.projected), List(U128Bytes, a.settled), Word(a.startedAtMs),
      Opt(U64Bytes, a.settlementAtMs) + Opt(Str, a.outcomeTag), r);
    Regroup5(Str(b.escrowId), List(U128Bytes, b.projected), List(U128Bytes, b.settled), Word(b.startedAtMs),
      Opt(U64Bytes, b.settlementAtMs) + Opt(Str, b.outcomeTag), s);
    Assoc(Opt(U64Bytes, a.settlementAtMs), Opt(Str, a.outcomeTag), r);
    Assoc(Opt(U64Bytes, b.settlementAtMs), Opt(Str, b.outcomeTag), s);
    var x, y := Opt(U64Bytes, a.settlementAtMs) + m, Opt(U64Bytes, b.settlementAtMs) + n;
    StrSeparates(a.escrowId, b.escrowId,
      List(U128Bytes, a.projected) + (List(U128Bytes, a.settled) + (Word(a.startedAtMs) + x)),
      List(U128Bytes, b.projected) + (List(U128Bytes, b.settled) + (Word(b.startedAtMs) + y)));
    AmountsSeparate(a.projected, b.projected, List(U128Bytes, a.settled) + (Word(a.startedAtMs) + x),
      List(U128Bytes, b.settled) + (Word(b.startedAtMs) + y));
    AmountsSeparate(a.settled, b.settled, Word(a.startedAtMs) + x, Word(b.startedAtMs) + y);
    WordSeparates(a.startedAtMs, b.startedAtMs, x, y);
    if a.settlementAtMs.Some? && b.settlementAtMs.Some? {
      U64Separates(a.settlementAtMs.value, b.settlementAtMs.value);
    }
    OptSeparates(U64Bytes, a.settlementAtMs, b.settlementAtMs, m, n);
    OptTextSeparates(a.outcomeTag, b.outcomeTag, r, s);
  }

  lemma OptEscrowSeparates(a: Option<Projection>, b: Option<Projection>, r: seq<byte>, s: seq<byte>)
    requires (a.Some? ==> EscrowFits(a.value)) && (b.Some? ==> EscrowFits(b.value))
    requires Opt(EscrowBytes, a) + r == Opt(EscrowBytes, b) + s
    ensures a == b && r == s
  {
    hide EscrowBytes, EscrowFits, Opt;
    if a.Some? && b.Some? {
      forall q, t | EscrowBytes(a.value) + q == EscrowBytes(b.value) + t ensures a.value == b.value && q == t {
        EscrowSeparates(a.value, b.value, q, t);
      }
    }
    OptSeparates(EscrowBytes, a, b, r, s);
  }

  lemma OriginSeparates(a: OriginProof, b: OriginProof, r: seq<byte>, s: seq<byte>)
    requires StrFits(a.seed) && StrFits(a.proofHash) && StrFits(b.seed) && StrFits(b.proofHash)
    requires OriginBytes(a) + r == OriginBytes(b) + s
    ensures a == b && r == s
  {
    hide Word, Str;
    Regroup4(Str(a.seed), Word(a.nonce), Word(a.difficulty), Str(a.proofHash), r);
    Regroup4(Str(b.seed), Word(b.nonce), Word(b.difficulty), Str(b.proofHash), s);
    var x, y := Str(a.proofHash) + r, Str(b.proofHash) + s;
    StrSeparates(a.seed, b.seed, Word(a.nonce) + (Word(a.difficulty) + x), Word(b.nonce) + (Word(b.difficulty) + y));
    WordSeparates(a.nonce, b.nonce, Word(a.difficulty) + x, Word(b.difficulty) + y);
    WordSeparates(a.difficulty, b.difficulty, x, y);
    StrSeparates(a.proofHash, b.proofHash, r, s);
  }

  lemma OptOriginSeparates(a: Option<OriginProof>, b: Option<OriginProof>, r: seq<byte>, s: seq<byte>)
    requires (a.Some? ==> StrFits(a.value.seed) && StrFits(a.value.proofHash))
    requires (b.Some? ==> StrFits(b.value.seed) && StrFits(b.value.proofHash))
    requires Opt(OriginBytes, a) + r == Opt(OriginBytes, b) + s
    ensures a == b && r == s
  {
    hide OriginBytes, StrFits, Opt;
    if a.Some? && b.Some? {
      forall q, t | OriginBytes(a.value) + q == OriginBytes(b.value) + t ensures a.value == b.value && q == t {
        OriginSeparates(a.value, b.value, q, t);
      }
    }
    OptSeparates(OriginBytes, a, b, r, s);
  }

  lemma TypeNamesInjective(a: VectorType, b: VectorType)
    ensures TypeName(a) == TypeName(b) ==> a == b
    ensures StrFits(TypeName(a))
  {
    var t, u := TypeName(a), TypeName(b);
    assert t == u ==> |t| == |u| && t[0] == u[0];
    AsciiFits(t);
  }

  lemma StatusNamesInjective(a: VectorStatus, b: VectorStatus)
    ensures StatusName(a) == StatusName(b) ==> a == b
    ensures StrFits(StatusName(a))
  {
    var t, u := StatusName(a), StatusName(b);
    assert t == u ==> |t| == |u| && t[0] == u[0] && t[1] == u[1];
    AsciiFits(t);
  }

  lemma NamesSeparate(a: Vector, b: Vector, r: seq<byte>, s: seq<byte>)
    requires Str(TypeName(a.vectorType)) + (Str(StatusName(a.status)) + r) ==
      Str(TypeName(b.vectorType)) + (Str(StatusName(b.status)) + s)
    ensures a.vectorType == b.vectorType && a.status == b.status && r == s
  {
    TypeNamesInjective(a.vectorType, b.vectorType);
    TypeNamesInjective(b.vectorType, a.vectorType);
    StatusNamesInjective(a.status, b.status);
    StatusNamesInjective(b.status, a.status);
    hide TypeName, StatusName, Str;
    StrSeparates(TypeName(a.vectorType), TypeName(b.vectorType), Str(StatusName(a.status)) + r,
    Str(StatusName(b.status)) + s);
    StrSeparates(StatusName(a.status), StatusName(b.status), r, s);
  }

  ghost predicate SameIdentity(a: Vector, b: Vector) {
    && a.schema == b.schema && a.vectorId == b.vectorId && a.ownerPubkey == b.ownerPubkey && a.spaceId == b.spaceId
    && a.vectorType == b.vectorType && a.status == b.status
  }

  lemma IdentitySeparates(a: Vector, b: Vector, r: seq<byte>, s: seq<byte>)
    requires VectorFits(a) && VectorFits(b) && IdentityBytes(a) + r == IdentityBytes(b) + s
    ensures SameIdentity(a, b) && r == s
  {
    hide Str, TypeName, StatusName, VectorBytes;
    var t, u := Str(TypeName(a.vectorType)), Str(TypeName(b.vectorType));
    var p, q := Str(StatusName(a.status)), Str(StatusName(b.status));
    Regroup5(Str(a.schema), Str(a.vectorId), Str(a.ownerPubkey), Str(a.spaceId), t + p, r);
    Regroup5(Str(b.schema), Str(b.vectorId), Str(b.ownerPubkey), Str(b.spaceId), u + q, s);
    Assoc(t, p, r);
    Assoc(u, q, s);
    var x, y := t + (p + r), u + (q + s);
    StrSeparates(a.schema, b.schema, Str(a.vectorId) + (Str(a.ownerPubkey) + (Str(a.spaceId) + x)),
      Str(b.vectorId) + (Str(b.ownerPubkey) + (Str(b.spaceId) + y)));
    StrSeparates(a.vectorId, b.vectorId, Str(a.ownerPubkey) + (Str(a.spaceId) + x),
      Str(b.ownerPubkey) + (Str(b.spaceId) + y));
    StrSeparates(a.ownerPubkey, b.ownerPubkey, Str(a.spaceId) + x, Str(b.spaceId) + y);
    StrSeparates(a.spaceId, b.spaceId, x, y);
    NamesSeparate(a, b, r, s);
  }

  ghost predicate SameContent(a: Vector, b: Vector) {
    && a.components == b.components && a.typeMetadata == b.typeMetadata && a.certification == b.certification
    && a.projection == b.projection && a.origin == b.origin
  }

  lemma ContentSeparates(a: Vector, b: Vector, r: seq<byte>, s: seq<byte>)
    requires VectorFits(a) && VectorFits(b) && ContentBytes(a) + r == ContentBytes(b) + s
    ensures SameContent(a, b) && r == s
  {
    hide List, CertificationBytes, Opt, VectorBytes, EscrowFits, TextMapFits;
    var c, d := List(U128Bytes, a.components), List(U128Bytes, b.components);
    var m, n := List(TextEntryBytes, Entries(a.typeMetadata)), List(TextEntryBytes, Entries(b.typeMetadata));
    Regroup4(c, m, CertificationBytes(a.certification), Opt(EscrowBytes, a.projection) + Opt(OriginBytes, a.origin), r);
    Regroup4(d, n, CertificationBytes(b.certification), Opt(EscrowBytes, b.projection) + Opt(OriginBytes, b.origin), s);
    Assoc(Opt(EscrowBytes, a.projection), Opt(OriginBytes, a.origin), r);
    Assoc(Opt(EscrowBytes, b.projection), Opt(OriginBytes, b.origin), s);
    var x, y := Opt(EscrowBytes, a.projection) + (Opt(OriginBytes, a.origin) + r),
      Opt(EscrowBytes, b.projection) + (Opt(OriginBytes, b.origin) + s);
    AmountsSeparate(a.components, b.components, m + (CertificationBytes(a.certification) + x),
      n + (CertificationBytes(b.certification) + y));
    TextMapSeparates(a.typeMetadata, b.typeMetadata, CertificationBytes(a.certification) + x,
      CertificationBytes(b.certification) + y);
    CertificationSeparates(a.certification, b.certification, x, y);
    OptEscrowSeparates(a.projection, b.projection, Opt(OriginBytes, a.origin) + r, Opt(OriginBytes, b.origin) + s);
    OptOriginSeparates(a.origin, b.origin, r, s);
  }

  /** The canonical bytes determine the vector. */
  lemma VectorSeparates(a: Vector, b: Vector, r: seq<byte>, s: seq<byte>)
    requires VectorFits(a) && VectorFits(b) && VectorBytes(a) + r == VectorBytes(b) + s
    ensures a == b && r == s
  {
    hide IdentityBytes, ContentBytes, VectorFits;
    Assoc(IdentityBytes(a) + ContentBytes(a), ClockBytes(a), r);
    Assoc(IdentityBytes(b) + ContentBytes(b), ClockBytes(b), s);
    Assoc(IdentityBytes(a), ContentBytes(a), ClockBytes(a) + r);
    Assoc(IdentityBytes(b), ContentBytes(b), ClockBytes(b) + s);
    IdentitySeparates(a, b, ContentBytes(a) + (ClockBytes(a) + r), ContentBytes(b) + (ClockBytes(b) + s));
    ContentSeparates(a, b, ClockBytes(a) + r, ClockBytes(b) + s);
    ClocksSeparate(a, b, r, s);
  }

  lemma ClocksSeparate(a: Vector, b: Vector, r: seq<byte>, s: seq<byte>)
    requires ClockBytes(a) + r == ClockBytes(b) + s
    ensures a.version == b.version && a.createdAtMs == b.createdAtMs && a.updatedAtMs == b.updatedAtMs && r == s
  {
    hide Word;
    Regroup4(Word(a.version), Word(a.createdAtMs), Word(a.updatedAtMs), [], r);
    Regroup4(Word(b.version), Word(b.createdAtMs), Word(b.updatedAtMs), [], s);
    FromEmpty(r);
    FromEmpty(s);
    assert Word(a.version) + Word(a.createdAtMs) + Word(a.updatedAtMs) + [] == ClockBytes(a);
    assert Word(b.version) + Word(b.createdAtMs) + Word(b.updatedAtMs) + [] == ClockBytes(b);
    WordSeparates(a.version, b.version, Word(a.createdAtMs) + (Word(a.updatedAtMs) + r),
      Word(b.createdAtMs) + (Word(b.updatedAtMs) + s));
    WordSeparates(a.createdAtMs, b.createdAtMs, Word(a.updatedAtMs) + r, Word(b.updatedAtMs) + s);
    WordSeparates(a.updatedAtMs, b.updatedAtMs, r, s);
  }

  lemma BlockSeparates(a: Vector, b: Vector)
    requires VectorFits(a) && VectorFits(b)
    ensures Separates(VectorBlock, a, b)
  {
    hide VectorBytes;
    forall r, s | VectorBlock(a) + r == VectorBlock(b) + s ensures a == b && r == s {
      Assoc(Word(|VectorBytes(a)|), VectorBytes(a), r);
      Assoc(Word(|VectorBytes(b)|), VectorBytes(b), s);
      WordSeparates(|VectorBytes(a)|, |VectorBytes(b)|, VectorBytes(a) + r, VectorBytes(b) + s);
      VectorSeparates(a, b, r, s);
    }
  }

  lemma MaterialInjective(a: seq<Vector>, c: u64, b: seq<Vector>, d: u64)
    requires (forall v :: v in a ==> VectorFits(v)) && (forall v :: v in b ==> VectorFits(v)) && FitsPrefix(|a|)
    requires FitsPrefix(|b|)
    requires RootMaterial(a, c) == RootMaterial(b, d)
    ensures a == b && c == d
  {
    hide VectorFits, VectorBlock, Word;
    var tag, x, y := Utf8(ROOT_TAG), Items(VectorBlock, a), Items(VectorBlock, b);
    Regroup4(tag, Word(|a|), Word(c), x, []);
    Regroup4(tag, Word(|b|), Word(d), y, []);
    assert RootMaterial(a, c) + [] == RootMaterial(b, d) + [];
    SplitAt(|tag|, tag, Word(|a|) + (Word(c) + (x + [])), tag, Word(|b|) + (Word(d) + (y + [])));
    WordSeparates(|a|, |b|, Word(c) + (x + []), Word(d) + (y + []));
    WordSeparates(c, d, x + [], y + []);
    forall v, w | v in a && w in b ensures Separates(VectorBlock, v, w) { BlockSeparates(v, w); }
    ItemsSeparate(VectorBlock, a, b, [], []);
  }

  lemma SortedHolds(a: seq<Vector>)
    ensures multiset(SortVectors(a)) == multiset(a) && |SortVectors(a)| == |a|
    ensures forall v :: v in SortVectors(a) ==> v in a
  {
    hide SortVectors;
    SortVectorsCorrect(a);
    SameMultisetSameElems(a, SortVectors(a));
    assert forall v :: v in SortVectors(a) ==> v in Elems(SortVectors(a));
  }

  lemma SortedSame(a: seq<Vector>, b: seq<Vector>)
    requires DistinctIds(a) && multiset(a) == multiset(b)
    ensures SortVectors(a) == SortVectors(b)
  {
    hide SortVectors, IdsAscend, DistinctIds;
    var x, y := SortVectors(a), SortVectors(b);
    SortVectorsCorrect(a);
    SortVectorsCorrect(b);
    DistinctIdsPerm(a, x);
    DistinctIdsPerm(a, y);
    SameMultisetSameElems(x, y);
    AscendingIdsUnique(x, y);
  }

  /**
   * For vectors with distinct ids the hashed material is a canonical form: it is the same exactly
   * when the two lists hold the same vectors, in any order, and the clocks are equal.
   */
  lemma MaterialCanonical(a: seq<Vector>, c: u64, b: seq<Vector>, d: u64)
    requires (forall v :: v in a ==> VectorFits(v)) && (forall v :: v in b ==> VectorFits(v)) && FitsPrefix(|a|)
    requires FitsPrefix(|b|)
    requires DistinctIds(a)
    ensures RootMaterial(SortVectors(a), c) == RootMaterial(SortVectors(b), d) <==> multiset(a) == multiset(b) && c == d
  {
    hide VectorFits, RootMaterial, SortVectors, DistinctIds;
    var x, y := SortVectors(a), SortVectors(b);
    SortedHolds(a);
    SortedHolds(b);
    if RootMaterial(x, c) == RootMaterial(y, d) { MaterialInjective(x, c, y, d); }
    if multiset(a) == multiset(b) { SortedSame(a, b); }
  }
}
