/**
 * Unique decodability of the canonical formats: a stream that starts with the encodings of two
 * values starts with one value, and leaves one unread suffix.
 */
module Decoding {
  import opened Base
  import opened Bytes
  import opened Events
  import opened Serialization
  import Text

  lemma Assoc(a: seq<byte>, b: seq<byte>, c: seq<byte>)
    ensures (a + b) + c == a + (b + c)
  {
  }

  lemma U64Separates(m: u64, n: u64)
    ensures Separates(U64Bytes, m, n)
  {
    forall r, s | U64Bytes(m) + r == U64Bytes(n) + s ensures m == n && r == s {
      WordSeparates(m, n, r, s);
    }
  }

  lemma StringSeparates(a: string, b: string)
    requires StrFits(a) && StrFits(b)
    ensures Separates(Str, a, b)
  {
    forall r, s | Str(a) + r == Str(b) + s ensures a == b && r == s {
      StrSeparates(a, b, r, s);
    }
  }

  lemma TextEntrySeparates(a: (string, string), b: (string, string))
    requires StrFits(a.0) && StrFits(a.1) && StrFits(b.0) && StrFits(b.1)
    ensures Separates(TextEntryBytes, a, b)
  {
    forall r, s | TextEntryBytes(a) + r == TextEntryBytes(b) + s ensures a == b && r == s {
      Assoc(Str(a.0), Str(a.1), r);
      Assoc(Str(b.0), Str(b.1), s);
      StrSeparates(a.0, b.0, Str(a.1) + r, Str(b.1) + s);
      StrSeparates(a.1, b.1, r, s);
    }
  }

  /** Maps with the same entries are the same map. */
  lemma EntriesInjective<V(!new)>(m: map<string, V>, n: map<string, V>)
    requires Entries(m) == Entries(n)
    ensures m == n
  {
    KeysAreKeys(m);
    KeysAreKeys(n);
    Text.SortedKeysSorted(m.Keys);
    Text.SortedKeysSorted(n.Keys);
    var ks, ls := Text.SortedKeys(m.Keys), Text.SortedKeys(n.Keys);
    SameEntries(m, ks, n, ls);
    assert m.Keys == n.Keys;
    forall k | k in m ensures m[k] == n[k] {
      assert k in ks;
    }
  }

  lemma SameEntries<V(!new)>(m: map<string, V>, ks: seq<string>, n: map<string, V>, ls: seq<string>)
    requires (forall k :: k in ks ==> k in m) && forall k :: k in ls ==> k in n
    requires EntriesAt(m, ks) == EntriesAt(n, ls)
    ensures ks == ls && forall k :: k in ks ==> m[k] == n[k]
  {
    var entries := EntriesAt(m, ks);
    assert forall i :: 0 <= i < |ks| ==> entries[i] == (ks[i], m[ks[i]]) == (ls[i], n[ls[i]]);
  }

  lemma EntriesHold<V>(m: map<string, V>)
    ensures |Entries(m)| == |m|
    ensures forall entry :: entry in Entries(m) ==> entry.0 in m && entry.1 == m[entry.0]
  {
    KeysAreKeys(m);
    var keys, entries := Text.SortedKeys(m.Keys), Entries(m);
    forall entry | entry in entries ensures entry.0 in m && entry.1 == m[entry.0] {
      var i :| 0 <= i < |entries| && entries[i] == entry;
      assert keys[i] in keys;
    }
  }

  lemma TextMapSeparates(m: map<string, string>, n: map<string, string>, r: seq<byte>, s: seq<byte>)
    requires TextMapFits(m) && TextMapFits(n)
    requires List(TextEntryBytes, Entries(m)) + r == List(TextEntryBytes, Entries(n)) + s
    ensures m == n && r == s
  {
    EntriesHold(m);
    EntriesHold(n);
    forall x, y | x in Entries(m) && y in Entries(n) ensures Separates(TextEntryBytes, x, y) {
      TextEntrySeparates(x, y);
    }
    ListSeparates(TextEntryBytes, Entries(m), Entries(n), r, s);
    EntriesInjective(m, n);
  }

  lemma StringsSeparate(a: seq<string>, b: seq<string>, r: seq<byte>, s: seq<byte>)
    requires FitsPrefix(|a|) && FitsPrefix(|b|)
    requires (forall v :: v in a ==> StrFits(v)) && (forall v :: v in b ==> StrFits(v))
    requires List(Str, a) + r == List(Str, b) + s
    ensures a == b && r == s
  {
    forall x, y | x in a && y in b ensures Separates(Str, x, y) {
      StringSeparates(x, y);
    }
    ListSeparates(Str, a, b, r, s);
  }

  lemma NumbersSeparate(a: seq<u64>, b: seq<u64>, r: seq<byte>, s: seq<byte>)
    requires FitsPrefix(|a|) && FitsPrefix(|b|) && List(U64Bytes, a) + r == List(U64Bytes, b) + s
    ensures a == b && r == s
  {
    forall x, y | x in a && y in b ensures Separates(U64Bytes, x, y) {
      U64Separates(x, y);
    }
    ListSeparates(U64Bytes, a, b, r, s);
  }

  /** Only the names of custom operations are left to the second string. */
  lemma NamesInjective(a: OperationType, b: OperationType)
    requires CanonicalName(a) == CanonicalName(b)
    ensures a == b || (a.Other? && b.Other?)
  {
    var m, n := CanonicalName(a), CanonicalName(b);
    assert |m| == |n| && m[0] == n[0] && m[1] == n[1];
  }

  lemma OperationSeparates(a: OperationType, b: OperationType, r: seq<byte>, s: seq<byte>)
    requires OperationFits(a) && OperationFits(b) && OperationBytes(a) + r == OperationBytes(b) + s
    ensures a == b && r == s
  {
    var x, y := if a.Other? then Str(a.name) else [], if b.Other? then Str(b.name) else [];
    Assoc(Str(CanonicalName(a)), x, r);
    Assoc(Str(CanonicalName(b)), y, s);
    NameFits(a);
    NameFits(b);
    StrSeparates(CanonicalName(a), CanonicalName(b), x + r, y + s);
    NamesInjective(a, b);
    if a.Other? {
      StrSeparates(a.name, b.name, r, s);
    } else {
      FromEmpty(r);
      FromEmpty(s);
    }
  }

  lemma Regroup4(a: seq<byte>, b: seq<byte>, c: seq<byte>, d: seq<byte>, r: seq<byte>)
    ensures (a + b + c + d) + r == a + (b + (c + (d + r)))
  {
  }

  lemma Regroup5(a: seq<byte>, b: seq<byte>, c: seq<byte>, d: seq<byte>, e: seq<byte>, r: seq<byte>)
    ensures (a + b + c + d + e) + r == a + (b + (c + (d + (e + r))))
  {
    Assoc(a + b + c + d, e, r);
    Regroup4(a, b, c, d, e + r);
  }

  lemma VectorStateSeparates(v: VectorState, w: VectorState, r: seq<byte>, s: seq<byte>)
    requires VectorStateFits(v) && VectorStateFits(w) && VectorStateBytes(v) + r == VectorStateBytes(w) + s
    ensures v == w && r == s
  {
    var md, nd := List(TextEntryBytes, Entries(v.metadata)), List(TextEntryBytes, Entries(w.metadata));
    Regroup4(List(U64Bytes, v.components), Str(v.ownerPublicKey), Str(v.typeTag), md, r);
    Regroup4(List(U64Bytes, w.components), Str(w.ownerPublicKey), Str(w.typeTag), nd, s);
    NumbersSeparate(v.components, w.components,
      Str(v.ownerPublicKey) + (Str(v.typeTag) + (md + r)), Str(w.ownerPublicKey) + (Str(w.typeTag) + (nd + s)));
    StrSeparates(v.ownerPublicKey, w.ownerPublicKey, Str(v.typeTag) + (md + r), Str(w.typeTag) + (nd + s));
    StrSeparates(v.typeTag, w.typeTag, md + r, nd + s);
    TextMapSeparates(v.metadata, w.metadata, r, s);
  }

  /** The fields the payload binds. */
  ghost predicate SamePayload(e: VectorEvent, f: VectorEvent) {
    && SameHead(e, f) && SameTail(e, f)
    && e.vectorBefore == f.vectorBefore && e.vectorAfter == f.vectorAfter
  }

  ghost predicate SameHead(e: VectorEvent, f: VectorEvent) {
    && e.eventId == f.eventId && e.parentHashes == f.parentHashes && e.regionId == f.regionId
    && e.entityId == f.entityId && e.operation == f.operation
  }

  ghost predicate SameTail(e: VectorEvent, f: VectorEvent) {
    && e.authRatio == f.authRatio && e.certified == f.certified && e.actorPublicKey == f.actorPublicKey
    && e.logicalClock == f.logicalClock && e.timestamp == f.timestamp
  }

  lemma HeadSeparates(e: VectorEvent, f: VectorEvent, r: seq<byte>, s: seq<byte>)
    requires EventFits(e) && EventFits(f) && HeadBytes(e) + r == HeadBytes(f) + s
    ensures SameHead(e, f) && r == s
  {
    var x, y := OperationBytes(e.operation) + r, OperationBytes(f.operation) + s;
    Regroup5(Str(e.eventId), List(Str, e.parentHashes), Str(e.regionId), Str(e.entityId), OperationBytes(e.operation),
      r);
    Regroup5(Str(f.eventId), List(Str, f.parentHashes), Str(f.regionId), Str(f.entityId), OperationBytes(f.operation),
      s);
    StrSeparates(e.eventId, f.eventId,
      List(Str, e.parentHashes) + (Str(e.regionId) + (Str(e.entityId) + x)),
      List(Str, f.parentHashes) + (Str(f.regionId) + (Str(f.entityId) + y)));
    StringsSeparate(e.parentHashes, f.parentHashes, Str(e.regionId) + (Str(e.entityId) + x),
      Str(f.regionId) + (Str(f.entityId) + y));
    StrSeparates(e.regionId, f.regionId, Str(e.entityId) + x, Str(f.entityId) + y);
    StrSeparates(e.entityId, f.entityId, x, y);
    OperationSeparates(e.operation, f.operation, r, s);
  }

  lemma TailSeparates(e: VectorEvent, f: VectorEvent, r: seq<byte>, s: seq<byte>)
    requires EventFits(e) && EventFits(f) && TailBytes(e) + r == TailBytes(f) + s
    ensures SameTail(e, f) && r == s
  {
    var x, y := U64Bytes(e.timestamp) + r, U64Bytes(f.timestamp) + s;
    Regroup5(U64Bytes(e.authRatio), Flag(e.certified), Str(e.actorPublicKey), U64Bytes(e.logicalClock),
      U64Bytes(e.timestamp), r);
    Regroup5(U64Bytes(f.authRatio), Flag(f.certified), Str(f.actorPublicKey), U64Bytes(f.logicalClock),
      U64Bytes(f.timestamp), s);
    WordSeparates(e.authRatio, f.authRatio,
      Flag(e.certified) + (Str(e.actorPublicKey) + (U64Bytes(e.logicalClock) + x)),
      Flag(f.certified) + (Str(f.actorPublicKey) + (U64Bytes(f.logicalClock) + y)));
    FlagSeparates(e.certified, f.certified,
      Str(e.actorPublicKey) + (U64Bytes(e.logicalClock) + x), Str(f.actorPublicKey) + (U64Bytes(f.logicalClock) + y));
    StrSeparates(e.actorPublicKey, f.actorPublicKey, U64Bytes(e.logicalClock) + x, U64Bytes(f.logicalClock) + y);
    WordSeparates(e.logicalClock, f.logicalClock, x, y);
    WordSeparates(e.timestamp, f.timestamp, r, s);
  }

  /** A payload stream determines every payload field and its own end. */
  lemma PayloadSeparates(e: VectorEvent, f: VectorEvent, r: seq<byte>, s: seq<byte>)
    requires EventFits(e) && EventFits(f) && PayloadBytes(e) + r == PayloadBytes(f) + s
    ensures SamePayload(e, f) && r == s
  {
    var x, y := TailBytes(e) + r, TailBytes(f) + s;
    Regroup4(HeadBytes(e), VectorStateBytes(e.vectorBefore), VectorStateBytes(e.vectorAfter), TailBytes(e), r);
    Regroup4(HeadBytes(f), VectorStateBytes(f.vectorBefore), VectorStateBytes(f.vectorAfter), TailBytes(f), s);
    HeadSeparates(e, f, VectorStateBytes(e.vectorBefore) + (VectorStateBytes(e.vectorAfter) + x),
      VectorStateBytes(f.vectorBefore) + (VectorStateBytes(f.vectorAfter) + y));
    VectorStateSeparates(e.vectorBefore, f.vectorBefore, VectorStateBytes(e.vectorAfter) + x,
      VectorStateBytes(f.vectorAfter) + y);
    VectorStateSeparates(e.vectorAfter, f.vectorAfter, x, y);
    TailSeparates(e, f, r, s);
  }

  /** An event stream determines every field it hashes and its own end. */
  lemma EventSeparates(e: VectorEvent, f: VectorEvent, r: seq<byte>, s: seq<byte>)
    requires EventFits(e) && EventFits(f) && EventBytes(e) + r == EventBytes(f) + s
    ensures SamePayload(e, f) && e.payloadHash == f.payloadHash && r == s
  {
    Assoc(PayloadBytes(e), Str(e.payloadHash), r);
    Assoc(PayloadBytes(f), Str(f.payloadHash), s);
    PayloadSeparates(e, f, Str(e.payloadHash) + r, Str(f.payloadHash) + s);
    StrSeparates(e.payloadHash, f.payloadHash, r, s);
  }

  lemma StateEntrySeparates(a: (string, VectorState), b: (string, VectorState))
    requires StrFits(a.0) && VectorStateFits(a.1) && StrFits(b.0) && VectorStateFits(b.1)
    ensures Separates(StateEntryBytes, a, b)
  {
    forall r, s | StateEntryBytes(a) + r == StateEntryBytes(b) + s ensures a == b && r == s {
      Assoc(Str(a.0), VectorStateBytes(a.1), r);
      Assoc(Str(b.0), VectorStateBytes(b.1), s);
      StrSeparates(a.0, b.0, VectorStateBytes(a.1) + r, VectorStateBytes(b.1) + s);
      VectorStateSeparates(a.1, b.1, r, s);
    }
  }

  /** A state map stream determines the map and its own end. */
  lemma StateMapSeparates(m: map<string, VectorState>, n: map<string, VectorState>, r: seq<byte>, s: seq<byte>)
    requires StateMapFits(m) && StateMapFits(n) && StateMapBytes(m) + r == StateMapBytes(n) + s
    ensures m == n && r == s
  {
    EntriesHold(m);
    EntriesHold(n);
    forall x, y | x in Entries(m) && y in Entries(n) ensures Separates(StateEntryBytes, x, y) {
      StateEntrySeparates(x, y);
    }
    ListSeparates(StateEntryBytes, Entries(m), Entries(n), r, s);
    EntriesInjective(m, n);
  }

  /** A tagged payload stream determines the tag, the payload and its own end. */
  lemma BlobSeparates(t: string, p: seq<byte>, u: string, q: seq<byte>, r: seq<byte>, s: seq<byte>)
    requires StrFits(t) && StrFits(u) && FitsPrefix(|p|) && FitsPrefix(|q|) && Blob(t, p) + r == Blob(u, q) + s
    ensures t == u && p == q && r == s
  {
    hide Word, Str, StrFits;
    Assoc(Str(t), Word(|p|) + p, r);
    Assoc(Str(u), Word(|q|) + q, s);
    Assoc(Word(|p|), p, r);
    Assoc(Word(|q|), q, s);
    StrSeparates(t, u, Word(|p|) + (p + r), Word(|q|) + (q + s));
    WordSeparates(|p|, |q|, p + r, q + s);
    SplitAt(|p|, p, r, q, s);
  }

  /** Equal replay material means equal hash lists. */
  lemma ReplayBytesInjective(a: seq<string>, b: seq<string>)
    requires FitsPrefix(|a|) && FitsPrefix(|b|) && ReplayBytes(a) == ReplayBytes(b)
    requires (forall v :: v in a ==> StrFits(v)) && (forall v :: v in b ==> StrFits(v))
    ensures a == b
  {
    var prefix := Blob("replay-v1", []);
    SplitAt(|prefix|, prefix, List(Str, a), prefix, List(Str, b));
    assert List(Str, a) + [] == List(Str, a) && List(Str, b) + [] == List(Str, b);
    StringsSeparate(a, b, [], []);
  }
}
