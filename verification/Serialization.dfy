/**
 * The canonical byte formats (src/serialization.rs): the writers, what they write, and why no two
 * values share a stream.
 */
module Serialization {
  import opened Base
  import opened Bytes
  import opened Events
  import Text

  // ----- What is written -----

  function CanonicalName(op: OperationType): string {
    match op
    case OriginCreate => "ORIGIN_CREATE"
    case Certify => "CERTIFY"
    case Transfer => "TRANSFER"
    case Drain => "DRAIN"
    case Project => "PROJECT"
    case Reconstruct => "RECONSTRUCT"
    case Move => "MOVE"
    case Rotate => "ROTATE"
    case Scale => "SCALE"
    case Normalize => "NORMALIZE"
    case Constrain => "CONSTRAIN"
    case Query => "QUERY"
    case Record => "RECORD"
    case Other(_) => "OTHER"
  }

  function U64Bytes(v: u64): seq<byte> {
    Word(v)
  }

  function OperationBytes(op: OperationType): seq<byte> {
    Str(CanonicalName(op)) + if op.Other? then Str(op.name) else []
  }

  /** The entries of an ordered map whose keys are `keys`. */
  ghost function EntriesAt<V>(m: map<string, V>, keys: seq<string>): (r: seq<(string, V)>)
    requires forall k :: k in keys ==> k in m
    ensures |r| == |keys| && forall i :: 0 <= i < |r| ==> r[i] == (keys[i], m[keys[i]])
  {
    if keys == [] then [] else [(keys[0], m[keys[0]])] + EntriesAt(m, keys[1..])
  }

  lemma KeysAreKeys<V>(m: map<string, V>)
    ensures forall k :: k in Text.SortedKeys(m.Keys) <==> k in m
    ensures |Text.SortedKeys(m.Keys)| == |m|
  {
    var keys := Text.SortedKeys(m.Keys);
    Text.SortedKeysSorted(m.Keys);
    assert forall k :: k in keys <==> k in Elems(keys);
    NoDupCount(keys);
  }

  /** The entries of an ordered map in iteration order. */
  ghost function Entries<V>(m: map<string, V>): seq<(string, V)> {
    KeysAreKeys(m);
    EntriesAt(m, Text.SortedKeys(m.Keys))
  }

  function TextEntryBytes(entry: (string, string)): seq<byte> {
    Str(entry.0) + Str(entry.1)
  }

  ghost function VectorStateBytes(v: VectorState): seq<byte> {
    List(U64Bytes, v.components) + Str(v.ownerPublicKey) + Str(v.typeTag) + List(TextEntryBytes, Entries(v.metadata))
  }

  ghost function StateEntryBytes(entry: (string, VectorState)): seq<byte> {
    Str(entry.0) + VectorStateBytes(entry.1)
  }

  ghost function StateMapBytes(m: map<string, VectorState>): seq<byte> {
    List(StateEntryBytes, Entries(m))
  }

  /** The identifying fields of an event. */
  function HeadBytes(e: VectorEvent): seq<byte> {
    Str(e.eventId) + List(Str, e.parentHashes) + Str(e.regionId) + Str(e.entityId) + OperationBytes(e.operation)
  }

  function TailBytes(e: VectorEvent): seq<byte> {
    U64Bytes(e.authRatio) + Flag(e.certified) + Str(e.actorPublicKey) + U64Bytes(e.logicalClock) + U64Bytes(e.timestamp)
  }

  /** The hashed and signed payload: everything but the two hashes and the signature. */
  ghost function PayloadBytes(e: VectorEvent): seq<byte> {
    HeadBytes(e) + VectorStateBytes(e.vectorBefore) + VectorStateBytes(e.vectorAfter) + TailBytes(e)
  }

  /** The hashed event: the payload and its hash. */
  ghost function EventBytes(e: VectorEvent): seq<byte> {
    PayloadBytes(e) + Str(e.payloadHash)
  }

  /** A tagged payload. */
  function Blob(tag: string, payload: seq<byte>): seq<byte> {
    Str(tag) + (Word(|payload|) + payload)
  }

  /** The material of a replay hash. */
  function ReplayBytes(hashes: seq<string>): seq<byte> {
    Blob("replay-v1", []) + List(Str, hashes)
  }

  // ----- The writers -----

  /** Writing `next` after `done` has been written to a buffer that held `start`. */
  lemma Joined(start: seq<byte>, done: seq<byte>, next: seq<byte>)
    ensures (start + done) + next == start + (done + next)
  {
  }

  lemma FromEmpty(bytes: seq<byte>)
    ensures [] + bytes == bytes
  {
  }

  class ByteBuffer {
    var data: seq<byte>

    constructor ()
      ensures data == []
    {
      data := [];
    }

    method Extend(bytes: seq<byte>)
      modifies this
      ensures data == old(data) + bytes
    {
      data := data + bytes;
    }

    method WriteBool(value: bool)
      modifies this
      ensures data == old(data) + Flag(value)
    {
      data := data + [if value then 1 else 0];
    }

    method WriteU32(value: nat)
      modifies this
      ensures data == old(data) + BigEndian(value, 4)
    {
      data := data + BigEndian(value, 4);
    }

    /** A number or a length, cast to 64 bits; the high half is written before the low half. */
    method WriteU64(value: nat)
      modifies this
      ensures data == old(data) + Word(value)
    {
      RadixOfWord();
      var hi, lo := value / 0x1_0000_0000, value % 0x1_0000_0000;
      BigEndianHalves(hi, lo, 4, 4);
      ghost var start := data;
      WriteU32(hi);
      WriteU32(lo);
      Joined(start, BigEndian(hi, 4), BigEndian(lo, 4));
    }

    method WriteStr(value: string)
      modifies this
      ensures data == old(data) + Str(value)
    {
      ghost var start := data;
      var bytes := Utf8(value);
      WriteU64(|bytes|);
      Extend(bytes);
      Joined(start, Word(|bytes|), bytes);
    }

    method WriteStrings(values: seq<string>)
      modifies this
      ensures data == old(data) + List(Str, values)
    {
      ghost var start := data;
      WriteU64(|values|);
      for i := 0 to |values|
        invariant data == start + Word(|values|) + Items(Str, values[..i])
      {
        ItemsStep(Str, start + Word(|values|), values, i);
        assert values[i] in values;
        WriteStr(values[i]);
      }
      TakeAll(values);
      Joined(start, Word(|values|), Items(Str, values));
    }

    method WriteNumbers(values: seq<u64>)
      modifies this
      ensures data == old(data) + List(U64Bytes, values)
    {
      ghost var start := data;
      WriteU64(|values|);
      for i := 0 to |values|
        invariant data == start + Word(|values|) + Items(U64Bytes, values[..i])
      {
        ItemsStep(U64Bytes, start + Word(|values|), values, i);
        WriteU64(values[i]);
      }
      TakeAll(values);
      Joined(start, Word(|values|), Items(U64Bytes, values));
    }

    method WriteTextMap(m: map<string, string>)
      modifies this
      ensures data == old(data) + List(TextEntryBytes, Entries(m))
    {
      var keys := Text.KeysInOrder(m.Keys);
      KeysAreKeys(m);
      ghost var start, entries := data, Entries(m);
      WriteU64(|keys|);
      for i := 0 to |keys|
        invariant data == start + Word(|entries|) + Items(TextEntryBytes, entries[..i])
      {
        var key := keys[i];
        ItemsStep(TextEntryBytes, start + Word(|entries|), entries, i);
        assert key in keys;
        ghost var before := data;
        WriteStr(key);
        WriteStr(m[key]);
        Joined(before, Str(key), Str(m[key]));
      }
      TakeAll(entries);
      Joined(start, Word(|entries|), Items(TextEntryBytes, entries));
    }

    method WriteOperation(op: OperationType)
      modifies this
      ensures data == old(data) + OperationBytes(op)
    {
      ghost var start := data;
      WriteStr(CanonicalName(op));
      if op.Other? {
        WriteStr(op.name);
        Joined(start, Str(CanonicalName(op)), Str(op.name));
      }
    }

    method WriteVectorState(v: VectorState)
      modifies this
      ensures data == old(data) + VectorStateBytes(v)
    {
      ghost var start := data;
      WriteNumbers(v.components);
      ghost var done := List(U64Bytes, v.components);
      WriteStr(v.ownerPublicKey);
      Joined(start, done, Str(v.ownerPublicKey));
      done := done + Str(v.ownerPublicKey);
      WriteStr(v.typeTag);
      Joined(start, done, Str(v.typeTag));
      done := done + Str(v.typeTag);
      WriteTextMap(v.metadata);
      Joined(start, done, List(TextEntryBytes, Entries(v.metadata)));
    }

    method WriteHead(e: VectorEvent)
      modifies this
      ensures data == old(data) + HeadBytes(e)
    {
      ghost var start := data;
      WriteStr(e.eventId);
      ghost var done := Str(e.eventId);
      WriteStrings(e.parentHashes);
      Joined(start, done, List(Str, e.parentHashes));
      done := done + List(Str, e.parentHashes);
      WriteStr(e.regionId);
      Joined(start, done, Str(e.regionId));
      done := done + Str(e.regionId);
      WriteStr(e.entityId);
      Joined(start, done, Str(e.entityId));
      done := done + Str(e.entityId);
      WriteOperation(e.operation);
      Joined(start, done, OperationBytes(e.operation));
    }

    method WriteTail(e: VectorEvent)
      modifies this
      ensures data == old(data) + TailBytes(e)
    {
      ghost var start := data;
      WriteU64(e.authRatio);
      ghost var done := U64Bytes(e.authRatio);
      WriteBool(e.certified);
      Joined(start, done, Flag(e.certified));
      done := done + Flag(e.certified);
      WriteStr(e.actorPublicKey);
      Joined(start, done, Str(e.actorPublicKey));
      done := done + Str(e.actorPublicKey);
      WriteU64(e.logicalClock);
      Joined(start, done, U64Bytes(e.logicalClock));
      done := done + U64Bytes(e.logicalClock);
      WriteU64(e.timestamp);
      Joined(start, done, U64Bytes(e.timestamp));
    }
  }

  method WritePayload(buf: ByteBuffer, e: VectorEvent)
    modifies buf
    ensures buf.data == old(buf.data) + PayloadBytes(e)
  {
    ghost var start := buf.data;
    buf.WriteHead(e);
    ghost var done := HeadBytes(e);
    buf.WriteVectorState(e.vectorBefore);
    Joined(start, done, VectorStateBytes(e.vectorBefore));
    done := done + VectorStateBytes(e.vectorBefore);
    buf.WriteVectorState(e.vectorAfter);
    Joined(start, done, VectorStateBytes(e.vectorAfter));
    done := done + VectorStateBytes(e.vectorAfter);
    buf.WriteTail(e);
    Joined(start, done, TailBytes(e));
  }

  method CanonicalEventPayloadBytes(e: VectorEvent) returns (bytes: seq<byte>)
    ensures bytes == PayloadBytes(e)
  {
    var buf := new ByteBuffer();
    WritePayload(buf, e);
    FromEmpty(PayloadBytes(e));
    bytes := buf.data;
  }

  method CanonicalEventBytes(e: VectorEvent) returns (bytes: seq<byte>)
    ensures bytes == EventBytes(e)
  {
    var payload := CanonicalEventPayloadBytes(e);
    var buf := new ByteBuffer();
    buf.Extend(payload);
    FromEmpty(payload);
    buf.WriteStr(e.payloadHash);
    bytes := buf.data;
  }

  /** The event type's own serializer writes thirteen fields in sequence; it agrees with `CanonicalEventBytes`. */
  method VectorEventBytes(e: VectorEvent) returns (bytes: seq<byte>)
    ensures bytes == EventBytes(e)
  {
    var buf := new ByteBuffer();
    buf.WriteStr(e.eventId);
    FromEmpty(Str(e.eventId));
    buf.WriteStrings(e.parentHashes);
    buf.WriteStr(e.regionId);
    buf.WriteStr(e.entityId);
    buf.WriteOperation(e.operation);
    buf.WriteVectorState(e.vectorBefore);
    buf.WriteVectorState(e.vectorAfter);
    ghost var front, tail := buf.data, U64Bytes(e.authRatio);
    assert front == HeadBytes(e) + VectorStateBytes(e.vectorBefore) + VectorStateBytes(e.vectorAfter);
    buf.WriteU64(e.authRatio);
    buf.WriteBool(e.certified);
    Joined(front, tail, Flag(e.certified));
    tail := tail + Flag(e.certified);
    buf.WriteStr(e.actorPublicKey);
    Joined(front, tail, Str(e.actorPublicKey));
    tail := tail + Str(e.actorPublicKey);
    buf.WriteU64(e.logicalClock);
    Joined(front, tail, U64Bytes(e.logicalClock));
    tail := tail + U64Bytes(e.logicalClock);
    buf.WriteU64(e.timestamp);
    Joined(front, tail, U64Bytes(e.timestamp));
    buf.WriteStr(e.payloadHash);
    bytes := buf.data;
  }

  method CanonicalStateMapBytes(m: map<string, VectorState>) returns (bytes: seq<byte>)
    ensures bytes == StateMapBytes(m)
  {
    var buf := new ByteBuffer();
    var keys := Text.KeysInOrder(m.Keys);
    KeysAreKeys(m);
    buf.WriteU64(|keys|);
    ghost var entries := Entries(m);
    for i := 0 to |keys|
      invariant buf.data == Word(|entries|) + Items(StateEntryBytes, entries[..i])
    {
      var key := keys[i];
      ItemsStep(StateEntryBytes, Word(|entries|), entries, i);
      assert key in keys;
      ghost var before := buf.data;
      buf.WriteStr(key);
      buf.WriteVectorState(m[key]);
      Joined(before, Str(key), VectorStateBytes(m[key]));
    }
    TakeAll(entries);
    bytes := buf.data;
  }

  method CanonicalEventSequenceBytes(hashes: seq<string>) returns (bytes: seq<byte>)
    ensures bytes == List(Str, hashes)
  {
    var buf := new ByteBuffer();
    buf.WriteStrings(hashes);
    FromEmpty(List(Str, hashes));
    bytes := buf.data;
  }

  method CanonicalBlobBytes(tag: string, payload: seq<byte>) returns (bytes: seq<byte>)
    ensures bytes == Blob(tag, payload)
  {
    var buf := new ByteBuffer();
    buf.WriteStr(tag);
    FromEmpty(Str(tag));
    buf.WriteU64(|payload|);
    buf.Extend(payload);
    Joined(Str(tag), Word(|payload|), payload);
    bytes := buf.data;
  }

  method CanonicalReplayBytes(hashes: seq<string>) returns (bytes: seq<byte>)
    ensures bytes == ReplayBytes(hashes)
  {
    var blob := CanonicalBlobBytes("replay-v1", []);
    var sequence := CanonicalEventSequenceBytes(hashes);
    bytes := blob + sequence;
  }

  // ----- Lengths that fit their 64-bit prefix, as all lengths in memory do: only then do streams decode -----

  ghost predicate TextMapFits(m: map<string, string>) {
    FitsPrefix(|m|) && forall k :: k in m ==> StrFits(k) && StrFits(m[k])
  }

  ghost predicate VectorStateFits(v: VectorState) {
    FitsPrefix(|v.components|) && StrFits(v.ownerPublicKey) && StrFits(v.typeTag) && TextMapFits(v.metadata)
  }

  ghost predicate OperationFits(op: OperationType) {
    op.Other? ==> StrFits(op.name)
  }

  ghost predicate StateMapFits(m: map<string, VectorState>) {
    FitsPrefix(|m|) && forall k :: k in m ==> StrFits(k) && VectorStateFits(m[k])
  }

  ghost predicate EventFits(e: VectorEvent) {
    && StrFits(e.eventId) && StrFits(e.regionId) && StrFits(e.entityId) && StrFits(e.actorPublicKey)
    && StrFits(e.payloadHash)
    && FitsPrefix(|e.parentHashes|) && (forall p :: p in e.parentHashes ==> StrFits(p))
    && OperationFits(e.operation) && VectorStateFits(e.vectorBefore) && VectorStateFits(e.vectorAfter)
  }

  lemma {:induction false} AsciiFits(s: string)
    requires forall i :: 0 <= i < |s| ==> s[i] as int < 0x80
    ensures |Utf8(s)| == |s|
  {
    if s != [] { AsciiFits(s[1..]); }
  }

  lemma NameFits(op: OperationType)
    ensures StrFits(CanonicalName(op))
  {
    hide Utf8;
    var name := CanonicalName(op);
    assert |name| <= 13 && forall i :: 0 <= i < |name| ==> name[i] as int < 0x80;
    AsciiFits(name);
  }
}
