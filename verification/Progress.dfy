/**
 * When operations are accepted: with an injective digest and event ids that cannot collide, whatever
 * passes an operation's own checks and fits an event is recorded.
 */
module Progress {
  import opened Agreement
  import opened Base
  import opened Bytes
  import opened Events
  import Graph
  import opened Invariant
  import opened Machine
  import opened Ordering
  import opened Refusals
  import opened Region
  import opened Registry
  import opened Serialization
  import opened Validation
  import opened Vectors
  import Text

  // ----- The first operation -----

  /** The origin requests an empty kernel accepts. */
  ghost predicate Acceptable(env: Foreign, r: OriginRequest) {
    && HasProof(env, r.seed, r.nonce, r.difficulty)
    && r.components != [] && FitsEvent(r.components) && Magnitude(r.components) < U128_LIMIT
    && Text.Trim(r.vectorId) != "" && Text.Trim(r.spaceId) != "" && Text.Trim(r.ownerPubkey) != ""
  }

  lemma EventIdNotBlank(entity: string, region: string, op: OperationType, clock: u64, sequence: u64)
    ensures Text.Trim(EventId(entity, region, op, clock, sequence)) != ""
    ensures EventId(entity, region, op, clock, sequence) != ""
  {
    hide Text.Trim, Text.Print;
    var id := EventId(entity, region, op, clock, sequence);
    assert id[|entity|] == ':';
    Text.TrimKeeps(id, |entity|);
  }

  lemma BlankTrims()
    ensures Text.Trim("") == ""
  {
  }

  lemma EmptyLog()
    ensures Log(EMPTY) == []
  {
    StoredKeys(map[]);
  }

  /** A sealed origin event passes every check but those on blank names. */
  lemma OriginPasses(env: Foreign, k: Kernel, draft: VectorEvent, v: Vector)
    requires PrintsHex(env) && k.events == map[]
    requires draft.eventId != "" && Text.Trim(draft.eventId) != "" && draft.parentHashes == []
    requires draft.operation.OriginCreate?
    requires draft.signature == "" && UnitBits(draft.authRatio)
    requires |draft.vectorBefore.components| == |draft.vectorAfter.components|
    requires draft.vectorAfter.metadata == map[]
    ensures Admit(env, k, Sealed(env, draft)).1.Ok? <==>
      Text.Trim(draft.regionId) != "" && Text.Trim(draft.entityId) != "" && Text.Trim(draft.actorPublicKey) != ""
  {
    hide Text.Trim, PayloadBytes, EventBytes;
    SealedIsSealed(env, draft);
  }

  lemma OriginDraft(env: Foreign, k: Kernel, v: Vector) returns (draft: VectorEvent)
    requires k.events == map[] && FitsEvent(v.components) && v.typeMetadata == map[]
    requires v.certification.authRatio == 700 || v.certification.authRatio == 1000
    ensures DraftTransition(Log(k), None, v, OperationType.OriginCreate, v.version, v.createdAtMs, []) == Ok(draft)
    ensures draft.eventId != "" && Text.Trim(draft.eventId) != "" && draft.parentHashes == []
    ensures draft.operation.OriginCreate?
    ensures draft.signature == "" && UnitBits(draft.authRatio)
    ensures |draft.vectorBefore.components| == |draft.vectorAfter.components|
    ensures draft.vectorAfter.metadata == map[]
    ensures draft.regionId == v.spaceId && draft.entityId == v.vectorId && draft.actorPublicKey == v.ownerPubkey
  {
    hide Text.Trim, EventId;
    EmptyLog();
    SameEventsSameLog(EMPTY, k);
    EventIdNotBlank(v.vectorId, v.spaceId, OperationType.OriginCreate, v.version, 1);
    draft := DraftTransition(Log(k), None, v, OperationType.OriginCreate, v.version, v.createdAtMs, []).value;
  }

  /** Exactly the acceptable origins succeed on the empty kernel. */
  lemma FirstOriginIff(env: Foreign, r: OriginRequest, now: u64, checkedAt: u64)
    requires PrintsHex(env)
    ensures OriginStep(env, EMPTY, r, now, checkedAt).1.Ok? <==> Acceptable(env, r)
  {
    OriginStateIff(env, r, now, checkedAt);
    BlankTrims();
    hide HasProof, OriginState, Magnitude, Text.Trim, FitsEvent, DraftTransition, Admit, Sealed, PrintsHex,
      UnitBits;
    if OriginState(env, r, now, checkedAt).Ok? {
      var v := OriginState(env, r, now, checkedAt).value;
      OriginStateGood(env, r, now, checkedAt);
      if FitsEvent(v.components) {
        var draft := OriginDraft(env, Put(EMPTY, v), v);
        OriginPasses(env, Put(EMPTY, v), draft, v);
      } else {
        OversizedEmits(env, Put(EMPTY, v), None, v, OperationType.OriginCreate, v.version, v.createdAtMs, []);
      }
    }
  }

  /** So there are admissible runs that store a vector. */
  lemma SomeRun(env: Foreign, r: OriginRequest, now: u64, checkedAt: u64)
    requires PrintsHex(env) && Acceptable(env, r)
    ensures AdmissibleRun(env, [OriginOp(r, now, checkedAt)])
    ensures Run(env, [OriginOp(r, now, checkedAt)]).states.Keys == {r.vectorId}
  {
    hide Acceptable, OriginStep, PrintsHex, Log;
    var op := OriginOp(r, now, checkedAt);
    FirstOriginIff(env, r, now, checkedAt);
    EmptyLog();
    assert [op][..0] == [];
    assert Run(env, []) == EMPTY;
    var e := OriginAdds(env, EMPTY, r, now, checkedAt);
    OriginStateIff(env, r, now, checkedAt);
  }

  /** A first operation leaves log and store in agreement exactly when it is accepted or writes nothing. */
  lemma FirstOriginAgreesIff(env: Foreign, r: OriginRequest, now: u64, checkedAt: u64)
    requires PrintsHex(env)
    ensures Agrees(env, OriginStep(env, EMPTY, r, now, checkedAt).0) <==> Acceptable(env, r) || !Writes(env, r)
  {
    hide Acceptable, Writes, OriginStep, OriginState, PrintsHex, Log, Agrees, RegionMap, GoodVector, Inv;
    FirstOriginIff(env, r, now, checkedAt);
    EmptyInv();
    EmptyLog();
    var k' := OriginStep(env, EMPTY, r, now, checkedAt).0;
    if OriginStep(env, EMPTY, r, now, checkedAt).1.Ok? {
      var hist' := OriginKeeps(env, EMPTY, map[], r, now, checkedAt);
      StoredByOrigin(env, EMPTY, r, now, checkedAt);
      RegionsOfLog(k', hist');
      assert RegionMap(Log(k')).Keys == {};
      InvAgrees(env, k', hist');
    } else {
      RegionsOfLog(EMPTY, map[]);
      assert RegionMap(Log(EMPTY)).Keys == {};
      FailedOriginAgreesIff(env, EMPTY, map[], r, now, checkedAt);
    }
  }

  lemma EmptyInv()
    ensures Inv(EMPTY, map[])
  {
  }

  lemma StoredByOrigin(env: Foreign, k: Kernel, r: OriginRequest, now: u64, checkedAt: u64)
    requires OriginStep(env, k, r, now, checkedAt).1.Ok?
    ensures r.vectorId in OriginStep(env, k, r, now, checkedAt).0.states
  {
    hide OriginState, NewTo, Records;
    var e := OriginAdds(env, k, r, now, checkedAt);
    OriginStateGood(env, r, now, checkedAt);
  }

  /** A name of nothing but spaces passes the checks that come before the write, and fails those that come after it. */
  lemma BlankNameStays(env: Foreign, k: Kernel, r: OriginRequest, now: u64, checkedAt: u64)
    requires Writes(env, r)
    requires (Text.Trim(r.vectorId) == "" || Text.Trim(r.spaceId) == "" || Text.Trim(r.ownerPubkey) == "")
    ensures OriginState(env, r, now, checkedAt).Ok? && OriginStep(env, k, r, now, checkedAt).1.Err?
    ensures OriginStep(env, k, r, now, checkedAt).0 == Put(k, OriginState(env, r, now, checkedAt).value)
  {
    OriginStateIff(env, r, now, checkedAt);
    hide Writes, OriginState, Text.Trim, Log, NextSequence, EventId, PayloadBytes, EventBytes;
    FailedOriginHolds(env, k, r, now, checkedAt);
  }

  lemma FailedOriginHolds(env: Foreign, k: Kernel, r: OriginRequest, now: u64, checkedAt: u64)
    requires OriginState(env, r, now, checkedAt).Ok?
    requires Text.Trim(r.vectorId) == "" || Text.Trim(r.spaceId) == "" || Text.Trim(r.ownerPubkey) == ""
    requires OriginState(env, r, now, checkedAt).value.vectorId == r.vectorId
    requires OriginState(env, r, now, checkedAt).value.spaceId == r.spaceId
    requires OriginState(env, r, now, checkedAt).value.ownerPubkey == r.ownerPubkey
    ensures OriginStep(env, k, r, now, checkedAt).1.Err?
    ensures OriginStep(env, k, r, now, checkedAt).0 == Put(k, OriginState(env, r, now, checkedAt).value)
  {
    hide OriginState, Text.Trim, Log, NextSequence, EventId, PayloadBytes, EventBytes;
  }

  /** The smallest example: the id is one space. */
  lemma BlankNameExample(env: Foreign)
    requires PrintsHex(env)
    ensures var r := OriginRequest(" ", "owner", "space", [1], "seed", 0, 0);
      && OriginStep(env, EMPTY, r, 0, 0).1.Err? && OriginStep(env, EMPTY, r, 0, 0).0.states.Keys == {" "}
      && !Agrees(env, OriginStep(env, EMPTY, r, 0, 0).0)
  {
    var r := OriginRequest(" ", "owner", "space", [1], "seed", 0, 0);
    assert Magnitude([1]) == 1 by { assert [1][..0] == []; }
    assert Writes(env, r);
    assert Text.Trim(" ") == "" by { assert " "[1..] == "" && Text.TrimStart(" ") == Text.TrimStart(""); }
    hide Writes, OriginStep, Acceptable, Agrees, PrintsHex;
    BlankNameStays(env, EMPTY, r, 0, 0);
    OriginStateIff(env, r, 0, 0);
    FirstOriginAgreesIff(env, r, 0, 0);
    NotAcceptable(env, r);
  }

  lemma NotAcceptable(env: Foreign, r: OriginRequest)
    requires Text.Trim(r.vectorId) == ""
    ensures !Acceptable(env, r)
  {
    hide Text.Trim, HasProof;
  }

  // ----- Event ids -----

  /** The digits behind the last separator determine the number. */
  lemma DigitsAtEnd(p: string, m: u64, q: string, n: u64)
    requires p + ":" + Text.Print(m) == q + ":" + Text.Print(n)
    ensures m == n
  {
    hide Text.Print;
    var x, y := Text.Print(m), Text.Print(n);
    var s := p + ":" + x;
    assert s[|p|] == ':' && s[|q|] == ':';
    assert forall i :: 0 <= i < |x| ==> s[|p| + 1 + i] == x[i];
    assert forall i :: 0 <= i < |y| ==> s[|q| + 1 + i] == y[i];
    assert |p| == |q|;
    assert x == s[|p| + 1..] && y == s[|q| + 1..];
    Text.ParsePrint(m);
    Text.ParsePrint(n);
  }

  /** Event ids of one entity differ in their sequence numbers. */
  lemma EventIdSequence(id: string, region: string, op: OperationType, c: u64, m: u64, op': OperationType, c': u64,
                        n: u64)
    requires EventId(id, region, op, c, m) == EventId(id, region, op', c', n)
    ensures m == n
  {
    hide Text.Print;
    var p := id + "::" + region + "::" + CanonicalName(op) + "::" + Text.Print(c) + ":";
    var q := id + "::" + region + "::" + CanonicalName(op') + "::" + Text.Print(c') + ":";
    assert EventId(id, region, op, c, m) == p + ":" + Text.Print(m);
    assert EventId(id, region, op', c', n) == q + ":" + Text.Print(n);
    DigitsAtEnd(p, m, q, n);
  }

  /** Event ids of entities with names of one length differ in the names. */
  lemma EventIdEntity(id: string, id': string, region: string, op: OperationType, c: u64, m: u64, op': OperationType,
                      c': u64, n: u64)
    requires |id| == |id'| && EventId(id, region, op, c, m) == EventId(id', region, op', c', n)
    ensures id == id'
  {
    hide Text.Print;
    assert EventId(id, region, op, c, m)[..|id|] == id && EventId(id', region, op', c', n)[..|id|] == id';
  }

  lemma {:induction false} Utf8Concat(a: string, b: string)
    ensures Utf8(a + b) == Utf8(a) + Utf8(b)
  {
    hide Utf8Char;
    if a == [] {
      assert a + b == b;
    } else {
      Utf8Concat(a[1..], b);
      assert (a + b)[0] == a[0] && (a + b)[1..] == a[1..] + b;
      Joined(Utf8Char(a[0]), Utf8(a[1..]), Utf8(b));
    }
  }

  lemma {:induction false} PrintShort(n: nat, k: nat)
    requires n < Radix(k)
    ensures |Text.Print(n)| <= 3 * k + 1
    decreases k
  {
    if k > 0 && n >= 1000 {
      PrintShort(n / 1000, k - 1);
      assert n / 10 / 10 / 10 == n / 1000;
      assert |Text.Print(n)| == 1 + |Text.Print(n / 10)| == 2 + |Text.Print(n / 10 / 10)| == 3 + |Text.Print(n / 1000)|;
    } else if n >= 100 {
      assert |Text.Print(n)| == 1 + |Text.Print(n / 10)| == 2 + |Text.Print(n / 10 / 10)| == 3;
    } else if n >= 10 {
      assert |Text.Print(n)| == 1 + |Text.Print(n / 10)| == 2;
    }
  }

  lemma PrintedBytes(n: u64)
    ensures |Utf8(Text.Print(n))| <= 25
  {
    RadixOfWord();
    PrintShort(n, 8);
    AsciiFits(Text.Print(n));
  }

  /** Names short enough for every event id made of them to fit its length prefix. */
  ghost predicate ShortNames(id: string, region: string) {
    |Utf8(id)| + |Utf8(region)| < U64_LIMIT - 100
  }

  lemma NameBytes(op: OperationType)
    ensures |Utf8(CanonicalName(op))| <= 13
  {
    hide Utf8;
    var name := CanonicalName(op);
    assert |name| <= 13 && forall i :: 0 <= i < |name| ==> name[i] as int < 0x80;
    AsciiFits(name);
  }

  lemma EventIdFits(id: string, region: string, op: OperationType, c: u64, n: u64)
    requires ShortNames(id, region)
    ensures StrFits(EventId(id, region, op, c, n))
  {
    hide Utf8, Text.Print;
    var name, x, y := CanonicalName(op), Text.Print(c), Text.Print(n);
    NameBytes(op);
    PrintedBytes(c);
    PrintedBytes(n);
    AsciiFits("::");
    Utf8Concat(id, "::");
    Utf8Concat(id + "::", region);
    Utf8Concat(id + "::" + region, "::");
    Utf8Concat(id + "::" + region + "::", name);
    Utf8Concat(id + "::" + region + "::" + name, "::");
    Utf8Concat(id + "::" + region + "::" + name + "::", x);
    Utf8Concat(id + "::" + region + "::" + name + "::" + x, "::");
    Utf8Concat(id + "::" + region + "::" + name + "::" + x + "::", y);
  }

  /** Sealed events with different ids have different hashes. */
  lemma IdsGiveHashes(env: Foreign, e: VectorEvent, f: VectorEvent)
    requires InjectiveDigest(env) && IsSealed(env, e) && IsSealed(env, f) && StrFits(e.eventId) && StrFits(f.eventId)
    requires e.eventHash == f.eventHash
    ensures e.eventId == f.eventId
  {
    hide StrFits, Str, VectorStateBytes, TailBytes, OperationBytes;
    IdFirst(e);
    IdFirst(f);
    assert EventBytes(e) == EventBytes(f);
    var x :| EventBytes(e) == Str(e.eventId) + x;
    var y :| EventBytes(f) == Str(f.eventId) + y;
    StrSeparates(e.eventId, f.eventId, x, y);
  }

  lemma IdFirst(e: VectorEvent)
    ensures exists rest :: EventBytes(e) == Str(e.eventId) + rest
  {
    hide Str, VectorStateBytes, TailBytes, OperationBytes;
    var rest := List(Str, e.parentHashes) + Str(e.regionId) + Str(e.entityId) + OperationBytes(e.operation)
      + VectorStateBytes(e.vectorBefore) + VectorStateBytes(e.vectorAfter) + TailBytes(e) + Str(e.payloadHash);
    assert EventBytes(e) == Str(e.eventId) + rest;
  }

  // ----- Logs whose ids cannot collide -----

  /** The event is numbered among the events of its entity. */
  ghost predicate Numbers(k: Kernel, region: string, e: VectorEvent) {
    exists op, clock: u64, n: u64 ::
      e.eventId == EventId(e.entityId, region, op, clock, n) && n <= CountOf(Log(k), e.entityId, region)
  }

  /** Sealed events of one region, of entities with names of one length, numbered as the engine numbers them. */
  ghost predicate Numbered(env: Foreign, k: Kernel, region: string, length: nat) {
    forall h :: h in k.events ==>
      var e := k.events[h];
      && e.eventHash == h && h != "" && IsSealed(env, e) && StrFits(e.eventId)
      && e.regionId == region && |e.entityId| == length && Numbers(k, region, e)
  }

  lemma CountGrows(k: Kernel, k': Kernel, e: VectorEvent, id: string, region: string)
    requires forall h :: h in k.events ==> k.events[h].eventHash == h
    requires k'.events == k.events[e.eventHash := e] && e.eventHash !in k.events
    ensures CountOf(Log(k'), id, region) ==
      CountOf(Log(k), id, region) + if e.entityId == id && e.regionId == region then 1 else 0
  {
    hide Log, CountOf, Counted;
    LogHolds(k);
    LogHolds(k');
    DistinctHashesKeyed(Log(k));
    DistinctHashesKeyed(Log(k'));
    CountOfIs(Log(k), id, region);
    CountOfIs(Log(k'), id, region);
    assert Elems(Log(k')) == Elems(Log(k)) + {e};
    CountedAdd(Elems(Log(k)), e, id, region);
  }

  /** A vector whose events can be recorded in the region. */
  ghost predicate Recordable(v: Vector, region: string, length: nat) {
    && FitsEvent(v.components) && v.typeMetadata == map[] && |v.vectorId| == length && v.spaceId == region
    && (v.certification.authRatio == 700 || v.certification.authRatio == 1000)
    && Text.Trim(v.vectorId) != "" && Text.Trim(v.spaceId) != "" && Text.Trim(v.ownerPubkey) != ""
    && ShortNames(v.vectorId, region)
  }

  /** The next id of an entity is new. */
  lemma NextIdIsNew(env: Foreign, k: Kernel, region: string, length: nat, id: string, op: OperationType, clock: u64,
                    n: u64)
    requires Numbered(env, k, region, length) && |id| == length && n == CountOf(Log(k), id, region) + 1
    ensures forall h :: h in k.events ==> k.events[h].eventId != EventId(id, region, op, clock, n)
  {
    hide EventId, CountOf, Log, StrFits, IsSealed;
    forall h | h in k.events ensures k.events[h].eventId != EventId(id, region, op, clock, n) {
      var f := k.events[h];
      assert Numbers(k, region, f);
      var op', clock': u64, m: u64 :|
        f.eventId == EventId(f.entityId, region, op', clock', m) && m <= CountOf(Log(k), f.entityId, region);
      if f.eventId == EventId(id, region, op, clock, n) {
        EventIdEntity(f.entityId, id, region, op', clock', m, op, clock, n);
        EventIdSequence(id, region, op', clock', m, op, clock, n);
      }
    }
  }

  /** A sealed event with a new id, and with names that are not blank, is admitted. */
  lemma NewEventAdmitted(env: Foreign, k: Kernel, region: string, length: nat, e: VectorEvent)
    requires PrintsHex(env) && InjectiveDigest(env) && Numbered(env, k, region, length) && IsSealed(env, e)
    requires forall h :: h in k.events ==> k.events[h].eventId != e.eventId
    requires e.eventId != "" && StrFits(e.eventId) && CheckFields(e).Ok? && ParentsStored(k.events, e)
    requires !IsRegionCreate(e) && e.signature == ""
    ensures Admit(env, k, e) == (k.(events := k.events[e.eventHash := e]), Ok(()))
    ensures e.eventHash !in k.events && e.eventHash != ""
  {
    hide StrFits, CheckFields, IsRegionCreate, Numbers;
    assert IsHex(env.blake3(EventBytes(e)));
    if e.eventHash in k.events { IdsGiveHashes(env, e, k.events[e.eventHash]); }
  }

  lemma StaysNumbered(env: Foreign, k: Kernel, region: string, length: nat, k': Kernel, e: VectorEvent,
                      op: OperationType, clock: u64, n: u64)
    requires Numbered(env, k, region, length) && IsSealed(env, e) && StrFits(e.eventId) && e.eventHash !in k.events
    requires e.eventHash != ""
    requires k'.events == k.events[e.eventHash := e] && e.regionId == region && |e.entityId| == length
    requires e.eventId == EventId(e.entityId, region, op, clock, n) && n == CountOf(Log(k), e.entityId, region) + 1
    ensures Numbered(env, k', region, length)
  {
    hide EventId, CountOf, Log, StrFits, IsSealed;
    CountGrows(k, k', e, e.entityId, region);
    forall h | h in k'.events ensures Numbers(k', region, k'.events[h]) {
      if h != e.eventHash {
        var f := k.events[h];
        assert Numbers(k, region, f);
        var op', clock': u64, m: u64 :|
          f.eventId == EventId(f.entityId, region, op', clock', m) && m <= CountOf(Log(k), f.entityId, region);
        CountGrows(k, k', e, f.entityId, region);
      }
    }
  }

  lemma {:induction false} CountBound(log: seq<VectorEvent>, id: string, region: string)
    ensures CountOf(log, id, region) <= |log|
  {
    if log != [] { CountBound(log[..|log| - 1], id, region); }
  }

  lemma LogLength(k: Kernel)
    ensures |Log(k)| == |k.events|
  {
    hide SortEvents, Graph.Lookup;
    StoredKeys(k.events);
    var keys := Text.SortedKeys(k.events.Keys);
    Text.SortedKeysSorted(k.events.Keys);
    NoDupCount(keys);
    SortEventsCorrect(LogKey, Graph.Lookup(k.events, keys));
    assert |multiset(Log(k))| == |multiset(Graph.Lookup(k.events, keys))|;
  }

  /** Recordable changes behind stored parents are accepted. */
  lemma EmitAccepted(env: Foreign, k: Kernel, region: string, length: nat,
                     before: Option<Vector>, after: Vector, op: OperationType,
                     clock: u64, time: u64, parents: seq<string>)
    requires PrintsHex(env) && InjectiveDigest(env) && Numbered(env, k, region, length) && |k.events| < U64_LIMIT - 1
    requires Recordable(after, region, length) && (PlainOperation(op) || op.OriginCreate?)
    requires forall p :: p in parents ==> p in k.events
    requires before.Some? ==> FitsEvent(before.value.components) && |before.value.components| == |after.components|
    ensures var r := Emit(env, k, before, after, op, clock, time, parents);
      r.1.Ok? && r.0.states == k.states && Numbered(env, r.0, region, length) && |r.0.events| == |k.events| + 1
  {
    hide Log, CountOf, EventId, StrFits, IsSealed, Numbered, Text.Trim, PrintsHex, InjectiveDigest, Admit, Sealed,
      ShortNames;
    LogLength(k);
    CountBound(Log(k), after.vectorId, region);
    var n := CountOf(Log(k), after.vectorId, region) + 1;
    var draft := DraftTransition(Log(k), before, after, op, clock, time, parents).value;
    var e := Sealed(env, draft);
    SealedFields(env, draft);
    SealedIsSealed(env, draft);
    EventIdNotBlank(after.vectorId, region, op, clock, n);
    EventIdFits(after.vectorId, region, op, clock, n);
    NextIdIsNew(env, k, region, length, after.vectorId, op, clock, n);
    NewEventAdmitted(env, k, region, length, e);
    var k' := k.(events := k.events[e.eventHash := e]);
    StaysNumbered(env, k, region, length, k', e, op, clock, n);
    assert k'.events.Keys == k.events.Keys + {e.eventHash};
  }

  lemma SealedFields(env: Foreign, draft: VectorEvent)
    ensures var e := Sealed(env, draft);
      e == draft.(payloadHash := e.payloadHash, eventHash := e.eventHash)
  {
    hide PayloadBytes, EventBytes;
  }

  // ----- Operations that are accepted -----

  lemma LatestStored(k: Kernel, id: string)
    requires forall h :: h in k.events ==> k.events[h].eventHash == h
    ensures forall p :: p in ParentsFor(Log(k), id) ==> p in k.events
  {
    hide Log, EventLeq, LatestOf;
    LogHolds(k);
    LatestOfIs(Log(k), id);
    if LatestOf(Log(k), id).Some? { assert LatestOf(Log(k), id).value in Elems(Log(k)); }
  }

  lemma NumberedKeys(env: Foreign, k: Kernel, region: string, length: nat)
    requires Numbered(env, k, region, length)
    ensures forall h :: h in k.events ==> k.events[h].eventHash == h
  {
    hide StrFits, IsSealed, Numbers;
  }

  lemma NumberedByEvents(env: Foreign, k: Kernel, k': Kernel, region: string, length: nat)
    requires Numbered(env, k, region, length) && k'.events == k.events
    ensures Numbered(env, k', region, length)
  {
    hide StrFits, IsSealed, CountOf, Log, EventId;
    SameEventsSameLog(k, k');
    forall h | h in k'.events ensures Numbers(k', region, k'.events[h]) {
      assert Numbers(k, region, k.events[h]);
    }
  }

  /** The event of a recordable change of a known vector is accepted. */
  lemma RecordAccepted(env: Foreign, k: Kernel, region: string, length: nat, before: Vector, after: Vector,
                       op: OperationType, time: u64)
    requires PrintsHex(env) && InjectiveDigest(env) && Numbered(env, k, region, length) && |k.events| < U64_LIMIT - 1
    requires Recordable(after, region, length) && PlainOperation(op)
    requires FitsEvent(before.components) && |before.components| == |after.components|
    ensures var r := EmitUpdate(env, k, before, after, op, time);
      r.1.Ok? && r.0.states == k.states && Numbered(env, r.0, region, length) && |r.0.events| == |k.events| + 1
  {
    hide Log, Numbered, Recordable, PrintsHex, InjectiveDigest, Emit, ParentsFor;
    NumberedKeys(env, k, region, length);
    LatestStored(k, after.vectorId);
    EmitAccepted(env, k, region, length, Some(before), after, op, after.version, time,
      ParentsFor(Log(k), after.vectorId));
  }

  /** The names of a vector fit the region's log. */
  ghost predicate ProperlyNamed(v: Vector, region: string, length: nat) {
    && |v.vectorId| == length && v.spaceId == region && ShortNames(v.vectorId, region)
    && Text.Trim(v.vectorId) != "" && Text.Trim(v.spaceId) != "" && Text.Trim(v.ownerPubkey) != ""
  }

  lemma SuccessorRecordable(before: Vector, after: Vector, region: string, length: nat)
    requires ProperlyNamed(before, region, length) && Succeeds(before, after) && FitsEvent(after.components)
    ensures Recordable(after, region, length) && ProperlyNamed(after, region, length)
  {
    hide ValidateState, Text.Trim, FitsEvent, ShortNames;
  }

  /** An update whose own checks pass, and whose result fits an event, is accepted. */
  lemma UpdateAccepted(env: Foreign, k: Kernel, hist: History, region: string, length: nat, op: Op)
    requires op.CertifyOp? || op.DrainOp? || op.ProjectOp? || op.ReconstructOp?
    requires PrintsHex(env) && InjectiveDigest(env) && Inv(k, hist) && Numbered(env, k, region, length)
    requires |k.events| < U64_LIMIT - 1
    requires op.id in k.states && ProperlyNamed(k.states[op.id], region, length)
    requires NewState(k.states[op.id], op).Ok? && FitsEvent(NewState(k.states[op.id], op).value.components)
    ensures var r, after := UpdateStep(env, k, op), NewState(k.states[op.id], op).value;
      && r.1.Ok? && r.0.states == k.states[op.id := after] && Numbered(env, r.0, region, length)
      && |r.0.events| == |k.events| + 1
      && ProperlyNamed(after, region, length)
  {
    hide Inv, Numbered, Recordable, PrintsHex, InjectiveDigest, EmitUpdate, NewState, ProperlyNamed, Succeeds,
      GoodVector, LogInv, VectorStory, FitsEvent;
    var v := k.states[op.id];
    var after := NewState(v, op).value;
    VectorFacts(k, hist, op.id);
    StoredHasForm(k, hist, op.id);
    NewStateSucceeds(v, op);
    SucceedsKeeps(v, after);
    SuccessorRecordable(v, after, region, length);
    var stored := Put(k, after);
    NumberedByEvents(env, k, stored, region, length);
    RecordAccepted(env, stored, region, length, v, after, EventKind(op), after.updatedAtMs);
  }

  lemma SucceedsKeeps(before: Vector, after: Vector)
    requires Succeeds(before, after)
    ensures after.vectorId == before.vectorId && |after.components| == |before.components|
  {
    hide GoodVector;
  }

  /** A transfer whose own checks pass, and whose receiving side fits an event, is accepted. */
  lemma TransferAccepted(env: Foreign, k: Kernel, hist: History, region: string, length: nat, op: Op)
    requires op.TransferOp? && PrintsHex(env) && InjectiveDigest(env) && Inv(k, hist)
    requires Numbered(env, k, region, length)
    requires |k.events| < U64_LIMIT - 2 && TransferWrites(k, op)
    requires ProperlyNamed(k.states[op.fromId], region, length) && ProperlyNamed(k.states[op.toId], region, length)
    requires var sides := Sides(k, op);
      FitsEvent(sides.1.components)
    ensures var r := TransferStep(env, k, op);
      var sides := Sides(k, op);
      && r.1.Ok? && r.0.states == k.states[op.fromId := sides.0][op.toId := sides.1]
      && Numbered(env, r.0, region, length) && |r.0.events| == |k.events| + 2
      && ProperlyNamed(sides.0, region, length) && ProperlyNamed(sides.1, region, length)
  {
    hide Inv, Numbered, Recordable, PrintsHex, InjectiveDigest, EmitUpdate, TransferStates, ProperlyNamed, Succeeds,
      GoodVector, LogInv, VectorStory, FitsEvent;
    var from, to := k.states[op.fromId], k.states[op.toId];
    var sides := TransferStates(from, to, op.amount, op.fromCheckedAt, op.toCheckedAt).value;
    VectorFacts(k, hist, op.fromId);
    VectorFacts(k, hist, op.toId);
    StoredHasForm(k, hist, op.fromId);
    StoredHasForm(k, hist, op.toId);
    TransferStatesSucceed(from, to, op);
    SucceedsKeeps(from, sides.0);
    SucceedsKeeps(to, sides.1);
    SenderFits(from, to, op);
    SuccessorRecordable(from, sides.0, region, length);
    SuccessorRecordable(to, sides.1, region, length);
    var stored := Put(Put(k, sides.0), sides.1);
    NumberedByEvents(env, k, stored, region, length);
    RecordAccepted(env, stored, region, length, from, sides.0, OperationType.Transfer, op.sentAt);
    var sent := EmitUpdate(env, stored, from, sides.0, OperationType.Transfer, op.sentAt).0;
    RecordAccepted(env, sent, region, length, to, sides.1, OperationType.Transfer, op.receivedAt);
  }

  lemma SenderFits(from: Vector, to: Vector, op: Op)
    requires op.TransferOp? && TransferStates(from, to, op.amount, op.fromCheckedAt, op.toCheckedAt).Ok?
    requires FitsEvent(from.components)
    ensures FitsEvent(TransferStates(from, to, op.amount, op.fromCheckedAt, op.toCheckedAt).value.0.components)
  {
    hide CertifyState, ValidateState;
    assert forall i :: 0 <= i < |from.components| ==> SubEach(from.components, op.amount)[i] <= from.components[i];
  }

  /** An acceptable origin is accepted by any kernel of its region, whether its id is fresh or not. */
  lemma OriginAccepted(env: Foreign, k: Kernel, length: nat, r: OriginRequest, now: u64, checkedAt: u64)
    requires PrintsHex(env) && InjectiveDigest(env) && Numbered(env, k, r.spaceId, length) && |k.events| < U64_LIMIT - 1
    requires Acceptable(env, r) && |r.vectorId| == length && ShortNames(r.vectorId, r.spaceId)
    ensures OriginState(env, r, now, checkedAt).Ok?
    ensures var s, v := OriginStep(env, k, r, now, checkedAt), OriginState(env, r, now, checkedAt).value;
      && s.1.Ok? && s.0.states == k.states[r.vectorId := v] && Numbered(env, s.0, r.spaceId, length)
      && |s.0.events| == |k.events| + 1
      && v.vectorId == r.vectorId && v.components == r.components && v.vectorType.Origin? && v.version == 1
      && v.createdAtMs == now
      && v.projection.None? && GoodVector(v) && ProperlyNamed(v, r.spaceId, length)
  {
    OriginStateIff(env, r, now, checkedAt);
    BlankTrims();
    OriginShape(env, r, now, checkedAt);
    hide OriginState, Emit, Text.Trim, Numbered, PrintsHex, InjectiveDigest, FitsEvent, Magnitude, HasProof,
      GoodVector, ShortNames;
    OriginStateGood(env, r, now, checkedAt);
    var v := OriginState(env, r, now, checkedAt).value;
    GoodRatio(v);
    NumberedByEvents(env, k, Put(k, v), r.spaceId, length);
    EmitAccepted(env, Put(k, v), r.spaceId, length, None, v, OperationType.OriginCreate, v.version, v.createdAtMs, []);
  }

  lemma GoodRatio(v: Vector)
    requires GoodVector(v)
    ensures v.typeMetadata == map[] && (v.certification.authRatio == 700 || v.certification.authRatio == 1000)
  {
    hide ValidateState;
  }

  lemma OriginShape(env: Foreign, r: OriginRequest, now: u64, checkedAt: u64)
    requires OriginState(env, r, now, checkedAt).Ok?
    ensures var v := OriginState(env, r, now, checkedAt).value; v.projection.None? && v.createdAtMs == now
  {
    hide VerifyOrigin, CertifyState, ValidateState;
  }
}
