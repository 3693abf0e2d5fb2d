/** The canonical event and the vector value it carries. */
module Events {
  import opened Base

  datatype OperationType =
    | OriginCreate
    | Certify
    | Transfer
    | Drain
    | Project
    | Reconstruct
    | Move
    | Rotate
    | Scale
    | Normalize
    | Constrain
    | Query
    | Record
    | Other(name: string)

  datatype VectorState = VectorState(
    components: seq<u64>,
    ownerPublicKey: string,
    typeTag: string,
    metadata: map<string, string>)

  /** `authRatio` is the 64-bit pattern of the floating-point ratio. */
  datatype VectorEvent = VectorEvent(
    eventId: string,
    parentHashes: seq<string>,
    regionId: string,
    entityId: string,
    operation: OperationType,
    vectorBefore: VectorState,
    vectorAfter: VectorState,
    authRatio: u64,
    certified: bool,
    actorPublicKey: string,
    logicalClock: u64,
    timestamp: u64,
    payloadHash: string,
    eventHash: string,
    signature: string)

  /** The two sort keys of the kernel: one for whole logs, one inside an entity's history. */
  datatype KeyKind = LogKey | HistoryKey

  ghost function Hashes(s: set<VectorEvent>): set<string> {
    set e | e in s :: e.eventHash
  }

  /** Event hashes identify events. */
  ghost predicate Keyed(s: set<VectorEvent>) {
    forall e, f :: e in s && f in s && e.eventHash == f.eventHash ==> e == f
  }

  /** A log whose events carry pairwise different hashes. */
  ghost predicate DistinctHashes(events: seq<VectorEvent>) {
    forall i, j :: 0 <= i < j < |events| ==> events[i].eventHash != events[j].eventHash
  }

  lemma DistinctHashesKeyed(events: seq<VectorEvent>)
    requires DistinctHashes(events)
    ensures NoDup(events) && Keyed(Elems(events))
  {
    forall i, j | 0 <= i < j < |events| ensures events[i] != events[j] {
      assert events[i].eventHash != events[j].eventHash;
    }
  }

  lemma KeyedDistinctHashes(events: seq<VectorEvent>)
    requires NoDup(events) && Keyed(Elems(events))
    ensures DistinctHashes(events)
  {
    forall i, j | 0 <= i < j < |events| ensures events[i].eventHash != events[j].eventHash {
      assert events[i] in Elems(events) && events[j] in Elems(events);
    }
  }

  lemma DistinctHashesPerm(a: seq<VectorEvent>, b: seq<VectorEvent>)
    requires multiset(a) == multiset(b)
    ensures DistinctHashes(a) <==> DistinctHashes(b)
  {
    SameMultisetSameElems(a, b);
    NoDupPerm(a, b);
    if DistinctHashes(a) { DistinctHashesKeyed(a); KeyedDistinctHashes(b); }
    if DistinctHashes(b) { DistinctHashesKeyed(b); KeyedDistinctHashes(a); }
  }

  /** Counting the hashes of a keyed set counts its events. */
  lemma {:induction false} HashesCount(s: set<VectorEvent>)
    requires Keyed(s)
    ensures |Hashes(s)| == |s|
    decreases |s|
  {
    if s != {} {
      var e :| e in s;
      HashesCount(s - {e});
      HashesMinus(s, e);
      assert Hashes(s) == Hashes(s - {e}) + {e.eventHash};
    }
  }

  lemma HashesMinus(s: set<VectorEvent>, e: VectorEvent)
    requires Keyed(s) && e in s
    ensures Hashes(s - {e}) == Hashes(s) - {e.eventHash}
  {
    forall h | h in Hashes(s) - {e.eventHash} ensures h in Hashes(s - {e}) {
      var f :| f in s && f.eventHash == h;
      assert f in s - {e};
    }
  }
}
