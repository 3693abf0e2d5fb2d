/** Heads of a log and the replay summary with its divergence checks (src/ffi.rs). */
module Summary {
  import opened Base
  import opened Bytes
  import opened Dag
  import opened Decoding
  import opened Events
  import opened Graph
  import opened Histories
  import opened LeastOrder
  import opened Ordering
  import opened Region
  import opened Replay
  import opened Serialization
  import opened StateRoots
  import opened Validation
  import Text

  // ----- Replay does not depend on how the log was loaded -----

  /** Any rearrangement of a log replays to the same result, or fails with it. */
  lemma ReplayIgnoresOrder(env: Foreign, a: seq<VectorEvent>, b: seq<VectorEvent>)
    requires multiset(a) == multiset(b)
    ensures Replayable(env, a) <==> Replayable(env, b)
    ensures Replayable(env, a) ==> ReplayOf(env, Elems(a)) == ReplayOf(env, Elems(b))
  {
    hide ValidLog, OneRoot, Applicable, ReplayOf;
    SameMultisetSameElems(a, b);
    if ValidLog(a) { ValidLogPerm(a, b); }
    if ValidLog(b) { ValidLogPerm(b, a); }
  }

  // ----- Heads -----

  ghost predicate IsHead(s: set<VectorEvent>, e: VectorEvent) {
    e in s && forall f :: f in s ==> e.eventHash !in f.parentHashes
  }

  ghost function HeadHashes(s: set<VectorEvent>): set<string> {
    set e | e in s && IsHead(s, e) :: e.eventHash
  }

  /** The hashes no event names as a parent, sorted and without repetition. */
  method ComputeHeads(events: seq<VectorEvent>) returns (heads: seq<string>)
    ensures heads == Text.SortedKeys(HeadHashes(Elems(events)))
  {
    if events == [] {
      assert HeadHashes(Elems(events)) == {};
      return [];
    }
    var referenced: set<string> := {};
    for i := 0 to |events|
      invariant forall p :: p in referenced <==> exists j :: 0 <= j < i && p in events[j].parentHashes
    {
      var parents := set p | p in events[i].parentHashes;
      referenced := referenced + parents;
    }
    var unnamed: set<string> := {};
    for i := 0 to |events|
      invariant unnamed == set e | e in Elems(events[..i]) && e.eventHash !in referenced :: e.eventHash
    {
      TakeNext(events, i);
      if events[i].eventHash !in referenced {
        unnamed := unnamed + {events[i].eventHash};
      }
    }
    TakeAll(events);
    ReferencedAreParents(events, referenced);
    assert unnamed == HeadHashes(Elems(events));
    heads := Text.KeysInOrder(unnamed);
  }

  lemma ReferencedAreParents(events: seq<VectorEvent>, referenced: set<string>)
    requires forall p :: p in referenced <==> exists j :: 0 <= j < |events| && p in events[j].parentHashes
    ensures forall e :: e in events ==> (e.eventHash !in referenced <==> IsHead(Elems(events), e))
  {
    forall e | e in events ensures e.eventHash !in referenced <==> IsHead(Elems(events), e) {
      if e.eventHash in referenced {
        var j :| 0 <= j < |events| && e.eventHash in events[j].parentHashes;
        assert events[j] in Elems(events);
      } else {
        forall f | f in Elems(events) ensures e.eventHash !in f.parentHashes {
          var j :| 0 <= j < |events| && events[j] == f;
        }
      }
    }
  }

  /** A walk from parent to child. */
  ghost predicate IsPath(s: set<VectorEvent>, path: seq<VectorEvent>) {
    && path != [] && (forall e :: e in path ==> e in s)
    && forall i :: 0 < i < |path| ==> path[i - 1].eventHash in path[i].parentHashes
  }

  ghost predicate LeadsTo(s: set<VectorEvent>, e: VectorEvent, head: VectorEvent) {
    exists path: seq<VectorEvent> :: IsPath(s, path) && path[0] == e && path[|path| - 1] == head
  }

  /** Every event of an acyclic log is an ancestor of a head, or one itself. */
  lemma {:induction false} ReachesHead(o: seq<VectorEvent>, s: set<VectorEvent>, i: nat) returns (head: VectorEvent)
    requires IsTopological(o, s) && i < |o|
    ensures IsHead(s, head) && LeadsTo(s, o[i], head)
    decreases |o| - i
  {
    assert o[i] in Elems(o);
    if IsHead(s, o[i]) {
      head := o[i];
      assert IsPath(s, [head]);
    } else {
      var f :| f in s && o[i].eventHash in f.parentHashes;
      assert f in Elems(o);
      var j :| 0 <= j < |o| && o[j] == f;
      head := ReachesHead(o, s, j);
      var path: seq<VectorEvent> :| IsPath(s, path) && path[0] == f && path[|path| - 1] == head;
      var longer := [o[i]] + path;
      assert longer[|longer| - 1] == head;
      assert IsPath(s, longer) by {
        forall k | 0 < k < |longer| ensures longer[k - 1].eventHash in longer[k].parentHashes {
          if k > 1 { assert path[k - 2].eventHash in path[k - 1].parentHashes; }
        }
      }
    }
  }

  ghost predicate ReachesSomeHead(s: set<VectorEvent>, e: VectorEvent) {
    exists head :: IsHead(s, head) && LeadsTo(s, e, head)
  }

  /** On a non-empty valid log there is a head, and every event leads to one. */
  lemma HeadsCover(events: seq<VectorEvent>)
    requires ValidLog(events)
    ensures events != [] ==> HeadHashes(Elems(events)) != {}
    ensures forall e :: e in events ==> ReachesSomeHead(Elems(events), e)
  {
    hide ValidLog, IsHead, LeadsTo, Least, IsTopological;
    var s := Elems(events);
    ValidIsAcyclic(events);
    LeastComplete(LogKey, s);
    OrderReaches(Least(LogKey, s), s);
    if events != [] {
      assert events[0] in events && events[0] in s;
      var head :| IsHead(s, head) && LeadsTo(s, events[0], head);
      HeadIsMember(s, head);
    }
  }

  lemma HeadIsMember(s: set<VectorEvent>, head: VectorEvent)
    requires IsHead(s, head)
    ensures head.eventHash in HeadHashes(s)
  {
  }

  lemma OrderReaches(o: seq<VectorEvent>, s: set<VectorEvent>)
    requires IsTopological(o, s)
    ensures forall e :: e in s ==> ReachesSomeHead(s, e)
  {
    hide IsHead, LeadsTo;
    forall e | e in s ensures ReachesSomeHead(s, e) {
      assert e in Elems(o);
      var i :| 0 <= i < |o| && o[i] == e;
      var head := ReachesHead(o, s, i);
    }
  }

  // ----- Batch replay and the summary -----

  datatype BatchResult = BatchResult(
    stateRoot: StateRoot,
    replayHash: string,
    appliedHashes: seq<string>,
    finalState: map<string, VectorState>,
    eventCount: nat,
    latestClock: u64,
    heads: seq<string>)

  datatype SummaryError =
    | OrderingFailed(dag: DagError)
    | ReplayFailed(replay: ReplayError)
    | StateRootDivergence
    | ReplayHashDivergence

  ghost function BatchOf(env: Foreign, s: set<VectorEvent>): BatchResult
    requires Applicable(env, ReplayOrder(s))
  {
    var r := ReplayOf(env, s);
    BatchResult(r.stateRoot, r.replayHash, r.appliedHashes, r.finalState, |r.appliedHashes|, r.stateRoot.logicalClock,
      Text.SortedKeys(HeadHashes(s)))
  }

  /** The fixed result for the empty log, with a state root over no vectors. */
  ghost function EmptyBatch(env: Foreign): BatchResult {
    BatchResult(StateRoot(env.blake3(RootMaterial([], 0)), 0, 0), "", [], map[], 0, 0, [])
  }

  /** No events, no state, no heads, no hash, and zero everywhere. */
  predicate IsNothing(b: BatchResult) {
    && b.replayHash == "" && b.appliedHashes == [] && b.finalState == map[] && b.eventCount == b.latestClock == 0
    && b.heads == [] && b.stateRoot.eventCount == b.stateRoot.logicalClock == 0
  }

  /** Orders the log, replays it and lists its heads; the empty log is answered without replaying. */
  method ReplayFromEvents(env: Foreign, events: seq<VectorEvent>) returns (r: Result<BatchResult, SummaryError>)
    ensures events == [] ==> r == Ok(EmptyBatch(env)) && IsNothing(r.value)
    ensures events != [] ==> (r.Ok? <==> Replayable(env, events))
    ensures events != [] && r.Ok? ==> r.value == BatchOf(env, Elems(events))
    ensures r.Err? && !ValidLog(events) ==> r.error.OrderingFailed? && Explains(r.error.dag, events)
    ensures r.Err? && ValidLog(events) ==> r.error.ReplayFailed? && FailsWith(env, events, r.error.replay)
  {
    hide ValidLog, OneRoot, Applicable, ReplayOf, Least, RootMaterial, HeadHashes, Explains, StopsWith, BadRoots,
      Entities, ReplayOrder;
    if events == [] {
      var root := ComputeStateRoot(env, [], 0);
      return Ok(BatchResult(root, "", [], map[], 0, 0, []));
    }
    var ordered := TopologicalOrder(events);
    if ordered.Err? {
      return Err(OrderingFailed(ordered.error));
    }
    SameMultisetSameElems(events, ordered.value);
    ReplayIgnoresOrder(env, events, ordered.value);
    ValidLogPerm(events, ordered.value);
    var replay := ReplayEvents(env, ordered.value);
    if replay.Err? {
      return Err(ReplayFailed(replay.error));
    }
    var heads := ComputeHeads(ordered.value);
    var v := replay.value;
    r := Ok(BatchResult(v.stateRoot, v.replayHash, v.appliedHashes, v.finalState, |v.appliedHashes|,
      v.stateRoot.logicalClock, heads));
  }

  /**
   * Replays the log twice, directly and through the canonical order, and compares. The comparison
   * never fails on a log with events; on the empty log it always does, because the two paths hash
   * different material there.
   */
  method EngineReplaySummary(env: Foreign, log: seq<VectorEvent>) returns (r: Result<BatchResult, SummaryError>)
    requires PrintsHex(env)
    ensures r.Ok? <==> Replayable(env, log) && log != []
    ensures r.Ok? ==> r.value == BatchOf(env, Elems(log))
    ensures r.Err? && Replayable(env, log) ==> r.error.StateRootDivergence? || r.error.ReplayHashDivergence?
    ensures !Replayable(env, log) ==> r.Err? && r.error.ReplayFailed? && FailsWith(env, log, r.error.replay)
  {
    hide ValidLog, OneRoot, Applicable, Least, RootMaterial, HeadHashes, ReplayBytes, FailsWith;
    var replay := ReplayEvents(env, log);
    if replay.Err? {
      return Err(ReplayFailed(replay.error));
    }
    var heads := ComputeHeads(log);
    var outcome := ReplayFromEvents(env, log);
    if outcome.Err? {
      // The canonical order replays whenever the log does.
      assert false;
    }
    var batch := outcome.value;
    assert log == [] ==> replay.value.replayHash != "";
    if batch.stateRoot != replay.value.stateRoot {
      return Err(StateRootDivergence);
    }
    if batch.replayHash != replay.value.replayHash {
      return Err(ReplayHashDivergence);
    }
    var v := replay.value;
    r := Ok(BatchResult(v.stateRoot, v.replayHash, v.appliedHashes, v.finalState, |v.appliedHashes|,
      v.stateRoot.logicalClock, heads));
  }

  /** The two root materials of the empty log differ, so an injective digest reports a state root divergence. */
  lemma EmptyLogDiverges(env: Foreign)
    requires InjectiveDigest(env)
    ensures RootOf(env, map[], 0, 0).rootHash != EmptyBatch(env).stateRoot.rootHash
  {
    var a, b := RootBytes(StateMapBytes(map[]), 0, 0), RootMaterial([], 0);
    hide Word, StateMapBytes;
    assert |a| >= |Utf8(ROOT_TAG)| + 24;
    assert |b| == |Utf8(ROOT_TAG)| + 16;
    assert env.blake3(a) == env.blake3(b) ==> a == b;
  }

  // ----- Verifying a log against a published result -----

  method VerifyReplay(env: Foreign, events: seq<VectorEvent>, root: StateRoot, hash: string)
    returns (r: Result<bool, ReplayError>)
    ensures r.Ok? <==> Replayable(env, events)
    ensures r.Err? ==> FailsWith(env, events, r.error)
    ensures r.Ok? ==>
      (r.value <==> ReplayOf(env, Elems(events)).stateRoot == root && ReplayOf(env, Elems(events)).replayHash == hash)
  {
    hide ReplayOf, FailsWith;
    var replay :- ReplayEvents(env, events);
    r := Ok(replay.stateRoot == root && replay.replayHash == hash);
  }

  /** Counts and lengths of a replay result fit their 64-bit prefixes. */
  ghost predicate ReplayFits(r: ReplayResult) {
    && FitsPrefix(|r.appliedHashes|) && (forall h :: h in r.appliedHashes ==> StrFits(h))
    && StateMapFits(r.finalState) && FitsPrefix(|StateMapBytes(r.finalState)|)
  }

  lemma RootBytesInjective(a: map<string, VectorState>, m: nat, c: u64, b: map<string, VectorState>, n: nat, d: u64)
    requires StateMapFits(a) && StateMapFits(b) && FitsPrefix(|StateMapBytes(a)|) && FitsPrefix(|StateMapBytes(b)|)
    requires FitsPrefix(m) && FitsPrefix(n)
    requires RootBytes(StateMapBytes(a), m, c) == RootBytes(StateMapBytes(b), n, d)
    ensures a == b && m == n && c == d
  {
    hide Word, StateMapBytes, StateMapFits;
    var tag, x, y := Utf8(Replay.ROOT_TAG), StateMapBytes(a), StateMapBytes(b);
    Regroup4(tag, Word(m), Word(c), Word(|x|), x);
    Regroup4(tag, Word(n), Word(d), Word(|y|), y);
    SplitAt(|tag|, tag, Word(m) + (Word(c) + (Word(|x|) + x)), tag, Word(n) + (Word(d) + (Word(|y|) + y)));
    WordSeparates(m, n, Word(c) + (Word(|x|) + x), Word(d) + (Word(|y|) + y));
    WordSeparates(c, d, Word(|x|) + x, Word(|y|) + y);
    WordSeparates(|x|, |y|, x, y);
    assert x + [] == x && y + [] == y;
    StateMapSeparates(a, b, [], []);
  }

  /** With an injective digest, equal roots and hashes mean equal final states and equal lists of applied events. */
  lemma ResultsMatch(env: Foreign, a: set<VectorEvent>, b: set<VectorEvent>)
    requires InjectiveDigest(env) && Applicable(env, ReplayOrder(a)) && Applicable(env, ReplayOrder(b))
    requires ReplayFits(ReplayOf(env, a)) && ReplayFits(ReplayOf(env, b))
    requires ReplayOf(env, a).stateRoot == ReplayOf(env, b).stateRoot
    requires ReplayOf(env, a).replayHash == ReplayOf(env, b).replayHash
    ensures ReplayOf(env, a).finalState == ReplayOf(env, b).finalState
    ensures ReplayOf(env, a).appliedHashes == ReplayOf(env, b).appliedHashes
  {
    hide RootBytes, StateMapBytes, ReplayBytes, StateMapFits, StrFits, ReplayOrder, CoreFold, StateFold;
    var x, y := ReplayOf(env, a), ReplayOf(env, b);
    assert ReplayBytes(x.appliedHashes) == ReplayBytes(y.appliedHashes);
    ReplayBytesInjective(x.appliedHashes, y.appliedHashes);
    var m, n := |x.appliedHashes|, |y.appliedHashes|;
    assert env.blake3(RootBytes(StateMapBytes(x.finalState), m, x.stateRoot.logicalClock)) ==
      env.blake3(RootBytes(StateMapBytes(y.finalState), n, y.stateRoot.logicalClock));
    RootBytesInjective(x.finalState, m, x.stateRoot.logicalClock, y.finalState, n, y.stateRoot.logicalClock);
  }

  /**
   * With an injective digest, two logs of sealed events that verify against the same published root
   * and hash hold the same events, up to their order and their signatures.
   */
  lemma VerifiedLogsMatch(env: Foreign, a: seq<VectorEvent>, b: seq<VectorEvent>)
    requires InjectiveDigest(env) && Replayable(env, a) && Replayable(env, b)
    requires ReplayFits(ReplayOf(env, Elems(a))) && ReplayFits(ReplayOf(env, Elems(b)))
    requires ReplayOf(env, Elems(a)).stateRoot == ReplayOf(env, Elems(b)).stateRoot
    requires ReplayOf(env, Elems(a)).replayHash == ReplayOf(env, Elems(b)).replayHash
    requires (forall e :: e in a ==> IsSealed(env, e) && EventFits(e)) && forall e :: e in b ==>
      IsSealed(env, e) && EventFits(e)
    ensures |a| == |b|
    ensures forall e :: e in a ==> exists f :: f in b && e == f.(signature := e.signature)
  {
    hide ReplayOf, Replayable, IsSealed, EventFits, ReplayFits, Applicable;
    ReplaysApply(env, a);
    ReplaysApply(env, b);
    ResultsMatch(env, Elems(a), Elems(b));
    var hashes := ReplayOf(env, Elems(a)).appliedHashes;
    SameMultisetSameElems(hashes, HashList(a));
    SameMultisetSameElems(hashes, HashList(b));
    HashListIs(a);
    HashListIs(b);
    forall e | e in a ensures exists f :: f in b && e == f.(signature := e.signature) {
      assert e in Elems(a) && e.eventHash in Hashes(Elems(b));
      var f :| f in Elems(b) && f.eventHash == e.eventHash;
      SealBinds(env, e, f);
    }
  }

  lemma ReplaysApply(env: Foreign, events: seq<VectorEvent>)
    requires Replayable(env, events)
    ensures Applicable(env, ReplayOrder(Elems(events)))
    ensures multiset(ReplayOf(env, Elems(events)).appliedHashes) == multiset(HashList(events))
  {
    hide Applicable, ReplayOf, ValidLog;
    ReplayReturns(env, events);
  }

  // ----- What changed between two logs -----

  /** The events of `after` whose hashes `before` does not have, each as often as in `after`, sorted. */
  method CollectNewEvents(before: seq<VectorEvent>, after: seq<VectorEvent>) returns (added: seq<VectorEvent>)
    ensures EventsAscend(LogKey, added)
    ensures forall e :: multiset(added)[e] == if e.eventHash in Hashes(Elems(before)) then 0 else multiset(after)[e]
  {
    var known := set e | e in before :: e.eventHash;
    assert known == Hashes(Elems(before));
    var found: seq<VectorEvent> := [];
    for i := 0 to |after|
      invariant forall e :: multiset(found)[e] == if e.eventHash in known then 0 else multiset(after[..i])[e]
    {
      assert after[..i + 1] == after[..i] + [after[i]];
      if after[i].eventHash !in known {
        found := found + [after[i]];
      }
    }
    TakeAll(after);
    added := SortEvents(LogKey, found);
    SortEventsCorrect(LogKey, found);
  }
}
