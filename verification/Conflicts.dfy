/** The diagnostic pass over a log (src/dag.rs). */
module Conflicts {
  import opened Base
  import opened Dag
  import opened Events
  import opened LeastOrder

  datatype Conflict =
    | Unindexed(error: DagError)
    | SelfParent(hash: string)
    | RepeatedParent(hash: string, parent: string)
    | AbsentParent(hash: string, parent: string)

  ghost predicate NamedTwice(names: seq<string>, p: string) {
    exists i, j :: 0 <= i < j < |names| && names[i] == p && names[j] == p
  }

  /** What a conflict says about one event of a log with the given hashes. */
  ghost predicate Blames(c: Conflict, e: VectorEvent, known: set<string>) {
    match c
    case Unindexed(_) => false
    case SelfParent(h) => h == e.eventHash && h in e.parentHashes
    case RepeatedParent(h, p) => h == e.eventHash && NamedTwice(e.parentHashes, p)
    case AbsentParent(h, p) => h == e.eventHash && p in e.parentHashes && p !in known
  }

  lemma TwiceNext(front: seq<string>, last: string, p: string)
    ensures NamedTwice(front + [last], p) <==> NamedTwice(front, p) || (last == p && p in front)
  {
    var names := front + [last];
    if NamedTwice(names, p) {
      var i, j :| 0 <= i < j < |names| && names[i] == p && names[j] == p;
      assert front[i] == p;
      if j < |front| { assert front[j] == p; }
    }
    if NamedTwice(front, p) {
      var i, j :| 0 <= i < j < |front| && front[i] == p && front[j] == p;
      assert names[i] == p && names[j] == p;
    }
    if last == p && p in front {
      var i :| 0 <= i < |front| && front[i] == p;
      assert names[i] == p && names[|front|] == p;
    }
  }

  // ----- The report -----

  /** What is reported at the `i`-th parent. */
  ghost function ProblemsAt(e: VectorEvent, known: set<string>, i: nat): seq<Conflict>
    requires i < |e.parentHashes|
  {
    var p := e.parentHashes[i];
    (if p in e.parentHashes[..i] then [RepeatedParent(e.eventHash, p)] else [])
    + if p !in known then [AbsentParent(e.eventHash, p)] else []
  }

  /** What is reported at the first `i` parents, in the order in which they are named. */
  ghost function ParentProblems(e: VectorEvent, known: set<string>, i: nat): seq<Conflict>
    requires i <= |e.parentHashes|
  {
    if i == 0 then [] else ParentProblems(e, known, i - 1) + ProblemsAt(e, known, i - 1)
  }

  ghost function EventProblems(e: VectorEvent, known: set<string>): seq<Conflict> {
    (if e.eventHash in e.parentHashes then [SelfParent(e.eventHash)] else [])
    + ParentProblems(e, known, |e.parentHashes|)
  }

  /** The report on the events of a log, in log order. */
  ghost function LogProblems(events: seq<VectorEvent>, known: set<string>): seq<Conflict> {
    if events == [] then [] else LogProblems(events[..|events| - 1], known) + EventProblems(events[|events| - 1], known)
  }

  /**
   * How often an event's problem is reported: a repeated parent once for every repetition, an
   * absent one every time.
   */
  ghost function Times(c: Conflict, e: VectorEvent, known: set<string>): nat {
    match c
    case Unindexed(_) => 0
    case SelfParent(h) => if Blames(c, e, known) then 1 else 0
    case RepeatedParent(h, p) => if Blames(c, e, known) then multiset(e.parentHashes)[p] - 1 else 0
    case AbsentParent(h, p) => if Blames(c, e, known) then multiset(e.parentHashes)[p] else 0
  }

  lemma {:induction false} TwiceMeans(names: seq<string>, p: string)
    ensures NamedTwice(names, p) <==> multiset(names)[p] >= 2
  {
    if names != [] {
      var front, last := names[..|names| - 1], names[|names| - 1];
      assert names == front + [last];
      TwiceMeans(front, p);
      TwiceNext(front, last, p);
    }
  }

  lemma {:induction false} ParentTimes(e: VectorEvent, known: set<string>, i: nat, c: Conflict)
    requires i <= |e.parentHashes|
    ensures multiset(ParentProblems(e, known, i))[c] ==
      if c.SelfParent? then 0 else Times(c, e.(parentHashes := e.parentHashes[..i]), known)
  {
    hide ProblemsAt, Times;
    var front := e.(parentHashes := e.parentHashes[..i]);
    if i == 0 {
      NoParentsNoTimes(front, known, c);
    } else {
      ParentTimes(e, known, i - 1, c);
      if c.SelfParent? { OthersAt(e, known, i - 1, c); } else { TimesNext(e, known, i - 1, c); }
    }
  }

  lemma NoParentsNoTimes(e: VectorEvent, known: set<string>, c: Conflict)
    requires e.parentHashes == []
    ensures Times(c, e, known) == 0
  {
  }

  lemma OthersAt(e: VectorEvent, known: set<string>, i: nat, c: Conflict)
    requires i < |e.parentHashes| && (c.SelfParent? || c.Unindexed?)
    ensures multiset(ProblemsAt(e, known, i))[c] == 0
  {
  }

  lemma TimesNext(e: VectorEvent, known: set<string>, i: nat, c: Conflict)
    requires i < |e.parentHashes| && !c.SelfParent?
    ensures Times(c, e.(parentHashes := e.parentHashes[..i + 1]), known) ==
      Times(c, e.(parentHashes := e.parentHashes[..i]), known) + multiset(ProblemsAt(e, known, i))[c]
  {
    hide NamedTwice, ProblemsAt;
    var front, p := e.parentHashes[..i], e.parentHashes[i];
    assert e.parentHashes[..i + 1] == front + [p];
    match c {
      case Unindexed(_) =>
        OthersAt(e, known, i, c);
      case RepeatedParent(h, q) =>
        TwiceMeans(front, q);
        TwiceMeans(front + [p], q);
        RepeatedNext(e, known, i, c);
      case AbsentParent(h, q) =>
        AbsentNext(e, known, i, c);
    }
  }

  lemma RepeatedNext(e: VectorEvent, known: set<string>, i: nat, c: Conflict)
    requires i < |e.parentHashes| && c.RepeatedParent?
    ensures multiset(ProblemsAt(e, known, i))[c] ==
      if c == RepeatedParent(e.eventHash, e.parentHashes[i]) && e.parentHashes[i] in e.parentHashes[..i] then 1 else 0
  {
  }

  lemma AbsentNext(e: VectorEvent, known: set<string>, i: nat, c: Conflict)
    requires i < |e.parentHashes| && c.AbsentParent?
    ensures multiset(ProblemsAt(e, known, i))[c] ==
      if c == AbsentParent(e.eventHash, e.parentHashes[i]) && e.parentHashes[i] !in known then 1 else 0
  {
  }

  /** Every problem of an event is reported as often as it occurs. */
  lemma {:induction false} ReportTimes(events: seq<VectorEvent>, known: set<string>, e: VectorEvent, c: Conflict)
    requires DistinctHashes(events) && e in events && (c.SelfParent? || c.RepeatedParent? || c.AbsentParent?)
    requires c.hash == e.eventHash
    ensures multiset(LogProblems(events, known))[c] == Times(c, e, known)
  {
    hide Times, EventProblems;
    var front, last := events[..|events| - 1], events[|events| - 1];
    assert events == front + [last];
    EventProblemTimes(last, known, c);
    if e == last {
      assert forall f :: f in front ==> f.eventHash != c.hash;
      OthersSilent(front, known, c);
    } else {
      assert e in front;
      ReportTimes(front, known, e, c);
      NotBlamed(last, known, c);
    }
  }

  lemma EventProblemTimes(e: VectorEvent, known: set<string>, c: Conflict)
    ensures multiset(EventProblems(e, known))[c] == Times(c, e, known)
  {
    ParentTimes(e, known, |e.parentHashes|, c);
    TakeAll(e.parentHashes);
    assert e.(parentHashes := e.parentHashes[..|e.parentHashes|]) == e;
  }

  lemma NotBlamed(e: VectorEvent, known: set<string>, c: Conflict)
    requires (c.SelfParent? || c.RepeatedParent? || c.AbsentParent?) && c.hash != e.eventHash
    ensures Times(c, e, known) == 0
  {
  }

  lemma {:induction false} OthersSilent(events: seq<VectorEvent>, known: set<string>, c: Conflict)
    requires (c.SelfParent? || c.RepeatedParent? || c.AbsentParent?) && forall e :: e in events ==>
      e.eventHash != c.hash
    ensures multiset(LogProblems(events, known))[c] == 0
  {
    hide Times, EventProblems;
    if events != [] {
      var last := events[|events| - 1];
      OthersSilent(events[..|events| - 1], known, c);
      EventProblemTimes(last, known, c);
      NotBlamed(last, known, c);
    }
  }

  /** What is reported is what an event is to blame for. */
  lemma {:induction false} ReportMeans(events: seq<VectorEvent>, known: set<string>)
    ensures forall c :: c in LogProblems(events, known) <==> exists e :: e in events && Blames(c, e, known)
  {
    hide Blames, EventProblems;
    if events != [] {
      var front, last := events[..|events| - 1], events[|events| - 1];
      assert events == front + [last];
      ReportMeans(front, known);
      forall c ensures c in EventProblems(last, known) <==> Blames(c, last, known) {
        EventMeans(last, known, c);
      }
    }
  }

  lemma EventMeans(e: VectorEvent, known: set<string>, c: Conflict)
    ensures c in EventProblems(e, known) <==> Blames(c, e, known)
  {
    hide EventProblems, NamedTwice;
    EventProblemTimes(e, known, c);
    if c.RepeatedParent? { TwiceMeans(e.parentHashes, c.parent); }
    assert c in EventProblems(e, known) <==> multiset(EventProblems(e, known))[c] > 0;
  }

  /** The parent problems of one event, in the order its parents are named. */
  method ParentConflicts(e: VectorEvent, index: map<string, nat>) returns (conflicts: seq<Conflict>)
    ensures conflicts == ParentProblems(e, index.Keys, |e.parentHashes|)
  {
    var parents := e.parentHashes;
    var seen: set<string> := {};
    conflicts := [];
    for i := 0 to |parents|
      invariant seen == Elems(parents[..i]) && conflicts == ParentProblems(e, index.Keys, i)
    {
      TakeNext(parents, i);
      ghost var before := conflicts;
      if parents[i] in seen {
        conflicts := conflicts + [RepeatedParent(e.eventHash, parents[i])];
      }
      if parents[i] !in index {
        conflicts := conflicts + [AbsentParent(e.eventHash, parents[i])];
      }
      assert conflicts == before + ProblemsAt(e, index.Keys, i);
      seen := seen + {parents[i]};
    }
  }

  /**
   * Lists exactly the conflicts of an indexable log, event by event and parent by parent; an
   * unindexable one gets a single entry that says why.
   */
  method DetectConflicts(events: seq<VectorEvent>) returns (conflicts: seq<Conflict>)
    ensures !Indexable(events) ==> |conflicts| == 1 && conflicts[0].Unindexed? && Explains(conflicts[0].error, events)
    ensures Indexable(events) ==>
      forall c :: c in conflicts <==> exists e :: e in events && Blames(c, e, Hashes(Elems(events)))
    ensures Indexable(events) ==> conflicts == LogProblems(events, Hashes(Elems(events)))
  {
    hide Blames, Explains;
    var index := EventIndex(events);
    if index.Err? {
      return [Unindexed(index.error)];
    }
    conflicts := [];
    for i := 0 to |events|
      invariant conflicts == LogProblems(events[..i], index.value.Keys)
    {
      var e := events[i];
      ghost var before := conflicts;
      assert events[..i + 1][..i] == events[..i];
      if e.eventHash in e.parentHashes {
        conflicts := conflicts + [SelfParent(e.eventHash)];
      }
      var more := ParentConflicts(e, index.value);
      conflicts := conflicts + more;
      assert conflicts == before + EventProblems(e, index.value.Keys);
    }
    TakeAll(events);
    ReportMeans(events, index.value.Keys);
  }

  ghost predicate ConflictFree(events: seq<VectorEvent>) {
    Indexable(events) && forall c, e :: e in events ==> !Blames(c, e, Hashes(Elems(events)))
  }

  /** Parents that are in the log belong to the region of their child. */
  ghost predicate EdgesWithinRegions(events: seq<VectorEvent>) {
    forall e, f :: e in events && f in events && f.eventHash in e.parentHashes ==> f.regionId == e.regionId
  }

  /** A log is valid exactly when it has no conflict, no edge between regions and no cycle. */
  lemma ValidIffConflictFree(events: seq<VectorEvent>)
    ensures ValidLog(events) <==> ConflictFree(events) && EdgesWithinRegions(events) && Acyclic(Elems(events))
  {
    hide Acyclic;
    if ValidLog(events) {
      forall c, e | e in events ensures !Blames(c, e, Hashes(Elems(events))) { ValidBlamesNone(events, c, e); }
      forall e, f | e in events && f in events && f.eventHash in e.parentHashes ensures f.regionId == e.regionId {
        assert ParentsAdmissible(e, events);
        assert ParentAdmissible(e, f.eventHash, events);
        DistinctHashesKeyed(events);
        assert f in Elems(events);
      }
    }
    if ConflictFree(events) && EdgesWithinRegions(events) {
      forall e | e in events ensures ParentsAdmissible(e, events) { FreeIsAdmissible(events, e); }
    }
  }

  lemma ValidBlamesNone(events: seq<VectorEvent>, c: Conflict, e: VectorEvent)
    requires ValidLog(events) && e in events
    ensures !Blames(c, e, Hashes(Elems(events)))
  {
    assert ParentsAdmissible(e, events);
    if c.SelfParent? && e.eventHash in e.parentHashes {
      SelfParentCycle(Elems(events), e);
    }
    if c.AbsentParent? && c.parent in e.parentHashes {
      assert ParentAdmissible(e, c.parent, events);
      var f :| f in events && f.eventHash == c.parent;
      assert f in Elems(events);
    }
  }

  lemma FreeIsAdmissible(events: seq<VectorEvent>, e: VectorEvent)
    requires ConflictFree(events) && EdgesWithinRegions(events) && e in events
    ensures ParentsAdmissible(e, events)
  {
    var known, parents := Hashes(Elems(events)), e.parentHashes;
    forall i, j | 0 <= i < j < |parents| ensures parents[i] != parents[j] {
      assert !Blames(RepeatedParent(e.eventHash, parents[i]), e, known);
    }
    forall p | p in parents ensures ParentAdmissible(e, p, events) {
      assert !Blames(AbsentParent(e.eventHash, p), e, known);
      var f :| f in Elems(events) && f.eventHash == p;
      assert f in events;
    }
  }
}
