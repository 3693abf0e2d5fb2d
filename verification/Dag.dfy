/** Validation and canonical ordering of whole event logs (src/dag.rs). */
module Dag {
  import opened Base
  import opened Events
  import opened Ordering
  import opened LeastOrder
  import opened Graph

  datatype DagError =
    | EmptyHash(eventId: string)
    | DuplicateHash(hash: string)
    | DuplicateParent(hash: string)
    | MissingParent(hash: string)
    | RegionInadmissible(parentRegion: string, childRegion: string)
    | Cycle
    | Unresolved
    | RootCount(count: nat)

  /** Non-empty, pairwise different hashes. */
  ghost predicate Indexable(events: seq<VectorEvent>) {
    DistinctHashes(events) && forall e :: e in events ==> e.eventHash != ""
  }

  /** The parents of `e` are named once each, are in the log, and belong to the region of `e`. */
  ghost predicate ParentsAdmissible(e: VectorEvent, events: seq<VectorEvent>) {
    && NoDup(e.parentHashes)
    && forall p :: p in e.parentHashes ==> ParentAdmissible(e, p, events)
  }

  ghost predicate ParentAdmissible(e: VectorEvent, p: string, events: seq<VectorEvent>) {
    exists f :: f in events && f.eventHash == p && f.regionId == e.regionId
  }

  ghost predicate ValidLog(events: seq<VectorEvent>) {
    && Indexable(events)
    && (forall e :: e in events ==> ParentsAdmissible(e, events))
    && Acyclic(Elems(events))
  }

  /** Validity does not depend on the order in which a log is loaded. */
  lemma ValidLogPerm(a: seq<VectorEvent>, b: seq<VectorEvent>)
    requires multiset(a) == multiset(b) && ValidLog(a)
    ensures ValidLog(b)
  {
    SameMultisetSameElems(a, b);
    DistinctHashesPerm(a, b);
    assert forall e :: e in b <==> e in Elems(b);
    assert forall e :: e in a <==> e in Elems(a);
    forall e | e in b ensures ParentsAdmissible(e, b) {
      assert ParentsAdmissible(e, a);
      forall p | p in e.parentHashes ensures ParentAdmissible(e, p, b) {
        assert ParentAdmissible(e, p, a);
      }
    }
  }

  ghost predicate IsIndex(index: map<string, nat>, events: seq<VectorEvent>) {
    && index.Keys == Hashes(Elems(events))
    && forall i :: 0 <= i < |events| ==> index[events[i].eventHash] == i
  }

  /** What each error says about the log it rejects. */
  ghost predicate Explains(error: DagError, events: seq<VectorEvent>) {
    match error
    case EmptyHash(id) => exists e :: e in events && e.eventHash == "" && e.eventId == id
    case DuplicateHash(h) => exists i, j :: 0 <= i < j < |events| && events[i].eventHash == events[j].eventHash == h
    case DuplicateParent(h) => exists e :: e in events && e.eventHash == h && !NoDup(e.parentHashes)
    case MissingParent(p) =>
      (exists e :: e in events && p in e.parentHashes) && forall f :: f in events ==> f.eventHash != p
    case RegionInadmissible(up, down) =>
      && up != down
      && exists e, f ::
           && e in events && f in events && f.eventHash in e.parentHashes
           && f.regionId == up && e.regionId == down
    case Cycle =>
      Indexable(events) && (forall e :: e in events ==> ParentsAdmissible(e, events)) && !Acyclic(Elems(events))
    case Unresolved => false
    case RootCount(_) => false
  }

  lemma IndexableStep(events: seq<VectorEvent>, i: nat)
    requires i < |events| && Indexable(events[..i])
    requires events[i].eventHash != "" && events[i].eventHash !in Hashes(Elems(events[..i]))
    ensures Indexable(events[..i + 1])
    ensures Hashes(Elems(events[..i + 1])) == Hashes(Elems(events[..i])) + {events[i].eventHash}
  {
    TakeNext(events, i);
    var before := events[..i];
    assert events[..i + 1] == before + [events[i]];
    assert forall j :: 0 <= j < i ==> before[j] in Elems(before) && before[j].eventHash in Hashes(Elems(before));
    assert Hashes(Elems(before) + {events[i]}) == Hashes(Elems(before)) + {events[i].eventHash};
  }

  lemma IndexStep(events: seq<VectorEvent>, i: nat, index: map<string, nat>)
    requires i < |events| && Indexable(events[..i]) && IsIndex(index, events[..i])
    requires events[i].eventHash != "" && events[i].eventHash !in index
    ensures Indexable(events[..i + 1]) && IsIndex(index[events[i].eventHash := i], events[..i + 1])
  {
    IndexableStep(events, i);
    assert forall j :: 0 <= j < i ==> events[..i][j] in Elems(events[..i]) && events[..i][j] == events[..i + 1][j];
  }

  lemma SeenHash(events: seq<VectorEvent>, i: nat, index: map<string, nat>)
    requires i < |events| && IsIndex(index, events[..i]) && events[i].eventHash in index
    ensures !DistinctHashes(events) && Explains(DuplicateHash(events[i].eventHash), events)
  {
    var e :| e in Elems(events[..i]) && e.eventHash == events[i].eventHash;
    var j :| 0 <= j < i && events[..i][j] == e;
    assert events[j].eventHash == events[i].eventHash == events[i].eventHash;
  }

  method EventIndex(events: seq<VectorEvent>) returns (r: Result<map<string, nat>, DagError>)
    ensures r.Ok? <==> Indexable(events)
    ensures r.Ok? ==> IsIndex(r.value, events)
    ensures r.Err? ==> Explains(r.error, events)
  {
    var index: map<string, nat> := map[];
    for i := 0 to |events|
      invariant Indexable(events[..i]) && IsIndex(index, events[..i])
    {
      var event := events[i];
      assert event in events;
      if event.eventHash == "" {
        return Err(EmptyHash(event.eventId));
      }
      if event.eventHash in index {
        SeenHash(events, i, index);
        return Err(DuplicateHash(event.eventHash));
      }
      IndexStep(events, i, index);
      index := index[event.eventHash := i];
    }
    TakeAll(events);
    r := Ok(index);
  }

  /** The parent checks of one event, in the order its parents are named. */
  method CheckParents(event: VectorEvent, events: seq<VectorEvent>, index: map<string, nat>)
    returns (r: Result<(), DagError>)
    requires event in events && IsIndex(index, events)
    ensures r.Ok? <==> ParentsAdmissible(event, events)
    ensures r.Err? ==> Explains(r.error, events)
  {
    var parents := event.parentHashes;
    var seen: set<string> := {};
    for i := 0 to |parents|
      invariant seen == Elems(parents[..i]) && NoDup(parents[..i])
      invariant forall p :: p in seen ==> ParentAdmissible(event, p, events)
    {
      TakeNext(parents, i);
      assert parents[i] in parents;
      if parents[i] in seen {
        return Err(DuplicateParent(event.eventHash));
      }
      NoDupSnoc(parents, i);
      seen := seen + {parents[i]};
      if parents[i] !in index {
        assert forall f :: f in events ==> f in Elems(events) && f.eventHash in Hashes(Elems(events));
        assert !ParentAdmissible(event, parents[i], events);
        return Err(MissingParent(parents[i]));
      }
      ghost var f :| f in Elems(events) && f.eventHash == parents[i];
      ghost var j :| 0 <= j < |events| && events[j] == f;
      var parent := events[index[parents[i]]];
      assert parent == f;
      if parent.regionId != event.regionId {
        assert !ParentAdmissible(event, parents[i], events) by { IndexUnique(index, events, parent); }
        return Err(RegionInadmissible(parent.regionId, event.regionId));
      }
      assert ParentAdmissible(event, parents[i], events);
    }
    TakeAll(parents);
    assert forall p :: p in parents ==> p in seen;
    r := Ok(());
  }

  lemma IndexUnique(index: map<string, nat>, events: seq<VectorEvent>, e: VectorEvent)
    requires IsIndex(index, events) && e in events
    ensures forall f :: f in events && f.eventHash == e.eventHash ==> f == e
  {
    var i :| 0 <= i < |events| && events[i] == e;
    forall f | f in events && f.eventHash == e.eventHash ensures f == e {
      var j :| 0 <= j < |events| && events[j] == f;
      assert index[events[j].eventHash] == j && index[events[i].eventHash] == i;
    }
  }

  /** Accepts exactly the valid logs, and says why it rejects the others. */
  method ValidateDag(events: seq<VectorEvent>) returns (r: Result<(), DagError>)
    ensures r.Ok? <==> ValidLog(events)
    ensures r.Err? ==> Explains(r.error, events)
  {
    var index :- EventIndex(events);
    for i := 0 to |events|
      invariant forall j :: 0 <= j < i ==> ParentsAdmissible(events[j], events)
    {
      assert events[i] in events;
      var _ :- CheckParents(events[i], events, index);
    }
    assert forall e :: e in events ==> ParentsAdmissible(e, events);
    var indegree, children := BuildGraph(events);
    var visited := KahnVisits(events, indegree, children);
    if visited != |events| {
      return Err(Cycle);
    }
    r := Ok(());
  }

  /**
   * Succeeds exactly on valid logs, with the lexicographically least of their topological orders
   * (`LeastOrder.LeastCharacterized`).
   */
  method TopologicalOrder(events: seq<VectorEvent>) returns (r: Result<seq<VectorEvent>, DagError>)
    ensures r.Ok? <==> ValidLog(events)
    ensures r.Ok? ==> r.value == Least(LogKey, Elems(events))
    ensures r.Ok? ==> multiset(r.value) == multiset(events) && TakesLoggedFirst(r.value)
    ensures r.Err? ==> Explains(r.error, events)
  {
    var _ :- ValidateDag(events);
    DistinctHashesKeyed(events);
    LeastByFields(Elems(events));
    LeastComplete(LogKey, Elems(events));
    NoDupCount(events);
    assert forall e :: e in events ==> ParentsAdmissible(e, events);
    var indegree, children := BuildGraph(events);
    var ordered := KahnOrder(LogKey, events, indegree, children);
    if |ordered| != |events| {
      return Err(Unresolved);
    }
    SameElemsSameMultiset(ordered, events);
    r := Ok(ordered);
  }

  /**
   * On a valid log the order is a topological order, no other topological order is
   * lexicographically smaller, and every rearrangement of the log gives the same one.
   */
  lemma OrderIsCanonical(events: seq<VectorEvent>, others: seq<VectorEvent>)
    requires ValidLog(events) && multiset(events) == multiset(others)
    ensures ValidLog(others) && Least(LogKey, Elems(others)) == Least(LogKey, Elems(events))
    ensures IsTopological(Least(LogKey, Elems(events)), Elems(events))
    ensures forall t :: IsTopological(t, Elems(events)) ==> LexLeq(LogKey, Least(LogKey, Elems(events)), t)
  {
    ValidLogPerm(events, others);
    SameMultisetSameElems(events, others);
    DistinctHashesKeyed(events);
    LeastCharacterized(LogKey, Elems(events), Least(LogKey, Elems(events)));
  }

  /** When keys never decrease along edges, the canonical order is the log sorted by key. */
  lemma OrderIsSorting(events: seq<VectorEvent>)
    requires ValidLog(events) && KeysFollowEdges(LogKey, Elems(events))
    ensures Least(LogKey, Elems(events)) == SortEvents(LogKey, events)
  {
    DistinctHashesKeyed(events);
    SortEventsCorrect(LogKey, events);
    SameMultisetSameElems(events, SortEvents(LogKey, events));
    NoDupPerm(events, SortEvents(LogKey, events));
    LeastIsSorted(LogKey, Elems(events), SortEvents(LogKey, events));
  }
}
