/**
 * The bookkeeping the three Kahn loops share: in-degrees, child lists and the list of events
 * whose parents have all been taken.
 */
module Graph {
  import opened Base
  import opened Events
  import opened Ordering
  import opened LeastOrder
  import Text

  /** The parents of `e` that are still in `rest`. */
  ghost function Pending(e: VectorEvent, rest: set<VectorEvent>): set<string> {
    set p | p in e.parentHashes && p in Hashes(rest)
  }

  /** Every event left has its number of pending parents recorded. */
  ghost predicate Counts(indegree: map<string, nat>, rest: set<VectorEvent>) {
    forall e :: e in rest ==> e.eventHash in indegree && indegree[e.eventHash] == |Pending(e, rest)|
  }

  /** `ready` lists the hashes of the available events, once each. */
  ghost predicate ReadyList(ready: seq<string>, rest: set<VectorEvent>) {
    NoDup(ready) && Elems(ready) == Hashes(Available(rest))
  }

  /** `byHash` finds each event of `s` under its hash and holds nothing else. */
  ghost predicate Indexes(byHash: map<string, VectorEvent>, s: set<VectorEvent>) {
    && byHash.Keys == Hashes(s)
    && forall e :: e in s ==> byHash[e.eventHash] == e
  }

  /** The events whose last pending parent is `m`. */
  ghost function FreedBy(rest: set<VectorEvent>, m: VectorEvent): set<VectorEvent> {
    set e | e in rest - {m} && m.eventHash in e.parentHashes && Free(e, rest - {m})
  }

  /** The hashes of the events that name `h` as a parent, in log order. */
  ghost function Children(events: seq<VectorEvent>, h: string): seq<string> {
    if events == [] then []
    else
      var last := events[|events| - 1];
      Children(events[..|events| - 1], h) + if h in last.parentHashes then [last.eventHash] else []
  }

  ghost predicate IsGraph(indegree: map<string, nat>, children: map<string, seq<string>>, events: seq<VectorEvent>) {
    && indegree.Keys == children.Keys == Hashes(Elems(events))
    && Counts(indegree, Elems(events))
    && forall h :: h in children ==> children[h] == Children(events, h)
  }

  lemma PendingMinus(e: VectorEvent, rest: set<VectorEvent>, m: VectorEvent)
    requires Keyed(rest) && m in rest
    ensures Pending(e, rest - {m}) == Pending(e, rest) - {m.eventHash}
    ensures m.eventHash in e.parentHashes <==> m.eventHash in Pending(e, rest)
    ensures |Pending(e, rest - {m})| == |Pending(e, rest)| - if m.eventHash in e.parentHashes then 1 else 0
  {
    HashesMinus(rest, m);
    assert m.eventHash in Hashes(rest);
  }

  lemma FreeHasNonePending(e: VectorEvent, rest: set<VectorEvent>)
    ensures Free(e, rest) <==> Pending(e, rest) == {}
    ensures Free(e, rest) <==> |Pending(e, rest)| == 0
  {
    if Free(e, rest) {
      assert Pending(e, rest) == {};
    } else {
      var f :| f in rest && f.eventHash in e.parentHashes;
      assert f.eventHash in Pending(e, rest);
    }
  }

  lemma {:induction false} ChildrenAre(events: seq<VectorEvent>, h: string)
    requires DistinctHashes(events)
    ensures NoDup(Children(events, h))
    ensures forall c :: c in Children(events, h) <==>
      exists e :: e in events && e.eventHash == c && h in e.parentHashes
  {
    if events != [] {
      var front, last := events[..|events| - 1], events[|events| - 1];
      assert events == front + [last];
      ChildrenAre(front, h);
      forall e | e in front ensures e.eventHash != last.eventHash {
        var i :| 0 <= i < |front| && front[i] == e;
        assert events[i].eventHash != last.eventHash;
      }
      if h in last.parentHashes {
        assert forall c :: c in [last.eventHash] ==> c == last.eventHash;
        NoDupConcat(Children(front, h), [last.eventHash]);
      }
      forall c ensures c in Children(events, h) <==>
        exists e :: e in events && e.eventHash == c && h in e.parentHashes
      {
        if c in Children(front, h) {
          var e :| e in front && e.eventHash == c && h in e.parentHashes;
          assert e in events;
        }
        if e :| e in events && e.eventHash == c && h in e.parentHashes {
          if e != last { assert e in front; }
        }
      }
    }
  }

  /** The `ready` list after `m` is taken: the others, and the children `m` was holding back. */
  lemma AvailableAfter(rest: set<VectorEvent>, m: VectorEvent)
    requires Keyed(rest) && m in Available(rest)
    ensures Available(rest - {m}) ==
      (Available(rest) - {m}) + FreedBy(rest, m)
  {
  }

  /** The graph of a log after the parents of its first `k` events have been entered. */
  ghost predicate Linked(indegree: map<string, nat>, children: map<string, seq<string>>, events: seq<VectorEvent>,
                         k: nat)
    requires k <= |events|
  {
    && indegree.Keys == children.Keys == Hashes(Elems(events))
    && (forall i :: 0 <= i < |events| ==>
          events[i].eventHash in indegree
          && indegree[events[i].eventHash] == if i < k then |Pending(events[i], Elems(events))| else 0)
    && forall h :: h in children ==> children[h] == Children(events[..k], h)
  }

  /** The graph of a log with no edges entered yet. */
  method Unlinked(events: seq<VectorEvent>)
    returns (indegree: map<string, nat>, children: map<string, seq<string>>)
    ensures Linked(indegree, children, events, 0)
  {
    indegree, children := map[], map[];
    for i := 0 to |events|
      invariant indegree.Keys == children.Keys == Hashes(Elems(events[..i]))
      invariant forall h :: h in indegree ==> indegree[h] == 0 && children[h] == []
    {
      TakeNext(events, i);
      assert Hashes(Elems(events[..i + 1])) == Hashes(Elems(events[..i])) + {events[i].eventHash};
      indegree := indegree[events[i].eventHash := 0];
      children := children[events[i].eventHash := []];
    }
    TakeAll(events);
    assert forall i :: 0 <= i < |events| ==> events[i] in Elems(events) && events[i].eventHash in Hashes(Elems(events));
  }

  /** The graph after the parents in `seen` have been entered for the event named `hash`. */
  ghost predicate Entered(hash: string, seen: set<string>,
                          indegree: map<string, nat>, children: map<string, seq<string>>,
                          indegree': map<string, nat>, children': map<string, seq<string>>) {
    && indegree' == indegree[hash := |seen * indegree.Keys|]
    && children'.Keys == children.Keys
    && forall h :: h in children ==> children'[h] == children[h] + (if h in seen then [hash] else [])
  }

  lemma EnterParent(hash: string, seen: set<string>, parent: string,
                    indegree: map<string, nat>, children: map<string, seq<string>>,
                    indegree': map<string, nat>, children': map<string, seq<string>>)
    requires indegree.Keys == children.Keys && parent !in seen && parent in children
    requires Entered(hash, seen, indegree, children, indegree', children')
    ensures Entered(hash, seen + {parent}, indegree, children,
      indegree'[hash := indegree'[hash] + 1], children'[parent := children'[parent] + [hash]])
  {
    assert (seen + {parent}) * indegree.Keys == seen * indegree.Keys + {parent};
    assert |(seen + {parent}) * indegree.Keys| == |seen * indegree.Keys| + 1;
  }

  lemma SkipParent(hash: string, seen: set<string>, parent: string,
                   indegree: map<string, nat>, children: map<string, seq<string>>,
                   indegree': map<string, nat>, children': map<string, seq<string>>)
    requires indegree.Keys == children.Keys && parent !in children
    requires Entered(hash, seen, indegree, children, indegree', children')
    ensures Entered(hash, seen + {parent}, indegree, children, indegree', children')
  {
    assert (seen + {parent}) * indegree.Keys == seen * indegree.Keys;
  }

  /** One edge: nothing happens when the parent is not in the log. */
  method LinkParent(hash: string, parent: string, indegree: map<string, nat>, children: map<string, seq<string>>,
                    ghost seen: set<string>,
                    ghost indegree0: map<string, nat>, ghost children0: map<string, seq<string>>)
    returns (indegree': map<string, nat>, children': map<string, seq<string>>)
    requires indegree0.Keys == children0.Keys && parent !in seen
    requires Entered(hash, seen, indegree0, children0, indegree, children)
    ensures Entered(hash, seen + {parent}, indegree0, children0, indegree', children')
  {
    if parent in children {
      EnterParent(hash, seen, parent, indegree0, children0, indegree, children);
      indegree' := indegree[hash := indegree[hash] + 1];
      children' := children[parent := children[parent] + [hash]];
    } else {
      SkipParent(hash, seen, parent, indegree0, children0, indegree, children);
      indegree', children' := indegree, children;
    }
  }

  /** One event's edges: counts its parents in the log and lists it as a child of each. */
  method LinkParents(event: VectorEvent, indegree: map<string, nat>, children: map<string, seq<string>>)
    returns (indegree': map<string, nat>, children': map<string, seq<string>>)
    requires event.eventHash in indegree && indegree[event.eventHash] == 0
    requires indegree.Keys == children.Keys && NoDup(event.parentHashes)
    ensures Entered(event.eventHash, Elems(event.parentHashes), indegree, children, indegree', children')
  {
    var parents := event.parentHashes;
    indegree', children' := indegree, children;
    for j := 0 to |parents|
      invariant Entered(event.eventHash, Elems(parents[..j]), indegree, children, indegree', children')
    {
      TakeNext(parents, j);
      indegree', children' :=
        LinkParent(event.eventHash, parents[j], indegree', children', Elems(parents[..j]), indegree, children);
    }
    TakeAll(parents);
  }

  lemma ChildrenSnoc(events: seq<VectorEvent>, k: nat, h: string)
    requires k < |events|
    ensures Children(events[..k + 1], h) ==
      Children(events[..k], h) + (if h in events[k].parentHashes then [events[k].eventHash] else [])
  {
    assert events[..k + 1][..k] == events[..k];
  }

  lemma LinkChildren(events: seq<VectorEvent>, k: nat, children: map<string, seq<string>>,
                     children': map<string, seq<string>>)
    requires k < |events| && children'.Keys == children.Keys
    requires forall h :: h in children ==> children[h] == Children(events[..k], h)
    requires forall h :: h in children ==>
      children'[h] == children[h] + (if h in Elems(events[k].parentHashes) then [events[k].eventHash] else [])
    ensures forall h :: h in children' ==> children'[h] == Children(events[..k + 1], h)
  {
    hide Children;
    forall h | h in children' ensures children'[h] == Children(events[..k + 1], h) {
      ChildrenSnoc(events, k, h);
      assert h in Elems(events[k].parentHashes) <==> h in events[k].parentHashes;
    }
  }

  /** Entering the edges of event `k` links the first `k + 1` events. */
  lemma LinkStep(events: seq<VectorEvent>, k: nat, indegree: map<string, nat>, children: map<string, seq<string>>,
                 indegree': map<string, nat>, children': map<string, seq<string>>)
    requires DistinctHashes(events) && k < |events| && Linked(indegree, children, events, k)
    requires Entered(events[k].eventHash, Elems(events[k].parentHashes), indegree, children, indegree', children')
    ensures Linked(indegree', children', events, k + 1)
  {
    hide Children;
    var hash, parents := events[k].eventHash, Elems(events[k].parentHashes);
    assert parents * indegree.Keys == Pending(events[k], Elems(events));
    assert events[k] in Elems(events) && hash in Hashes(Elems(events));
    assert indegree'.Keys == indegree.Keys;
    LinkChildren(events, k, children, children');
    forall i | 0 <= i < |events| && i != k ensures events[i].eventHash != hash {}
  }

  lemma LinkedIsGraph(indegree: map<string, nat>, children: map<string, seq<string>>, events: seq<VectorEvent>)
    requires Linked(indegree, children, events, |events|)
    ensures IsGraph(indegree, children, events)
  {
    TakeAll(events);
    forall e | e in Elems(events)
      ensures e.eventHash in indegree && indegree[e.eventHash] == |Pending(e, Elems(events))|
    {
      var i :| 0 <= i < |events| && events[i] == e;
    }
  }

  /** In-degrees and child lists of a log. */
  method BuildGraph(events: seq<VectorEvent>)
    returns (indegree: map<string, nat>, children: map<string, seq<string>>)
    requires DistinctHashes(events) && forall e :: e in events ==> NoDup(e.parentHashes)
    ensures IsGraph(indegree, children, events)
  {
    indegree, children := Unlinked(events);
    for i := 0 to |events|
      invariant Linked(indegree, children, events, i)
    {
      assert events[i] in events;
      var indegree', children' := LinkParents(events[i], indegree, children);
      LinkStep(events, i, indegree, children, indegree', children');
      indegree, children := indegree', children';
    }
    LinkedIsGraph(indegree, children, events);
  }

  /** In a graph, the child list of an available event names exactly the events it holds back. */
  lemma ChildrenOfTaken(events: seq<VectorEvent>, rest: set<VectorEvent>, m: VectorEvent)
    requires DistinctHashes(events) && rest <= Elems(events) && m in rest
    requires ClosedUnder(rest, Elems(events))
    ensures ChildrenLeft(Elems(Children(events, m.eventHash)), rest, m)
    ensures NoDup(Children(events, m.eventHash))
  {
    ChildrenAre(events, m.eventHash);
    var next := Elems(Children(events, m.eventHash));
    var kids := set e | e in rest && m.eventHash in e.parentHashes;
    forall h ensures h in next <==> h in Hashes(kids) {
      assert h in next <==> h in Children(events, m.eventHash);
      if h in next {
        var e :| e in events && e.eventHash == h && m.eventHash in e.parentHashes;
        assert e in Elems(events);
        assert e in kids;
      }
      if h in Hashes(kids) {
        var e :| e in kids && e.eventHash == h;
        assert e in Elems(events);
      }
    }
  }

  /** A taken event holds no event of `rest` as a parent. */
  ghost predicate ClosedUnder(rest: set<VectorEvent>, all: set<VectorEvent>) {
    forall e, f :: e in all - rest && f in rest ==> f.eventHash !in e.parentHashes
  }

  /** Looks up a list of hashes. */
  function Lookup(byHash: map<string, VectorEvent>, hashes: seq<string>): (r: seq<VectorEvent>)
    requires forall h :: h in hashes ==> h in byHash
    ensures |r| == |hashes| && forall i :: 0 <= i < |r| ==> r[i] == byHash[hashes[i]]
  {
    if hashes == [] then [] else [byHash[hashes[0]]] + Lookup(byHash, hashes[1..])
  }

  function HashList(events: seq<VectorEvent>): (r: seq<string>)
    ensures |r| == |events| && forall i :: 0 <= i < |r| ==> r[i] == events[i].eventHash
  {
    if events == [] then [] else [events[0].eventHash] + HashList(events[1..])
  }

  ghost predicate HashesAscend(kind: KeyKind, byHash: map<string, VectorEvent>, hashes: seq<string>) {
    && (forall h :: h in hashes ==> h in byHash)
    && forall i, j :: 0 <= i < j < |hashes| ==> EventLeq(kind, byHash[hashes[i]], byHash[hashes[j]])
  }

  lemma LookupNames(byHash: map<string, VectorEvent>, hashes: seq<string>)
    requires forall h :: h in hashes ==> h in byHash && byHash[h].eventHash == h
    ensures forall e :: e in Lookup(byHash, hashes) ==> e.eventHash in hashes && byHash[e.eventHash] == e
    ensures forall h :: h in hashes ==> byHash[h] in Lookup(byHash, hashes)
    ensures NoDup(hashes) ==> NoDup(Lookup(byHash, hashes))
  {
    var events := Lookup(byHash, hashes);
    forall e | e in events ensures e.eventHash in hashes && byHash[e.eventHash] == e {
      var i :| 0 <= i < |events| && events[i] == e;
      assert hashes[i] in hashes;
    }
    forall h | h in hashes ensures byHash[h] in events {
      var i :| 0 <= i < |hashes| && hashes[i] == h;
      assert events[i] == byHash[h];
    }
    assert forall i :: 0 <= i < |events| ==> hashes[i] in hashes && events[i].eventHash == hashes[i];
  }

  /** `events` are the events that `hashes` name, once each. */
  ghost predicate NamedBy(byHash: map<string, VectorEvent>, hashes: seq<string>, events: seq<VectorEvent>) {
    && NoDup(events)
    && (forall e :: e in events ==> e.eventHash in hashes && e.eventHash in byHash && byHash[e.eventHash] == e)
    && forall h :: h in hashes ==> h in byHash && byHash[h].eventHash == h && byHash[h] in events
  }

  lemma RearrangedNames(byHash: map<string, VectorEvent>, hashes: seq<string>, sorted: seq<VectorEvent>)
    requires forall h :: h in hashes ==> h in byHash && byHash[h].eventHash == h
    requires NoDup(hashes) && multiset(sorted) == multiset(Lookup(byHash, hashes))
    ensures NamedBy(byHash, hashes, sorted)
  {
    var events := Lookup(byHash, hashes);
    LookupNames(byHash, hashes);
    SameMultisetSameElems(events, sorted);
    NoDupPerm(events, sorted);
    forall e ensures e in sorted <==> e in events {
      assert e in Elems(sorted) <==> e in Elems(events);
    }
  }

  lemma NamesOf(byHash: map<string, VectorEvent>, hashes: seq<string>, events: seq<VectorEvent>)
    requires NamedBy(byHash, hashes, events)
    ensures NoDup(HashList(events)) && Elems(HashList(events)) == Elems(hashes)
    ensures forall i :: 0 <= i < |events| ==> HashList(events)[i] in byHash && byHash[HashList(events)[i]] == events[i]
  {
    var r := HashList(events);
    forall i | 0 <= i < |r| ensures r[i] in hashes && r[i] in byHash && byHash[r[i]] == events[i] {
      assert events[i] in events;
    }
    forall h | h in hashes ensures h in r {
      var j :| 0 <= j < |events| && events[j] == byHash[h];
      assert r[j] == h;
    }
  }

  lemma NamesAscend(kind: KeyKind, byHash: map<string, VectorEvent>, names: seq<string>, events: seq<VectorEvent>)
    requires EventsAscend(kind, events) && |names| == |events|
    requires forall i :: 0 <= i < |events| ==> names[i] in byHash && byHash[names[i]] == events[i]
    ensures HashesAscend(kind, byHash, names)
  {
    hide EventLeq;
  }

  lemma SortedNames(kind: KeyKind, byHash: map<string, VectorEvent>, hashes: seq<string>, sorted: seq<VectorEvent>)
    requires forall h :: h in hashes ==> h in byHash && byHash[h].eventHash == h
    requires NoDup(hashes) && EventsAscend(kind, sorted)
    requires multiset(sorted) == multiset(Lookup(byHash, hashes))
    ensures NoDup(HashList(sorted)) && Elems(HashList(sorted)) == Elems(hashes)
    ensures HashesAscend(kind, byHash, HashList(sorted))
  {
    hide EventLeq, NamedBy, NoDup, EventsAscend, HashesAscend;
    RearrangedNames(byHash, hashes, sorted);
    NamesOf(byHash, hashes, sorted);
    NamesAscend(kind, byHash, HashList(sorted), sorted);
  }

  /** Sorts a list of hashes by the keys of the events they name. */
  method SortHashes(kind: KeyKind, byHash: map<string, VectorEvent>, hashes: seq<string>) returns (r: seq<string>)
    requires forall h :: h in hashes ==> h in byHash && byHash[h].eventHash == h
    requires NoDup(hashes)
    ensures NoDup(r) && Elems(r) == Elems(hashes)
    ensures HashesAscend(kind, byHash, r)
  {
    var sorted := SortEvents(kind, Lookup(byHash, hashes));
    SortEventsCorrect(kind, Lookup(byHash, hashes));
    SortedNames(kind, byHash, hashes, sorted);
    r := HashList(sorted);
  }

  lemma RootsAreReady(indegree: map<string, nat>, roots: seq<string>, s: set<VectorEvent>)
    requires Keyed(s) && indegree.Keys == Hashes(s) && Counts(indegree, s)
    requires NoDup(roots) && forall h :: h in roots <==> h in indegree && indegree[h] == 0
    ensures ReadyList(roots, s)
  {
    forall e | e in s ensures Free(e, s) <==> indegree[e.eventHash] == 0 {
      FreeHasNonePending(e, s);
    }
    assert Elems(roots) == Hashes(Available(s));
  }

  /** The hashes with in-degree zero, in map order. */
  method Roots(indegree: map<string, nat>) returns (roots: seq<string>)
    ensures NoDup(roots)
    ensures forall h :: h in roots <==> h in indegree && indegree[h] == 0
  {
    var keys := Text.KeysInOrder(indegree.Keys);
    Text.SortedKeysSorted(indegree.Keys);
    assert forall h :: h in keys <==> h in Elems(keys);
    roots := [];
    for i := 0 to |keys|
      invariant NoDup(roots)
      invariant forall h :: h in roots <==> h in Elems(keys[..i]) && h in indegree && indegree[h] == 0
    {
      TakeNext(keys, i);
      assert keys[i] in keys;
      if indegree[keys[i]] == 0 {
        roots := roots + [keys[i]];
      }
    }
    TakeAll(keys);
  }

  /** In-degrees relative to `rest` once the children in `done` have been lowered. */
  ghost predicate Lowering(lowered: map<string, nat>, done: set<string>, rest: set<VectorEvent>, m: VectorEvent) {
    forall e :: e in rest - {m} ==>
      e.eventHash in lowered && lowered[e.eventHash] == |Pending(e, rest)| - (if e.eventHash in done then 1 else 0)
  }

  /** `next` lists the events of `rest` that have `m` as a parent. */
  ghost predicate ChildrenLeft(next: set<string>, rest: set<VectorEvent>, m: VectorEvent) {
    next == Hashes(set e | e in rest && m.eventHash in e.parentHashes)
  }

  lemma LowerOne(lowered: map<string, nat>, done: set<string>, next: set<string>, child: string,
                 rest: set<VectorEvent>, m: VectorEvent)
    requires Keyed(rest) && m in Available(rest) && ChildrenLeft(next, rest, m)
    requires Lowering(lowered, done, rest, m) && child in next && child !in done
    ensures child in lowered && lowered[child] > 0
    ensures Lowering(lowered[child := lowered[child] - 1], done + {child}, rest, m)
  {
    var c :| c in rest && m.eventHash in c.parentHashes && c.eventHash == child;
    assert m in rest && c != m && c in rest - {m};
    PendingMinus(c, rest, m);
  }

  lemma Lowered(lowered: map<string, nat>, next: set<string>, freed: seq<string>, rest: set<VectorEvent>,
                m: VectorEvent)
    requires Keyed(rest) && m in Available(rest) && ChildrenLeft(next, rest, m)
    requires Lowering(lowered, next, rest, m)
    requires forall h :: h in freed <==> h in next && h in lowered && lowered[h] == 0
    ensures Counts(lowered, rest - {m})
    ensures Elems(freed) == Hashes(FreedBy(rest, m))
  {
    var left := rest - {m};
    forall e | e in left
      ensures e.eventHash in next <==> m.eventHash in e.parentHashes
      ensures e.eventHash in lowered && lowered[e.eventHash] == |Pending(e, left)|
      ensures Free(e, left) <==> lowered[e.eventHash] == 0
    {
      PendingMinus(e, rest, m);
      FreeHasNonePending(e, left);
    }
    assert m.eventHash !in m.parentHashes;
    forall h | h in freed ensures h in Hashes(FreedBy(rest, m)) {
      var e :| e in rest && m.eventHash in e.parentHashes && e.eventHash == h;
      assert e in left;
    }
  }

  /**
   * Taking `m` out of `rest`: lowers the in-degree of each child and collects those that become
   * ready, in the order of `next`.
   */
  method Release(next: seq<string>, indegree: map<string, nat>, ghost rest: set<VectorEvent>, ghost m: VectorEvent)
    returns (lowered: map<string, nat>, freed: seq<string>)
    requires Keyed(rest) && m in Available(rest) && Counts(indegree, rest)
    requires NoDup(next) && ChildrenLeft(Elems(next), rest, m)
    ensures lowered.Keys == indegree.Keys
    ensures Counts(lowered, rest - {m})
    ensures NoDup(freed) && Elems(freed) == Hashes(FreedBy(rest, m))
  {
    lowered, freed := indegree, [];
    for i := 0 to |next|
      invariant lowered.Keys == indegree.Keys
      invariant Lowering(lowered, Elems(next[..i]), rest, m)
      invariant NoDup(freed)
      invariant forall h :: h in freed <==> h in Elems(next[..i]) && h in lowered && lowered[h] == 0
    {
      var child := next[i];
      TakeNext(next, i);
      LowerOne(lowered, Elems(next[..i]), Elems(next), child, rest, m);
      lowered := lowered[child := lowered[child] - 1];
      if lowered[child] == 0 {
        freed := freed + [child];
      }
    }
    TakeAll(next);
    Lowered(lowered, Elems(next), freed, rest, m);
  }

  /** Replacing the first ready hash by the freed ones keeps the ready list. */
  lemma ReadyAfter(ready: seq<string>, freed: seq<string>, rest: set<VectorEvent>, m: VectorEvent)
    requires Keyed(rest) && m in Available(rest)
    requires ready != [] && ready[0] == m.eventHash && ReadyList(ready, rest)
    requires NoDup(freed)
    requires Elems(freed) == Hashes(FreedBy(rest, m))
    ensures ReadyList(ready[1..] + freed, rest - {m})
  {
    var tail := ready[1..];
    assert ready == [ready[0]] + tail;
    AvailableAfter(rest, m);
    assert Keyed(Available(rest));
    HashesMinus(Available(rest), m);
    assert Elems(tail) == Hashes(Available(rest)) - {m.eventHash};
    forall h | h in tail ensures h !in freed {
      assert h in Elems(tail);
      var e :| e in Available(rest) - {m} && e.eventHash == h;
      forall f | f in FreedBy(rest, m) ensures f.eventHash != h {
        assert m.eventHash !in e.parentHashes;
      }
      assert h !in Elems(freed);
    }
    NoDupConcat(tail, freed);
    assert Hashes(Available(rest - {m})) == Hashes(Available(rest) - {m}) + Hashes(FreedBy(rest, m));
  }

  /** What a Kahn loop over `events` knows when `rest` is still to be taken. */
  ghost predicate KahnState(events: seq<VectorEvent>, rest: set<VectorEvent>, indegree: map<string, nat>,
                            ready: seq<string>) {
    && rest <= Elems(events) && ClosedUnder(rest, Elems(events))
    && Counts(indegree, rest)
    && ReadyList(ready, rest)
  }

  lemma IndexStep(events: seq<VectorEvent>, i: nat, byHash: map<string, VectorEvent>)
    requires DistinctHashes(events) && i < |events| && Indexes(byHash, Elems(events[..i]))
    ensures Indexes(byHash[events[i].eventHash := events[i]], Elems(events[..i + 1]))
  {
    TakeNext(events, i);
    var before := Elems(events[..i]);
    forall e | e in before ensures e.eventHash != events[i].eventHash {
      var j :| 0 <= j < i && events[..i][j] == e;
      assert events[j].eventHash != events[i].eventHash;
    }
    assert Hashes(before + {events[i]}) == Hashes(before) + {events[i].eventHash};
  }

  lemma NoneReady(rest: set<VectorEvent>)
    requires ReadyList([], rest)
    ensures Available(rest) == {}
  {
    assert forall e :: e in Available(rest) ==> e.eventHash in Hashes(Available(rest));
  }

  /** The events of a log under their hashes. */
  method IndexByHash(events: seq<VectorEvent>) returns (byHash: map<string, VectorEvent>)
    requires DistinctHashes(events)
    ensures Indexes(byHash, Elems(events))
  {
    byHash := map[];
    for i := 0 to |events|
      invariant Indexes(byHash, Elems(events[..i]))
    {
      IndexStep(events, i, byHash);
      byHash := byHash[events[i].eventHash := events[i]];
    }
    TakeAll(events);
  }

  lemma ReadyEvent(events: seq<VectorEvent>, byHash: map<string, VectorEvent>, rest: set<VectorEvent>,
                   indegree: map<string, nat>, ready: seq<string>)
    requires DistinctHashes(events) && Indexes(byHash, Elems(events)) && KahnState(events, rest, indegree, ready)
    ensures forall h :: h in ready ==> h in byHash && byHash[h].eventHash == h && byHash[h] in Available(rest)
  {
    forall h | h in ready ensures h in byHash && byHash[h].eventHash == h && byHash[h] in Available(rest) {
      assert h in Elems(ready);
      var e :| e in Available(rest) && e.eventHash == h;
      assert e in Elems(events);
    }
  }

  lemma KidEvents(events: seq<VectorEvent>, byHash: map<string, VectorEvent>, h: string)
    requires DistinctHashes(events) && Indexes(byHash, Elems(events))
    ensures forall c :: c in Children(events, h) ==> c in byHash && byHash[c].eventHash == c
  {
    ChildrenAre(events, h);
    forall c | c in Children(events, h) ensures c in byHash && byHash[c].eventHash == c {
      var e :| e in events && e.eventHash == c && h in e.parentHashes;
      assert e in Elems(events);
    }
  }

  /** One turn of a Kahn loop: the first ready event is taken and its children are released. */
  method TakeFirst(kind: KeyKind, events: seq<VectorEvent>, byHash: map<string, VectorEvent>,
                   children: map<string, seq<string>>, indegree: map<string, nat>, ready: seq<string>,
                   ghost rest: set<VectorEvent>)
    returns (m: VectorEvent, indegree': map<string, nat>, ready': seq<string>)
    requires DistinctHashes(events) && Indexes(byHash, Elems(events))
    requires children.Keys == byHash.Keys && forall h :: h in children ==> children[h] == Children(events, h)
    requires KahnState(events, rest, indegree, ready) && ready != []
    ensures ready[0] in byHash && m == byHash[ready[0]] && m in Available(rest)
    ensures |rest - {m}| == |rest| - 1
    ensures KahnState(events, rest - {m}, indegree', ready')
  {
    var node := ready[0];
    ReadyEvent(events, byHash, rest, indegree, ready);
    assert node in ready;
    m := byHash[node];
    DistinctHashesKeyed(events);
    KidEvents(events, byHash, node);
    ChildrenOfTaken(events, rest, m);
    var next := SortHashes(kind, byHash, children[node]);
    var freed;
    indegree', freed := Release(next, indegree, rest, m);
    ready' := ready[1..] + freed;
    ReadyAfter(ready, freed, rest, m);
  }

  lemma FirstReady(kind: KeyKind, events: seq<VectorEvent>, byHash: map<string, VectorEvent>, rest: set<VectorEvent>,
                   indegree: map<string, nat>, ready: seq<string>)
    requires DistinctHashes(events) && Indexes(byHash, Elems(events)) && KahnState(events, rest, indegree, ready)
    requires ready != [] && HashesAscend(kind, byHash, ready)
    ensures Available(rest) != {} && byHash[ready[0]] == FirstOf(kind, Available(rest))
  {
    DistinctHashesKeyed(events);
    ReadyEvent(events, byHash, rest, indegree, ready);
    assert ready[0] in ready;
    forall e | e in Available(rest) ensures EventLeq(kind, byHash[ready[0]], e) {
      assert e.eventHash in Elems(ready);
      var i :| 0 <= i < |ready| && ready[i] == e.eventHash;
      KeyReflexive(KeyOf(kind, e));
      assert e in Elems(events) && byHash[ready[i]] == e;
    }
    FirstUnique(kind, Available(rest), byHash[ready[0]]);
  }

  /** Re-sorting the ready list by key keeps it a ready list. */
  method SortReady(kind: KeyKind, events: seq<VectorEvent>, byHash: map<string, VectorEvent>,
                   ready: seq<string>, ghost indegree: map<string, nat>, ghost rest: set<VectorEvent>)
    returns (sorted: seq<string>)
    requires DistinctHashes(events) && Indexes(byHash, Elems(events)) && KahnState(events, rest, indegree, ready)
    ensures KahnState(events, rest, indegree, sorted) && HashesAscend(kind, byHash, sorted)
  {
    ReadyEvent(events, byHash, rest, indegree, ready);
    sorted := SortHashes(kind, byHash, ready);
  }

  lemma LeastStep(kind: KeyKind, rest: set<VectorEvent>, ordered: seq<VectorEvent>)
    requires Available(rest) != {}
    ensures var m := FirstOf(kind, Available(rest));
      ordered + Least(kind, rest) == (ordered + [m]) + Least(kind, rest - {m})
  {
  }

  /** The state of the ordering loop on its way to `target`. */
  ghost predicate OrderState(kind: KeyKind, events: seq<VectorEvent>, byHash: map<string, VectorEvent>,
                             rest: set<VectorEvent>, indegree: map<string, nat>, ready: seq<string>,
                             ordered: seq<VectorEvent>, target: seq<VectorEvent>) {
    && KahnState(events, rest, indegree, ready) && HashesAscend(kind, byHash, ready)
    && ordered + Least(kind, rest) == target
  }

  /** One turn of the ordering loop: the ready event with the least key moves to the output. */
  method OrderTurn(kind: KeyKind, events: seq<VectorEvent>, byHash: map<string, VectorEvent>,
                   children: map<string, seq<string>>,
                   indegree: map<string, nat>, ready: seq<string>, ordered: seq<VectorEvent>,
                   ghost rest: set<VectorEvent>, ghost target: seq<VectorEvent>)
    returns (indegree': map<string, nat>, ready': seq<string>, ordered': seq<VectorEvent>,
             ghost rest': set<VectorEvent>)
    requires DistinctHashes(events) && Indexes(byHash, Elems(events))
    requires children.Keys == byHash.Keys && forall h :: h in children ==> children[h] == Children(events, h)
    requires OrderState(kind, events, byHash, rest, indegree, ready, ordered, target) && ready != []
    ensures OrderState(kind, events, byHash, rest', indegree', ready', ordered', target)
    ensures |rest'| < |rest|
  {
    FirstReady(kind, events, byHash, rest, indegree, ready);
    LeastStep(kind, rest, ordered);
    var m, lowered, released := TakeFirst(kind, events, byHash, children, indegree, ready, rest);
    indegree', ordered', rest' := lowered, ordered + [m], rest - {m};
    ready' := SortReady(kind, events, byHash, released, lowered, rest');
  }

  /** The index of a log and the list of its parentless events. */
  method StartKahn(events: seq<VectorEvent>, indegree: map<string, nat>, children: map<string, seq<string>>)
    returns (byHash: map<string, VectorEvent>, ready: seq<string>)
    requires DistinctHashes(events) && IsGraph(indegree, children, events)
    ensures Indexes(byHash, Elems(events)) && children.Keys == byHash.Keys
    ensures KahnState(events, Elems(events), indegree, ready)
  {
    hide Children, Available, ClosedUnder;
    DistinctHashesKeyed(events);
    byHash := IndexByHash(events);
    ready := Roots(indegree);
    RootsAreReady(indegree, ready, Elems(events));
    AllClosed(Elems(events));
  }

  lemma AllClosed(s: set<VectorEvent>)
    ensures ClosedUnder(s, s)
  {
  }

  lemma OrderStarts(kind: KeyKind, events: seq<VectorEvent>, byHash: map<string, VectorEvent>,
                    indegree: map<string, nat>, ready: seq<string>)
    requires KahnState(events, Elems(events), indegree, ready) && HashesAscend(kind, byHash, ready)
    ensures OrderState(kind, events, byHash, Elems(events), indegree, ready, [], Least(kind, Elems(events)))
  {
    hide KahnState, HashesAscend, Least;
    assert [] + Least(kind, Elems(events)) == Least(kind, Elems(events));
  }

  lemma OrderEnds(kind: KeyKind, events: seq<VectorEvent>, byHash: map<string, VectorEvent>, rest: set<VectorEvent>,
                  indegree: map<string, nat>, ordered: seq<VectorEvent>, target: seq<VectorEvent>)
    requires OrderState(kind, events, byHash, rest, indegree, [], ordered, target)
    ensures ordered == target
  {
    NoneReady(rest);
  }

  /**
   * Kahn's algorithm with a ready list that is kept sorted by key: the ordering loop of
   * `topological_order` and of `order_entity_events`.
   */
  method KahnOrder(kind: KeyKind, events: seq<VectorEvent>, indegree: map<string, nat>,
                   children: map<string, seq<string>>)
    returns (ordered: seq<VectorEvent>)
    requires DistinctHashes(events) && IsGraph(indegree, children, events)
    ensures ordered == Least(kind, Elems(events))
  {
    hide Children, Available, KahnState, HashesAscend, Least, Indexes, OrderState, Counts, DistinctHashes;
    var byHash, ready := StartKahn(events, indegree, children);
    var degrees := indegree;
    ghost var rest, target := Elems(events), Least(kind, Elems(events));
    ready := SortReady(kind, events, byHash, ready, indegree, rest);
    OrderStarts(kind, events, byHash, indegree, ready);
    ordered := [];
    while ready != []
      invariant OrderState(kind, events, byHash, rest, degrees, ready, ordered, target)
      decreases |rest|
    {
      degrees, ready, ordered, rest := OrderTurn(kind, events, byHash, children, degrees, ready, ordered, rest, target);
    }
    OrderEnds(kind, events, byHash, rest, degrees, ordered, target);
  }

  /**
   * Kahn's algorithm with a first-in first-out queue, counting the events it reaches: the cycle
   * check of `validate_dag`.
   */
  method KahnVisits(events: seq<VectorEvent>, indegree: map<string, nat>, children: map<string, seq<string>>)
    returns (visited: nat)
    requires DistinctHashes(events) && IsGraph(indegree, children, events)
    ensures visited <= |events|
    ensures visited == |events| <==> Acyclic(Elems(events))
  {
    hide Children, Available, Acyclic, Counts, Indexes;
    DistinctHashesKeyed(events);
    NoDupCount(events);
    var byHash, queue := StartKahn(events, indegree, children);
    ghost var rest, acyclic := Elems(events), Acyclic(Elems(events));
    var degrees := indegree;
    visited := 0;
    while queue != []
      invariant KahnState(events, rest, degrees, queue)
      invariant visited + |rest| == |events|
      invariant Acyclic(rest) <==> acyclic
      decreases |rest|
    {
      var m, degrees', queue' := TakeFirst(LogKey, events, byHash, children, degrees, queue, rest);
      AcyclicTake(rest, m);
      visited := visited + 1;
      rest := rest - {m};
      degrees, queue := degrees', queue';
    }
    NoneReady(rest);
    StuckOnCycle(rest);
  }

  /** A loop that runs out of available events has either taken all of them or met a cycle. */
  lemma StuckOnCycle(rest: set<VectorEvent>)
    requires Available(rest) == {}
    ensures Acyclic(rest) <==> |rest| == 0
  {
    if rest == {} {
      assert IsRank(map[], rest);
    } else if Acyclic(rest) {
      AcyclicAvailable(rest);
    }
  }
}
