/**
 * Topological orders of a set of events, and the one the kernel computes.
 *
 * The orders are functions of the set, so nothing proved here can depend on the order in which
 * events were loaded. Parents outside the set are ignored.
 */
module LeastOrder {
  import opened Base
  import opened Events
  import opened Ordering

  /** No parent of `e` is left in `rest`. */
  ghost predicate Free(e: VectorEvent, rest: set<VectorEvent>) {
    forall f :: f in rest ==> f.eventHash !in e.parentHashes
  }

  ghost function Available(rest: set<VectorEvent>): set<VectorEvent> {
    set e | e in rest && Free(e, rest)
  }

  /** Repeatedly take the event with the least key among those whose parents have been taken. */
  ghost function Least(kind: KeyKind, rest: set<VectorEvent>): seq<VectorEvent>
    decreases |rest|
  {
    if Available(rest) == {} then []
    else
      var m := FirstOf(kind, Available(rest));
      [m] + Least(kind, rest - {m})
  }

  /** Every parent of `e` that is in the order at all is among the first `i` events. */
  ghost predicate ReadyAt(o: seq<VectorEvent>, i: nat, e: VectorEvent) {
    forall k :: i <= k < |o| ==> o[k].eventHash !in e.parentHashes
  }

  /** `o` enumerates `s` and puts every parent before its children. */
  ghost predicate IsTopological(o: seq<VectorEvent>, s: set<VectorEvent>) {
    && NoDup(o) && Elems(o) == s
    && forall i, j :: 0 <= i < |o| && 0 <= j < |o| && o[j].eventHash in o[i].parentHashes ==> j < i
  }

  /** A numbering of the events that increases strictly along every edge from parent to child. */
  ghost predicate IsRank(rank: map<string, nat>, s: set<VectorEvent>) {
    && Hashes(s) <= rank.Keys
    && forall e, f :: e in s && f in s && f.eventHash in e.parentHashes ==> rank[f.eventHash] < rank[e.eventHash]
  }

  ghost predicate Acyclic(s: set<VectorEvent>) {
    exists rank: map<string, nat> :: IsRank(rank, s)
  }

  /** `a` is `b`, or has the smaller key at the first place where they differ. */
  ghost predicate LexLeq(kind: KeyKind, a: seq<VectorEvent>, b: seq<VectorEvent>) {
    a == b || exists k :: FirstDifference(kind, a, b, k)
  }

  ghost predicate FirstDifference(kind: KeyKind, a: seq<VectorEvent>, b: seq<VectorEvent>, k: int) {
    0 <= k < |a| && k < |b| && a[..k] == b[..k] && a[k] != b[k] && EventLeq(kind, a[k], b[k])
  }

  lemma {:induction false} LowestRank(rank: map<string, nat>, s: set<VectorEvent>) returns (e: VectorEvent)
    requires s != {} && Hashes(s) <= rank.Keys
    ensures e in s && forall f :: f in s ==> rank[e.eventHash] <= rank[f.eventHash]
    decreases |s|
  {
    e :| e in s;
    if s != {e} {
      assert Hashes(s - {e}) <= Hashes(s);
      var d := LowestRank(rank, s - {e});
      if rank[d.eventHash] < rank[e.eventHash] { e := d; }
    }
  }

  lemma AcyclicAvailable(s: set<VectorEvent>)
    requires s != {} && Acyclic(s)
    ensures Available(s) != {}
  {
    var rank: map<string, nat> :| IsRank(rank, s);
    var e := LowestRank(rank, s);
    assert Free(e, s);
    assert e in Available(s);
  }

  lemma AcyclicSubset(s: set<VectorEvent>, t: set<VectorEvent>)
    requires Acyclic(s) && t <= s
    ensures Acyclic(t)
  {
    var rank: map<string, nat> :| IsRank(rank, s);
    assert IsRank(rank, t);
  }

  lemma TopologicalAcyclic(o: seq<VectorEvent>, s: set<VectorEvent>)
    requires IsTopological(o, s) && Keyed(s)
    ensures Acyclic(s)
  {
    var rank := Positions(o);
    PositionsAre(o);
    KeyedDistinctHashes(o);
    forall e, f | e in s && f in s && f.eventHash in e.parentHashes
      ensures rank[f.eventHash] < rank[e.eventHash]
    {
      var i :| 0 <= i < |o| && o[i] == e;
      var j :| 0 <= j < |o| && o[j] == f;
      assert rank[o[i].eventHash] == i && rank[o[j].eventHash] == j;
    }
    assert IsRank(rank, s);
  }

  ghost function Positions(o: seq<VectorEvent>): map<string, nat> {
    if o == [] then map[] else Positions(o[..|o| - 1])[o[|o| - 1].eventHash := |o| - 1]
  }

  lemma {:induction false} PositionsAre(o: seq<VectorEvent>)
    ensures Hashes(Elems(o)) <= Positions(o).Keys
    ensures DistinctHashes(o) ==> forall i :: 0 <= i < |o| ==> Positions(o)[o[i].eventHash] == i
  {
    if o != [] {
      var front := o[..|o| - 1];
      PositionsAre(front);
      forall h | h in Hashes(Elems(o)) ensures h in Positions(o).Keys {
        var e :| e in Elems(o) && e.eventHash == h;
        if e in front { assert h in Hashes(Elems(front)); }
      }
      assert forall i :: 0 <= i < |o| ==> o[i] in Elems(o) && o[i].eventHash in Hashes(Elems(o));
      assert forall i :: 0 <= i < |front| ==> o[i] == front[i] && front[i].eventHash in Hashes(Elems(front));
    }
  }

  /** Putting a free event in front of an order of the rest. */
  lemma PrependTopological(m: VectorEvent, t: seq<VectorEvent>, s: set<VectorEvent>)
    requires m in s && Free(m, s) && IsTopological(t, s - {m})
    ensures IsTopological([m] + t, s)
  {
    var o := [m] + t;
    assert Elems(o) == {m} + Elems(t);
    forall i, j | 0 <= i < |o| && 0 <= j < |o| && o[j].eventHash in o[i].parentHashes ensures j < i {
      assert o[j] in Elems(o);
      assert o[j].eventHash in Hashes(s);
      if i > 0 && j > 0 { assert t[j - 1].eventHash in t[i - 1].parentHashes; }
    }
    forall i | 0 < i < |o| ensures o[i] != m { assert t[i - 1] in Elems(t); }
  }

  /** The first event of an order is available, and the rest is an order of the rest. */
  lemma TopologicalHead(o: seq<VectorEvent>, s: set<VectorEvent>)
    requires o != [] && IsTopological(o, s)
    ensures o[0] in Available(s) && IsTopological(o[1..], s - {o[0]})
  {
    var t := o[1..];
    assert o == [o[0]] + t;
    assert o[0] in Elems(o);
    forall f | f in s ensures f.eventHash !in o[0].parentHashes {
      assert f in Elems(o);
      var j :| 0 <= j < |o| && o[j] == f;
    }
    assert o[0] !in t;
    assert Elems(t) == s - {o[0]};
    forall i, j | 0 <= i < |t| && 0 <= j < |t| && t[j].eventHash in t[i].parentHashes ensures j < i {
      assert o[j + 1].eventHash in o[i + 1].parentHashes;
    }
  }

  /** The computed order contains every event exactly when the set has no cycle. */
  lemma {:induction false} LeastComplete(kind: KeyKind, s: set<VectorEvent>)
    requires Keyed(s)
    ensures |Least(kind, s)| == |s| <==> Acyclic(s)
    ensures Acyclic(s) ==> IsTopological(Least(kind, s), s)
    ensures |Least(kind, s)| <= |s|
    decreases |s|
  {
    if s == {} {
      assert IsRank(map[], s);
    } else if Available(s) == {} {
      if Acyclic(s) { AcyclicAvailable(s); }
    } else {
      var m := FirstOf(kind, Available(s));
      var rest := s - {m};
      LeastComplete(kind, rest);
      if Acyclic(s) { AcyclicSubset(s, rest); }
      if Acyclic(rest) {
        PrependTopological(m, Least(kind, rest), s);
        TopologicalAcyclic(Least(kind, s), s);
      }
    }
  }

  lemma LexPrepend(kind: KeyKind, m: VectorEvent, a: seq<VectorEvent>, b: seq<VectorEvent>)
    requires LexLeq(kind, a, b)
    ensures LexLeq(kind, [m] + a, [m] + b)
  {
    if a != b {
      var k :| FirstDifference(kind, a, b, k);
      assert ([m] + a)[..k + 1] == [m] + a[..k];
      assert ([m] + b)[..k + 1] == [m] + b[..k];
      assert FirstDifference(kind, [m] + a, [m] + b, k + 1);
    }
  }

  /** Taking an available event neither adds nor removes cycles. */
  lemma AcyclicTake(s: set<VectorEvent>, m: VectorEvent)
    requires Keyed(s) && m in Available(s)
    ensures Acyclic(s) <==> Acyclic(s - {m})
  {
    if Acyclic(s) { AcyclicSubset(s, s - {m}); }
    if Acyclic(s - {m}) {
      var t := Least(LogKey, s - {m});
      LeastComplete(LogKey, s - {m});
      PrependTopological(m, t, s);
      TopologicalAcyclic([m] + t, s);
    }
  }

  /** No topological order is lexicographically smaller. */
  lemma {:induction false} LeastIsLeast(kind: KeyKind, s: set<VectorEvent>, o: seq<VectorEvent>)
    requires Keyed(s) && IsTopological(o, s)
    ensures LexLeq(kind, Least(kind, s), o)
    decreases |s|
  {
    if o == [] {
      assert s == {};
    } else {
      TopologicalHead(o, s);
      var m := FirstOf(kind, Available(s));
      assert o == [o[0]] + o[1..];
      if o[0] == m {
        LeastIsLeast(kind, s - {m}, o[1..]);
        LexPrepend(kind, m, Least(kind, s - {m}), o[1..]);
      } else {
        LexSmallerHead(kind, m, Least(kind, s - {m}), o);
      }
    }
  }

  lemma LexSmallerHead(kind: KeyKind, m: VectorEvent, a: seq<VectorEvent>, b: seq<VectorEvent>)
    requires b != [] && m != b[0] && EventLeq(kind, m, b[0])
    ensures LexLeq(kind, [m] + a, b)
  {
    assert FirstDifference(kind, [m] + a, b, 0);
  }

  lemma SharedPrefix<T>(a: seq<T>, b: seq<T>, k: nat, l: nat)
    requires l < k <= |a| && k <= |b| && a[..k] == b[..k]
    ensures a[l] == b[l]
  {
    assert a[l] == a[..k][l] && b[l] == b[..k][l];
  }

  lemma LexAntisymmetric(kind: KeyKind, s: set<VectorEvent>, a: seq<VectorEvent>, b: seq<VectorEvent>)
    requires Keyed(s) && Elems(a) == s && Elems(b) == s
    requires LexLeq(kind, a, b) && LexLeq(kind, b, a)
    ensures a == b
  {
    if a != b {
      var k :| FirstDifference(kind, a, b, k);
      var l :| FirstDifference(kind, b, a, l);
      if k < l {
        SharedPrefix(b, a, l, k);
      } else if l < k {
        SharedPrefix(a, b, k, l);
      } else {
        assert a[k] in Elems(a) && b[k] in Elems(b);
        EventLeqAntisymmetric(kind, a[k], b[k]);
      }
    }
  }

  /** The computed order is the lexicographically least topological order, and nothing else is. */
  lemma LeastCharacterized(kind: KeyKind, s: set<VectorEvent>, o: seq<VectorEvent>)
    requires Keyed(s) && Acyclic(s)
    ensures o == Least(kind, s)
      <==> IsTopological(o, s) && forall t :: IsTopological(t, s) ==> LexLeq(kind, o, t)
  {
    var l := Least(kind, s);
    LeastComplete(kind, s);
    forall t | IsTopological(t, s) ensures LexLeq(kind, l, t) {
      LeastIsLeast(kind, s, t);
    }
    if IsTopological(o, s) && forall t :: IsTopological(t, s) ==> LexLeq(kind, o, t) {
      LexAntisymmetric(kind, s, o, l);
    }
  }

  /** When keys never decrease from parent to child, the order is plain sorting by key. */
  ghost predicate KeysFollowEdges(kind: KeyKind, s: set<VectorEvent>) {
    forall e, f :: e in s && f in s && f.eventHash in e.parentHashes ==> EventLeq(kind, f, e)
  }

  /** The least event of all is available, and it is the least available one. */
  lemma LeastEventFirst(kind: KeyKind, s: set<VectorEvent>, m: VectorEvent)
    requires Keyed(s) && Acyclic(s) && KeysFollowEdges(kind, s) && IsFirst(kind, m, s)
    ensures Available(s) != {} && FirstOf(kind, Available(s)) == m
  {
    if m.eventHash in m.parentHashes { SelfParentCycle(s, m); }
    forall f | f in s ensures f.eventHash !in m.parentHashes {
      if f.eventHash in m.parentHashes { EventLeqAntisymmetric(kind, f, m); }
    }
    assert m in Available(s);
    FirstUnique(kind, Available(s), m);
  }

  /** The least available event comes first. */
  lemma TakeLeast(kind: KeyKind, s: set<VectorEvent>, m: VectorEvent)
    requires Keyed(s) && IsFirst(kind, m, Available(s))
    ensures Least(kind, s) == [m] + Least(kind, s - {m})
  {
    FirstUnique(kind, Available(s), m);
  }

  lemma NoEvents(kind: KeyKind)
    ensures Least(kind, {}) == []
  {
  }

  lemma {:induction false} LeastIsSorted(kind: KeyKind, s: set<VectorEvent>, sorted: seq<VectorEvent>)
    requires Keyed(s) && Acyclic(s) && KeysFollowEdges(kind, s)
    requires NoDup(sorted) && Elems(sorted) == s && EventsAscend(kind, sorted)
    ensures Least(kind, s) == sorted
    decreases |s|
  {
    hide EventLeq, Acyclic, Available;
    if sorted == [] {
      NoEvents(kind);
      assert s == {};
    } else {
      var m := sorted[0];
      AscendingHead(kind, sorted);
      LeastEventFirst(kind, s, m);
      AcyclicSubset(s, s - {m});
      assert KeysFollowEdges(kind, s - {m});
      LeastIsSorted(kind, s - {m}, sorted[1..]);
      assert sorted == [m] + sorted[1..];
    }
  }

  lemma SelfParentCycle(s: set<VectorEvent>, e: VectorEvent)
    requires e in s && e.eventHash in e.parentHashes
    ensures !Acyclic(s)
  {
    forall rank: map<string, nat> ensures !IsRank(rank, s) {
      assert e.eventHash in Hashes(s);
    }
  }

  /** Each event after the first has exactly its predecessor as parent. */
  ghost predicate IsChain(c: seq<VectorEvent>) {
    && c != [] && c[0].parentHashes == []
    && forall i :: 0 < i < |c| ==> c[i].parentHashes == [c[i - 1].eventHash]
  }

  lemma ChainTopological(c: seq<VectorEvent>)
    requires IsChain(c) && DistinctHashes(c)
    ensures IsTopological(c, Elems(c))
  {
    DistinctHashesKeyed(c);
    forall i, j | 0 <= i < |c| && 0 <= j < |c| && c[j].eventHash in c[i].parentHashes ensures j < i {
      assert i > 0;
      assert c[j].eventHash == c[i - 1].eventHash;
    }
  }

  /** A chain has one topological order: itself. */
  lemma ChainOrder(kind: KeyKind, c: seq<VectorEvent>)
    requires IsChain(c) && DistinctHashes(c)
    ensures Least(kind, Elems(c)) == c
  {
    ChainTopological(c);
    DistinctHashesKeyed(c);
    ChainSuffixOrder(kind, c, 0);
    assert c[0..] == c;
  }

  lemma {:induction false} ChainSuffixOrder(kind: KeyKind, c: seq<VectorEvent>, k: nat)
    requires IsChain(c) && DistinctHashes(c) && k <= |c|
    ensures Least(kind, Elems(c[k..])) == c[k..]
    decreases |c| - k
  {
    var s := Elems(c[k..]);
    if k == |c| {
      assert s == {};
    } else {
      assert c[k..] == [c[k]] + c[k + 1..];
      DistinctHashesKeyed(c);
      assert c[k] !in c[k + 1..];
      assert s - {c[k]} == Elems(c[k + 1..]);
      forall e ensures e in Available(s) <==> e == c[k] {
        ChainAvailable(c, k, e);
      }
      assert Available(s) == {c[k]};
      ChainSuffixOrder(kind, c, k + 1);
    }
  }

  lemma ChainAvailable(c: seq<VectorEvent>, k: nat, e: VectorEvent)
    requires IsChain(c) && DistinctHashes(c) && k < |c|
    ensures e in Available(Elems(c[k..])) <==> e == c[k]
  {
    var s := Elems(c[k..]);
    assert c[k] in c[k..];
    forall f | f in s ensures f.eventHash !in c[k].parentHashes {
      var j :| k <= j < |c| && c[j] == f;
      assert k > 0 ==> c[k - 1].eventHash != c[j].eventHash;
    }
    forall i | k < i < |c| ensures !Free(c[i], s) {
      assert c[i - 1] == c[k..][i - 1 - k];
      assert c[i].parentHashes == [c[i - 1].eventHash];
    }
    if e in Available(s) {
      var i :| k <= i < |c| && c[i] == e;
    }
  }

  /** The computed order takes the least ready event at every place. */
  lemma {:induction false} LeastTakesReady(kind: KeyKind, s: set<VectorEvent>, i: nat, j: nat)
    requires Keyed(s) && Acyclic(s) && i < j < |Least(kind, s)| && ReadyAt(Least(kind, s), i, Least(kind, s)[j])
    ensures EventLeq(kind, Least(kind, s)[i], Least(kind, s)[j])
    decreases i
  {
    hide EventLeq, Acyclic, ReadyAt, Available;
    var o := Least(kind, s);
    LeastComplete(kind, s);
    assert o[j] in Elems(o);
    if i == 0 {
      ReadyIsAvailable(o, s, o[j]);
    } else {
      var m := FirstOf(kind, Available(s));
      var rest := Least(kind, s - {m});
      assert o == [m] + rest;
      AcyclicSubset(s, s - {m});
      ReadyInRest(o, m, rest, i, o[j]);
      LeastTakesReady(kind, s - {m}, i - 1, j - 1);
    }
  }

  lemma ReadyIsAvailable(o: seq<VectorEvent>, s: set<VectorEvent>, e: VectorEvent)
    requires Elems(o) == s && e in s && ReadyAt(o, 0, e)
    ensures e in Available(s)
  {
    forall f | f in s ensures f.eventHash !in e.parentHashes {
      var k :| 0 <= k < |o| && o[k] == f;
    }
  }

  lemma ReadyInRest(o: seq<VectorEvent>, m: VectorEvent, rest: seq<VectorEvent>, i: nat, e: VectorEvent)
    requires o == [m] + rest && i > 0 && ReadyAt(o, i, e)
    ensures ReadyAt(rest, i - 1, e)
  {
    assert forall k :: 0 <= k < |rest| ==> rest[k] == o[k + 1];
  }

  /** The order of a log, field by field. */
  ghost predicate TakesLoggedFirst(o: seq<VectorEvent>) {
    forall i, j :: 0 <= i < j < |o| && ReadyAt(o, i, o[j]) ==> LoggedBefore(o[i], o[j])
  }

  /** The order of one entity's history, field by field. */
  ghost predicate TakesToldFirst(o: seq<VectorEvent>) {
    forall i, j :: 0 <= i < j < |o| && ReadyAt(o, i, o[j]) ==> ToldBefore(o[i], o[j])
  }

  lemma LeastByFields(s: set<VectorEvent>)
    requires Keyed(s) && Acyclic(s)
    ensures TakesLoggedFirst(Least(LogKey, s)) && TakesToldFirst(Least(HistoryKey, s))
  {
    hide EventLeq, LoggedBefore, ToldBefore, Least, ReadyAt, Acyclic;
    LeastComplete(LogKey, s);
    LeastComplete(HistoryKey, s);
    var o, p := Least(LogKey, s), Least(HistoryKey, s);
    forall i, j | 0 <= i < j < |o| && ReadyAt(o, i, o[j]) ensures LoggedBefore(o[i], o[j]) {
      LeastTakesReady(LogKey, s, i, j);
      LogOrderMeans(o[i], o[j]);
    }
    forall i, j | 0 <= i < j < |p| && ReadyAt(p, i, p[j]) ensures ToldBefore(p[i], p[j]) {
      LeastTakesReady(HistoryKey, s, i, j);
      HistoryOrderMeans(p[i], p[j]);
    }
  }
}
