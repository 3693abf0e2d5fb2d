/** How the order of a history changes when one event is added behind an event it already has. */
module Insertion {
  import opened Base
  import opened Events
  import opened LeastOrder
  import opened Ordering

  /** The first place at or after `i` whose event has a greater key. */
  ghost function Place(kind: KeyKind, h: seq<VectorEvent>, key: Key, i: nat): (m: nat)
    requires i <= |h|
    ensures i <= m <= |h|
    decreases |h| - i
  {
    if i < |h| && KeyLeq(KeyOf(kind, h[i]), key) then Place(kind, h, key, i + 1) else i
  }

  ghost function Inserted(h: seq<VectorEvent>, e: VectorEvent, m: nat): (g: seq<VectorEvent>)
    requires m <= |h|
    ensures |g| == |h| + 1
  {
    h[..m] + [e] + h[m..]
  }

  lemma {:induction false} PlaceLast(kind: KeyKind, h: seq<VectorEvent>, key: Key, i: nat)
    requires i <= |h| && forall j :: i <= j < |h| ==> KeyLeq(KeyOf(kind, h[j]), key)
    ensures Place(kind, h, key, i) == |h|
    decreases |h| - i
  {
    hide KeyLeq;
    if i < |h| { PlaceLast(kind, h, key, i + 1); }
  }

  lemma {:induction false} SamePlace(kind: KeyKind, h: seq<VectorEvent>, a: Key, b: Key, i: nat)
    requires i <= |h| && forall e :: e in h ==> (KeyLeq(KeyOf(kind, e), a) <==> KeyLeq(KeyOf(kind, e), b))
    ensures Place(kind, h, a, i) == Place(kind, h, b, i)
    decreases |h| - i
  {
    hide KeyLeq;
    if i < |h| {
      assert h[i] in h;
      SamePlace(kind, h, a, b, i + 1);
    }
  }

  lemma InsertedElems(h: seq<VectorEvent>, e: VectorEvent, m: nat)
    requires m <= |h|
    ensures multiset(Inserted(h, e, m)) == multiset(h + [e])
    ensures Elems(Inserted(h, e, m)) == Elems(h) + {e}
    ensures forall f :: f in Inserted(h, e, m) <==> f in h || f == e
  {
    assert h == h[..m] + h[m..];
    assert multiset(h[..m] + [e] + h[m..]) == multiset(h[..m]) + multiset{e} + multiset(h[m..]);
    forall f ensures f in Inserted(h, e, m) <==> f in h || f == e {
      assert f in h <==> f in h[..m] || f in h[m..];
    }
  }

  lemma InsertedDistinct(h: seq<VectorEvent>, e: VectorEvent, m: nat)
    requires m <= |h| && DistinctHashes(h) && forall f :: f in h ==> f.eventHash != e.eventHash
    ensures DistinctHashes(h + [e]) && DistinctHashes(Inserted(h, e, m))
  {
    InsertedElems(h, e, m);
    assert forall i :: 0 <= i < |h| ==> h[i] in h;
    DistinctHashesPerm(h + [e], Inserted(h, e, m));
  }

  // ----- Suffixes of a computed order -----

  /** `h` is the computed order of its own events. */
  ghost predicate SelfOrdered(kind: KeyKind, h: seq<VectorEvent>) {
    DistinctHashes(h) && Least(kind, Elems(h)) == h
  }

  lemma SuffixStep(kind: KeyKind, h: seq<VectorEvent>, k: nat)
    requires DistinctHashes(h) && k < |h| && Least(kind, Elems(h[k..])) == h[k..]
    ensures IsFirst(kind, h[k], Available(Elems(h[k..])))
    ensures Elems(h[k..]) - {h[k]} == Elems(h[k + 1..]) && Least(kind, Elems(h[k + 1..])) == h[k + 1..]
  {
    hide EventLeq, Available, Least, DistinctHashes;
    var s := Elems(h[k..]);
    SuffixElems(h, k);
    var m := LeastStarts(kind, s);
    assert h[k..] == [h[k]] + h[k + 1..];
    assert ([m] + Least(kind, s - {m}))[0] == m && h[k..][0] == h[k];
    assert ([m] + Least(kind, s - {m}))[1..] == Least(kind, s - {m});
    assert h[k..][1..] == h[k + 1..];
  }

  lemma SuffixElems(h: seq<VectorEvent>, k: nat)
    requires DistinctHashes(h) && k < |h|
    ensures Elems(h[k..]) - {h[k]} == Elems(h[k + 1..]) && h[k] in Elems(h[k..])
  {
    assert h[k..] == [h[k]] + h[k + 1..];
    assert h[k] !in h[k + 1..];
  }

  lemma LeastStarts(kind: KeyKind, s: set<VectorEvent>) returns (m: VectorEvent)
    requires Least(kind, s) != []
    ensures IsFirst(kind, m, Available(s)) && Least(kind, s) == [m] + Least(kind, s - {m})
  {
    hide EventLeq, Available;
    m := FirstOf(kind, Available(s));
  }

  lemma {:induction false} Suffix(kind: KeyKind, h: seq<VectorEvent>, k: nat)
    requires SelfOrdered(kind, h) && k <= |h|
    ensures Least(kind, Elems(h[k..])) == h[k..]
    decreases k
  {
    if k == 0 {
      assert h[0..] == h;
    } else {
      Suffix(kind, h, k - 1);
      SuffixStep(kind, h, k - 1);
    }
  }

  // ----- Adding an event -----

  /** The new event names one event of `h`, and none of `h` names the new event. */
  ghost predicate Joins(h: seq<VectorEvent>, e: VectorEvent, j: nat) {
    && j < |h| && e.parentHashes == [h[j].eventHash]
    && (forall f :: f in h ==> f.eventHash != e.eventHash && e.eventHash !in f.parentHashes)
  }

  /** What is available once the new event joins a suffix. */
  lemma JoinedAvailable(h: seq<VectorEvent>, e: VectorEvent, j: nat, k: nat)
    requires DistinctHashes(h) && Joins(h, e, j) && k <= |h|
    ensures Available(Elems(h[k..]) + {e}) == Available(Elems(h[k..])) + if k <= j then {} else {e}
  {
    var s := Elems(h[k..]);
    assert forall f :: f in s ==> f in h;
    if k <= j {
      assert h[k..][j - k] == h[j];
      assert !Free(e, s + {e});
    } else {
      forall f | f in s ensures f.eventHash != h[j].eventHash {
        var i :| k <= i < |h| && h[i] == f;
      }
      assert e.eventHash != h[j].eventHash;
      assert Free(e, s + {e});
    }
    forall f | f in s ensures Free(f, s + {e}) <==> Free(f, s) {}
  }

  lemma JoinedKeyed(h: seq<VectorEvent>, e: VectorEvent, j: nat, k: nat)
    requires DistinctHashes(h) && Joins(h, e, j) && k <= |h|
    ensures Keyed(Elems(h[k..]) + {e}) && e !in h[k..]
    ensures k < |h| ==> Elems(h[k..]) + {e} - {h[k]} == Elems(h[k + 1..]) + {e}
  {
    hide Keyed;
    assert forall f :: f in h[k..] ==> f in h;
    SuffixKeyed(h, e, k);
    if k < |h| {
      SuffixElems(h, k);
      assert h[k] in h;
    }
  }

  lemma SuffixKeyed(h: seq<VectorEvent>, e: VectorEvent, k: nat)
    requires DistinctHashes(h) && k <= |h| && forall f :: f in h ==> f.eventHash != e.eventHash
    ensures Keyed(Elems(h[k..]) + {e})
  {
    DistinctHashesKeyed(h);
    assert forall f :: f in h[k..] ==> f in h && f in Elems(h);
  }

  lemma FirstStays(kind: KeyKind, e: VectorEvent, m: VectorEvent, s: set<VectorEvent>)
    requires IsFirst(kind, m, s) && EventLeq(kind, m, e)
    ensures IsFirst(kind, m, s + {e})
  {
    hide EventLeq;
  }

  lemma NewIsFirst(kind: KeyKind, e: VectorEvent, m: VectorEvent, s: set<VectorEvent>)
    requires IsFirst(kind, m, s) && !EventLeq(kind, m, e)
    ensures IsFirst(kind, e, s + {e})
  {
    hide EventLeq;
    EventLeqTotal(kind, m, e);
    EventLeqReflexive(kind, e);
    forall f | f in s ensures EventLeq(kind, e, f) { EventLeqTransitive(kind, e, m, f); }
  }

  /** From the parent on, the new event waits for the first greater key. */
  lemma {:induction false} OrderBehind(kind: KeyKind, h: seq<VectorEvent>, e: VectorEvent, j: nat, k: nat)
    requires SelfOrdered(kind, h) && Joins(h, e, j) && j < k <= |h|
    ensures var m := Place(kind, h, KeyOf(kind, e), k);
      Least(kind, Elems(h[k..]) + {e}) == h[k..m] + [e] + h[m..]
    decreases |h| - k
  {
    hide EventLeq, KeyLeq, Available, Joins, Least, DistinctHashes, SelfOrdered;
    if k == |h| {
      OrderAtEnd(kind, h, e, j);
    } else {
      KeysCompare(kind, h[k], e);
      if EventLeq(kind, h[k], e) {
        var m := Place(kind, h, KeyOf(kind, e), k + 1);
        assert Place(kind, h, KeyOf(kind, e), k) == m;
        OrderBehind(kind, h, e, j, k + 1);
        OrderLater(kind, h, e, j, k);
        FrontJoins(h, e, k, m);
      } else {
        assert Place(kind, h, KeyOf(kind, e), k) == k;
        OrderHere(kind, h, e, j, k);
        assert h[k..k] == [];
      }
    }
  }

  lemma FrontJoins(h: seq<VectorEvent>, e: VectorEvent, k: nat, m: nat)
    requires k < m <= |h|
    ensures [h[k]] + (h[k + 1..m] + [e] + h[m..]) == h[k..m] + [e] + h[m..]
  {
    assert [h[k]] + h[k + 1..m] == h[k..m];
  }

  lemma OrderAtEnd(kind: KeyKind, h: seq<VectorEvent>, e: VectorEvent, j: nat)
    requires SelfOrdered(kind, h) && Joins(h, e, j) && j < |h|
    ensures Least(kind, Elems(h[|h|..]) + {e}) == h[|h|..|h|] + [e] + h[|h|..]
  {
    hide EventLeq, KeyLeq, Available, Joins, Least, DistinctHashes;
    var s := Elems(h[|h|..]);
    JoinedAvailable(h, e, j, |h|);
    JoinedKeyed(h, e, j, |h|);
    assert s == {} && Available(s) == {} by { NothingAvailable(); }
    SingleFirst(kind, e);
    TakeLeast(kind, s + {e}, e);
    assert s + {e} - {e} == {};
    NoEvents(kind);
    assert h[|h|..|h|] == [] && h[|h|..] == [];
  }

  lemma OrderLater(kind: KeyKind, h: seq<VectorEvent>, e: VectorEvent, j: nat, k: nat)
    requires SelfOrdered(kind, h) && Joins(h, e, j) && j < k < |h| && EventLeq(kind, h[k], e)
    ensures Least(kind, Elems(h[k..]) + {e}) == [h[k]] + Least(kind, Elems(h[k + 1..]) + {e})
  {
    hide EventLeq, KeyLeq, Available, Joins, Least, DistinctHashes;
    var s := Elems(h[k..]);
    JoinedAvailable(h, e, j, k);
    JoinedKeyed(h, e, j, k);
    Suffix(kind, h, k);
    SuffixStep(kind, h, k);
    FirstStays(kind, e, h[k], Available(s));
    TakeLeast(kind, s + {e}, h[k]);
  }

  lemma OrderHere(kind: KeyKind, h: seq<VectorEvent>, e: VectorEvent, j: nat, k: nat)
    requires SelfOrdered(kind, h) && Joins(h, e, j) && j < k < |h| && !EventLeq(kind, h[k], e)
    ensures Least(kind, Elems(h[k..]) + {e}) == [e] + h[k..]
  {
    hide EventLeq, KeyLeq, Available, Joins, Least, DistinctHashes;
    var s := Elems(h[k..]);
    JoinedAvailable(h, e, j, k);
    JoinedKeyed(h, e, j, k);
    Suffix(kind, h, k);
    SuffixStep(kind, h, k);
    NewIsFirst(kind, e, h[k], Available(s));
    TakeLeast(kind, s + {e}, e);
    assert s + {e} - {e} == s;
  }

  lemma NothingAvailable()
    ensures Available({}) == {}
  {
  }

  lemma SingleFirst(kind: KeyKind, e: VectorEvent)
    ensures IsFirst(kind, e, {} + {e})
  {
    KeyReflexive(KeyOf(kind, e));
  }

  lemma KeysCompare(kind: KeyKind, a: VectorEvent, b: VectorEvent)
    ensures EventLeq(kind, a, b) <==> KeyLeq(KeyOf(kind, a), KeyOf(kind, b))
  {
    hide KeyLeq;
  }

  /** Up to its parent, the new event changes nothing. */
  lemma {:induction false} OrderBefore(kind: KeyKind, h: seq<VectorEvent>, e: VectorEvent, j: nat, k: nat)
    requires SelfOrdered(kind, h) && Joins(h, e, j) && k <= j + 1
    ensures var m := Place(kind, h, KeyOf(kind, e), j + 1);
      Least(kind, Elems(h[k..]) + {e}) == h[k..m] + [e] + h[m..]
    decreases j + 1 - k
  {
    hide EventLeq, KeyLeq, Available, Joins, Least, DistinctHashes;
    JoinsAt(h, e, j);
    if k == j + 1 {
      OrderBehind(kind, h, e, j, k);
    } else {
      var m := Place(kind, h, KeyOf(kind, e), j + 1);
      JoinedAvailable(h, e, j, k);
      JoinedKeyed(h, e, j, k);
      Suffix(kind, h, k);
      SuffixStep(kind, h, k);
      assert Available(Elems(h[k..])) + {} == Available(Elems(h[k..]));
      TakeLeast(kind, Elems(h[k..]) + {e}, h[k]);
      OrderBefore(kind, h, e, j, k + 1);
      assert [h[k]] + h[k + 1..m] == h[k..m];
    }
  }

  lemma JoinsAt(h: seq<VectorEvent>, e: VectorEvent, j: nat)
    requires Joins(h, e, j)
    ensures j < |h|
  {
  }

  /**
   * Adding an event behind place `j` of a history moves nothing: the event itself goes in front of
   * the first later event with a greater key.
   */
  lemma InsertionOrder(kind: KeyKind, h: seq<VectorEvent>, e: VectorEvent, j: nat)
    requires SelfOrdered(kind, h) && Joins(h, e, j)
    ensures j < |h| && SelfOrdered(kind, Inserted(h, e, Place(kind, h, KeyOf(kind, e), j + 1)))
  {
    hide EventLeq, KeyLeq, Available, Least;
    var m := Place(kind, h, KeyOf(kind, e), j + 1);
    OrderBefore(kind, h, e, j, 0);
    assert h[0..] == h && h[0..m] == h[..m];
    InsertedElems(h, e, m);
    InsertedDistinct(h, e, m);
  }
}
