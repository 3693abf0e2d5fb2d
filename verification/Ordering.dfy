/** The total orders by which logs and entity histories are sorted. */
module Ordering {
  import opened Base
  import opened Events
  import Text

  datatype Key = Key(clock: u64, time: u64, first: string, second: string, third: string)

  function KeyOf(kind: KeyKind, e: VectorEvent): Key {
    match kind
    case LogKey => Key(e.logicalClock, e.timestamp, e.eventHash, e.eventId, "")
    case HistoryKey => Key(e.logicalClock, e.timestamp, e.entityId, e.eventId, e.eventHash)
  }

  predicate TextsLeq(a: Key, b: Key) {
    if a.first != b.first then Text.Leq(a.first, b.first)
    else if a.second != b.second then Text.Leq(a.second, b.second)
    else Text.Leq(a.third, b.third)
  }

  /** Lexicographic comparison of the key tuples. */
  predicate KeyLeq(a: Key, b: Key) {
    if a.clock != b.clock then a.clock < b.clock
    else if a.time != b.time then a.time < b.time
    else TextsLeq(a, b)
  }

  // ----- The two orders, field by field -----

  /** Whole logs: by clock, time, hash and id. */
  predicate LoggedBefore(a: VectorEvent, b: VectorEvent) {
    if a.logicalClock != b.logicalClock then a.logicalClock < b.logicalClock
    else if a.timestamp != b.timestamp then a.timestamp < b.timestamp
    else if a.eventHash != b.eventHash then Text.Leq(a.eventHash, b.eventHash)
    else Text.Leq(a.eventId, b.eventId)
  }

  /** One entity's events: by clock, time, entity, id and hash. */
  predicate ToldBefore(a: VectorEvent, b: VectorEvent) {
    if a.logicalClock != b.logicalClock then a.logicalClock < b.logicalClock
    else if a.timestamp != b.timestamp then a.timestamp < b.timestamp
    else if a.entityId != b.entityId then Text.Leq(a.entityId, b.entityId)
    else if a.eventId != b.eventId then Text.Leq(a.eventId, b.eventId)
    else Text.Leq(a.eventHash, b.eventHash)
  }

  lemma LogOrderMeans(a: VectorEvent, b: VectorEvent)
    ensures EventLeq(LogKey, a, b) <==> LoggedBefore(a, b)
  {
    Text.LeqReflexive("");
    Text.LeqReflexive(a.eventId);
  }

  lemma HistoryOrderMeans(a: VectorEvent, b: VectorEvent)
    ensures EventLeq(HistoryKey, a, b) <==> ToldBefore(a, b)
  {
    hide Text.Leq;
  }

  /** Every event comes before those behind it. */
  ghost predicate LogAscends(log: seq<VectorEvent>) {
    forall i, j :: 0 <= i < j < |log| ==> LoggedBefore(log[i], log[j])
  }

  lemma AscendsByFields(log: seq<VectorEvent>)
    requires EventsAscend(LogKey, log)
    ensures LogAscends(log)
  {
    hide EventLeq, LoggedBefore;
    forall i, j | 0 <= i < j < |log| ensures LoggedBefore(log[i], log[j]) {
      LogOrderMeans(log[i], log[j]);
    }
  }

  // ----- Keys -----

  lemma KeyReflexive(a: Key)
    ensures KeyLeq(a, a)
  {
    Text.LeqReflexive(a.third);
  }

  lemma KeyTotal(a: Key, b: Key)
    ensures KeyLeq(a, b) || KeyLeq(b, a)
  {
    Text.LeqTotal(a.first, b.first);
    Text.LeqTotal(a.second, b.second);
    Text.LeqTotal(a.third, b.third);
  }

  lemma KeyAntisymmetric(a: Key, b: Key)
    requires KeyLeq(a, b) && KeyLeq(b, a)
    ensures a == b
  {
    if a.first != b.first {
      Text.LeqAntisymmetric(a.first, b.first);
    } else if a.second != b.second {
      Text.LeqAntisymmetric(a.second, b.second);
    } else {
      Text.LeqAntisymmetric(a.third, b.third);
    }
  }

  lemma TextsTransitive(a: Key, b: Key, c: Key)
    requires TextsLeq(a, b) && TextsLeq(b, c)
    ensures TextsLeq(a, c)
  {
    if a.first != b.first || b.first != c.first {
      Text.LeqReflexive(b.first);
      Text.LeqTransitive(a.first, b.first, c.first);
      if a.first == c.first { Text.LeqAntisymmetric(a.first, b.first); }
    } else if a.second != b.second || b.second != c.second {
      Text.LeqReflexive(b.second);
      Text.LeqTransitive(a.second, b.second, c.second);
      if a.second == c.second { Text.LeqAntisymmetric(a.second, b.second); }
    } else {
      Text.LeqTransitive(a.third, b.third, c.third);
    }
  }

  lemma KeyTransitive(a: Key, b: Key, c: Key)
    requires KeyLeq(a, b) && KeyLeq(b, c)
    ensures KeyLeq(a, c)
  {
    if a.clock == b.clock == c.clock && a.time == b.time == c.time {
      TextsTransitive(a, b, c);
    }
  }

  predicate EventLeq(kind: KeyKind, a: VectorEvent, b: VectorEvent) {
    KeyLeq(KeyOf(kind, a), KeyOf(kind, b))
  }

  /** Both keys mention the event hash, so they separate the events of a keyed set. */
  lemma EventLeqAntisymmetric(kind: KeyKind, a: VectorEvent, b: VectorEvent)
    requires EventLeq(kind, a, b) && EventLeq(kind, b, a)
    ensures a.eventHash == b.eventHash
  {
    KeyAntisymmetric(KeyOf(kind, a), KeyOf(kind, b));
  }

  ghost predicate IsFirst(kind: KeyKind, m: VectorEvent, s: set<VectorEvent>) {
    m in s && forall e :: e in s ==> EventLeq(kind, m, e)
  }

  lemma {:induction false} FirstExists(kind: KeyKind, s: set<VectorEvent>)
    requires s != {}
    ensures exists m :: IsFirst(kind, m, s)
    decreases |s|
  {
    var x :| x in s;
    KeyReflexive(KeyOf(kind, x));
    if s == {x} {
      assert IsFirst(kind, x, s);
    } else {
      var rest := s - {x};
      assert s == rest + {x};
      FirstExists(kind, rest);
      var m :| IsFirst(kind, m, rest);
      KeyTotal(KeyOf(kind, m), KeyOf(kind, x));
      if EventLeq(kind, m, x) {
        assert IsFirst(kind, m, s);
      } else {
        forall e | e in s ensures EventLeq(kind, x, e) {
          if e != x { KeyTransitive(KeyOf(kind, x), KeyOf(kind, m), KeyOf(kind, e)); }
        }
        assert IsFirst(kind, x, s);
      }
    }
  }

  /** The event with the least key. */
  ghost function FirstOf(kind: KeyKind, s: set<VectorEvent>): (m: VectorEvent)
    requires s != {}
    ensures IsFirst(kind, m, s)
  {
    FirstExists(kind, s);
    var m :| IsFirst(kind, m, s);
    m
  }

  lemma FirstUnique(kind: KeyKind, s: set<VectorEvent>, m: VectorEvent)
    requires Keyed(s) && IsFirst(kind, m, s)
    ensures m == FirstOf(kind, s)
  {
    EventLeqAntisymmetric(kind, m, FirstOf(kind, s));
  }

  ghost predicate EventsAscend(kind: KeyKind, s: seq<VectorEvent>) {
    forall i, j :: 0 <= i < j < |s| ==> EventLeq(kind, s[i], s[j])
  }

  function InsertEvent(kind: KeyKind, e: VectorEvent, s: seq<VectorEvent>): seq<VectorEvent> {
    if s == [] then [e]
    else if EventLeq(kind, e, s[0]) then [e] + s
    else [s[0]] + InsertEvent(kind, e, s[1..])
  }

  /** The library sort: an ascending rearrangement, by insertion. */
  function SortEvents(kind: KeyKind, s: seq<VectorEvent>): seq<VectorEvent> {
    if s == [] then [] else InsertEvent(kind, s[0], SortEvents(kind, s[1..]))
  }

  lemma {:induction false} InsertEventMultiset(kind: KeyKind, e: VectorEvent, s: seq<VectorEvent>)
    ensures multiset(InsertEvent(kind, e, s)) == multiset(s) + multiset{e}
  {
    hide EventLeq;
    if s != [] && !EventLeq(kind, e, s[0]) {
      InsertEventMultiset(kind, e, s[1..]);
      assert s == [s[0]] + s[1..];
    }
  }

  lemma AscendPrepend(kind: KeyKind, e: VectorEvent, s: seq<VectorEvent>)
    requires EventsAscend(kind, s) && forall x :: x in s ==> EventLeq(kind, e, x)
    ensures EventsAscend(kind, [e] + s)
  {
    hide EventLeq;
    assert forall j :: 0 < j <= |s| ==> ([e] + s)[j] == s[j - 1] && s[j - 1] in s;
  }

  lemma EventLeqReflexive(kind: KeyKind, e: VectorEvent)
    ensures EventLeq(kind, e, e)
  {
    KeyReflexive(KeyOf(kind, e));
  }

  lemma EventLeqTransitive(kind: KeyKind, a: VectorEvent, b: VectorEvent, c: VectorEvent)
    requires EventLeq(kind, a, b) && EventLeq(kind, b, c)
    ensures EventLeq(kind, a, c)
  {
    KeyTransitive(KeyOf(kind, a), KeyOf(kind, b), KeyOf(kind, c));
  }

  lemma EventLeqTotal(kind: KeyKind, a: VectorEvent, b: VectorEvent)
    ensures EventLeq(kind, a, b) || EventLeq(kind, b, a)
  {
    KeyTotal(KeyOf(kind, a), KeyOf(kind, b));
  }

  lemma {:induction false} InsertEventAscends(kind: KeyKind, e: VectorEvent, s: seq<VectorEvent>)
    requires EventsAscend(kind, s)
    ensures EventsAscend(kind, InsertEvent(kind, e, s))
  {
    hide EventLeq;
    if s != [] {
      EventLeqTotal(kind, e, s[0]);
      if EventLeq(kind, e, s[0]) {
        forall x | x in s ensures EventLeq(kind, e, x) {
          var j :| 0 <= j < |s| && s[j] == x;
          if j > 0 { EventLeqTransitive(kind, e, s[0], x); }
        }
        AscendPrepend(kind, e, s);
      } else {
        var t := InsertEvent(kind, e, s[1..]);
        InsertEventAscends(kind, e, s[1..]);
        InsertEventMultiset(kind, e, s[1..]);
        forall x | x in t ensures EventLeq(kind, s[0], x) {
          assert x in multiset(t);
          if x != e { assert x in s[1..]; }
        }
        AscendPrepend(kind, s[0], t);
      }
    }
  }

  lemma {:induction false} SortEventsCorrect(kind: KeyKind, s: seq<VectorEvent>)
    ensures multiset(SortEvents(kind, s)) == multiset(s)
    ensures EventsAscend(kind, SortEvents(kind, s))
  {
    if s != [] {
      SortEventsCorrect(kind, s[1..]);
      InsertEventMultiset(kind, s[0], SortEvents(kind, s[1..]));
      InsertEventAscends(kind, s[0], SortEvents(kind, s[1..]));
      assert s == [s[0]] + s[1..];
    }
  }

  /** An ascending enumeration starts with the least event; the rest enumerates the rest. */
  lemma AscendingHead(kind: KeyKind, a: seq<VectorEvent>)
    requires a != [] && EventsAscend(kind, a) && NoDup(a) && Keyed(Elems(a))
    ensures a[0] in Elems(a) && a[0] == FirstOf(kind, Elems(a))
    ensures Elems(a[1..]) == Elems(a) - {a[0]}
    ensures EventsAscend(kind, a[1..]) && NoDup(a[1..]) && Keyed(Elems(a[1..]))
  {
    var t := a[1..];
    assert a == [a[0]] + t;
    assert a[0] !in t;
    forall x | x in Elems(a) ensures EventLeq(kind, a[0], x) {
      if x == a[0] { KeyReflexive(KeyOf(kind, x)); }
    }
    FirstUnique(kind, Elems(a), a[0]);
  }

  /** Events of a keyed set have only one ascending enumeration. */
  lemma {:induction false} AscendingUnique(kind: KeyKind, a: seq<VectorEvent>, b: seq<VectorEvent>)
    requires EventsAscend(kind, a) && EventsAscend(kind, b)
    requires NoDup(a) && NoDup(b) && Elems(a) == Elems(b) && Keyed(Elems(a))
    ensures a == b
  {
    if a == [] {
      assert forall i :: 0 <= i < |b| ==> b[i] in Elems(b);
    } else {
      assert a[0] in Elems(b);
      AscendingHead(kind, a);
      AscendingHead(kind, b);
      AscendingUnique(kind, a[1..], b[1..]);
      assert a == [a[0]] + a[1..] && b == [b[0]] + b[1..];
    }
  }

  /** Sorting forgets the order in which the events arrived. */
  lemma SortEventsCanonical(kind: KeyKind, a: seq<VectorEvent>, b: seq<VectorEvent>)
    requires DistinctHashes(a) && multiset(a) == multiset(b)
    ensures SortEvents(kind, a) == SortEvents(kind, b)
  {
    var x, y := SortEvents(kind, a), SortEvents(kind, b);
    SortEventsCorrect(kind, a);
    SortEventsCorrect(kind, b);
    DistinctHashesKeyed(a);
    SameMultisetSameElems(a, x);
    SameMultisetSameElems(a, y);
    NoDupPerm(a, x);
    NoDupPerm(a, y);
    AscendingUnique(kind, x, y);
  }

  /** Sorting what is already sorted changes nothing. */
  lemma {:induction false} SortSorted(kind: KeyKind, s: seq<VectorEvent>)
    requires EventsAscend(kind, s)
    ensures SortEvents(kind, s) == s
  {
    if s != [] {
      SortSorted(kind, s[1..]);
      assert s == [s[0]] + s[1..];
    }
  }
}
