/** What a successful replay means: every entity's history is continuous, and the registry is the log's. */
module Histories {
  import opened Base
  import opened Dag
  import opened Events
  import opened Graph
  import opened Insertion
  import opened LeastOrder
  import opened Region
  import opened Registry
  import opened Replay
  import Text

  /** An event that may follow `before`, the entity's state so far if there is one. */
  ghost predicate Follows(before: Option<VectorState>, e: VectorEvent) {
    IsRegionCreate(e)
    || if e.operation.OriginCreate? then before.None? else before == Some(e.vectorBefore)
  }

  ghost function StateAfter(story: seq<VectorEvent>): Option<VectorState> {
    if story == [] then None else Some(story[|story| - 1].vectorAfter)
  }

  /**
   * The story starts with an origin or a region creation, has no later origin, and every other event
   * takes over the state its predecessor left.
   */
  ghost predicate Continuous(story: seq<VectorEvent>) {
    forall i :: 0 <= i < |story| ==> Follows(StateAfter(story[..i]), story[i])
  }

  lemma EmptyContinuous()
    ensures Continuous([])
  {
  }

  lemma ContinuousStep(front: seq<VectorEvent>, last: VectorEvent)
    ensures Continuous(front + [last]) <==> Continuous(front) && Follows(StateAfter(front), last)
  {
    hide Follows, StateAfter;
    var story := front + [last];
    assert story[..|front|] == front && story[|front|] == last;
    assert forall i :: 0 <= i < |front| ==> story[..i] == front[..i] && story[i] == front[i];
  }

  lemma StepFollows(state: map<string, VectorState>, before: Option<VectorState>, e: VectorEvent)
    requires before == if e.entityId in state then Some(state[e.entityId]) else None
    ensures StepState(state, e).Ok? <==> Follows(before, e)
    ensures StepState(state, e).Ok? ==> StepState(state, e).value == state[e.entityId := e.vectorAfter]
  {
    hide IsRegionCreate;
  }

  lemma FoldEmpty(state: map<string, VectorState>)
    ensures StateFold(state, []) == Ok(state)
  {
  }

  lemma FoldLast(state: map<string, VectorState>, front: seq<VectorEvent>, last: VectorEvent)
    ensures StateFold(state, front).Err? ==> StateFold(state, front + [last]).Err?
    ensures StateFold(state, front).Ok? ==>
      StateFold(state, front + [last]) == StepState(StateFold(state, front).value, last)
  {
    hide StepState;
    assert (front + [last])[..|front|] == front;
  }

  /** The state `state` grows into after a story about `id`. */
  ghost function Grown(state: map<string, VectorState>, story: seq<VectorEvent>, id: string): map<string, VectorState> {
    match StateAfter(story)
    case None => state
    case Some(v) => state[id := v]
  }

  /** Replaying one entity's story touches that entity only. */
  lemma {:induction false} StoryFold(state: map<string, VectorState>, story: seq<VectorEvent>, id: string)
    requires id !in state && forall e :: e in story ==> e.entityId == id
    ensures StateFold(state, story).Ok? <==> Continuous(story)
    ensures StateFold(state, story).Ok? ==> StateFold(state, story).value == Grown(state, story, id)
  {
    hide StateFold, StepState, Follows, Continuous;
    if story == [] {
      FoldEmpty(state);
      EmptyContinuous();
    } else {
      var front, last := story[..|story| - 1], story[|story| - 1];
      assert story == front + [last];
      assert forall e :: e in front ==> e in story;
      StoryFold(state, front, id);
      ContinuousStep(front, last);
      FoldLast(state, front, last);
      if StateFold(state, front).Ok? {
        StepFollows(Grown(state, front, id), StateAfter(front), last);
        assert Grown(state, front, id)[id := last.vectorAfter] == Grown(state, story, id);
      }
    }
  }

  /** The state after the stories of `ids`. */
  ghost function FinalState(s: set<VectorEvent>, ids: set<string>): map<string, VectorState>
    requires forall id :: id in ids ==> Story(s, id) != []
  {
    map id | id in ids :: Story(s, id)[|Story(s, id)| - 1].vectorAfter
  }

  lemma StoryIs(s: set<VectorEvent>, id: string)
    requires Keyed(s) && Acyclic(s)
    ensures IsTopological(Story(s, id), HistoryOf(s, id))
    ensures forall e :: e in Story(s, id) ==> e in s && e.entityId == id
    ensures id in Entities(s) ==> Story(s, id) != []
  {
    var h := HistoryOf(s, id);
    AcyclicSubset(s, h);
    LeastComplete(HistoryKey, h);
    assert forall e :: e in Story(s, id) ==> e in Elems(Story(s, id));
    if id in Entities(s) {
      var e :| e in s && e.entityId == id;
      assert e in Elems(Story(s, id));
    }
  }

  lemma FinalNext(s: set<VectorEvent>, ids: set<string>, id: string)
    requires id !in ids && forall x :: x in ids + {id} ==> Story(s, x) != []
    ensures FinalState(s, ids + {id}) == Grown(FinalState(s, ids), Story(s, id), id)
  {
    hide Story;
  }

  lemma {:induction false} ScheduleFold(s: set<VectorEvent>, ids: seq<string>)
    requires Keyed(s) && Acyclic(s) && NoDup(ids)
    requires forall id :: id in Elems(ids) ==> Story(s, id) != []
    ensures StateFold(map[], Schedule(s, ids)).Ok? <==> forall id :: id in Elems(ids) ==> Continuous(Story(s, id))
    ensures StateFold(map[], Schedule(s, ids)).Ok? ==>
      StateFold(map[], Schedule(s, ids)).value == FinalState(s, Elems(ids))
  {
    hide Continuous, Acyclic, Story, StateFold, Grown;
    if ids == [] {
      FoldEmpty(map[]);
      assert FinalState(s, {}) == map[];
    } else {
      var front, id := ids[..|ids| - 1], ids[|ids| - 1];
      assert ids == front + [id];
      var done := Elems(front);
      assert Elems(ids) == done + {id} && id !in done;
      ScheduleFold(s, front);
      FoldSplit(map[], Schedule(s, front), Story(s, id));
      StoryIs(s, id);
      FinalNext(s, done, id);
      StoryFold(FinalState(s, done), Story(s, id), id);
    }
  }

  /** The schedule enumerates the events of its entities, once each. */
  lemma {:induction false} ScheduleElems(s: set<VectorEvent>, ids: seq<string>)
    requires Keyed(s) && Acyclic(s) && NoDup(ids)
    ensures NoDup(Schedule(s, ids))
    ensures forall e :: e in Schedule(s, ids) <==> e in s && e.entityId in Elems(ids)
  {
    if ids != [] {
      var front, id := ids[..|ids| - 1], ids[|ids| - 1];
      assert ids == front + [id];
      assert Elems(ids) == Elems(front) + {id} && id !in Elems(front);
      ScheduleElems(s, front);
      StoryIs(s, id);
      NoDupConcat(Schedule(s, front), Story(s, id));
      forall e ensures e in Schedule(s, ids) <==> e in s && e.entityId in Elems(ids) {
        assert e in Story(s, id) <==> e in Elems(Story(s, id));
      }
    }
  }

  /** Entities come in ascending order of their ids. */
  ghost predicate EntitiesAscend(order: seq<VectorEvent>) {
    forall i, j :: 0 <= i < j < |order| ==> Text.Leq(order[i].entityId, order[j].entityId)
  }

  lemma {:induction false} ScheduleAscends(s: set<VectorEvent>, ids: seq<string>)
    requires Keyed(s) && Acyclic(s) && NoDup(ids) && Text.Ascending(ids)
    ensures EntitiesAscend(Schedule(s, ids))
  {
    hide Text.Leq, Acyclic, Story;
    if ids != [] {
      var front, id := ids[..|ids| - 1], ids[|ids| - 1];
      ScheduleAscends(s, front);
      ScheduleElems(s, front);
      StoryIs(s, id);
      var a, b := Schedule(s, front), Story(s, id);
      var order: seq<VectorEvent> := a + b;
      forall i, j | 0 <= i < j < |order| ensures Text.Leq(order[i].entityId, order[j].entityId) {
        if j >= |a| {
          assert b[j - |a|] in Elems(b);
          if i < |a| {
            assert a[i] in a && a[i].entityId in Elems(front);
            var k :| 0 <= k < |front| && front[k] == a[i].entityId;
            assert Text.Leq(ids[k], ids[|front|]);
          } else {
            assert b[i - |a|] in Elems(b);
            Text.LeqReflexive(id);
          }
        }
      }
    }
  }

  /** The order in which a log is replayed: entity by entity, each in the order of its history. */
  lemma ReplayOrderMeans(events: seq<VectorEvent>)
    requires ValidLog(events)
    ensures EntitiesAscend(ReplayOrder(Elems(events)))
    ensures forall id :: id in Entities(Elems(events)) ==> TakesToldFirst(Story(Elems(events), id))
  {
    hide Text.Leq, EntitiesAscend, Schedule, TakesToldFirst;
    var s := Elems(events);
    ValidIsAcyclic(events);
    DistinctHashesKeyed(events);
    Text.SortedKeysSorted(Entities(s));
    ScheduleAscends(s, Text.SortedKeys(Entities(s)));
    forall id | id in Entities(s) ensures TakesToldFirst(Story(s, id)) {
      AcyclicSubset(s, HistoryOf(s, id));
      LeastByFields(HistoryOf(s, id));
    }
  }

  /** The replay order is a rearrangement of a valid log. */
  lemma ReplayOrderPerm(events: seq<VectorEvent>)
    requires DistinctHashes(events) && Acyclic(Elems(events))
    ensures multiset(ReplayOrder(Elems(events))) == multiset(events)
  {
    var s := Elems(events);
    var ids := Text.SortedKeys(Entities(s));
    DistinctHashesKeyed(events);
    Text.SortedKeysSorted(Entities(s));
    ScheduleElems(s, ids);
    assert forall e :: e in s ==> e.entityId in Entities(s);
    assert Elems(Schedule(s, ids)) == s;
    SameElemsSameMultiset(Schedule(s, ids), events);
  }

  ghost predicate Told(s: set<VectorEvent>, id: string) {
    OneRoot(s, id) && Continuous(Story(s, id))
  }

  /** Exactly which logs replay. */
  lemma ReplayableMeans(env: Foreign, events: seq<VectorEvent>)
    ensures Replayable(env, events) <==>
      ValidLog(events) && RegistryOk(events) && forall id :: id in Entities(Elems(events)) ==> Told(Elems(events), id)
  {
    if ValidLog(events) {
      hide ValidLog, Continuous, OneRoot, RegistryOk, CoreFold, StateFold, Schedule;
      var s := Elems(events);
      ValidIsAcyclic(events);
      Text.SortedKeysSorted(Entities(s));
      ReplayOrderPerm(events);
      FoldIgnoresOrder(env, ReplayOrder(s), events);
      FoldIsRegistry(env, events);
      forall id | id in Entities(s) ensures Story(s, id) != [] { StoryIs(s, id); }
      ScheduleFold(s, Text.SortedKeys(Entities(s)));
    }
  }

  lemma ValidIsAcyclic(events: seq<VectorEvent>)
    requires ValidLog(events)
    ensures DistinctHashes(events) && Keyed(Elems(events)) && Acyclic(Elems(events))
  {
    DistinctHashesKeyed(events);
  }

  lemma HashListIs(events: seq<VectorEvent>)
    ensures Elems(HashList(events)) == Hashes(Elems(events))
    ensures DistinctHashes(events) ==> NoDup(HashList(events))
  {
    var hashes := HashList(events);
    forall h | h in Hashes(Elems(events)) ensures h in hashes {
      var e :| e in Elems(events) && e.eventHash == h;
      var i :| 0 <= i < |events| && events[i] == e;
      assert hashes[i] == h;
    }
    forall h | h in hashes ensures h in Hashes(Elems(events)) {
      var i :| 0 <= i < |hashes| && hashes[i] == h;
      assert events[i] in Elems(events);
    }
  }

  /** The hashes of a rearranged log are rearranged hashes. */
  lemma HashListPerm(a: seq<VectorEvent>, b: seq<VectorEvent>)
    requires DistinctHashes(a) && multiset(a) == multiset(b)
    ensures multiset(HashList(a)) == multiset(HashList(b))
  {
    SameMultisetSameElems(a, b);
    DistinctHashesPerm(a, b);
    HashListIs(a);
    HashListIs(b);
    SameElemsSameMultiset(HashList(a), HashList(b));
  }

  /** The final states of a successful replay. */
  lemma ReplayStates(env: Foreign, events: seq<VectorEvent>)
    requires Replayable(env, events)
    ensures var s, r := Elems(events), ReplayOf(env, Elems(events));
      && r.finalState.Keys == Entities(s)
      && forall id :: id in Entities(s) ==> StateAfter(Story(s, id)) == Some(r.finalState[id])
  {
    hide ValidLog, OneRoot, CoreFold, StateFold, Schedule, RootBytes, Acyclic, Continuous, Story;
    var s := Elems(events);
    ValidIsAcyclic(events);
    Text.SortedKeysSorted(Entities(s));
    forall id | id in Entities(s) ensures Story(s, id) != [] { StoryIs(s, id); }
    ScheduleFold(s, Text.SortedKeys(Entities(s)));
  }

  /** What a successful replay returns. */
  lemma ReplayReturns(env: Foreign, events: seq<VectorEvent>)
    requires Replayable(env, events)
    ensures var s, r := Elems(events), ReplayOf(env, Elems(events));
      && multiset(r.appliedHashes) == multiset(HashList(events)) && r.appliedHashes == HashList(ReplayOrder(s))
      && CoreFold(env, events) == Ok(r.coreState)
      && r.finalState.Keys == Entities(s)
      && (forall id :: id in Entities(s) ==> StateAfter(Story(s, id)) == Some(r.finalState[id]))
      && r.stateRoot.eventCount == |events|
      && (forall e :: e in events ==> e.logicalClock <= r.stateRoot.logicalClock)
      && (if events == [] then r.stateRoot.logicalClock == 0
          else exists e :: e in events && e.logicalClock == r.stateRoot.logicalClock)
  {
    hide ValidLog, OneRoot, CoreFold, StateFold, RootBytes, Acyclic, Story, StateAfter, Entities, ReplayOrder,
      MaxClock;
    var s := Elems(events);
    ValidIsAcyclic(events);
    ReplayOrderPerm(events);
    FoldIgnoresOrder(env, events, ReplayOrder(s));
    ReplayStates(env, events);
    HashListPerm(events, ReplayOrder(s));
    SameMultisetSameElems(ReplayOrder(s), events);
    GreatestClock(ReplayOrder(s));
    if events != [] { assert events[0] in s; }
  }

  /** The parts of a replay result that the engine compares with its store. */
  lemma ReplayRegions(env: Foreign, events: seq<VectorEvent>)
    requires Replayable(env, events)
    ensures Applicable(env, ReplayOrder(Elems(events)))
    ensures ReplayOf(env, Elems(events)).coreState.regions == RegionMap(events)
    ensures ReplayOf(env, Elems(events)).finalState.Keys == Entities(Elems(events))
  {
    hide ReplayOf, CoreFold, RegionMap, CoreRoot, Story, StateAfter, RegistryOk, ValidLog;
    ReplayReturns(env, events);
    FoldIsRegistry(env, events);
  }

  lemma ReplayEnds(env: Foreign, events: seq<VectorEvent>, id: string)
    requires Replayable(env, events) && id in Entities(Elems(events))
    ensures id in ReplayOf(env, Elems(events)).finalState
    ensures StateAfter(Story(Elems(events), id)) == Some(ReplayOf(env, Elems(events)).finalState[id])
  {
    hide Replayable, ReplayOf, CoreFold, Story, StateAfter;
    ReplayReturns(env, events);
  }

  // ----- Histories of vectors -----

  ghost predicate TakesOver(f: VectorEvent, e: VectorEvent) {
    !e.operation.OriginCreate? && e.vectorBefore == f.vectorAfter
  }

  /** An origin, and then events that each take over the state their predecessor left. */
  ghost predicate Unbroken(h: seq<VectorEvent>) {
    h != [] && h[0].operation.OriginCreate? && forall i :: 0 < i < |h| ==> TakesOver(h[i - 1], h[i])
  }

  /** Without region events, that is what a continuous story is. */
  lemma VectorContinuous(h: seq<VectorEvent>)
    requires h != [] && forall e :: e in h ==> !IsRegionCreate(e)
    ensures Continuous(h) <==> Unbroken(h)
  {
    hide IsRegionCreate;
    assert h[..0] == [];
    forall i | 0 <= i < |h| ensures Follows(StateAfter(h[..i]), h[i]) <==>
        if i == 0 then h[0].operation.OriginCreate? else TakesOver(h[i - 1], h[i])
    {
      assert h[i] in h;
    }
  }

  lemma InsertedAt(h: seq<VectorEvent>, e: VectorEvent, m: nat)
    requires m <= |h|
    ensures Inserted(h, e, m)[m] == e
    ensures forall i :: 0 <= i < m ==> Inserted(h, e, m)[i] == h[i]
    ensures forall i :: m < i <= |h| ==> Inserted(h, e, m)[i] == h[i - 1]
  {
  }

  /**
   * Inserting an event that starts from the last state breaks nothing exactly when it goes to the
   * end, or changes nothing at a place where that state holds.
   */
  lemma InsertUnbroken(h: seq<VectorEvent>, e: VectorEvent, m: nat)
    requires Unbroken(h) && 1 <= m <= |h| && !e.operation.OriginCreate?
    requires e.vectorBefore == h[|h| - 1].vectorAfter
    ensures Unbroken(Inserted(h, e, m)) <==>
      m == |h| || (e.vectorAfter == e.vectorBefore && h[m - 1].vectorAfter == e.vectorBefore)
    ensures Unbroken(Inserted(h, e, m)) ==> Inserted(h, e, m)[|h|].vectorAfter == e.vectorAfter
  {
    var g := Inserted(h, e, m);
    InsertedAt(h, e, m);
    assert TakesOver(g[m - 1], g[m]) <==> h[m - 1].vectorAfter == e.vectorBefore;
    if m < |h| {
      assert TakesOver(h[m - 1], h[m]);
      assert TakesOver(g[m], g[m + 1]) <==> h[m].vectorBefore == e.vectorAfter;
    }
    if m == |h| || (e.vectorAfter == e.vectorBefore && h[m - 1].vectorAfter == e.vectorBefore) {
      forall i | 0 < i < |g| ensures TakesOver(g[i - 1], g[i]) {
        if i < m {
          assert TakesOver(h[i - 1], h[i]);
        } else if i > m + 1 {
          assert TakesOver(h[i - 2], h[i - 1]);
        }
      }
    }
  }

  // ----- How often a history enters and leaves a state -----

  ghost function Visits(e: VectorEvent, v: VectorState): int {
    (if e.vectorAfter == v then 1 else 0) - if !e.operation.OriginCreate? && e.vectorBefore == v then 1 else 0
  }

  ghost function Surplus(h: seq<VectorEvent>, v: VectorState): int {
    if h == [] then 0 else Surplus(h[..|h| - 1], v) + Visits(h[|h| - 1], v)
  }

  lemma {:induction false} SurplusConcat(a: seq<VectorEvent>, b: seq<VectorEvent>, v: VectorState)
    ensures Surplus(a + b, v) == Surplus(a, v) + Surplus(b, v)
  {
    hide Visits;
    if b == [] {
      assert a + b == a;
    } else {
      assert (a + b)[..|a + b| - 1] == a + b[..|b| - 1];
      SurplusConcat(a, b[..|b| - 1], v);
    }
  }

  lemma SurplusOne(e: VectorEvent, v: VectorState)
    ensures Surplus([e], v) == Visits(e, v)
  {
    assert [e][..0] == [];
  }

  lemma SurplusWithout(b: seq<VectorEvent>, i: nat, v: VectorState)
    requires i < |b|
    ensures Surplus(b, v) == Surplus(b[..i] + b[i + 1..], v) + Visits(b[i], v)
  {
    hide Visits, Surplus;
    assert b == (b[..i] + [b[i]]) + b[i + 1..];
    SurplusConcat(b[..i], b[i + 1..], v);
    SurplusConcat(b[..i] + [b[i]], b[i + 1..], v);
    SurplusConcat(b[..i], [b[i]], v);
    SurplusOne(b[i], v);
  }

  lemma SameWithout(a: seq<VectorEvent>, b: seq<VectorEvent>) returns (i: nat)
    requires multiset(a) == multiset(b) && a != []
    ensures i < |b| && b[i] == a[|a| - 1]
    ensures multiset(a[..|a| - 1]) == multiset(b[..i] + b[i + 1..])
  {
    var e, front := a[|a| - 1], a[..|a| - 1];
    assert a == front + [e];
    assert e in multiset(a) && e in b;
    i :| 0 <= i < |b| && b[i] == e;
    assert b == b[..i] + [e] + b[i + 1..];
    assert multiset(front) == multiset(a) - multiset{e};
    assert multiset(b[..i] + b[i + 1..]) == multiset(b) - multiset{e};
  }

  /** Rearranging a history does not change the count. */
  lemma {:induction false} SurplusPerm(a: seq<VectorEvent>, b: seq<VectorEvent>, v: VectorState)
    requires multiset(a) == multiset(b)
    ensures Surplus(a, v) == Surplus(b, v)
    decreases |a|
  {
    hide Visits;
    if a == [] {
      assert |multiset(b)| == 0;
    } else {
      var i := SameWithout(a, b);
      SurplusPerm(a[..|a| - 1], b[..i] + b[i + 1..], v);
      SurplusWithout(b, i, v);
    }
  }

  /** An unbroken history leaves every state as often as it enters it, but for the state it ends in. */
  lemma {:induction false} UnbrokenSurplus(h: seq<VectorEvent>, v: VectorState)
    requires Unbroken(h)
    ensures Surplus(h, v) == if h[|h| - 1].vectorAfter == v then 1 else 0
  {
    var n := |h| - 1;
    if n == 0 {
      assert h == [h[0]];
      SurplusOne(h[0], v);
    } else {
      var front := h[..n];
      forall i | 0 < i < n ensures TakesOver(front[i - 1], front[i]) {
        assert TakesOver(h[i - 1], h[i]);
      }
      UnbrokenSurplus(front, v);
      assert TakesOver(h[n - 1], h[n]);
    }
  }

  /** Two changes away from the last state of a history fit into no order of it. */
  lemma TwoDepartures(h: seq<VectorEvent>, a: VectorEvent, b: VectorEvent, g: seq<VectorEvent>)
    requires Unbroken(h) && multiset(g) == multiset(h + [a, b])
    requires !a.operation.OriginCreate? && !b.operation.OriginCreate?
    requires a.vectorBefore == h[|h| - 1].vectorAfter && b.vectorBefore == h[|h| - 1].vectorAfter
    requires a.vectorAfter != a.vectorBefore && b.vectorAfter != b.vectorBefore
    ensures !Unbroken(g)
  {
    hide Unbroken;
    var v := a.vectorBefore;
    UnbrokenSurplus(h, v);
    SurplusPerm(g, h + [a, b], v);
    assert h + [a, b] == (h + [a]) + [b];
    SurplusConcat(h + [a], [b], v);
    SurplusConcat(h, [a], v);
    SurplusOne(a, v);
    SurplusOne(b, v);
    if Unbroken(g) { UnbrokenSurplus(g, v); }
  }
}
