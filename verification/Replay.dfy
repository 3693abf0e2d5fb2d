/** Rebuilding state from the log alone (src/replay.rs). */
module Replay {
  import opened Base
  import opened Bytes
  import opened Dag
  import opened Errors
  import opened Events
  import opened Graph
  import opened LeastOrder
  import opened Region
  import opened Serialization
  import Text

  datatype ReplayError =
    | BadLog(dag: DagError)
    | BadRegion(region: KernelError)
    | OriginExists(entity: string)
    | EntityMissing(entity: string)
    | BeforeMismatch(entity: string)

  datatype StateRoot = StateRoot(rootHash: string, eventCount: nat, logicalClock: u64)

  datatype ReplayResult = ReplayResult(
    finalState: map<string, VectorState>,
    coreState: CoreState,
    stateRoot: StateRoot,
    replayHash: string,
    appliedHashes: seq<string>)

  // ----- One event -----

  /** The part of `apply_event` that looks at the entity's state. */
  function StepState(state: map<string, VectorState>, e: VectorEvent): Result<map<string, VectorState>, ReplayError> {
    if IsRegionCreate(e) then Ok(state[e.entityId := e.vectorAfter])
    else if e.operation.OriginCreate? then
      if e.entityId in state then Err(OriginExists(e.entityId)) else Ok(state[e.entityId := e.vectorAfter])
    else if e.entityId !in state then Err(EntityMissing(e.entityId))
    else if state[e.entityId] != e.vectorBefore then Err(BeforeMismatch(e.entityId))
    else Ok(state[e.entityId := e.vectorAfter])
  }

  /** The part of `apply_event` that maintains the registry. */
  function StepCore(env: Foreign, core: CoreState, e: VectorEvent): Result<CoreState, ReplayError> {
    if !IsRegionCreate(e) then Ok(core)
    else
      match ApplyRegionEvent(env, core, e)
      case Ok(next) => Ok(next)
      case Err(error) => Err(BadRegion(error))
  }

  function ApplyEvent(env: Foreign, state: map<string, VectorState>, core: CoreState, e: VectorEvent)
    : Result<(map<string, VectorState>, CoreState), ReplayError>
  {
    var core' :- StepCore(env, core, e);
    var state' :- StepState(state, e);
    Ok((state', core'))
  }

  // ----- Many events -----

  ghost function StateFold(state: map<string, VectorState>, events: seq<VectorEvent>)
    : Result<map<string, VectorState>, ReplayError>
  {
    if events == [] then Ok(state)
    else
      var before :- StateFold(state, events[..|events| - 1]);
      StepState(before, events[|events| - 1])
  }

  /** The events replayed so far reach `state` and `core`. */
  ghost predicate Reaches(env: Foreign, events: seq<VectorEvent>, state: map<string, VectorState>, core: CoreState) {
    StateFold(map[], events) == Ok(state) && CoreFold(env, events) == Ok(core)
  }

  ghost predicate Applicable(env: Foreign, events: seq<VectorEvent>) {
    StateFold(map[], events).Ok? && CoreFold(env, events).Ok?
  }

  /** Replay gets as far as the `n`-th event, which cannot be applied. */
  ghost predicate StopsAt(env: Foreign, events: seq<VectorEvent>, n: nat, error: ReplayError)
    requires n < |events|
  {
    && Applicable(env, events[..n])
    && ApplyEvent(env, StateFold(map[], events[..n]).value, CoreFold(env, events[..n]).value, events[n]) == Err(error)
  }

  ghost predicate StopsWith(env: Foreign, events: seq<VectorEvent>, error: ReplayError) {
    exists n :: 0 <= n < |events| && StopsAt(env, events, n, error)
  }

  lemma StopsStill(env: Foreign, a: seq<VectorEvent>, b: seq<VectorEvent>, error: ReplayError)
    requires StopsWith(env, a, error)
    ensures StopsWith(env, a + b, error)
  {
    hide ApplyEvent, Applicable;
    var n :| 0 <= n < |a| && StopsAt(env, a, n, error);
    assert (a + b)[..n] == a[..n];
    assert StopsAt(env, a + b, n, error);
  }

  ghost function MaxClock(events: seq<VectorEvent>): u64 {
    if events == [] then 0
    else
      var m, c := MaxClock(events[..|events| - 1]), events[|events| - 1].logicalClock;
      if c > m then c else m
  }

  /** No event is later than the clock, and some event has it unless there are none. */
  ghost predicate IsGreatestClock(s: set<VectorEvent>, clock: u64) {
    && (forall e :: e in s ==> e.logicalClock <= clock)
    && (if s == {} then clock == 0 else exists e :: e in s && e.logicalClock == clock)
  }

  lemma {:induction false} GreatestClock(events: seq<VectorEvent>)
    ensures IsGreatestClock(Elems(events), MaxClock(events))
  {
    if events != [] {
      var front, last := events[..|events| - 1], events[|events| - 1];
      assert events == front + [last];
      GreatestClock(front);
      assert Elems(events) == Elems(front) + {last};
      if front != [] && last.logicalClock <= MaxClock(front) {
        assert front[0] in Elems(front);
        var e :| e in Elems(front) && e.logicalClock == MaxClock(front);
        assert e in Elems(events);
      } else {
        assert last in Elems(events);
        if front == [] { assert Elems(front) == {}; }
      }
    }
  }

  lemma ReachesNext(env: Foreign, events: seq<VectorEvent>, e: VectorEvent, state: map<string, VectorState>,
                    core: CoreState)
    requires Reaches(env, events, state, core)
    ensures ApplyEvent(env, state, core, e).Err? ==> !Applicable(env, events + [e])
    ensures ApplyEvent(env, state, core, e).Ok? ==>
      Reaches(env, events + [e], ApplyEvent(env, state, core, e).value.0, ApplyEvent(env, state, core, e).value.1)
    ensures HashList(events + [e]) == HashList(events) + [e.eventHash]
  {
    hide RegionFromEvent, IsRegionCreate, InsertRegion;
    assert (events + [e])[..|events|] == events;
  }

  lemma {:induction false} FoldSplit(state: map<string, VectorState>, a: seq<VectorEvent>, b: seq<VectorEvent>)
    ensures StateFold(state, a).Err? ==> StateFold(state, a + b).Err?
    ensures StateFold(state, a).Ok? ==> StateFold(state, a + b) == StateFold(StateFold(state, a).value, b)
  {
    if b == [] {
      assert a + b == a;
    } else {
      FoldSplit(state, a, b[..|b| - 1]);
      assert (a + b)[..|a + b| - 1] == a + b[..|b| - 1];
    }
  }

  /** What cannot be applied cannot be repaired by what follows. */
  lemma StuckForever(env: Foreign, a: seq<VectorEvent>, b: seq<VectorEvent>)
    requires !Applicable(env, a)
    ensures !Applicable(env, a + b)
  {
    FoldSplit(map[], a, b);
    if CoreFold(env, a).Err? {
      assert (a + b)[..|a|] == a;
      CoreFoldFails(env, a + b, |a|);
    }
  }

  // ----- Entity histories -----

  ghost function HistoryOf(s: set<VectorEvent>, id: string): set<VectorEvent> {
    set e | e in s && e.entityId == id
  }

  ghost function Entities(s: set<VectorEvent>): set<string> {
    set e | e in s :: e.entityId
  }

  /** The order in which an entity's events are replayed. */
  ghost function Story(s: set<VectorEvent>, id: string): seq<VectorEvent> {
    Least(HistoryKey, HistoryOf(s, id))
  }

  /** The stories of the given entities, one after the other. */
  ghost function Schedule(s: set<VectorEvent>, ids: seq<string>): seq<VectorEvent> {
    if ids == [] then [] else Schedule(s, ids[..|ids| - 1]) + Story(s, ids[|ids| - 1])
  }

  /** The whole replay order of a log. */
  ghost function ReplayOrder(s: set<VectorEvent>): seq<VectorEvent> {
    Schedule(s, Text.SortedKeys(Entities(s)))
  }

  ghost predicate OneRoot(s: set<VectorEvent>, id: string) {
    |Available(HistoryOf(s, id))| == 1
  }

  /** The logs replay accepts. */
  ghost predicate Replayable(env: Foreign, events: seq<VectorEvent>) {
    && ValidLog(events)
    && (forall id :: id in Entities(Elems(events)) ==> OneRoot(Elems(events), id))
    && Applicable(env, ReplayOrder(Elems(events)))
  }

  /** An entity with no root or several, and how many it has. */
  ghost predicate BadRoots(s: set<VectorEvent>, id: string, error: ReplayError) {
    !OneRoot(s, id) && error == BadLog(RootCount(|Available(HistoryOf(s, id))|))
  }

  /** What each error says about the log it rejects. */
  ghost predicate FailsWith(env: Foreign, events: seq<VectorEvent>, error: ReplayError) {
    var s := Elems(events);
    if !ValidLog(events) then error.BadLog? && Explains(error.dag, events)
    else (exists id :: id in Entities(s) && BadRoots(s, id, error)) || StopsWith(env, ReplayOrder(s), error)
  }

  const ROOT_TAG := "v-kernelx/state-root-v1"

  ghost function RootBytes(state: seq<byte>, count: nat, clock: u64): seq<byte> {
    Utf8(ROOT_TAG) + Word(count) + Word(clock) + Word(|state|) + state
  }

  ghost function RootOf(env: Foreign, state: map<string, VectorState>, count: nat, clock: u64): StateRoot {
    StateRoot(env.blake3(RootBytes(StateMapBytes(state), count, clock)), count, clock)
  }

  ghost function ReplayHashOf(env: Foreign, hashes: seq<string>): string {
    env.blake3(ReplayBytes(hashes))
  }

  /** The result of replaying a log: a function of its set of events. */
  ghost function ReplayOf(env: Foreign, s: set<VectorEvent>): ReplayResult
    requires Applicable(env, ReplayOrder(s))
  {
    var order := ReplayOrder(s);
    var state := StateFold(map[], order).value;
    ReplayResult(state, CoreFold(env, order).value, RootOf(env, state, |order|, MaxClock(order)),
      ReplayHashOf(env, HashList(order)), HashList(order))
  }

  // ----- Ordering one entity's events -----

  /** What the checks on the whole log leave of an entity's events. */
  ghost predicate Clean(events: seq<VectorEvent>) {
    DistinctHashes(events) && (forall e :: e in events ==> NoDup(e.parentHashes)) && Acyclic(Elems(events))
  }

  ghost predicate Orderable(events: seq<VectorEvent>) {
    Clean(events) && |Available(Elems(events))| == 1
  }

  /** Succeeds on histories with one root and no cycle, with their least topological order. */
  method OrderEntityEvents(events: seq<VectorEvent>) returns (r: Result<seq<VectorEvent>, DagError>)
    ensures r.Ok? <==> events == [] || Orderable(events)
    ensures r.Ok? ==> r.value == Least(HistoryKey, Elems(events)) && TakesToldFirst(r.value)
    ensures r.Err? && Clean(events) ==> r.error == RootCount(|Available(Elems(events))|)
  {
    if events == [] {
      return Ok([]);
    }
    var seen: set<string> := {};
    for i := 0 to |events|
      invariant DistinctHashes(events[..i])
      invariant forall h :: h in seen <==> exists j :: 0 <= j < i && events[j].eventHash == h
    {
      if events[i].eventHash in seen {
        return Err(DuplicateHash(events[i].eventHash));
      }
      seen := seen + {events[i].eventHash};
    }
    TakeAll(events);
    for i := 0 to |events|
      invariant forall j :: 0 <= j < i ==> NoDup(events[j].parentHashes)
    {
      var distinct := HasNoDup(events[i].parentHashes);
      if !distinct {
        assert events[i] in events;
        return Err(DuplicateParent(events[i].eventHash));
      }
    }
    assert forall e :: e in events ==> NoDup(e.parentHashes);
    r := OrderGraph(events);
  }

  method HasNoDup(names: seq<string>) returns (distinct: bool)
    ensures distinct <==> NoDup(names)
  {
    var seen: set<string> := {};
    for i := 0 to |names|
      invariant seen == Elems(names[..i]) && NoDup(names[..i])
    {
      TakeNext(names, i);
      if names[i] in seen {
        return false;
      }
      NoDupSnoc(names, i);
      seen := seen + {names[i]};
    }
    TakeAll(names);
    distinct := true;
  }

  /** Counts the events without a parent in the group. */
  method CountRoots(events: seq<VectorEvent>, indegree: map<string, nat>, ghost children: map<string, seq<string>>)
    returns (count: nat)
    requires DistinctHashes(events) && IsGraph(indegree, children, events)
    ensures count == |Available(Elems(events))|
  {
    hide Available;
    DistinctHashesKeyed(events);
    var roots := Roots(indegree);
    RootsAreReady(indegree, roots, Elems(events));
    AvailableKeyed(Elems(events));
    HashesCount(Available(Elems(events)));
    NoDupCount(roots);
    count := |roots|;
  }

  lemma AvailableKeyed(s: set<VectorEvent>)
    requires Keyed(s)
    ensures Keyed(Available(s))
  {
  }

  /** The root check and the ordering loop. */
  method OrderGraph(events: seq<VectorEvent>) returns (r: Result<seq<VectorEvent>, DagError>)
    requires DistinctHashes(events) && forall e :: e in events ==> NoDup(e.parentHashes)
    ensures r.Ok? <==> Orderable(events)
    ensures r.Ok? ==> r.value == Least(HistoryKey, Elems(events)) && TakesToldFirst(r.value)
    ensures r.Err? && Clean(events) ==> r.error == RootCount(|Available(Elems(events))|)
  {
    hide Available, Acyclic, IsGraph, Least, TakesToldFirst, TakesLoggedFirst;
    var indegree, children := BuildGraph(events);
    var count := CountRoots(events, indegree, children);
    if count != 1 {
      return Err(RootCount(count));
    }
    var ordered := KahnOrder(HistoryKey, events, indegree, children);
    DistinctHashesKeyed(events);
    if Orderable(events) { LeastByFields(Elems(events)); }
    NoDupCount(events);
    LeastComplete(HistoryKey, Elems(events));
    if |ordered| != |events| {
      return Err(Unresolved);
    }
    r := Ok(ordered);
  }

  // ----- Grouping the log by entity -----

  ghost function GroupOf(events: seq<VectorEvent>, id: string): seq<VectorEvent> {
    if events == [] then []
    else
      var last := events[|events| - 1];
      GroupOf(events[..|events| - 1], id) + if last.entityId == id then [last] else []
  }

  lemma {:induction false} GroupIs(events: seq<VectorEvent>, id: string)
    ensures Elems(GroupOf(events, id)) == HistoryOf(Elems(events), id)
    ensures NoDup(events) ==> NoDup(GroupOf(events, id))
  {
    if events != [] {
      var front, last := events[..|events| - 1], events[|events| - 1];
      assert events == front + [last];
      GroupIs(front, id);
      assert Elems(events) == Elems(front) + {last};
      if NoDup(events) {
        assert last !in front;
        assert last !in Elems(GroupOf(front, id));
        if last.entityId == id { NoDupConcat(GroupOf(front, id), [last]); }
      }
      assert Elems(GroupOf(front, id) + [last]) == Elems(GroupOf(front, id)) + {last};
      assert GroupOf(front, id) + [] == GroupOf(front, id);
      assert HistoryOf(Elems(events), id) == HistoryOf(Elems(front), id) + if last.entityId == id then {last} else {};
    }
  }

  lemma GroupDistinct(events: seq<VectorEvent>, id: string)
    requires DistinctHashes(events)
    ensures DistinctHashes(GroupOf(events, id))
  {
    DistinctHashesKeyed(events);
    GroupIs(events, id);
    KeyedDistinctHashes(GroupOf(events, id));
  }

  method GroupByEntity(events: seq<VectorEvent>) returns (groups: map<string, seq<VectorEvent>>)
    ensures groups.Keys == Entities(Elems(events))
    ensures forall id :: id in groups ==> groups[id] == GroupOf(events, id)
  {
    groups := map[];
    for i := 0 to |events|
      invariant groups.Keys == Entities(Elems(events[..i]))
      invariant forall id :: id in groups ==> groups[id] == GroupOf(events[..i], id)
    {
      GroupStep(events, i);
      var id := events[i].entityId;
      groups := groups[id := (if id in groups then groups[id] else []) + [events[i]]];
    }
    TakeAll(events);
  }

  lemma GroupStep(events: seq<VectorEvent>, i: nat)
    requires i < |events|
    ensures Entities(Elems(events[..i + 1])) == Entities(Elems(events[..i])) + {events[i].entityId}
    ensures forall id ::
      GroupOf(events[..i + 1], id) == GroupOf(events[..i], id) + (if events[i].entityId == id then [events[i]] else [])
    ensures events[i].entityId !in Entities(Elems(events[..i])) ==> GroupOf(events[..i], events[i].entityId) == []
  {
    TakeNext(events, i);
    assert events[..i + 1][..i] == events[..i];
    assert Entities(Elems(events[..i]) + {events[i]}) == Entities(Elems(events[..i])) + {events[i].entityId};
    GroupIs(events[..i], events[i].entityId);
    if GroupOf(events[..i], events[i].entityId) != [] {
      var e := GroupOf(events[..i], events[i].entityId)[0];
      assert e in Elems(GroupOf(events[..i], events[i].entityId));
    }
  }

  // ----- The replay loop -----

  /** An entity's group is orderable exactly when it has one root: the log check excludes the rest. */
  lemma GroupOrderable(events: seq<VectorEvent>, id: string)
    requires ValidLog(events) && id in Entities(Elems(events))
    ensures GroupOf(events, id) != []
    ensures Clean(GroupOf(events, id)) && (Orderable(GroupOf(events, id)) <==> OneRoot(Elems(events), id))
  {
    var group := GroupOf(events, id);
    GroupIs(events, id);
    GroupDistinct(events, id);
    var e :| e in Elems(events) && e.entityId == id;
    assert e in Elems(group);
    AcyclicSubset(Elems(events), Elems(group));
    forall g | g in group ensures NoDup(g.parentHashes) {
      assert g in Elems(group) && g in events;
      assert ParentsAdmissible(g, events);
    }
  }

  lemma StoryStuck(env: Foreign, done: seq<VectorEvent>, story: seq<VectorEvent>, i: nat)
    requires i <= |story| && !Applicable(env, done + story[..i])
    ensures !Applicable(env, done + story)
  {
    hide Applicable;
    StuckForever(env, done + story[..i], story[i..]);
    assert (done + story[..i]) + story[i..] == done + story;
  }

  lemma StoryStops(env: Foreign, done: seq<VectorEvent>, story: seq<VectorEvent>, i: nat,
                   state: map<string, VectorState>, core: CoreState, error: ReplayError)
    requires i < |story| && Reaches(env, done + story[..i], state, core)
    requires ApplyEvent(env, state, core, story[i]) == Err(error)
    ensures StopsWith(env, done + story, error)
  {
    hide ApplyEvent;
    assert (done + story)[..|done| + i] == done + story[..i];
    assert StopsAt(env, done + story, |done| + i, error);
  }

  lemma StoryNext(done: seq<VectorEvent>, story: seq<VectorEvent>, i: nat)
    requires i < |story|
    ensures (done + story[..i]) + [story[i]] == done + story[..i + 1]
  {
    assert story[..i + 1] == story[..i] + [story[i]];
  }

  /** The state and the registry a replay fills in. */
  class Rebuilt {
    var state: map<string, VectorState>
    const core: Core

    /** What has been rebuilt is what the given events reach. */
    ghost predicate Has(env: Foreign, events: seq<VectorEvent>)
      reads this, core
    {
      core.env == env && Reaches(env, events, state, core.View())
    }

    constructor (env: Foreign)
      ensures fresh(core) && Has(env, [])
    {
      state := map[];
      core := new Core(env);
    }

    method ApplyRegion(e: VectorEvent) returns (r: Result<(), ReplayError>)
      requires IsRegionCreate(e)
      modifies this, core
      ensures r.Ok? <==> ApplyEvent(core.env, old(state), old(core.View()), e).Ok?
      ensures r.Ok? ==> ApplyEvent(core.env, old(state), old(core.View()), e) == Ok((state, core.View()))
      ensures r.Err? ==> ApplyEvent(core.env, old(state), old(core.View()), e) == Err(r.error)
    {
      hide IsRegionCreate, ApplyRegionEvent;
      var applied := core.Apply(e);
      if applied.Err? {
        return Err(BadRegion(applied.error));
      }
      state := state[e.entityId := e.vectorAfter];
      r := Ok(());
    }

    /** Applies one event; a region creation reaches the registry first. */
    method Apply(e: VectorEvent) returns (r: Result<(), ReplayError>)
      modifies this, core
      ensures r.Ok? <==> ApplyEvent(core.env, old(state), old(core.View()), e).Ok?
      ensures r.Ok? ==> ApplyEvent(core.env, old(state), old(core.View()), e) == Ok((state, core.View()))
      ensures r.Err? ==> ApplyEvent(core.env, old(state), old(core.View()), e) == Err(r.error)
    {
      hide IsRegionCreate, ApplyRegionEvent;
      if IsRegionCreate(e) {
        r := ApplyRegion(e);
        return;
      }
      if e.operation.OriginCreate? {
        if e.entityId in state {
          return Err(OriginExists(e.entityId));
        }
      } else {
        if e.entityId !in state {
          return Err(EntityMissing(e.entityId));
        }
        if state[e.entityId] != e.vectorBefore {
          return Err(BeforeMismatch(e.entityId));
        }
      }
      state := state[e.entityId := e.vectorAfter];
      r := Ok(());
    }

    /** Replays one ordered group on top of what has been applied. */
    method ApplyStory(env: Foreign, story: seq<VectorEvent>, ghost done: seq<VectorEvent>)
      returns (r: Result<(), ReplayError>)
      requires Has(env, done)
      modifies this, core
      ensures r.Ok? ==> Has(env, done + story)
      ensures r.Err? ==> !Applicable(env, done + story) && StopsWith(env, done + story, r.error)
    {
      hide ApplyEvent, Reaches, Applicable, HashList, StopsWith;
      assert done + story[..0] == done;
      for i := 0 to |story|
        invariant Has(env, done + story[..i])
      {
        ReachesNext(env, done + story[..i], story[i], state, core.View());
        StoryNext(done, story, i);
        ghost var state', core' := state, core.View();
        var next := Apply(story[i]);
        if next.Err? {
          StoryStuck(env, done, story, i + 1);
          StoryStops(env, done, story, i, state', core', next.error);
          return next;
        }
      }
      TakeAll(story);
      r := Ok(());
    }

    /** Orders one entity's group and applies it. */
    method ApplyGroup(env: Foreign, group: seq<VectorEvent>, ghost done: seq<VectorEvent>, ghost s: set<VectorEvent>,
                      ghost id: string)
      returns (r: Result<seq<VectorEvent>, ReplayError>)
      requires group != [] && Elems(group) == HistoryOf(s, id) && Has(env, done)
      requires Clean(group) && (Orderable(group) <==> OneRoot(s, id))
      modifies this, core
      ensures r.Ok? ==> OneRoot(s, id) && r.value == Story(s, id) && Has(env, done + Story(s, id))
      ensures r.Err? ==> !OneRoot(s, id) || !Applicable(env, done + Story(s, id))
      ensures r.Err? ==> BadRoots(s, id, r.error) || StopsWith(env, done + Story(s, id), r.error)
    {
      hide Has, Applicable, Orderable, OneRoot, Least, Clean, Available, StopsWith;
      var story := OrderEntityEvents(group);
      if story.Err? {
        return Err(BadLog(story.error));
      }
      var next := ApplyStory(env, story.value, done);
      if next.Err? {
        return Err(next.error);
      }
      r := Ok(story.value);
    }

    /**
     * Applies every entity's story in entity order; fails exactly when a story has no single root
     * or does not apply.
     */
    method ApplySchedule(env: Foreign, events: seq<VectorEvent>, groups: map<string, seq<VectorEvent>>,
                         ids: seq<string>)
      returns (r: Result<seq<VectorEvent>, ReplayError>)
      requires ValidLog(events) && Elems(ids) == groups.Keys == Entities(Elems(events)) && Has(env, [])
      requires forall id :: id in groups ==> groups[id] == GroupOf(events, id)
      modifies this, core
      ensures r.Ok? ==> r.value == Schedule(Elems(events), ids) && Has(env, r.value)
      ensures r.Ok? ==> forall id :: id in Elems(ids) ==> OneRoot(Elems(events), id)
      ensures r.Err? ==>
        !Applicable(env, Schedule(Elems(events), ids)) || exists id :: id in Elems(ids) && !OneRoot(Elems(events), id)
      ensures r.Err? ==>
        || StopsWith(env, Schedule(Elems(events), ids), r.error)
        || exists id :: id in Elems(ids) && BadRoots(Elems(events), id, r.error)
    {
      ghost var s := Elems(events);
      var applied: seq<VectorEvent> := [];
      assert Schedule(s, ids[..0]) == [];
      hide Has, Applicable, Schedule, OneRoot, Orderable, ValidLog, HistoryOf, GroupOf, Entities, Clean, StopsWith,
        BadRoots;
      for i := 0 to |ids|
        invariant applied == Schedule(s, ids[..i]) && Has(env, applied)
        invariant forall id :: id in Elems(ids[..i]) ==> OneRoot(s, id)
      {
        var id := ids[i];
        TakeNext(ids, i);
        assert id in Elems(ids);
        GroupOrderable(events, id);
        GroupIs(events, id);
        ScheduleNext(s, ids, i);
        var next := ApplyGroup(env, groups[id], applied, s, id);
        if next.Err? {
          if !Applicable(env, Schedule(s, ids[..i + 1])) { ScheduleStuck(env, s, ids, i + 1); }
          if StopsWith(env, Schedule(s, ids[..i + 1]), next.error) { ScheduleStops(env, s, ids, i + 1, next.error); }
          return Err(next.error);
        }
        applied := applied + next.value;
      }
      TakeAll(ids);
      r := Ok(applied);
    }
  }

  lemma ScheduleNext(s: set<VectorEvent>, ids: seq<string>, i: nat)
    requires i < |ids|
    ensures Schedule(s, ids[..i + 1]) == Schedule(s, ids[..i]) + Story(s, ids[i])
  {
    assert ids[..i + 1][..i] == ids[..i];
  }

  lemma {:induction false} SchedulePrefix(s: set<VectorEvent>, ids: seq<string>, i: nat)
    returns (rest: seq<VectorEvent>)
    requires i <= |ids|
    ensures Schedule(s, ids) == Schedule(s, ids[..i]) + rest
    decreases |ids|
  {
    if i == |ids| {
      TakeAll(ids);
      rest := [];
    } else {
      var front := ids[..|ids| - 1];
      var r := SchedulePrefix(s, front, i);
      assert front[..i] == ids[..i];
      rest := r + Story(s, ids[|ids| - 1]);
    }
  }

  lemma ScheduleStuck(env: Foreign, s: set<VectorEvent>, ids: seq<string>, i: nat)
    requires i <= |ids| && !Applicable(env, Schedule(s, ids[..i]))
    ensures !Applicable(env, Schedule(s, ids))
  {
    var rest := SchedulePrefix(s, ids, i);
    StuckForever(env, Schedule(s, ids[..i]), rest);
  }

  lemma ScheduleStops(env: Foreign, s: set<VectorEvent>, ids: seq<string>, i: nat, error: ReplayError)
    requires i <= |ids| && StopsWith(env, Schedule(s, ids[..i]), error)
    ensures StopsWith(env, Schedule(s, ids), error)
  {
    var rest := SchedulePrefix(s, ids, i);
    StopsStill(env, Schedule(s, ids[..i]), rest, error);
  }

  /** Succeeds exactly on replayable logs, with a result that depends only on the set of events. */
  method ReplayEvents(env: Foreign, events: seq<VectorEvent>) returns (r: Result<ReplayResult, ReplayError>)
    ensures r.Ok? <==> Replayable(env, events)
    ensures r.Ok? ==> r.value == ReplayOf(env, Elems(events))
    ensures r.Err? ==> FailsWith(env, events, r.error)
  {
    hide ValidLog, Schedule, OneRoot, RootBytes, StateMapBytes, ReplayBytes, StopsWith, BadRoots, Explains;
    var valid := ValidateDag(events);
    if valid.Err? {
      return Err(BadLog(valid.error));
    }
    var groups := GroupByEntity(events);
    var ids := Text.KeysInOrder(groups.Keys);
    Text.SortedKeysSorted(groups.Keys);
    assert forall id :: id in ids <==> id in Elems(ids);
    var rebuilt := new Rebuilt(env);
    var outcome := rebuilt.ApplySchedule(env, events, groups, ids);
    if outcome.Err? {
      return Err(outcome.error);
    }
    var state, core, applied := rebuilt.state, rebuilt.core, outcome.value;
    var hashes := HashList(applied);
    var clock := LastClock(applied);
    var bytes := CanonicalStateMapBytes(state);
    var root := StateRootFromBytes(env, bytes, |hashes|, clock);
    var material := CanonicalReplayBytes(hashes);
    r := Ok(ReplayResult(state, CoreState(core.regions, core.totalAuthRatioBps, core.coreRoot, core.version), root,
      env.blake3(material), hashes));
  }

  method LastClock(events: seq<VectorEvent>) returns (clock: u64)
    ensures clock == MaxClock(events)
  {
    clock := 0;
    for i := 0 to |events|
      invariant clock == MaxClock(events[..i])
    {
      assert events[..i + 1][..i] == events[..i];
      if events[i].logicalClock > clock {
        clock := events[i].logicalClock;
      }
    }
    TakeAll(events);
  }

  /** Hashes the tag, the two counters and the length-prefixed state. */
  method StateRootFromBytes(env: Foreign, state: seq<byte>, count: nat, clock: u64) returns (root: StateRoot)
    ensures root == StateRoot(env.blake3(RootBytes(state, count, clock)), count, clock)
  {
    var buf := new ByteBuffer();
    buf.Extend(Utf8(ROOT_TAG));
    FromEmpty(Utf8(ROOT_TAG));
    buf.WriteU64(count);
    buf.WriteU64(clock);
    buf.WriteU64(|state|);
    buf.Extend(state);
    root := StateRoot(env.blake3(buf.data), count, clock);
  }
}
