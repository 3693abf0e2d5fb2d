/** The core registry as a function of the log's contents, not of its order. */
module Registry {
  import opened Base
  import opened Events
  import opened Region

  ghost predicate CreatesRegion(e: VectorEvent, id: string) {
    IsRegionCreate(e) && e.entityId == id
  }

  /** Region creations that can be read, and no two under one id. */
  ghost predicate RegionsReadable(events: seq<VectorEvent>) {
    && (forall e :: e in events && IsRegionCreate(e) ==> RegionFromEvent(e).Ok? && multiset(events)[e] == 1)
    && forall e, f ::
         e in events && f in events && IsRegionCreate(e) && IsRegionCreate(f) && e.entityId == f.entityId ==> e == f
  }

  /** The regions created by a log, under their ids. */
  ghost function RegionMap(events: seq<VectorEvent>): map<string, RegionState> {
    if events == [] then map[]
    else
      var rest, last := RegionMap(events[..|events| - 1]), events[|events| - 1];
      if IsRegionCreate(last) && RegionFromEvent(last).Ok? then rest[last.entityId := RegionFromEvent(last).value]
      else rest
  }

  ghost function Shares(regions: map<string, RegionState>): map<string, int> {
    map id | id in regions :: regions[id].authRatioBps
  }

  ghost function TotalBps(regions: map<string, RegionState>): int {
    Sum(Shares(regions))
  }

  ghost predicate RegistryOk(events: seq<VectorEvent>) {
    RegionsReadable(events) && TotalBps(RegionMap(events)) < U64_LIMIT
  }

  /** A registry that holds exactly `regions`, with their sum, their count and their digest. */
  ghost predicate IsCoreOf(env: Foreign, core: CoreState, regions: map<string, RegionState>) {
    && core.regions == regions && core.totalAuthRatioBps == TotalBps(regions) && core.version == |regions|
    && core.coreRoot == CoreRoot(env, regions, core.totalAuthRatioBps, core.version)
  }

  lemma TotalInsert(regions: map<string, RegionState>, id: string, region: RegionState)
    requires id !in regions
    ensures TotalBps(regions[id := region]) == TotalBps(regions) + region.authRatioBps
    ensures |regions[id := region]| == |regions| + 1
  {
    assert Shares(regions[id := region]) == Shares(regions)[id := region.authRatioBps];
    assert regions[id := region].Keys == regions.Keys + {id};
    assert id !in Shares(regions);
    SumUpdate(Shares(regions), id, region.authRatioBps);
  }

  lemma {:induction false} PositiveShares(m: map<string, int>)
    requires forall k :: k in m ==> m[k] >= 1
    ensures |m| <= Sum(m)
    decreases |m|
  {
    if m != map[] {
      var k :| k in m && Sum(m) == m[k] + Sum(m - {k});
      assert (m - {k}).Keys == m.Keys - {k};
      assert |m - {k}| == |m| - 1;
      PositiveShares(m - {k});
    }
  }

  /** The map holds the region of each creation, and nothing else. */
  lemma {:induction false} RegionMapHolds(events: seq<VectorEvent>)
    requires forall e :: e in events && IsRegionCreate(e) ==> RegionFromEvent(e).Ok?
    ensures forall id :: id in RegionMap(events) <==> exists e :: e in events && CreatesRegion(e, id)
    ensures forall id :: id in RegionMap(events) ==>
      exists e :: e in events && CreatesRegion(e, id) && RegionMap(events)[id] == RegionFromEvent(e).value
  {
    if events != [] {
      var front, last := events[..|events| - 1], events[|events| - 1];
      assert events == front + [last];
      RegionMapHolds(front);
      forall id
        ensures id in RegionMap(events) <==> exists e :: e in events && CreatesRegion(e, id)
        ensures id in RegionMap(events) ==>
          exists e :: e in events && CreatesRegion(e, id) && RegionMap(events)[id] == RegionFromEvent(e).value
      {
        if CreatesRegion(last, id) {
          assert last in events;
        } else if id in RegionMap(front) {
          var e :| e in front && CreatesRegion(e, id) && RegionMap(front)[id] == RegionFromEvent(e).value;
          assert e in events;
        } else {
          assert forall e :: e in events && CreatesRegion(e, id) ==> e in front;
        }
      }
    }
  }

  lemma {:induction false} CountBelowTotal(regions: map<string, RegionState>)
    requires forall id :: id in regions ==> regions[id].authRatioBps >= 1
    ensures |regions| <= TotalBps(regions)
  {
    PositiveShares(Shares(regions));
    assert Shares(regions).Keys == regions.Keys;
    assert |Shares(regions)| == |Shares(regions).Keys| == |regions.Keys|;
  }

  lemma CountFits(events: seq<VectorEvent>)
    requires forall e :: e in events && IsRegionCreate(e) ==> RegionFromEvent(e).Ok?
    ensures |RegionMap(events)| <= TotalBps(RegionMap(events))
  {
    hide RegionFromEvent;
    RegionMapHolds(events);
    forall id | id in RegionMap(events) ensures RegionMap(events)[id].authRatioBps >= 1 {
      var e :| e in events && CreatesRegion(e, id) && RegionMap(events)[id] == RegionFromEvent(e).value;
    }
    CountBelowTotal(RegionMap(events));
  }

  lemma ReadableSkip(front: seq<VectorEvent>, last: VectorEvent)
    requires !IsRegionCreate(last)
    ensures RegionsReadable(front + [last]) <==> RegionsReadable(front)
  {
    var events := front + [last];
    assert forall e :: e in events <==> e in front || e == last;
    assert multiset(events) == multiset(front) + multiset{last};
  }

  lemma ReadableAdd(front: seq<VectorEvent>, last: VectorEvent)
    requires IsRegionCreate(last)
    ensures RegionsReadable(front + [last]) <==>
      RegionsReadable(front) && RegionFromEvent(last).Ok? && forall e :: e in front ==> !CreatesRegion(e, last.entityId)
  {
    var events := front + [last];
    assert forall e :: e in events <==> e in front || e == last;
    assert multiset(events) == multiset(front) + multiset{last};
    assert last in events;
    if RegionsReadable(events) {
      forall e | e in front ensures !CreatesRegion(e, last.entityId) && multiset(front)[e] <= multiset(events)[e] {
        assert e in multiset(front);
        assert multiset(front)[e] >= 1;
        assert CreatesRegion(e, last.entityId) ==> e == last && multiset(events)[last] == 1;
      }
      assert RegionsReadable(front);
    }
  }

  /** The fold succeeds exactly on acceptable logs, with the registry of their regions. */
  lemma {:induction false} FoldIsRegistry(env: Foreign, events: seq<VectorEvent>)
    ensures CoreFold(env, events).Ok? <==> RegistryOk(events)
    ensures CoreFold(env, events).Ok? ==> IsCoreOf(env, CoreFold(env, events).value, RegionMap(events))
  {
    if events == [] {
      assert Shares(map[]) == map[];
    } else {
      var front, last := events[..|events| - 1], events[|events| - 1];
      assert events == front + [last];
      FoldIsRegistry(env, front);
      if IsRegionCreate(last) {
        ReadableAdd(front, last);
        if RegionsReadable(front) && RegionFromEvent(last).Ok? {
          FoldAdd(env, front, last);
        }
      } else {
        ReadableSkip(front, last);
      }
    }
  }

  /** Inserting a region fails on a known id or an overflow, and otherwise adds exactly that region. */
  lemma InsertKeeps(env: Foreign, core: CoreState, regions: map<string, RegionState>, region: RegionState)
    requires IsCoreOf(env, core, regions) && |regions| <= TotalBps(regions) && region.authRatioBps > 0
    ensures InsertRegion(env, core, region).Ok? <==>
      region.regionId !in regions && TotalBps(regions[region.regionId := region]) < U64_LIMIT
    ensures InsertRegion(env, core, region).Ok? ==>
      IsCoreOf(env, InsertRegion(env, core, region).value, regions[region.regionId := region])
  {
    hide CoreRoot, TotalBps;
    if region.regionId !in regions {
      TotalInsert(regions, region.regionId, region);
    }
  }

  lemma RegionMapLast(front: seq<VectorEvent>, last: VectorEvent)
    requires IsRegionCreate(last) && RegionFromEvent(last).Ok?
    ensures RegionMap(front + [last]) == RegionMap(front)[last.entityId := RegionFromEvent(last).value]
  {
    hide RegionFromEvent, IsRegionCreate;
    assert (front + [last])[..|front|] == front;
  }

  lemma CoreFoldLast(env: Foreign, front: seq<VectorEvent>, last: VectorEvent)
    requires IsRegionCreate(last)
    ensures CoreFold(env, front).Err? ==> CoreFold(env, front + [last]).Err?
    ensures CoreFold(env, front).Ok? && RegionFromEvent(last).Ok? ==>
      CoreFold(env, front + [last]) == InsertRegion(env, CoreFold(env, front).value, RegionFromEvent(last).value)
  {
    hide RegionFromEvent, IsRegionCreate, InsertRegion;
    assert (front + [last])[..|front|] == front;
  }

  lemma FoldAdd(env: Foreign, front: seq<VectorEvent>, last: VectorEvent)
    requires IsRegionCreate(last) && RegionFromEvent(last).Ok? && RegionsReadable(front)
    requires CoreFold(env, front).Ok? <==> RegistryOk(front)
    requires CoreFold(env, front).Ok? ==> IsCoreOf(env, CoreFold(env, front).value, RegionMap(front))
    ensures CoreFold(env, front + [last]).Ok? <==> RegistryOk(front + [last])
    ensures CoreFold(env, front + [last]).Ok? ==>
      IsCoreOf(env, CoreFold(env, front + [last]).value, RegionMap(front + [last]))
  {
    hide RegionFromEvent, IsRegionCreate, CoreRoot, InsertRegion, TotalBps, RegionMap, CoreFold;
    var regions, region := RegionMap(front), RegionFromEvent(last).value;
    RegionMapLast(front, last);
    CoreFoldLast(env, front, last);
    RegionMapHolds(front);
    ReadableAdd(front, last);
    CountFits(front);
    if last.entityId !in regions { TotalInsert(regions, last.entityId, region); }
    if CoreFold(env, front).Ok? {
      InsertKeeps(env, CoreFold(env, front).value, regions, region);
    }
  }

  /** Every rearrangement of a log yields the same registry, or fails with it. */
  lemma FoldIgnoresOrder(env: Foreign, a: seq<VectorEvent>, b: seq<VectorEvent>)
    requires multiset(a) == multiset(b)
    ensures CoreFold(env, a).Ok? <==> CoreFold(env, b).Ok?
    ensures CoreFold(env, a).Ok? ==> CoreFold(env, a) == CoreFold(env, b)
  {
    FoldIsRegistry(env, a);
    FoldIsRegistry(env, b);
    SameMultisetSameElems(a, b);
    assert forall e :: e in a <==> e in Elems(a);
    assert forall e :: e in b <==> e in Elems(b);
    if RegionsReadable(a) { ReadableRearranged(a, b); }
    if RegionsReadable(b) { ReadableRearranged(b, a); }
  }

  lemma ReadableRearranged(a: seq<VectorEvent>, b: seq<VectorEvent>)
    requires RegionsReadable(a) && multiset(a) == multiset(b) && forall e :: e in a <==> e in b
    ensures RegionsReadable(b) && RegionMap(a) == RegionMap(b)
  {
    hide RegionFromEvent, IsRegionCreate, RegionMap;
    RegionMapHolds(a);
    RegionMapHolds(b);
    var m, n := RegionMap(a), RegionMap(b);
    forall id ensures id in m <==> id in n {
      if id in m { var e :| e in a && CreatesRegion(e, id); assert e in b; }
      if id in n { var e :| e in b && CreatesRegion(e, id); assert e in a; }
    }
    forall id | id in m ensures m[id] == n[id] {
      var e :| e in a && CreatesRegion(e, id) && m[id] == RegionFromEvent(e).value;
      var f :| f in b && CreatesRegion(f, id) && n[id] == RegionFromEvent(f).value;
      assert f in a && e == f;
    }
  }
}
