/**
 * Regions under their lookup keys, over every run: keys stay unique, and a created region stays
 * listed. Nothing is assumed about other operations: not that they use fresh ids, succeed, fail
 * cleanly, or can be replayed.
 */
module Lookups {
  import opened Agreement
  import opened Base
  import opened Events
  import opened Invariant
  import opened Listing
  import opened Machine
  import opened Ordering
  import opened Region
  import opened Registry
  import opened Serialization
  import opened Stored
  import opened Validation
  import opened Vectors
  import Text

  predicate SameLookup(a: RegionState, b: RegionState) {
    a.normalizedName == b.normalizedName && NormalizedPrefix(a.regionPrefix) == NormalizedPrefix(b.regionPrefix)
  }

  // ----- The registry of a log, by its latest creations -----

  /** `e` is the creation of `id` with the greatest key. */
  ghost predicate IsTop(s: set<VectorEvent>, id: string, e: VectorEvent) {
    e in s && CreatesRegion(e, id) && forall f :: f in s && CreatesRegion(f, id) ==> EventLeq(LogKey, f, e)
  }

  ghost predicate AllReadable(s: set<VectorEvent>) {
    forall e :: e in s && IsRegionCreate(e) ==> RegionFromEvent(e).Ok?
  }

  /** The map has an entry for every created id, and the entry is that of the greatest creation. */
  lemma {:induction false} MapOfTops(log: seq<VectorEvent>, id: string)
    requires EventsAscend(LogKey, log) && AllReadable(Elems(log))
    ensures id in RegionMap(log) <==> exists e :: e in Elems(log) && CreatesRegion(e, id)
    ensures id in RegionMap(log) ==>
      exists e :: IsTop(Elems(log), id, e) && RegionMap(log)[id] == RegionFromEvent(e).value
  {
    hide EventLeq, IsRegionCreate, RegionFromEvent;
    if log != [] {
      var front, last := log[..|log| - 1], log[|log| - 1];
      assert log == front + [last];
      assert forall e :: e in log <==> e in front || e == last;
      MapOfTops(front, id);
      if CreatesRegion(last, id) {
        LastIsTop(log, id);
      } else if id in RegionMap(front) {
        var e :| IsTop(Elems(front), id, e) && RegionMap(front)[id] == RegionFromEvent(e).value;
        assert IsTop(Elems(log), id, e);
      }
    }
  }

  lemma LastIsTop(log: seq<VectorEvent>, id: string)
    requires log != [] && EventsAscend(LogKey, log) && CreatesRegion(log[|log| - 1], id)
    ensures IsTop(Elems(log), id, log[|log| - 1])
  {
    hide EventLeq, IsRegionCreate;
    var last := log[|log| - 1];
    forall f | f in Elems(log) && CreatesRegion(f, id) ensures EventLeq(LogKey, f, last) {
      var i :| 0 <= i < |log| && log[i] == f;
      if i == |log| - 1 { EventLeqReflexive(LogKey, last); }
    }
  }

  lemma TopUnique(s: set<VectorEvent>, id: string, e: VectorEvent, f: VectorEvent)
    requires Keyed(s) && IsTop(s, id, e) && IsTop(s, id, f)
    ensures e == f
  {
    hide EventLeq, IsRegionCreate;
    EventLeqAntisymmetric(LogKey, e, f);
  }

  // ----- Kernels whose creations can be read -----

  /** Events are stored under their hashes, and every region creation can be read. */
  ghost predicate WellLogged(k: Kernel) {
    && (forall h :: h in k.events ==> k.events[h].eventHash == h)
    && forall h :: h in k.events && IsRegionCreate(k.events[h]) ==> RegionFromEvent(k.events[h]).Ok?
  }

  ghost function Stocked(k: Kernel): set<VectorEvent> {
    set h | h in k.events :: k.events[h]
  }

  lemma LogIsStock(k: Kernel)
    requires WellLogged(k)
    ensures Elems(Log(k)) == Stocked(k) && EventsAscend(LogKey, Log(k)) && Keyed(Stocked(k)) && AllReadable(Stocked(k))
    ensures RegionsListable(Log(k))
  {
    hide Log, EventsAscend, IsRegionCreate, RegionFromEvent;
    LogHolds(k);
    forall e ensures e in Elems(Log(k)) <==> e in Stocked(k) {
      if e.eventHash in k.events && k.events[e.eventHash] == e { assert e in Stocked(k); }
    }
  }

  /** The entry of an id, by the greatest creation of that id. */
  lemma EntryOfTop(k: Kernel, id: string, e: VectorEvent)
    requires WellLogged(k) && IsTop(Stocked(k), id, e)
    ensures id in RegionMap(Log(k)) && RegionMap(Log(k))[id] == RegionFromEvent(e).value
  {
    hide Log, IsRegionCreate, RegionFromEvent, RegionMap, EventLeq, EventsAscend, WellLogged, Stocked, Keyed,
      AllReadable;
    LogIsStock(k);
    MapOfTops(Log(k), id);
    var f :| IsTop(Stocked(k), id, f) && RegionMap(Log(k))[id] == RegionFromEvent(f).value;
    TopUnique(Stocked(k), id, e, f);
  }

  lemma TopOfEntry(k: Kernel, id: string) returns (e: VectorEvent)
    requires WellLogged(k) && id in RegionMap(Log(k))
    ensures IsTop(Stocked(k), id, e) && RegionMap(Log(k))[id] == RegionFromEvent(e).value
  {
    hide Log, IsRegionCreate, RegionFromEvent, RegionMap, EventLeq, EventsAscend, WellLogged, Stocked, Keyed,
      AllReadable;
    LogIsStock(k);
    MapOfTops(Log(k), id);
    e :| IsTop(Stocked(k), id, e) && RegionMap(Log(k))[id] == RegionFromEvent(e).value;
  }

  /** Both kernels hold the same events under the id, as far as they create regions. */
  ghost predicate SameCreations(k: Kernel, k': Kernel, id: string) {
    forall e :: CreatesRegion(e, id) ==> (e in Stocked(k) <==> e in Stocked(k'))
  }

  lemma EntryStays(k: Kernel, k': Kernel, id: string)
    requires WellLogged(k) && WellLogged(k') && SameCreations(k, k', id)
    ensures id in RegionMap(Log(k')) <==> id in RegionMap(Log(k))
    ensures id in RegionMap(Log(k)) ==> RegionMap(Log(k'))[id] == RegionMap(Log(k))[id]
  {
    hide Log, IsRegionCreate, RegionFromEvent, RegionMap, EventLeq, WellLogged, Stocked;
    if id in RegionMap(Log(k)) {
      var e := TopOfEntry(k, id);
      assert IsTop(Stocked(k'), id, e);
      EntryOfTop(k', id, e);
    }
    if id in RegionMap(Log(k')) {
      var e := TopOfEntry(k', id);
      assert IsTop(Stocked(k), id, e);
      EntryOfTop(k, id, e);
    }
  }

  // ----- Operations that create no region -----

  /** The log has grown by events of vectors only. */
  ghost predicate AddsNoRegion(k: Kernel, k': Kernel) {
    && (forall h :: h in k.events ==> h in k'.events && k'.events[h] == k.events[h])
    && (forall h :: h in k'.events && h !in k.events ==> k'.events[h].eventHash == h && !IsRegionCreate(k'.events[h]))
  }

  lemma NoRegionTwice(k: Kernel, mid: Kernel, k': Kernel)
    requires AddsNoRegion(k, mid) && AddsNoRegion(mid, k')
    ensures AddsNoRegion(k, k')
  {
    hide IsRegionCreate;
  }

  lemma NoRegionStays(k: Kernel, k': Kernel, id: string)
    requires WellLogged(k) && AddsNoRegion(k, k')
    ensures WellLogged(k') && SameCreations(k, k', id)
  {
    hide IsRegionCreate, RegionFromEvent;
    forall e | CreatesRegion(e, id) ensures e in Stocked(k) <==> e in Stocked(k') {
      if e in Stocked(k) {
        var h :| h in k.events && k.events[h] == e;
        assert h in k'.events && k'.events[h] == e;
      }
      if e in Stocked(k') {
        var h :| h in k'.events && k'.events[h] == e;
        assert h in k.events;
      }
    }
  }

  lemma EmitAddsNoRegion(env: Foreign, k: Kernel, before: Option<Vector>, after: Vector, op: OperationType, clock: u64,
                         time: u64, parents: seq<string>)
    requires !op.Other? && after.typeMetadata == map[]
    ensures AddsNoRegion(k, Emit(env, k, before, after, op, clock, time, parents).0)
  {
    hide Log, NextSequence, EventId, CheckFields, PayloadBytes, EventBytes;
    var r := Emit(env, k, before, after, op, clock, time, parents);
    if r.1.Ok? {
      var e := EmitAdds(env, k, before, after, op, clock, time, parents);
      assert e.vectorAfter.metadata == map[];
    }
  }

  lemma UpdateAddsNoRegion(env: Foreign, k: Kernel, op: Op)
    requires op.CertifyOp? || op.DrainOp? || op.ProjectOp? || op.ReconstructOp?
    requires AllGood(k)
    ensures AddsNoRegion(k, UpdateStep(env, k, op).0)
  {
    hide NewState, Emit, Log, AddsNoRegion, ParentsFor, ValidateState;
    if op.id in k.states && NewState(k.states[op.id], op).Ok? {
      var v := k.states[op.id];
      var after := NewState(v, op).value;
      NewStateSucceeds(v, op);
      var stored := Put(k, after);
      EmitAddsNoRegion(env, stored, Some(v), after, EventKind(op), after.version, after.updatedAtMs,
        ParentsFor(Log(stored), after.vectorId));
      SameEventsNoRegion(k, stored, UpdateStep(env, k, op).0);
    } else {
      NothingAdded(k);
    }
  }

  lemma NothingAdded(k: Kernel)
    ensures AddsNoRegion(k, k)
  {
  }

  lemma SameEventsNoRegion(k: Kernel, stored: Kernel, k': Kernel)
    requires stored.events == k.events && AddsNoRegion(stored, k')
    ensures AddsNoRegion(k, k')
  {
    hide IsRegionCreate;
  }

  lemma TransferAddsNoRegion(env: Foreign, k: Kernel, op: Op)
    requires op.TransferOp? && AllGood(k)
    ensures AddsNoRegion(k, TransferStep(env, k, op).0)
  {
    hide TransferStates, Emit, Log, AddsNoRegion, ParentsFor, ValidateState;
    NothingAdded(k);
    if TransferWrites(k, op) {
      var from, to := k.states[op.fromId], k.states[op.toId];
      var sides := Sides(k, op);
      TransferStatesSucceed(from, to, op);
      var stored := Put(Put(k, sides.0), sides.1);
      var sent := EmitUpdate(env, stored, from, sides.0, OperationType.Transfer, op.sentAt).0;
      EmitAddsNoRegion(env, stored, Some(from), sides.0, OperationType.Transfer, sides.0.version, op.sentAt,
        ParentsFor(Log(stored), sides.0.vectorId));
      EmitAddsNoRegion(env, sent, Some(to), sides.1, OperationType.Transfer, sides.1.version, op.receivedAt,
        ParentsFor(Log(sent), sides.1.vectorId));
      NoRegionTwice(stored, sent, EmitUpdate(env, sent, to, sides.1, OperationType.Transfer, op.receivedAt).0);
      SameEventsNoRegion(k, stored, TransferStep(env, k, op).0);
    }
  }

  lemma OriginAddsNoRegion(env: Foreign, k: Kernel, request: OriginRequest, now: u64, checkedAt: u64)
    ensures AddsNoRegion(k, OriginStep(env, k, request, now, checkedAt).0)
  {
    hide OriginState, Emit, AddsNoRegion, ValidateState;
    NothingAdded(k);
    if OriginState(env, request, now, checkedAt).Ok? {
      var v := OriginState(env, request, now, checkedAt).value;
      OriginStateGood(env, request, now, checkedAt);
      EmitAddsNoRegion(env, Put(k, v), None, v, OperationType.OriginCreate, v.version, v.createdAtMs, []);
      SameEventsNoRegion(k, Put(k, v), OriginStep(env, k, request, now, checkedAt).0);
    }
  }

  lemma OthersAddNoRegion(env: Foreign, k: Kernel, op: Op)
    requires AllGood(k) && !op.RegionOp?
    ensures AddsNoRegion(k, Step(env, k, op).0)
  {
    hide AddsNoRegion, AllGood, OriginStep, TransferStep, UpdateStep;
    match op
    case OriginOp(request, now, checkedAt) => OriginAddsNoRegion(env, k, request, now, checkedAt);
    case TransferOp(_, _, _, _, _, _, _) => TransferAddsNoRegion(env, k, op);
    case CertifyOp(_, _, _) => UpdateAddsNoRegion(env, k, op);
    case DrainOp(_, _, _, _) => UpdateAddsNoRegion(env, k, op);
    case ProjectOp(_, _, _, _, _) => UpdateAddsNoRegion(env, k, op);
    case ReconstructOp(_, _, _, _) => UpdateAddsNoRegion(env, k, op);
  }

  // ----- Region creations -----

  /** A refused region creation changes nothing. */
  lemma RefusedRegionUnchanged(env: Foreign, k: Kernel, request: RegionRequest, actor: string, now: u64)
    requires RegionStep(env, k, request, actor, now).1.Err?
    ensures RegionStep(env, k, request, actor, now).0 == k
  {
    hide RegionTaken, RegionsListable, Log, ValidateRequest, AdmitProblem, Sealed;
  }

  lemma FreeKey(env: Foreign, k: Kernel, request: RegionRequest, actor: string, now: u64)
    requires RegionStep(env, k, request, actor, now).1.Ok?
    ensures !RegionTaken(Log(k), request.regionName, request.regionPrefix)
  {
    hide RegionTaken, Admit, Log, ValidateRequest;
  }

  lemma TakenRefused(env: Foreign, k: Kernel, request: RegionRequest, actor: string, now: u64)
    requires RegionTaken(Log(k), request.regionName, request.regionPrefix)
    ensures RegionStep(env, k, request, actor, now).1.Err? && RegionStep(env, k, request, actor, now).0 == k
  {
    hide RegionTaken, Admit, Log, ValidateRequest;
  }

  lemma RequestedKey(env: Foreign, request: RegionRequest, actor: string, e: VectorEvent, other: RegionState)
    ensures SameLookup(other, RequestedRegion(env, request, actor, e)) <==>
      MatchesKey(other, request.regionName, request.regionPrefix)
    ensures MatchesKey(RequestedRegion(env, request, actor, e), request.regionName, request.regionPrefix)
  {
    PrefixReadsBack(request.regionPrefix);
  }

  /** The event an accepted creation adds, and what it reads back as. */
  lemma CreationAdds(env: Foreign, k: Kernel, request: RegionRequest, actor: string, now: u64) returns (e: VectorEvent)
    requires PrintsHex(env) && WellLogged(k) && RegionStep(env, k, request, actor, now).1.Ok?
    ensures var k' := RegionStep(env, k, request, actor, now).0;
      && k' == k.(events := k.events[e.eventHash := e]) && e.eventHash !in k.events
      && WellLogged(k') && Stocked(k') == Stocked(k) + {e}
    ensures IsRegionCreate(e) && e.entityId == RegionId(env, request, actor, 1)
    ensures RegionFromEvent(e) == Ok(RequestedRegion(env, request, actor, e)) && e.logicalClock == NextClock(Log(k))
    ensures forall id :: id != e.entityId ==> SameCreations(k, RegionStep(env, k, request, actor, now).0, id)
  {
    hide RegionStep, Log, IsRegionCreate, RegionFromEvent, Sealed, GenesisDraft, RegionId, PrintsHex, RequestedRegion;
    e := RegionAdds(env, k, request, actor, now);
    GenesisReadsBack(env, request, actor, NextClock(Log(k)), now, 1);
    StockGrows(k, RegionStep(env, k, request, actor, now).0, e);
  }

  lemma StockGrows(k: Kernel, k': Kernel, e: VectorEvent)
    requires k'.events == k.events[e.eventHash := e] && e.eventHash !in k.events
    ensures Stocked(k') == Stocked(k) + {e}
  {
    forall f ensures f in Stocked(k') <==> f in Stocked(k) || f == e {
      if f in Stocked(k) {
        var h :| h in k.events && k.events[h] == f;
        assert k'.events[h] == f;
      }
      if f == e { assert k'.events[e.eventHash] == e; }
    }
  }

  /** The entry under the created id is the requested region, or the one that was there. */
  lemma CreatedEntry(env: Foreign, k: Kernel, request: RegionRequest, actor: string, now: u64) returns (e: VectorEvent)
    requires PrintsHex(env) && WellLogged(k) && RegionStep(env, k, request, actor, now).1.Ok?
    ensures var k', id := RegionStep(env, k, request, actor, now).0, RegionId(env, request, actor, 1);
      && WellLogged(k') && id in RegionMap(Log(k'))
      && (RegionMap(Log(k'))[id] == RequestedRegion(env, request, actor, e)
          || (id in RegionMap(Log(k)) && RegionMap(Log(k'))[id] == RegionMap(Log(k))[id]))
      && (id !in RegionMap(Log(k)) || NextClock(Log(k)) < U64_LIMIT - 1 ==>
            RegionMap(Log(k'))[id] == RequestedRegion(env, request, actor, e))
  {
    hide RegionStep, Log, IsRegionCreate, RegionFromEvent, RegionId, PrintsHex, RequestedRegion, RegionMap, EventLeq,
      WellLogged, NextClock;
    e := CreationAdds(env, k, request, actor, now);
    var k', id := RegionStep(env, k, request, actor, now).0, e.entityId;
    var s := Stocked(k);
    assert CreatesRegion(e, id);
    LogIsStock(k');
    MapOfTops(Log(k'), id);
    var top := TopOfEntry(k', id);
    if top != e {
      assert IsTop(s, id, top);
      EntryOfTop(k, id, top);
      if NextClock(Log(k)) < U64_LIMIT - 1 {
        NewClockIsGreater(k, top, e);
        assert false;
      }
    }
  }

  lemma NewClockIsGreater(k: Kernel, f: VectorEvent, e: VectorEvent)
    requires WellLogged(k) && f in Stocked(k) && e.logicalClock == NextClock(Log(k)) < U64_LIMIT - 1
    ensures !EventLeq(LogKey, e, f)
  {
    hide Log, WellLogged, Stocked, NextClock;
    LogIsStock(k);
    HashesOf(k);
    NextClockIsLater(k);
    assert f in Log(k);
  }

  lemma HashesOf(k: Kernel)
    requires WellLogged(k)
    ensures forall h :: h in k.events ==> k.events[h].eventHash == h
  {
    hide IsRegionCreate, RegionFromEvent;
  }

  /** A new region event is later than everything in the log, until the clock saturates. */
  lemma NextClockIsLater(k: Kernel)
    requires forall h :: h in k.events ==> k.events[h].eventHash == h
    ensures forall e :: e in Log(k) ==> e.logicalClock < NextClock(Log(k)) || NextClock(Log(k)) == U64_LIMIT - 1
  {
    hide Log;
    LogHolds(k);
    var log := Log(k);
    forall e | e in log ensures e.logicalClock <= log[|log| - 1].logicalClock {
      var i :| 0 <= i < |log| && log[i] == e;
      if i < |log| - 1 { assert EventLeq(LogKey, log[i], log[|log| - 1]); }
    }
  }

  // ----- Keys stay unique -----

  /** No two entries of the registry share a lookup key. */
  ghost predicate UniqueLookups(regions: map<string, RegionState>) {
    forall a, b :: a in regions && b in regions && SameLookup(regions[a], regions[b]) ==> a == b
  }

  lemma CreationKeepsUnique(env: Foreign, k: Kernel, request: RegionRequest, actor: string, now: u64)
    requires PrintsHex(env) && WellLogged(k) && UniqueLookups(RegionMap(Log(k)))
    requires RegionStep(env, k, request, actor, now).1.Ok?
    ensures WellLogged(RegionStep(env, k, request, actor, now).0)
    ensures UniqueLookups(RegionMap(Log(RegionStep(env, k, request, actor, now).0)))
  {
    hide RegionStep, Log, IsRegionCreate, RegionFromEvent, RegionId, PrintsHex, RequestedRegion, RegionMap, WellLogged,
      NextClock, MatchesKey, SameCreations, Stocked;
    var k' := RegionStep(env, k, request, actor, now).0;
    var added := CreationAdds(env, k, request, actor, now);
    var e := CreatedEntry(env, k, request, actor, now);
    FreeKey(env, k, request, actor, now);
    var before, after, id := RegionMap(Log(k)), RegionMap(Log(k')), added.entityId;
    forall a | a != id ensures (a in after <==> a in before) && (a in before ==> after[a] == before[a]) {
      EntryStays(k, k', a);
    }
    forall a | a in before ensures !SameLookup(before[a], RequestedRegion(env, request, actor, e)) {
      RequestedKey(env, request, actor, e, before[a]);
    }
    UniqueWith(before, after, id, RequestedRegion(env, request, actor, e));
  }

  lemma UniqueWith(before: map<string, RegionState>, after: map<string, RegionState>, id: string, region: RegionState)
    requires UniqueLookups(before) && id in after && forall a :: a in before ==> !SameLookup(before[a], region)
    requires forall a :: a != id ==> (a in after <==> a in before) && (a in before ==> after[a] == before[a])
    requires after[id] == region || (id in before && after[id] == before[id])
    ensures UniqueLookups(after)
  {
    hide NormalizedPrefix;
  }

  lemma StepKeepsUnique(env: Foreign, k: Kernel, op: Op)
    requires PrintsHex(env) && AllGood(k) && WellLogged(k) && UniqueLookups(RegionMap(Log(k)))
    ensures WellLogged(Step(env, k, op).0) && UniqueLookups(RegionMap(Log(Step(env, k, op).0)))
  {
    hide AllGood, WellLogged, UniqueLookups, Log, RegionMap, UpdateStep, TransferStep, OriginStep, RegionStep,
      PrintsHex, AddsNoRegion, SameCreations;
    var k' := Step(env, k, op).0;
    if op.RegionOp? {
      if RegionStep(env, k, op.region, op.actor, op.now).1.Ok? {
        CreationKeepsUnique(env, k, op.region, op.actor, op.now);
      } else {
        RefusedRegionUnchanged(env, k, op.region, op.actor, op.now);
      }
    } else {
      OthersAddNoRegion(env, k, op);
      SameRegistry(k, k');
    }
  }

  lemma SameRegistry(k: Kernel, k': Kernel)
    requires WellLogged(k) && AddsNoRegion(k, k')
    ensures WellLogged(k') && RegionMap(Log(k')) == RegionMap(Log(k))
  {
    hide WellLogged, AddsNoRegion, Log, RegionMap, SameCreations;
    NoRegionStays(k, k', "");
    forall id
      ensures id in RegionMap(Log(k')) <==> id in RegionMap(Log(k))
      ensures id in RegionMap(Log(k)) ==> RegionMap(Log(k'))[id] == RegionMap(Log(k))[id]
    {
      NoRegionStays(k, k', id);
      EntryStays(k, k', id);
    }
  }

  lemma {:induction false} RunKeepsUnique(env: Foreign, ops: seq<Op>)
    requires PrintsHex(env)
    ensures AllGood(Run(env, ops)) && WellLogged(Run(env, ops)) && UniqueLookups(RegionMap(Log(Run(env, ops))))
  {
    hide Step, AllGood, Log, PrintsHex, UniqueLookups, RegionMap;
    RunStoresGood(env, ops);
    if ops == [] {
      StoredKeys(map[]);
      EmptyRegistry();
    } else {
      hide WellLogged;
      var front := ops[..|ops| - 1];
      RunKeepsUnique(env, front);
      StepKeepsUnique(env, Run(env, front), ops[|ops| - 1]);
    }
  }

  lemma EmptyRegistry()
    ensures RegionMap(Log(EMPTY)) == map[] && UniqueLookups(RegionMap(Log(EMPTY)))
  {
    StoredKeys(map[]);
    assert Log(EMPTY) == [];
  }

  /** After every run, no two listed regions share a lookup key. */
  lemma RunRegionsUnique(env: Foreign, ops: seq<Op>)
    requires PrintsHex(env)
    ensures var regions := RegionMap(Log(Run(env, ops)));
      forall a, b :: a in regions && b in regions && SameLookup(regions[a], regions[b]) ==> a == b
  {
    hide Log, Run, RegionMap, PrintsHex, SameLookup, WellLogged, AllGood;
    RunKeepsUnique(env, ops);
  }

  // ----- Created regions stay listed -----

  /** A creation under the id of a listed region, but another lookup key: its digest collides. */
  predicate Collides(env: Foreign, op: Op, id: string, region: RegionState) {
    op.RegionOp? && RegionId(env, op.region, op.actor, 1) == id
    && !MatchesKey(region, op.region.regionName, op.region.regionPrefix)
  }

  lemma StepKeepsEntry(env: Foreign, k: Kernel, op: Op, id: string)
    requires PrintsHex(env) && AllGood(k) && WellLogged(k) && id in RegionMap(Log(k))
    requires !Collides(env, op, id, RegionMap(Log(k))[id])
    ensures id in RegionMap(Log(Step(env, k, op).0))
    ensures RegionMap(Log(Step(env, k, op).0))[id] == RegionMap(Log(k))[id]
  {
    hide AllGood, WellLogged, Log, RegionMap, UpdateStep, TransferStep, OriginStep, RegionStep, PrintsHex,
      AddsNoRegion, SameCreations, MatchesKey, RegionId, Stocked, IsRegionCreate, RegionFromEvent, RequestedRegion;
    var k' := Step(env, k, op).0;
    if op.RegionOp? {
      if RegionStep(env, k, op.region, op.actor, op.now).1.Ok? {
        FreeKey(env, k, op.region, op.actor, op.now);
        var e := CreationAdds(env, k, op.region, op.actor, op.now);
        assert e.entityId != id;
        EntryStays(k, k', id);
      } else {
        RefusedRegionUnchanged(env, k, op.region, op.actor, op.now);
      }
    } else {
      OthersAddNoRegion(env, k, op);
      SameRegistry(k, k');
    }
  }

  /** A listed region stays listed, whatever else is run, unless its id is created again under another key. */
  lemma {:induction false} StaysListed(env: Foreign, ops: seq<Op>, more: seq<Op>, id: string)
    requires PrintsHex(env) && id in RegionMap(Log(Run(env, ops)))
    requires forall op :: op in more ==> !Collides(env, op, id, RegionMap(Log(Run(env, ops)))[id])
    ensures id in RegionMap(Log(Run(env, ops + more)))
    ensures RegionMap(Log(Run(env, ops + more)))[id] == RegionMap(Log(Run(env, ops)))[id]
    decreases |more|
  {
    hide Step, Run, Log, RegionMap, PrintsHex, Collides, AllGood, WellLogged, UniqueLookups;
    if more == [] {
      assert ops + more == ops;
    } else {
      var front, op := more[..|more| - 1], more[|more| - 1];
      assert more == front + [op] && ops + more == (ops + front) + [op];
      StaysListed(env, ops, front, id);
      RunNext(env, ops + front, op);
      RunKeepsUnique(env, ops + front);
      assert op in more;
      StepKeepsEntry(env, Run(env, ops + front), op, id);
    }
  }

  /**
   * And exactly then: once an accepted creation reuses the id of a listed region, the region's own
   * key is free again, as long as the clock has not saturated.
   */
  lemma KeyStaysIff(env: Foreign, k: Kernel, op: Op, id: string, name: string, prefix: Option<string>)
    requires PrintsHex(env) && AllGood(k) && WellLogged(k) && UniqueLookups(RegionMap(Log(k)))
    requires id in RegionMap(Log(k)) && MatchesKey(RegionMap(Log(k))[id], name, prefix)
    requires op.RegionOp? && Step(env, k, op).1.Ok? && NextClock(Log(k)) < U64_LIMIT - 1
    ensures RegionTaken(Log(Step(env, k, op).0), name, prefix) <==> RegionId(env, op.region, op.actor, 1) != id
  {
    hide AllGood, WellLogged, Log, RegionMap, RegionStep, PrintsHex, SameCreations, RegionId, Stocked, IsRegionCreate,
      RegionFromEvent, RequestedRegion, NextClock, MatchesKey, NormalizedPrefix, NormalizedName;
    var k' := Step(env, k, op).0;
    var added := CreationAdds(env, k, op.region, op.actor, op.now);
    var before, after := RegionMap(Log(k)), RegionMap(Log(k'));
    if added.entityId != id {
      EntryStays(k, k', id);
    } else {
      FreeKey(env, k, op.region, op.actor, op.now);
      var e := CreatedEntry(env, k, op.region, op.actor, op.now);
      RequestedKey(env, op.region, op.actor, e, before[id]);
      assert after[id] == RequestedRegion(env, op.region, op.actor, e) && !SameLookup(before[id], after[id]);
      forall a | a in after ensures !MatchesKey(after[a], name, prefix) {
        if a != id { EntryStays(k, k', a); }
        if MatchesKey(after[a], name, prefix) { MatchingIsSame(before[id], after[a], name, prefix); }
      }
    }
  }

  lemma MatchingIsSame(a: RegionState, b: RegionState, name: string, prefix: Option<string>)
    requires MatchesKey(a, name, prefix) && MatchesKey(b, name, prefix)
    ensures SameLookup(a, b)
  {
  }

  /**
   * Two requests for one lookup key, however it is spelled: name and prefix agree place by place up to
   * the case of Latin letters and surrounding whitespace; no prefix is a blank one.
   */
  ghost predicate SameKey(a: RegionRequest, b: RegionRequest) {
    && Text.SpelledAlike(a.regionName, b.regionName)
    && Text.SpelledAlike(OrEmpty(a.regionPrefix), OrEmpty(b.regionPrefix))
  }

  /** A created region is found under exactly the spellings of its requested name and prefix. */
  lemma FoundBySpelling(env: Foreign, r: RegionRequest, actor: string, e: VectorEvent, name: string,
                        prefix: Option<string>)
    ensures MatchesKey(RequestedRegion(env, r, actor, e), name, prefix) <==>
      Text.SpelledAlike(r.regionName, name) && Text.SpelledAlike(OrEmpty(r.regionPrefix), OrEmpty(prefix))
  {
    hide Text.SpelledAlike, Text.Trim, Text.Lower, Text.Upper, NormalizedPrefix;
    PrefixReadsBack(r.regionPrefix);
    Text.NormalFormsIff(r.regionName, name);
    PrefixSpelling(r.regionPrefix, prefix);
  }

  lemma PrefixSpelling(a: Option<string>, b: Option<string>)
    ensures NormalizedPrefix(a) == NormalizedPrefix(b) <==> Text.SpelledAlike(OrEmpty(a), OrEmpty(b))
  {
    hide Text.SpelledAlike, Text.Trim, Text.Lower, Text.Upper;
    Text.NormalFormsIff(OrEmpty(a), OrEmpty(b));
    EmptyNormalizes();
  }

  lemma EmptyNormalizes()
    ensures Text.Upper(Text.Trim("")) == ""
  {
  }

  /** The id is listed with the requested name by its creator, and is what any spelling `other` of the key finds. */
  ghost predicate ListedAs(regions: map<string, RegionState>, id: string, r: RegionRequest, actor: string,
                           other: RegionRequest) {
    && id in regions && regions[id].regionName == r.regionName && regions[id].creatorPublicKey == actor
    && IsFirstMatch(regions[id], regions, other.regionName, other.regionPrefix)
    && (forall x :: x in regions.Values && MatchesKey(x, other.regionName, other.regionPrefix) ==> x == regions[id])
  }

  /**
   * `op` creates a region after `ops`, and no operation of `more` has its id but another key: digests of
   * different keys do not collide.
   */
  ghost predicate CreatesFor(env: Foreign, ops: seq<Op>, op: Op, more: seq<Op>) {
    && op.RegionOp? && Step(env, Run(env, ops), op).1.Ok?
    && var log, id := Log(Run(env, ops)), RegionId(env, op.region, op.actor, 1);
      && (id !in RegionMap(log) || NextClock(log) < U64_LIMIT - 1)
      && forall o :: o in more && o.RegionOp? && RegionId(env, o.region, o.actor, 1) == id ==>
           SameKey(o.region, op.region)
  }

  /**
   * Once a region is created it stays listed as requested, is the one found under its key, and every
   * request for the same key is refused without effect, at every later point of the run.
   */
  lemma SecondCreateRefused(env: Foreign, ops: seq<Op>, op: Op, more: seq<Op>, other: RegionRequest, actor: string,
                            later: u64)
    requires PrintsHex(env) && CreatesFor(env, ops, op, more) && SameKey(other, op.region)
    ensures var k := Run(env, ops + [op] + more);
      && ListedAs(RegionMap(Log(k)), RegionId(env, op.region, op.actor, 1), op.region, op.actor, other)
      && Step(env, k, RegionOp(other, actor, later)).1.Err? && Step(env, k, RegionOp(other, actor, later)).0 == k
  {
    hide Run, Log, RegionMap, RegionStep, PrintsHex, RegionId, MatchesKey, NextClock, SameKey, Step, ListedAs,
      RegionTaken, RequestedRegion, UniqueLookups;
    var id := RegionId(env, op.region, op.actor, 1);
    var e := KeptAsCreated(env, ops, op, more);
    var k := Run(env, ops + [op] + more);
    ListedWhen(env, RegionMap(Log(k)), id, op.region, op.actor, e, other);
    RequestMatches(env, op.region, op.actor, e, other);
    TakenWhen(Log(k), id, other);
    TakenRefused(env, k, other, actor, later);
    RegionStepIs(env, k, RegionOp(other, actor, later));
  }

  lemma TakenWhen(log: seq<VectorEvent>, id: string, other: RegionRequest)
    requires id in RegionMap(log) && MatchesKey(RegionMap(log)[id], other.regionName, other.regionPrefix)
    ensures RegionTaken(log, other.regionName, other.regionPrefix)
  {
    hide RegionMap, MatchesKey;
  }

  lemma ListedWhen(env: Foreign, regions: map<string, RegionState>, id: string, r: RegionRequest, actor: string,
                   e: VectorEvent, other: RegionRequest)
    requires UniqueLookups(regions) && id in regions && regions[id] == RequestedRegion(env, r, actor, e)
    requires SameKey(other, r)
    ensures ListedAs(regions, id, r, actor, other)
  {
    hide UniqueLookups, RequestedRegion, MatchesKey, SameKey, IsFirstMatch;
    RequestMatches(env, r, actor, e, other);
    OnlyMatch(regions, id, other.regionName, other.regionPrefix);
    RequestedFields(env, r, actor, e);
  }

  lemma KeptAsCreated(env: Foreign, ops: seq<Op>, op: Op, more: seq<Op>) returns (e: VectorEvent)
    requires PrintsHex(env) && CreatesFor(env, ops, op, more)
    ensures var k, id := Run(env, ops + [op] + more), RegionId(env, op.region, op.actor, 1);
      && id in RegionMap(Log(k)) && RegionMap(Log(k))[id] == RequestedRegion(env, op.region, op.actor, e)
      && UniqueLookups(RegionMap(Log(k)))
  {
    hide Run, Log, RegionMap, RegionStep, PrintsHex, RegionId, AllGood, WellLogged, UniqueLookups, NextClock, SameKey,
      Collides, RequestedRegion, Step;
    RegionStepIs(env, Run(env, ops), op);
    RunKeepsUnique(env, ops);
    e := CreatedEntry(env, Run(env, ops), op.region, op.actor, op.now);
    RunNext(env, ops, op);
    NoneCollides(env, op, more, e);
    StaysListed(env, ops + [op], more, RegionId(env, op.region, op.actor, 1));
    RunKeepsUnique(env, ops + [op] + more);
  }

  lemma RegionStepIs(env: Foreign, k: Kernel, op: Op)
    requires op.RegionOp?
    ensures Step(env, k, op) == RegionStep(env, k, op.region, op.actor, op.now)
  {
    hide RegionStep;
  }

  lemma RequestedFields(env: Foreign, r: RegionRequest, actor: string, e: VectorEvent)
    ensures RequestedRegion(env, r, actor, e).regionName == r.regionName
    ensures RequestedRegion(env, r, actor, e).creatorPublicKey == actor
  {
  }

  lemma NoneCollides(env: Foreign, op: Op, more: seq<Op>, e: VectorEvent)
    requires op.RegionOp?
    requires var id := RegionId(env, op.region, op.actor, 1);
      forall o :: o in more && o.RegionOp? && RegionId(env, o.region, o.actor, 1) == id ==> SameKey(o.region, op.region)
    ensures forall o :: o in more ==>
      !Collides(env, o, RegionId(env, op.region, op.actor, 1), RequestedRegion(env, op.region, op.actor, e))
  {
    hide SameKey, MatchesKey, RegionId, RequestedRegion;
    var id, region := RegionId(env, op.region, op.actor, 1), RequestedRegion(env, op.region, op.actor, e);
    forall o | o in more ensures !Collides(env, o, id, region) {
      if o.RegionOp? && RegionId(env, o.region, o.actor, 1) == id {
        RequestMatches(env, op.region, op.actor, e, o.region);
      }
    }
  }

  lemma RequestMatches(env: Foreign, request: RegionRequest, actor: string, e: VectorEvent, other: RegionRequest)
    requires SameKey(other, request)
    ensures MatchesKey(RequestedRegion(env, request, actor, e), other.regionName, other.regionPrefix)
  {
    hide Text.SpelledAlike, MatchesKey;
    SpelledBack(other.regionName, request.regionName);
    SpelledBack(OrEmpty(other.regionPrefix), OrEmpty(request.regionPrefix));
    FoundBySpelling(env, request, actor, e, other.regionName, other.regionPrefix);
  }

  lemma SpelledBack(a: string, b: string)
    requires Text.SpelledAlike(a, b)
    ensures Text.SpelledAlike(b, a)
  {
    hide Text.SpelledAlike, Text.Trim, Text.Lower, Text.Upper;
    Text.NormalFormsIff(a, b);
    Text.NormalFormsIff(b, a);
  }

  lemma OnlyMatch(regions: map<string, RegionState>, id: string, name: string, prefix: Option<string>)
    requires UniqueLookups(regions) && id in regions && MatchesKey(regions[id], name, prefix)
    ensures forall x :: x in regions.Values && MatchesKey(x, name, prefix) ==> x == regions[id]
    ensures IsFirstMatch(regions[id], regions, name, prefix)
  {
    hide MatchesKey, RegionLeq, SameLookup;
    forall x | x in regions.Values && MatchesKey(x, name, prefix) ensures x == regions[id] {
      var a :| a in regions && regions[a] == x;
      MatchingIsSame(x, regions[id], name, prefix);
    }
  }
}
