/** The in-memory store and the engine over it (src/storage.rs, src/engine.rs). */
module Engine {
  import opened Base
  import opened Errors
  import opened Events
  import opened Graph
  import opened Listing
  import opened Machine
  import opened Ordering
  import opened Region
  import opened Registry
  import opened Replay
  import opened Validation
  import opened Vectors
  import Text

  /** The verdict of an operation without its value. */
  function Verdict<T>(r: Result<T, KernelError>): Result<(), KernelError> {
    match r
    case Ok(_) => Ok(())
    case Err(error) => Err(error)
  }

  class MemoryStore {
    var states: map<string, Vector>
    var events: map<string, VectorEvent>

    ghost function View(): Kernel
      reads this
    {
      Kernel(states, events)
    }

    constructor ()
      ensures View() == EMPTY
    {
      states, events := map[], map[];
    }

    method PutState(v: Vector)
      modifies this
      ensures View() == Put(old(View()), v)
    {
      states := states[v.vectorId := v];
    }

    method GetState(id: string) returns (r: Result<Vector, KernelError>)
      ensures r == Find(View(), id)
    {
      if id in states {
        return Ok(states[id]);
      }
      r := Err(VectorNotFound);
    }

    /** Rejects empty identities, known hashes and known ids; otherwise stores the event under its hash. */
    method AppendEvent(e: VectorEvent) returns (r: Result<(), KernelError>)
      modifies this
      ensures r == AppendProblem(old(events), e)
      ensures View() == old(View()).(events := if r.Ok? then old(events)[e.eventHash := e] else old(events))
    {
      if e.eventId == "" {
        return Err(InvalidState("attempted to append event with empty event_id"));
      }
      if e.eventHash == "" {
        return Err(InvalidState("attempted to append event with empty event_hash"));
      }
      if e.eventHash in events {
        return Err(InvalidState("duplicate canonical event_hash detected"));
      }
      if exists h :: h in events && events[h].eventId == e.eventId {
        return Err(InvalidState("duplicate event_id detected"));
      }
      events := events[e.eventHash := e];
      r := Ok(());
    }

    method LoadEventsForReplay() returns (log: seq<VectorEvent>)
      ensures log == Log(View()) && LogAscends(log)
    {
      var keys := Text.KeysInOrder(events.Keys);
      StoredKeys(events);
      log := SortEvents(LogKey, Lookup(events, keys));
      SortEventsCorrect(LogKey, Lookup(events, keys));
      AscendsByFields(log);
    }
  }

  class KernelEngine {
    const store: MemoryStore
    const env: Foreign

    constructor (env: Foreign)
      ensures this.env == env && fresh(store) && store.View() == EMPTY
    {
      this.env := env;
      store := new MemoryStore();
    }

    /** The log, sorted once more. */
    method QueryEvents() returns (log: seq<VectorEvent>)
      ensures log == Log(store.View()) && LogAscends(log)
    {
      var loaded := store.LoadEventsForReplay();
      StoredKeys(store.events);
      SortEventsCorrect(LogKey, Lookup(store.events, Text.SortedKeys(store.events.Keys)));
      SortSorted(LogKey, loaded);
      log := SortEvents(LogKey, loaded);
    }

    method LatestParents(id: string) returns (parents: seq<string>)
      ensures parents == ParentsFor(Log(store.View()), id)
    {
      var log := QueryEvents();
      parents := ParentsFor(log, id);
    }

    method BuildTransitionEvent(before: Option<Vector>, after: Vector, op: OperationType, clock: u64, time: u64,
                                parents: seq<string>)
      returns (r: Result<VectorEvent, KernelError>)
      ensures var draft := DraftTransition(Log(store.View()), before, after, op, clock, time, parents);
        r == if draft.Err? then Err(draft.error) else Ok(Sealed(env, draft.value))
    {
      var log := store.LoadEventsForReplay();
      var draft :- DraftTransition(log, before, after, op, clock, time, parents);
      var event := Seal(env, draft);
      r := Ok(event);
    }

    method AppendCanonicalEvent(e: VectorEvent) returns (r: Result<(), KernelError>)
      modifies store
      ensures (store.View(), r) == Admit(env, old(store.View()), e)
    {
      hide CheckEvent;
      var _ :- ValidateEvent(env, e);
      if !ParentsStored(store.events, e) {
        return Err(InvalidState("orphan event references missing parent"));
      }
      r := store.AppendEvent(e);
    }

    /** Builds and appends the event of a change to a known vector. */
    method Record(before: Vector, after: Vector, op: OperationType, time: u64) returns (r: Result<(), KernelError>)
      modifies store
      ensures (store.View(), r) == EmitUpdate(env, old(store.View()), before, after, op, time)
    {
      hide Admit, DraftTransition, Sealed, ParentsFor;
      var parents := LatestParents(after.vectorId);
      var event :- BuildTransitionEvent(Some(before), after, op, after.version, time, parents);
      r := AppendCanonicalEvent(event);
    }

    method Certify(id: string, checkedAt: u64, now: u64) returns (r: Result<Vector, KernelError>)
      modifies store
      ensures (store.View(), Verdict(r)) == Step(env, old(store.View()), CertifyOp(id, checkedAt, now))
      ensures r.Ok? ==> id in old(store.states) && NewState(old(store.states[id]), CertifyOp(id, checkedAt, now)) == r
    {
      hide EmitUpdate, Bumped;
      var state :- store.GetState(id);
      var updated :- Bumped(state, checkedAt, now);
      store.PutState(updated);
      var _ :- Record(state, updated, OperationType.Certify, updated.updatedAtMs);
      r := Ok(updated);
    }

    method OriginCreate(request: OriginRequest, now: u64, checkedAt: u64) returns (r: Result<Vector, KernelError>)
      modifies store
      ensures (store.View(), Verdict(r)) == Step(env, old(store.View()), OriginOp(request, now, checkedAt))
      ensures r.Ok? ==> r == OriginState(env, request, now, checkedAt)
    {
      hide Admit, DraftTransition, Sealed, ParentsFor, CreateOriginVector, ValidateState, Certified;
      var created :- CreateOriginVector(env, request, now);
      var _ :- ValidateState(created);
      var state :- Certified(created, checkedAt);
      store.PutState(state);
      var event :- BuildTransitionEvent(None, state, OperationType.OriginCreate, state.version, state.createdAtMs, []);
      var _ :- AppendCanonicalEvent(event);
      r := Ok(state);
    }

    method Transfer(fromId: string, toId: string, amount: seq<u128>, fromCheckedAt: u64, toCheckedAt: u64, sentAt: u64,
                    receivedAt: u64)
      returns (r: Result<(Vector, Vector), KernelError>)
      modifies store
      ensures (store.View(), Verdict(r)) ==
        Step(env, old(store.View()), TransferOp(fromId, toId, amount, fromCheckedAt, toCheckedAt, sentAt, receivedAt))
      ensures r.Ok? ==>
        fromId in old(store.states) && toId in old(store.states) &&
        TransferStates(old(store.states[fromId]), old(store.states[toId]), amount, fromCheckedAt, toCheckedAt) == r
    {
      hide EmitUpdate, TransferOutcome, CertifyState, ValidateState;
      var from :- store.GetState(fromId);
      var to :- store.GetState(toId);
      var sides :- TransferComponents(from, to, amount);
      var (sender, receiver) := sides;
      var fromCert :- CertifyState(sender, true, true, fromCheckedAt);
      var toCert :- CertifyState(receiver, true, true, toCheckedAt);
      sender, receiver := sender.(certification := fromCert), receiver.(certification := toCert);
      var _ :- ValidateState(sender);
      var _ :- ValidateState(receiver);
      store.PutState(sender);
      store.PutState(receiver);
      var _ :- Record(from, sender, OperationType.Transfer, sentAt);
      var _ :- Record(to, receiver, OperationType.Transfer, receivedAt);
      r := Ok((sender, receiver));
    }

    method Drain(id: string, basisPoints: u16, checkedAt: u64, now: u64) returns (r: Result<Vector, KernelError>)
      modifies store
      ensures (store.View(), Verdict(r)) == Step(env, old(store.View()), DrainOp(id, basisPoints, checkedAt, now))
      ensures r.Ok? ==>
        id in old(store.states) && NewState(old(store.states[id]), DrainOp(id, basisPoints, checkedAt, now)) == r
    {
      hide EmitUpdate, Bumped, DrainOutcome;
      var state :- store.GetState(id);
      var drained :- ApplyDrain(state.components, basisPoints, state.certification.authRatio,
        state.certification.threshold);
      var remaining := drained.1;
      var updated :- Bumped(state.(components := remaining), checkedAt, now);
      store.PutState(updated);
      var _ :- Record(state, updated, OperationType.Drain, updated.updatedAtMs);
      r := Ok(updated);
    }

    method Project(id: string, projected: seq<u128>, escrowId: string, now: u64, checkedAt: u64)
      returns (r: Result<Vector, KernelError>)
      modifies store
      ensures (store.View(), Verdict(r)) ==
        Step(env, old(store.View()), ProjectOp(id, projected, escrowId, now, checkedAt))
      ensures r.Ok? ==>
        && id in old(store.states)
        && NewState(old(store.states[id]), ProjectOp(id, projected, escrowId, now, checkedAt)) == r
    {
      hide EmitUpdate, ProjectOutcome, Certified;
      var state :- store.GetState(id);
      var after :- ProjectVector(state, projected, escrowId, now);
      var updated :- Certified(after, checkedAt);
      store.PutState(updated);
      var _ :- Record(state, updated, OperationType.Project, updated.updatedAtMs);
      r := Ok(updated);
    }

    method Reconstruct(id: string, outcome: Outcome, now: u64, checkedAt: u64) returns (r: Result<Vector, KernelError>)
      modifies store
      ensures (store.View(), Verdict(r)) == Step(env, old(store.View()), ReconstructOp(id, outcome, now, checkedAt))
      ensures r.Ok? ==>
        id in old(store.states) && NewState(old(store.states[id]), ReconstructOp(id, outcome, now, checkedAt)) == r
    {
      hide EmitUpdate, ReconstructOutcome, Certified;
      var state :- store.GetState(id);
      var after :- ReconstructVector(state, outcome, now);
      var updated :- Certified(after, checkedAt);
      store.PutState(updated);
      var _ :- Record(state, updated, OperationType.Reconstruct, updated.updatedAtMs);
      r := Ok(updated);
    }

    /** The regions of the log by id; fails when a region creation cannot be read. */
    method ReadRegions() returns (r: Result<map<string, RegionState>, KernelError>)
      ensures r.Ok? <==> RegionsListable(Log(store.View()))
      ensures r.Ok? ==> r.value == RegionMap(Log(store.View())) && KeyedById(r.value)
      ensures r.Err? ==> r.error == InvalidState("unreadable region event")
    {
      hide RegionFromEvent, IsRegionCreate, RegionsListable, RegionMap;
      var log := QueryEvents();
      var regions: map<string, RegionState> := map[];
      EmptyListing();
      for i := 0 to |log|
        invariant RegionsListable(log[..i]) && regions == RegionMap(log[..i]) && KeyedById(regions)
      {
        ReadStep(log, i);
        if IsRegionCreate(log[i]) {
          var region := RegionFromEvent(log[i]);
          if region.Err? {
            return Err(InvalidState("unreadable region event"));
          }
          RegionIdIsEntity(log[i]);
          regions := regions[region.value.regionId := region.value];
        }
      }
      TakeAll(log);
      r := Ok(regions);
    }

    /** The regions of the log in display order. */
    method ListRegions() returns (r: Result<seq<RegionState>, KernelError>)
      ensures r.Ok? <==> RegionsListable(Log(store.View()))
      ensures r.Ok? ==> Lists(r.value, RegionMap(Log(store.View()))) && DisplayOrder(r.value)
      ensures r.Err? ==> r.error == InvalidState("unreadable region event")
    {
      hide RegionsListable, RegionMap, Lists, KeyedById, DisplayOrder;
      var regions :- ReadRegions();
      var out := InDisplayOrder(regions);
      r := Ok(out);
    }

    /** The first listed region under a normalized name and prefix. */
    method FindRegion(name: string, prefix: Option<string>) returns (r: Result<Option<RegionState>, KernelError>)
      ensures r.Ok? <==> RegionsListable(Log(store.View()))
      ensures r.Ok? ==> (r.value.Some? <==> RegionTaken(Log(store.View()), name, prefix))
      ensures r.Ok? && r.value.Some? ==>
        IsFirstMatch(r.value.value, RegionMap(Log(store.View())), name, prefix)
      ensures r.Err? ==> r.error == InvalidState("unreadable region event")
    {
      hide RegionsListable, RegionMap, MatchesKey, RegionLeq, DisplayOrder;
      var regions :- ListRegions();
      ghost var registry := RegionMap(Log(store.View()));
      assert forall id :: id in registry ==> registry[id] in regions;
      for i := 0 to |regions|
        invariant forall j :: 0 <= j < i ==> !MatchesKey(regions[j], name, prefix)
      {
        if MatchesKey(regions[i], name, prefix) {
          FirstMatch(regions, registry, i, name, prefix);
          return Ok(Some(regions[i]));
        }
      }
      r := Ok(None);
    }

    method CreateRegion(request: RegionRequest, actor: string, now: u64) returns (r: Result<RegionState, KernelError>)
      requires PrintsHex(env)
      modifies store
      ensures (store.View(), Verdict(r)) == Step(env, old(store.View()), RegionOp(request, actor, now))
    {
      hide RegionsListable, RegionTaken, Admit, RegionFromEvent, ValidateRequest, PrintsHex, GenesisDraft,
        IsRegionCreate, Sealed;
      var _ :- ValidateRequest(request);
      if !env.requestSigned(actor, request) {
        return Err(InvalidState("region request signature verification failed"));
      }
      var taken :- FindRegion(request.regionName, request.regionPrefix);
      if taken.Some? {
        return Err(InvalidState("region already exists for this lookup key"));
      }
      if Text.Trim(actor) == "" {
        return Err(InvalidState("actor_public_key cannot be empty"));
      }
      var log := QueryEvents();
      var built := BuildRegionGenesisEvent(env, request, actor, NextClock(log), now, 1);
      if built.Err? {
        // The request has already been validated.
        assert false;
      }
      var event := built.value;
      GenesisReadsBack(env, request, actor, NextClock(log), now, 1);
      var _ :- AppendCanonicalEvent(event);
      r := RegionFromEvent(event);
    }

    method ReplayCanonicalHistory() returns (r: Result<ReplayResult, ReplayError>)
      ensures r.Ok? <==> Replayable(env, Log(store.View()))
      ensures r.Ok? ==> r.value == ReplayOf(env, Base.Elems(Log(store.View())))
      ensures r.Err? ==> FailsWith(env, Log(store.View()), r.error)
    {
      hide FailsWith;
      var log := store.LoadEventsForReplay();
      r := ReplayEvents(env, log);
    }
  }
}
