/**
 * Every log the engine can write passes the graph checks. This needs fresh ids only: nothing about
 * clocks, about which operations succeed, or about the ends of transfers.
 */
module Validity {
  import opened Agreement
  import opened Base
  import opened Dag
  import opened Events
  import opened Invariant
  import opened LeastOrder
  import opened Machine
  import opened Ordering
  import opened Region
  import opened Serialization
  import opened Validation
  import opened Vectors

  type Ranks = map<string, nat>

  /** A stored event names stored parents of its own region, once each, and outranks them. */
  ghost predicate WellParented(events: map<string, VectorEvent>, ranks: Ranks, e: VectorEvent) {
    && NoDup(e.parentHashes) && e.eventHash in ranks
    && forall p :: p in e.parentHashes ==>
         p in events && p in ranks && events[p].regionId == e.regionId && ranks[p] < ranks[e.eventHash]
  }

  ghost predicate Below(ranks: Ranks, n: nat) {
    forall h :: h in ranks ==> ranks[h] < n
  }

  ghost predicate EventsKept(events: map<string, VectorEvent>, ranks: Ranks) {
    && ranks.Keys == events.Keys && Below(ranks, |events|)
    && forall h :: h in events ==> h != "" && events[h].eventHash == h && WellParented(events, ranks, events[h])
  }

  /** The events of a stored vector lie in the vector's own region. */
  ghost predicate AtHome(k: Kernel) {
    && (forall id :: id in k.states ==> k.states[id].vectorId == id)
    && forall h :: h in k.events && k.events[h].entityId in k.states ==>
         k.events[h].regionId == k.states[k.events[h].entityId].spaceId
  }

  ghost predicate WellKept(k: Kernel, ranks: Ranks) {
    EventsKept(k.events, ranks) && AtHome(k)
  }

  // ----- A well-kept kernel has a valid log -----

  lemma WellKeptIsValid(k: Kernel, ranks: Ranks)
    requires WellKept(k, ranks)
    ensures ValidLog(Log(k))
  {
    hide Log, EventsAscend;
    LogHolds(k);
    var log, s := Log(k), Elems(Log(k));
    forall e | e in log ensures e.eventHash != "" && ParentsAdmissible(e, log) {
      assert WellParented(k.events, ranks, k.events[e.eventHash]);
      forall p | p in e.parentHashes ensures ParentAdmissible(e, p, log) {
        assert k.events[p] in log;
      }
    }
    assert IsRank(ranks, s) by {
      forall e, f | e in s && f in s && f.eventHash in e.parentHashes ensures ranks[f.eventHash] < ranks[e.eventHash] {
        assert WellParented(k.events, ranks, k.events[e.eventHash]);
      }
    }
  }

  // ----- Adding an event -----

  ghost function Ranked(k: Kernel, ranks: Ranks, e: VectorEvent): Ranks {
    ranks[e.eventHash := |k.events|]
  }

  /** The event is a root, or hangs behind one stored event of its region. */
  ghost predicate Attached(events: map<string, VectorEvent>, e: VectorEvent) {
    e.parentHashes == []
    || (|e.parentHashes| == 1 && e.parentHashes[0] in events && events[e.parentHashes[0]].regionId == e.regionId)
  }

  lemma StaysParented(events: map<string, VectorEvent>, ranks: Ranks, e: VectorEvent, f: VectorEvent)
    requires WellParented(events, ranks, f) && e.eventHash !in events && ranks.Keys == events.Keys
    ensures WellParented(events[e.eventHash := e], ranks[e.eventHash := |events|], f)
  {
  }

  lemma EventCount(events: map<string, VectorEvent>, e: VectorEvent)
    requires e.eventHash !in events
    ensures |events[e.eventHash := e]| == |events| + 1
  {
    assert events[e.eventHash := e].Keys == events.Keys + {e.eventHash};
  }

  lemma BelowNext(ranks: Ranks, n: nat, h: string)
    requires Below(ranks, n)
    ensures Below(ranks[h := n], n + 1)
  {
  }

  lemma EventAdds(events: map<string, VectorEvent>, ranks: Ranks, e: VectorEvent)
    requires EventsKept(events, ranks) && Attached(events, e) && e.eventHash !in events && e.eventHash != ""
    ensures EventsKept(events[e.eventHash := e], ranks[e.eventHash := |events|])
  {
    hide WellParented, Below;
    var events', ranks' := events[e.eventHash := e], ranks[e.eventHash := |events|];
    EventCount(events, e);
    BelowNext(ranks, |events|, e.eventHash);
    NewIsParented(events, ranks, e);
    forall h | h in events' ensures WellParented(events', ranks', events'[h]) {
      if h != e.eventHash { StaysParented(events, ranks, e, events[h]); }
    }
  }

  lemma NewIsParented(events: map<string, VectorEvent>, ranks: Ranks, e: VectorEvent)
    requires ranks.Keys == events.Keys && Below(ranks, |events|)
    requires Attached(events, e) && e.eventHash !in events
    ensures WellParented(events[e.eventHash := e], ranks[e.eventHash := |events|], e)
  {
  }

  lemma AdmitIs(env: Foreign, k: Kernel, e: VectorEvent)
    ensures Admit(env, k, e).1.Err? ==> Admit(env, k, e).0 == k
    ensures Admit(env, k, e).1.Ok? ==>
      Admit(env, k, e).0 == k.(events := k.events[e.eventHash := e]) && e.eventHash !in k.events && e.eventHash != ""
  {
    hide CheckEvent;
  }

  /** Whatever the verdict, an attached event at home leaves a well-kept kernel. */
  lemma AdmitKeeps(env: Foreign, k: Kernel, ranks: Ranks, e: VectorEvent) returns (ranks': Ranks)
    requires WellKept(k, ranks) && Attached(k.events, e)
    requires e.entityId in k.states ==> k.states[e.entityId].spaceId == e.regionId
    ensures WellKept(Admit(env, k, e).0, ranks') && Admit(env, k, e).0.states == k.states
    ensures forall h :: h in Admit(env, k, e).0.events ==> h in k.events || Admit(env, k, e).0.events[h] == e
  {
    hide Admit, EventsKept, Attached;
    AdmitIs(env, k, e);
    ranks' := ranks;
    if Admit(env, k, e).1.Ok? {
      ranks' := Ranked(k, ranks, e);
      EventAdds(k.events, ranks, e);
    }
  }

  lemma LatestIsStored(k: Kernel, id: string)
    requires forall h :: h in k.events ==> k.events[h].eventHash == h
    ensures LatestOf(Log(k), id).Some? ==>
      var m := LatestOf(Log(k), id).value; m.eventHash in k.events && k.events[m.eventHash] == m && m.entityId == id
  {
    hide Log, EventLeq, LatestOf;
    LogHolds(k);
    LatestOfIs(Log(k), id);
  }

  lemma DraftIs(log: seq<VectorEvent>, env: Foreign, before: Option<Vector>, after: Vector, op: OperationType,
                clock: u64, time: u64, parents: seq<string>)
    ensures var draft := DraftTransition(log, before, after, op, clock, time, parents);
      draft.Ok? ==> var e := Sealed(env, draft.value);
        e.parentHashes == parents && e.entityId == after.vectorId && e.regionId == after.spaceId
  {
    hide ToEventState, NextSequence, EventId, PayloadBytes, EventBytes;
  }

  /** Emitting the event of a stored vector, behind its latest event or as a root. */
  lemma EmitKeeps(env: Foreign, k: Kernel, ranks: Ranks, before: Option<Vector>, after: Vector, op: OperationType,
                  clock: u64, time: u64, parents: seq<string>)
    returns (ranks': Ranks)
    requires WellKept(k, ranks) && after.vectorId in k.states && k.states[after.vectorId].spaceId == after.spaceId
    requires parents == [] || parents == ParentsFor(Log(k), after.vectorId)
    ensures WellKept(Emit(env, k, before, after, op, clock, time, parents).0, ranks')
    ensures Emit(env, k, before, after, op, clock, time, parents).0.states == k.states
  {
    hide Log, LatestOf, Admit, DraftTransition, Sealed, WellKept;
    LatestStored(k, ranks, after.vectorId);
    ranks' := ranks;
    var draft := DraftTransition(Log(k), before, after, op, clock, time, parents);
    if draft.Ok? {
      DraftIs(Log(k), env, before, after, op, clock, time, parents);
      ranks' := AdmitKeeps(env, k, ranks, Sealed(env, draft.value));
    }
  }

  lemma LatestStored(k: Kernel, ranks: Ranks, id: string)
    requires WellKept(k, ranks) && id in k.states
    ensures LatestOf(Log(k), id).Some? ==>
      var m := LatestOf(Log(k), id).value;
      m.eventHash in k.events && k.events[m.eventHash].regionId == k.states[id].spaceId
  {
    hide Log, LatestOf, WellParented;
    LatestIsStored(k, id);
  }

  /** Storing a later state of a vector, or the first state of one without events. */
  lemma PutKeeps(k: Kernel, ranks: Ranks, v: Vector)
    requires WellKept(k, ranks)
    requires (v.vectorId in k.states && k.states[v.vectorId].spaceId == v.spaceId)
      || forall h :: h in k.events ==> k.events[h].entityId != v.vectorId
    ensures WellKept(Put(k, v), ranks)
  {
    hide EventsKept;
  }

  // ----- The operations -----

  lemma NewStateIdentity(v: Vector, op: Op)
    requires op.CertifyOp? || op.DrainOp? || op.ProjectOp? || op.ReconstructOp?
    ensures NewState(v, op).Ok? ==>
      NewState(v, op).value.vectorId == v.vectorId && NewState(v, op).value.spaceId == v.spaceId
  {
    hide CertifyState, ValidateState, DrainOutcome, LossesCovered, Restored, Nets;
  }

  lemma UpdateKeepsLog(env: Foreign, k: Kernel, ranks: Ranks, op: Op) returns (ranks': Ranks)
    requires op.CertifyOp? || op.DrainOp? || op.ProjectOp? || op.ReconstructOp?
    requires WellKept(k, ranks)
    ensures WellKept(UpdateStep(env, k, op).0, ranks')
  {
    hide NewState, Emit, EventsKept, Log, ParentsFor;
    ranks' := ranks;
    if op.id in k.states {
      var v := k.states[op.id];
      NewStateIdentity(v, op);
      if NewState(v, op).Ok? {
        var after := NewState(v, op).value;
        PutKeeps(k, ranks, after);
        var stored := Put(k, after);
        ranks' := EmitKeeps(env, stored, ranks, Some(v), after, EventKind(op), after.version, after.updatedAtMs,
          ParentsFor(Log(stored), after.vectorId));
      }
    }
  }

  lemma SidesIdentity(from: Vector, to: Vector, op: Op)
    requires op.TransferOp?
    ensures var r := TransferStates(from, to, op.amount, op.fromCheckedAt, op.toCheckedAt);
      r.Ok? ==>
        && r.value.0.vectorId == from.vectorId && r.value.0.spaceId == from.spaceId
        && r.value.1.vectorId == to.vectorId && r.value.1.spaceId == to.spaceId
  {
    hide CertifyState, ValidateState, SubEach, AddEach;
  }

  lemma TransferKeepsLog(env: Foreign, k: Kernel, ranks: Ranks, op: Op) returns (ranks': Ranks)
    requires op.TransferOp? && WellKept(k, ranks)
    ensures WellKept(TransferStep(env, k, op).0, ranks')
  {
    hide TransferStates, Emit, EventsKept, Log, ParentsFor;
    ranks' := ranks;
    if op.fromId in k.states && op.toId in k.states {
      var from, to := k.states[op.fromId], k.states[op.toId];
      var r := TransferStates(from, to, op.amount, op.fromCheckedAt, op.toCheckedAt);
      SidesIdentity(from, to, op);
      if r.Ok? {
        PutKeeps(k, ranks, r.value.0);
        PutKeeps(Put(k, r.value.0), ranks, r.value.1);
        ranks' := RecordKeepsLog(env, Put(Put(k, r.value.0), r.value.1), ranks, from, to, r.value.0, r.value.1,
          op.sentAt, op.receivedAt);
      }
    }
  }

  lemma RecordKeepsLog(env: Foreign, k: Kernel, ranks: Ranks, from: Vector, to: Vector, sender: Vector,
                       receiver: Vector, sentAt: u64, receivedAt: u64)
    returns (ranks': Ranks)
    requires WellKept(k, ranks)
    requires sender.vectorId in k.states && k.states[sender.vectorId].spaceId == sender.spaceId
    requires receiver.vectorId in k.states && k.states[receiver.vectorId].spaceId == receiver.spaceId
    ensures WellKept(RecordTransfer(env, k, from, to, sender, receiver, sentAt, receivedAt).0, ranks')
  {
    hide Emit, WellKept, Log, ParentsFor;
    ranks' := EmitKeeps(env, k, ranks, Some(from), sender, OperationType.Transfer, sender.version, sentAt,
    ParentsFor(Log(k), sender.vectorId));
    var sent := EmitUpdate(env, k, from, sender, OperationType.Transfer, sentAt);
    if sent.1.Ok? {
      ranks' := EmitKeeps(env, sent.0, ranks', Some(to), receiver, OperationType.Transfer, receiver.version, receivedAt,
        ParentsFor(Log(sent.0), receiver.vectorId));
    }
  }

  lemma NoEventsOf(k: Kernel, id: string)
    requires (forall h :: h in k.events ==> k.events[h].eventHash == h) && Unknown(k, id)
    ensures forall h :: h in k.events ==> k.events[h].entityId != id
  {
    hide Log;
    LogHolds(k);
    forall h | h in k.events ensures k.events[h].entityId != id {
      assert k.events[h] in Log(k);
    }
  }

  lemma OriginKeepsLog(env: Foreign, k: Kernel, ranks: Ranks, request: OriginRequest, now: u64, checkedAt: u64)
    returns (ranks': Ranks)
    requires WellKept(k, ranks) && Unknown(k, request.vectorId)
    ensures WellKept(OriginStep(env, k, request, now, checkedAt).0, ranks')
  {
    hide OriginState, Emit, Log, WellParented, Unknown;
    ranks' := ranks;
    if OriginState(env, request, now, checkedAt).Ok? {
      var v := OriginState(env, request, now, checkedAt).value;
      OriginStateGood(env, request, now, checkedAt);
      NoEventsOf(k, request.vectorId);
      PutKeeps(k, ranks, v);
      ranks' := EmitKeeps(env, Put(k, v), ranks, None, v, OperationType.OriginCreate, v.version, v.createdAtMs, []);
    }
  }

  lemma RegionKeepsLog(env: Foreign, k: Kernel, ranks: Ranks, request: RegionRequest, actor: string, now: u64)
    returns (ranks': Ranks)
    requires WellKept(k, ranks) && RegionId(env, request, actor, 1) !in k.states
    ensures WellKept(RegionStep(env, k, request, actor, now).0, ranks')
  {
    hide Admit, Log, EventsKept, RegionTaken, RegionsListable, ValidateRequest, RegionId, GenesisMetadata, EventId,
      PayloadBytes, EventBytes;
    var e := Sealed(env, GenesisDraft(env, request, actor, NextClock(Log(k)), now, 1));
    ranks' := ranks;
    if RegionStep(env, k, request, actor, now) == Admit(env, k, e) {
      ranks' := AdmitKeeps(env, k, ranks, e);
    }
  }

  // ----- Runs -----

  /** Origins take ids the log does not know, whether they succeed or not; regions take ids no vector has. */
  ghost predicate Fresh(env: Foreign, k: Kernel, op: Op) {
    && (op.OriginOp? ==> Unknown(k, op.request.vectorId))
    && (op.RegionOp? ==> RegionId(env, op.region, op.actor, 1) !in k.states)
  }

  ghost predicate FreshRun(env: Foreign, ops: seq<Op>) {
    ops == [] || (FreshRun(env, ops[..|ops| - 1]) && Fresh(env, Run(env, ops[..|ops| - 1]), ops[|ops| - 1]))
  }

  lemma StepKeepsLog(env: Foreign, k: Kernel, ranks: Ranks, op: Op) returns (ranks': Ranks)
    requires WellKept(k, ranks) && Fresh(env, k, op)
    ensures WellKept(Step(env, k, op).0, ranks')
  {
    hide WellKept, UpdateStep, TransferStep, OriginStep, RegionStep, Unknown, RegionId;
    match op
    case OriginOp(request, now, checkedAt) => ranks' := OriginKeepsLog(env, k, ranks, request, now, checkedAt);
    case RegionOp(request, actor, now) => ranks' := RegionKeepsLog(env, k, ranks, request, actor, now);
    case TransferOp(_, _, _, _, _, _, _) => ranks' := TransferKeepsLog(env, k, ranks, op);
    case CertifyOp(_, _, _) => ranks' := UpdateKeepsLog(env, k, ranks, op);
    case DrainOp(_, _, _, _) => ranks' := UpdateKeepsLog(env, k, ranks, op);
    case ProjectOp(_, _, _, _, _) => ranks' := UpdateKeepsLog(env, k, ranks, op);
    case ReconstructOp(_, _, _, _) => ranks' := UpdateKeepsLog(env, k, ranks, op);
  }

  lemma {:induction false} RunKeepsLog(env: Foreign, ops: seq<Op>) returns (ranks: Ranks)
    requires FreshRun(env, ops)
    ensures WellKept(Run(env, ops), ranks)
  {
    if ops == [] {
      ranks := map[];
    } else {
      hide WellKept, Step, Fresh;
      var before := RunKeepsLog(env, ops[..|ops| - 1]);
      ranks := StepKeepsLog(env, Run(env, ops[..|ops| - 1]), before, ops[|ops| - 1]);
    }
  }

  /**
   * With fresh ids, every log the engine writes is valid, whatever the clocks say, whichever operations
   * fail half-way and whatever is transferred to itself.
   */
  lemma FreshRunsAreValid(env: Foreign, ops: seq<Op>)
    requires FreshRun(env, ops)
    ensures ValidLog(Log(Run(env, ops)))
  {
    hide WellKept, Log, Run, FreshRun, ValidLog;
    var ranks := RunKeepsLog(env, ops);
    WellKeptIsValid(Run(env, ops), ranks);
  }
}
