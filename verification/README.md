# A verified model of the event-sourced kernel

The kernel keeps a store of vectors and an append-only log of events. Every operation writes new
vector states and then records them in the log; a replay rebuilds the states from the log alone. This
project models both sides in Dafny and proves how they relate.

- **Ordering.** `LeastOrder`, `Graph`, `Dag`, `Conflicts` and `Ordering` model log validation and the
  topological orders. The Kahn loops are proved against a function of the *set* of events, so their
  results cannot depend on how a log was loaded.
- **Replay.** `Replay`, `Histories` and `Registry` model the replay of a log and state exactly which
  logs replay and what they replay to. `Summary` models the heads of a log, the batch replay and its
  divergence checks, and the verification of a log against a published result.
- **Encodings.** `Bytes`, `Serialization`, `StateRoots` and `Json` model the byte formats with their
  writers. Unique decodability is proved without a parser: a stream that starts with the encodings of
  two values starts with one value, and leaves one unread suffix. `Formats` says what the primitive formats
  mean: digits, characters, names, layouts and ratios.
- **Engine.** `Vectors`, `Validation`, `Region` and `Listing` model the arithmetic, the event checks and
  the regions. `Machine` states every operation as a step from kernel to kernel, including what it leaves
  behind when it fails; `Engine` holds the store and the engine as classes whose methods are proved to
  take exactly these steps. `Effects` says field by field what a step writes and records,
  and `Answers` what is said when something is refused.
- **Every run.** `Stored` proves what the store holds after any run at all, failed operations and
  unreplayable logs included, and `Lookups` that region keys stay unique and created regions stay
  listed. `Conservation` balances the totals without looking at the log, and `Validity` proves that
  fresh ids alone are enough for every written log to be valid.
- **Admissible runs.** `Insertion` and `Invariant` give every entity a history in the order in which
  replay tells it, and say where a new event goes. `Agreement` proves that every admissible operation
  keeps the invariant, under which the log replays to exactly the store. `Runs` draws the conclusions.
- **Limits.** `Exactness` shows that the hypotheses are exact for operations that succeed and for whole
  runs, `Refusals` when log and store agree after an operation that fails, and `Forks` what this means
  for clocks that stand still or step back. `Progress` proves when operations are accepted, and
  `Witnesses` uses it for runs in which everything is accepted and something is lost all the same.

A run is admissible (`Agreement.Admissible`) when a failing operation has left the kernel as it was, a
successful origin or region creation used an id unknown to the log, and replay can tell both sides of a
successful transfer: its event goes to the end of the vector's history, or changes nothing. Transfers
between different vectors at readings later than the latest event of each are of that kind
(`Runs.TimelyRunIsAdmissible`); `Runs.RisingRunIsAdmissible` turns this into rules that can be checked
on the list of operations. So is every transfer between different vectors while histories rise in
clock and time, whatever its own readings (`Exactness.TransferFromRising`); it is the next one that
can suffer.

Digests, signature checks and the JSON printer of the registry are arbitrary functions, collected in
`Region.Foreign`; clock readings are arguments of the operations. Theorems that need more of a digest
say so: `PrintsHex` (it prints hexadecimal digits) or injectivity. The floating-point certification
ratio of an event is its 64-bit pattern. Encodings are decodable for lengths below 2^64, which every
length in memory is; the predicates named `Fits` say so.

Four places where the code does not do what its documentation or its shape suggests:

- `README.md:105` of the repository says that invalid inputs fail before mutation. States are stored
  before their events are checked, so some inputs fail only afterwards and stay stored: names of
  nothing but spaces, which src/state.rs:366 tests with `is_empty` and src/validation.rs:29-48 trims
  (`Progress.BlankNameExample`), and components of 64 bits or more (`Refusals.OversizedOriginExample`).
  Exactly which refused operations leave the kernel as it was, and which leave log and store in
  agreement, is stated for origins (`Refusals.FailedOriginUnchangedIff`,
  `Refusals.FailedOriginAgreesIff`), transfers (`Refusals.FailedTransferUnchangedIff`,
  `Refusals.FailedTransferAgreesIff`) and updates (`Refusals.FailedUpdateUnchangedIff`,
  `Refusals.FailedUpdateAgreesIff`); a refused region creation changes nothing
  (`Lookups.RefusedRegionUnchanged`).
- A replay summary of an empty log always reports a divergence, because the two paths it compares hash
  different material there (`Summary.EngineReplaySummary`, `Summary.EmptyLogDiverges`).
- Projecting a vector whose escrow is still open forgets that escrow, and reconstructing twice pays it
  out twice (`Conservation.StepWealthIff`; `Witnesses.EscrowForgotten` and `Witnesses.SettledTwice` are
  runs in which this happens).
- A drain multiplies with saturation, so a component beyond the cap pays far less than its rate. No
  event can hold such a component, but a refused origin leaves it stored, where a drain finds it
  (`Vectors.DrainFeeBound`, `Witnesses.SaturatedDrain`).

`dafny verify dfyconfig.toml` checks the whole project.

## Model

| member | source | states |
|---|---|---|
| LeastOrder.LeastCharacterized | src/dag.rs:167-239 | an order of an acyclic set of events is the computed one exactly when it is topological and no topological order is lexicographically smaller by sort key |
| LeastOrder.LeastComplete | src/dag.rs:205-236 | the greedy order takes every event exactly when the parent relation has no cycle, and is then a topological order |
| LeastOrder.LeastIsSorted | src/dag.rs:190-230 | when keys never decrease from parent to child, the order is the ascending enumeration by key |
| LeastOrder.ChainOrder | src/replay.rs:141-176 | a chain in which every event names its predecessor has only one order, whatever the keys |
| LeastOrder.LeastByFields | src/dag.rs:190-230 | of two events whose parents have both been taken, the one with the smaller clock, time, hash and id comes first in a log, and with the smaller clock, time, entity, id and hash in one entity's history |
| Ordering.LogOrderMeans | src/dag.rs:29-36 | the log key compares clock, time, hash and id, in this order |
| Ordering.HistoryOrderMeans | src/replay.rs:33-41 | the history key compares clock, time, entity, id and hash, in this order |
| Text.LeqMeans | src/dag.rs:29-36 | a string comes before its extensions and before strings with a greater character at the first difference |
| Graph.BuildGraph | src/dag.rs:95-140 | in-degrees count exactly the parents present in the log, and child lists name exactly the events that name a parent |
| Graph.Release | src/dag.rs:146-158 | lowering the children of a taken event never underflows, keeps all in-degrees exact and frees exactly the events whose last pending parent it was |
| Graph.KahnOrder | src/dag.rs:190-236 | the loop over a re-sorted ready list terminates with the least topological order, for either sort key |
| Graph.KahnVisits | src/dag.rs:142-164 | the queue loop reaches every event exactly when the log has no cycle |
| Dag.EventIndex | src/dag.rs:10-27 | succeeds exactly on non-empty, pairwise different hashes, with the position of every event; an error names an event or pair that is at fault |
| Dag.CheckParents | src/dag.rs:104-139 | accepts exactly parents named once, present in the log and in the child's region |
| Dag.ValidateDag | src/dag.rs:92-165 | accepts exactly the logs with distinct non-empty hashes, admissible parents and a rank rising along every edge; every error is explained by the log |
| Dag.TopologicalOrder | src/dag.rs:167-239 | succeeds exactly on valid logs, with a rearrangement of the log that is its least topological order, compared field by field; every error is explained by the log |
| Dag.ValidLogPerm | src/dag.rs:92-165 | validity does not depend on the order in which a log was loaded |
| Dag.OrderIsCanonical | src/dag.rs:167-239 | every rearrangement of a valid log has the same order, and it is topological and lexicographically least |
| Dag.OrderIsSorting | src/dag.rs:190-230 | on a valid log whose keys follow its edges the topological order is plain sorting by key |
| Conflicts.DetectConflicts | src/dag.rs:38-80 | lists exactly the self-parents, repeated parents and missing parents of the log, event by event and parent by parent, or one entry that explains why the log has no index |
| Conflicts.ReportTimes | src/dag.rs:52-77 | every problem of an event is reported as often as it occurs: a repeated parent once for every repetition, a missing parent every time it is named |
| Conflicts.ValidIffConflictFree | src/dag.rs:38-165 | a log is valid exactly when it has no conflict, no edge between regions and no cycle |
| Replay.OrderEntityEvents | src/replay.rs:86-179 | succeeds exactly on histories with distinct hashes, unrepeated parents, one root and no cycle, with their least topological order, compared field by field; after the checks on the whole log the only error is the number of roots |
| Replay.GroupByEntity | src/replay.rs:187-193 | one group per entity, holding its events in log order |
| Replay.GroupOrderable | src/replay.rs:86-198 | once the log is valid, a group can be ordered exactly when it has one root: the duplicate and cycle exits are unreachable |
| Replay.ReplayEvents | src/replay.rs:181-221 | succeeds exactly on replayable logs, with a result that is a function of the set of events; every error is explained by the log: its graph, an entity's roots, or the first event that cannot be applied |
| Replay.Rebuilt.Apply | src/replay.rs:43-84 | one event's effect on state and registry, with its failures |
| Replay.StateRootFromBytes | src/state.rs:337-356 | the root hashes the tag, both counters and the length-prefixed state |
| Histories.ReplayableMeans | src/replay.rs:43-221 | a log replays exactly when it is valid, its registry is consistent, and every entity has one root and a story in which each event takes over the state its predecessor left |
| Histories.ReplayReturns | src/replay.rs:181-221 | a successful replay applies every event once, builds the registry of the log, ends every entity at the last state of its story, and carries the greatest clock of the log in its root |
| Histories.ReplayOrderMeans | src/replay.rs:181-205 | entities are replayed in ascending order of their ids, each in the order of its own history |
| Histories.ReplayOrderPerm | src/replay.rs:181-205 | the replay order is a rearrangement of the log |
| Histories.StoryFold | src/replay.rs:43-84 | applying one entity's story succeeds exactly when it is continuous, and touches that entity only |
| Histories.InsertUnbroken | src/replay.rs:43-84 | an event that starts from the last state of a history can be told at an earlier place exactly when it changes nothing there |
| Histories.TwoDepartures | src/replay.rs:43-84 | two changes that both start from the last state of a history fit into no order of it |
| Insertion.InsertionOrder | src/replay.rs:141-176 | adding an event behind some event of a history moves nothing: it goes in front of the first later event with a greater key |
| Summary.ReplayIgnoresOrder | src/replay.rs:181-221 | any rearrangement of a log replays to the same result or fails with it |
| Summary.ComputeHeads | src/ffi.rs:327-348 | the sorted hashes that no event names as a parent |
| Summary.HeadsCover | src/ffi.rs:327-348 | a non-empty valid log has a head, and every event leads to one along parent edges |
| Summary.ReplayFromEvents | src/ffi.rs:350-402 | on a non-empty log succeeds exactly when the log replays, with the log's own result, and otherwise with an error that the log explains; the empty log gets a fixed answer |
| Summary.EngineReplaySummary | src/ffi.rs:404-452 | succeeds exactly on non-empty replayable logs; a log that does not replay is reported as such, and a divergence for the empty log alone |
| Summary.EmptyLogDiverges | src/ffi.rs:357-361 | the two empty-log roots differ under an injective digest |
| Summary.VerifyReplay | src/replay.rs:223-230 | answers whether the log's own root and hash are the expected ones, and fails exactly when the log does not replay, with an error that the log explains |
| Summary.ResultsMatch | src/replay.rs:223-230 | equal roots and replay hashes mean equal final states and equal lists of applied events |
| Summary.VerifiedLogsMatch | src/replay.rs:223-230 | two sealed logs that verify against one published result hold the same events up to order and signatures |
| Summary.CollectNewEvents | src/ffi.rs:454-463 | sorted, and every event as often as in the new log if its hash was unknown before, else not at all; nothing is assumed about either log |
| Serialization.ByteBuffer.WriteU64 | src/serialization.rs:24-29 | two half-words in sequence are the eight big-endian bytes of the number |
| Serialization.ByteBuffer.WriteTextMap | src/serialization.rs:53-59 | a map is written as its length and its entries in key order |
| Serialization.ByteBuffer.WriteVectorState | src/serialization.rs:94-103 | appends the canonical encoding of a vector state |
| Serialization.CanonicalEventPayloadBytes | src/serialization.rs:152-167 | the payload encoding whose unique decodability is proved |
| Serialization.CanonicalEventBytes | src/serialization.rs:173-177 | the event encoding: the payload and its hash |
| Serialization.VectorEventBytes | src/serialization.rs:105-125 | the event type's own sequence of thirteen writes produces the bytes of the other encoder |
| Serialization.CanonicalStateMapBytes | src/serialization.rs:180-188 | the state map encoding, entries in key order |
| Serialization.CanonicalReplayBytes | src/hash.rs:27-34 | the replay hash material: a tagged empty blob and the hash list |
| Serialization.CanonicalBlobBytes | src/serialization.rs:201-206 | a tagged payload with both lengths |
| Bytes.Utf8Injective | src/serialization.rs:35-39 | different strings have different bytes |
| Bytes.BigEndianHalves | src/serialization.rs:24-29 | writing the high and the low part separately writes the whole number |
| Decoding.OperationSeparates | src/serialization.rs:68-92 | an operation, custom names included, and its end are determined by any stream it starts |
| Decoding.VectorStateSeparates | src/serialization.rs:94-103 | a vector state and its end are determined by any stream it starts |
| Decoding.PayloadSeparates | src/serialization.rs:152-167 | every payload field and the unread suffix are determined by the stream |
| Decoding.EventSeparates | src/serialization.rs:173-177 | every hashed event field and the unread suffix are determined by the stream |
| Decoding.StateMapSeparates | src/serialization.rs:180-188 | a state map and the unread suffix are determined by the stream |
| Decoding.BlobSeparates | src/serialization.rs:201-206 | tag, payload and unread suffix are determined by the stream |
| Decoding.ReplayBytesInjective | src/hash.rs:27-34 | equal replay hash material means equal hash lists |
| Json.CanonicalJsonBytes | src/record.rs:46-89 | the recursive encoder writes the tagged encoding, objects by sorted key |
| Json.JsonSeparates | src/record.rs:46-89 | at every nesting depth a JSON value and the unread suffix are determined by the stream |
| StateRoots.CanonicalVectorBytes | src/state.rs:269-305 | the sequence of writes produces the encoding whose unique decodability is proved |
| StateRoots.ComputeStateRoot | src/state.rs:307-335 | the digest of the vectors sorted by id, version and update time, with count and clock |
| StateRoots.VectorSeparates | src/state.rs:269-305 | every field of a stored vector and the unread suffix are determined by its encoding |
| StateRoots.MaterialInjective | src/state.rs:307-335 | equal material means equal vector lists and equal clocks |
| StateRoots.MaterialCanonical | src/state.rs:307-335 | for distinct ids the hashed material is equal exactly when the vectors are the same in any order and the clocks are equal |
| Region.PrefixReadsBack | src/region.rs:42-57 | a normalized prefix survives storage, trimming and normalizing again |
| Region.MetadataReadsBack | src/region.rs:391-479 | the caller's metadata survives unchanged among the built-in keys |
| Region.ValidRequestIff | src/region.rs:244-300 | a creation request is valid exactly when name, trigger, proof and signature are not blank, the section is not zero, and it has an access key exactly if private, one that is not blank |
| Region.BuildRegionGenesisEvent | src/region.rs:391-479 | builds a sealed creation event exactly for valid requests |
| Region.GenesisReadsBack | src/region.rs:391-609 | reading back the creation event of a request yields exactly the requested region |
| Region.AccessByOwnKey | src/region.rs:629-642 | a created region opens to everyone if public, and to exactly its own key if private |
| Listing.LookupKeyReadsBack | src/region.rs:42-57 | a created region has the lookup key of its request, and is found under its own stored names |
| Listing.InDisplayOrder | src/region.rs:654-661 | the regions sorted by name, prefix, section and id, each once |
| Listing.ListingUnique | src/region.rs:654-661 | only one list displays given regions, so a listing is a function of the registry |
| Region.Core.Insert | src/region.rs:116-137 | inserts the region with total, version and root, or fails; a failure changes the registry only when the version counter is exhausted |
| Region.CoreStateFromEvents | src/region.rs:617-627 | the registry of a log by folding its region events, failing when one cannot be inserted |
| Registry.FoldIsRegistry | src/region.rs:104-137 | the fold succeeds exactly on readable, unrepeated regions whose shares fit 64 bits, with their map, sum, count and root |
| Registry.FoldIgnoresOrder | src/region.rs:611-627 | every rearrangement of a log folds to the same registry or fails with it |
| Registry.InsertKeeps | src/region.rs:116-137 | in a consistent registry insertion fails exactly on a known id or an overflow of the total; the version never overflows |
| Text.ParsePrint | src/region.rs:498-609 | a printed number parses back |
| Text.UpperTrimIdempotent | src/region.rs:42-57 | normalizing twice changes nothing |
| Text.TrimMeans | src/region.rs:42-43 | trimming takes away all surrounding whitespace and nothing else |
| Text.CaseMeans | src/region.rs:42-51 | folding leaves no letter of the other case and changes nothing but the case of Latin letters |
| Text.NormalFormsIff | src/region.rs:42-51 | two names normalize alike exactly when, without surrounding whitespace, they agree place by place up to the case of Latin letters |
| Formats.ParsesIff | src/region.rs:524-538 | what reads as a number is exactly its decimal digits, behind any zeros, behind at most one plus sign |
| Formats.PrintMeans | src/event.rs:147-162 | numbers print in decimal without leading zeros |
| Formats.BigEndianDigits | src/serialization.rs:24-29 | each byte of a number is its digit to base 256 |
| Formats.Utf8Means | src/serialization.rs:35-39 | a character is written in one to four bytes whose lead byte gives the length and the others six bits each |
| Formats.OperationNames | src/event.rs:26-43 | the fourteen operation names |
| Formats.TypeNames | src/state.rs:204-225 | types and states are written into a state root by their names in capitals |
| Formats.Tags | src/state.rs:307-356 | both state roots and the replay hash start with their tags |
| Formats.ScoreMeans | src/certification.rs:3-45 | the score of a state by what it holds and what was checked, and the reason when it is below the threshold |
| Formats.PolicyMeans | src/consensus.rs:9-26 | records need a certified state of at least 700 |
| Text.WhitespaceIs | src/region.rs:42-43 | the twenty-five whitespace code points |
| Formats.EventLayout | src/serialization.rs:105-125 | the thirteen hashed fields in order |
| Formats.VectorLayout | src/state.rs:269-305 | the fourteen fields of a vector in a state root, in order |
| Formats.RegionReadsIff | src/region.rs:482-609 | which events read as regions, and as what, by metadata key |
| Formats.JsonTags | src/record.rs:46-89 | the tag of every kind of JSON value |
| Formats.EventFormIff | src/engine.rs:74-92 | a vector has an event form exactly when 64 bits hold every component, with its own components, owner, type and metadata |
| Formats.AccessMeans | src/region.rs:629-642 | a region opens to everyone if public, and otherwise to a key with the stored digest |
| Formats.UnitRatios | src/validation.rs:49-53 | the accepted ratio patterns are exactly the finite double-precision numbers from zero to one |
| Formats.RecordedRatios | src/engine.rs:163 | the recorded ratios are one and the double-precision number nearest to seven tenths |
| Vectors.TransferComponents | src/transfer.rs:7-46 | moves the amount place by place and leaves every other field but the type alone, or names the shape or balance at fault |
| Vectors.TransferConserves | src/transfer.rs:25-42 | a transfer whose outcome fits an event takes exactly the amount from one side and adds it to the other |
| Vectors.TransferUndone | src/transfer.rs:7-46 | sending the amount back restores both sides |
| Vectors.ApplyDrain | src/drain.rs:3-31 | the fee loop computes the fee and the remainder of every component |
| Vectors.DrainConserves | src/drain.rs:15-28 | fees are covered and the remainder is the rest |
| Vectors.FeeWithinUnitIff | src/drain.rs:24 | a fee misses the exact rate by less than one unit exactly when the exact product is below the cap of the saturating one |
| Vectors.DrainFeeBound | src/drain.rs:15-28 | the total fee never exceeds the exact rate, for all amounts; every component pays within one unit of it exactly when none is above the cap, and then the total misses it by less than one unit per component |
| Vectors.ProjectVector | src/projection.rs:4-45 | splits every component into remainder and escrow, under the given escrow id and start time, or names the shape or balance at fault |
| Vectors.ProjectionUndone | src/reconstruction.rs:11-69 | a projection that settles without gain or loss restores every component |
| Vectors.ReconstructVector | src/reconstruction.rs:11-69 | the settlement loop settles every place to principal plus gain minus loss and adds it back, or fails on an uncovered loss |
| Vectors.ReconstructConserves | src/reconstruction.rs:47-54 | reconstruction adds exactly what settled |
| Vectors.NetsSum | src/reconstruction.rs:36-44 | without saturation what settles is principal plus gains minus losses |
| Vectors.NetsCredited | src/reconstruction.rs:36-44 | with saturation it is principal plus credited gains minus losses |
| Vectors.CreditedInFull | src/reconstruction.rs:36-44 | gains are credited in full exactly when each of them fits 128 bits on top of its principal |
| Validation.ValidateEvent | src/validation.rs:28-110 | the checks in order, on the hashes of the event's own encodings |
| Validation.ValidatesIff | src/validation.rs:28-110 | an event validates exactly when its names are not blank, its ratio is from zero to one, it keeps the dimension, it carries the digests of its own content, and a signature it has verifies |
| Validation.ProofMeans | src/origin.rs:4-15 | a proof is valid exactly when the digest of the seed and the eight bytes of the nonce starts with as many zeros as the difficulty says |
| Validation.SealedIsSealed | src/engine.rs:187-192 | events the engine seals carry the hashes of their content |
| Validation.SealBinds | src/hash.rs:12-20 | under an injective digest an event hash binds every field but the signature |
| Engine.MemoryStore.AppendEvent | src/storage.rs:77-114 | stores an event under its hash, or rejects empty identities, known hashes and known ids without effect |
| Engine.MemoryStore.LoadEventsForReplay | src/storage.rs:149-163 | the stored events, ascending by clock, time, hash and id |
| Engine.KernelEngine.QueryEvents | src/engine.rs:214-224 | sorting the loaded log again changes nothing |
| Engine.KernelEngine.BuildTransitionEvent | src/engine.rs:144-193 | the sealed event of a change, or the failure of its conversion or sequence number |
| Engine.KernelEngine.AppendCanonicalEvent | src/engine.rs:195-212 | stores an event exactly when it validates, its parents are stored and its identity is new |
| Engine.KernelEngine.Certify | src/engine.rs:367-413 | verdict and new kernel are those of the state machine step that the run theorems are about |
| Engine.KernelEngine.OriginCreate | src/engine.rs:415-468 | the origin step, whose state is written before its event is accepted |
| Engine.KernelEngine.Transfer | src/engine.rs:470-533 | the transfer step, with both states written before two events |
| Engine.KernelEngine.Drain | src/engine.rs:535-592 | the drain step |
| Engine.KernelEngine.Project | src/engine.rs:594-643 | the projection step |
| Engine.KernelEngine.Reconstruct | src/engine.rs:645-695 | the reconstruction step |
| Engine.KernelEngine.ListRegions | src/region.rs:644-663 | the regions of the log in display order, or a failure exactly when a creation cannot be read |
| Engine.KernelEngine.FindRegion | src/region.rs:665-685 | the first listed region under the normalized key, if there is one |
| Lookups.FoundBySpelling | src/region.rs:665-685 | a created region is found under exactly the spellings of its requested name and prefix |
| Engine.KernelEngine.CreateRegion | src/engine.rs:283-329 | the region step |
| Engine.KernelEngine.ReplayCanonicalHistory | src/engine.rs:331-334 | replays the stored log |
| Effects.CertifyWrites | src/certification.rs:3-45 | a recertification scores 700 or 1000, raises the version, and changes nothing else but the time; its own checks are the magnitude and the version |
| Effects.DrainWrites | src/drain.rs:3-31 | a drain leaves in every component what half of the rate, of what 128 bits hold of the product, does not take |
| Effects.ProjectWrites | src/projection.rs:4-45 | a projection moves the amounts into an escrow with the given id and start, exactly when they are covered |
| Effects.ReconstructWrites | src/reconstruction.rs:11-69 | a settlement pays principal plus gain, as far as 128 bits hold it, minus loss, back into every place, and closes the escrow with tag and time |
| Effects.TransferWritesStates | src/transfer.rs:7-46 | a transfer takes the amount from one side, adds it with saturation to the other, and makes both standard |
| Effects.OriginWritesState | src/origin.rs:25-62 | the vector of an origin, field by field |
| Effects.CertifyRecords | src/engine.rs:392-412 | a successful certification stores the new state and adds one event, CERTIFY |
| Effects.DrainRecords | src/engine.rs:571-591 | a successful drain stores the new state and adds one event, DRAIN |
| Effects.ProjectRecords | src/engine.rs:622-642 | a successful projection stores the new state and adds one event, PROJECT |
| Effects.ReconstructRecords | src/engine.rs:674-694 | a successful reconstruction stores the new state and adds one event, RECONSTRUCT |
| Effects.TransferRecords | src/engine.rs:494-532 | a successful transfer stores both states and adds two events, TRANSFER, the sender's before the receiver's |
| Effects.OriginRecords | src/engine.rs:437-467 | a successful origin stores its vector and adds one event, ORIGIN_CREATE, a root that starts from zeros |
| Effects.RegionRecords | src/engine.rs:283-329 | a successful creation was valid, signed and under a free key, and adds one event with the request's fields in its metadata |
| Effects.RegionIdIs | src/region.rs:341-354 | a region id is prefix, 24 characters of the request's digest, and number |
| Effects.NextClockIs | src/engine.rs:136-142 | the clock of a new region event is one more than the greatest in the log, without wrapping |
| Effects.AdmittedIff | src/engine.rs:195-212 | an event is admitted exactly when it validates, its parents are stored, and its hash and id are new and not empty |
| Effects.UpdateErrs | src/reconstruction.rs:15-44 | what an update answers that fails its own checks |
| Effects.TransferErrs | src/transfer.rs:7-24 | what a transfer answers that fails its own checks |
| Effects.UnknownErrs | src/engine.rs:371-376 | an operation on a vector that is not stored says so and changes nothing |
| Answers.ValidationAnswers | src/validation.rs:28-114 | the reason for which an event does not validate, in order of precedence |
| Answers.StoreAnswers | src/storage.rs:78-114 | the reason for which an event is not stored; the store's own check of empty ids never fires behind validation |
| Answers.EventAnswers | src/engine.rs:144-180 | a change has an event exactly when 64 bits hold the components of both states and the event's number, and which of the two fails |
| Answers.OriginAnswers | src/origin.rs:25-62 | the reason for which an origin fails its own checks |
| Answers.RequestAnswers | src/region.rs:245-300 | the reason for which a region request is not valid |
| Answers.RegionAnswers | src/engine.rs:283-329 | the reason for which a valid request creates no region; the kernel stays as it was |
| Answers.RegistryAnswers | src/region.rs:115-136 | the registry refuses known ids and overflows, and otherwise adds region, share and version |
| Answers.ReplayAnswers | src/replay.rs:43-84 | an event other than a region creation applies exactly when it is the origin of a new entity or takes over the state of a known one, and what is said otherwise |
| Answers.CreationAnswers | src/replay.rs:43-52 | a region creation applies exactly when the registry takes it, and sets the entity's state whatever it was |
| Effects.RunHashed | src/engine.rs:195-212 | these statements hold along every run |
| Invariant.LatestIsLast | src/engine.rs:98-115 | on a history that rises in clock and time the latest event found for an entity is the last one told |
| Invariant.RecordExtends | src/engine.rs:144-212 | a recorded change keeps the invariant when replay can tell it, whatever the clock says |
| Invariant.RecordBreaks | src/engine.rs:144-212 | a recorded change that replay cannot tell leaves a history that replay rejects |
| Agreement.UpdateKeeps | src/engine.rs:367-413 | certify, drain, project and reconstruct keep the invariant without any clock assumption |
| Agreement.TransferKeeps | src/engine.rs:470-533 | transfers between different vectors keep the invariant when replay can tell both sides, on any clock |
| Agreement.SelfTransferKeeps | src/engine.rs:470-533 | a transfer to the same vector that moves nothing keeps the invariant when replay can tell both its events |
| Agreement.OnTimeIsOrderly | src/engine.rs:515-531 | replay can tell both sides of a transfer whose readings are later than the latest event of each vector |
| Agreement.OriginKeeps | src/engine.rs:415-468 | origins under fresh ids keep the invariant |
| Agreement.RegionKeeps | src/engine.rs:283-329 | region creations under fresh ids keep the invariant |
| Agreement.StepKeeps | src/engine.rs:283-695 | every admissible operation keeps the invariant; with transfers on time, histories stay rising |
| Agreement.LogIsValid | src/engine.rs:195-212 | under the invariant the log passes the graph checks, whatever the clocks say |
| Invariant.StoryIsHistory | src/replay.rs:86-179 | replay tells each entity's events in the order that the invariant keeps |
| Agreement.InvAgrees | src/engine.rs:331-334 | under the invariant log and store agree exactly when the registry counter can hold the regions |
| Runs.RunsAgree | src/engine.rs:283-695 | after every admissible run the log is valid, replays, and ends every vector at its stored value, up to the 64-bit registry total; readings matter only in that replay must be able to tell the sides of transfers |
| Runs.TimelyRunIsAdmissible | src/engine.rs:98-115 | fresh ids, and transfers between different vectors later than the latest event of each, make a run admissible |
| Runs.RisingRunIsAdmissible | src/engine.rs:98-115 | rising readings, distinct new ids and different transfer ends, all visible in the list of operations, make a run admissible when failing operations change nothing |
| Validity.WellKeptIsValid | src/dag.rs:92-165 | stored events that outrank their stored parents of the same region form a valid log in whatever order they are loaded |
| Validity.StepKeepsLog | src/engine.rs:195-212 | every operation keeps the log in that shape, on any clock and whether it succeeds, fails or fails half-way |
| Validity.FreshRunsAreValid | src/engine.rs:195-212 | with fresh ids every log the engine can write passes the graph checks, with no assumption on clocks, verdicts or transfer ends |
| Progress.FirstOriginIff | src/engine.rs:415-468 | on the empty kernel exactly the origins with a valid proof, components that fit an event and names that are not blank succeed |
| Progress.FirstOriginAgreesIff | src/engine.rs:437-467 | a first operation that is an origin leaves log and store in agreement exactly when it succeeds or writes nothing |
| Progress.SomeRun | src/engine.rs:415-468 | every origin that the empty kernel accepts is an admissible run that stores its vector |
| Progress.OriginAccepted | src/engine.rs:415-468 | with an injective digest and ids that cannot collide, an origin that passes its own checks is accepted, under a fresh id or not |
| Progress.UpdateAccepted | src/engine.rs:367-413 | with an injective digest and ids that cannot collide, an update that passes its own checks and fits an event is accepted |
| Progress.TransferAccepted | src/engine.rs:470-533 | with an injective digest and ids that cannot collide, a transfer that passes its own checks and fits an event on the receiving side is accepted |
| Progress.EventIdSequence | src/engine.rs:144-186 | event ids of one entity differ in their sequence numbers |
| Progress.BlankNameStays | src/state.rs:366-370 | an origin whose id, owner or space is nothing but spaces is refused, and stays stored |
| Progress.BlankNameExample | src/validation.rs:28-48 | a concrete origin whose id is one space: refused, stored, and log and store disagree |
| Runs.LogIsItsOrder | src/engine.rs:214-224 | on rising histories the queried log already is its own topological order |
| Runs.RunLogIsItsOrder | src/dag.rs:167-239 | after every admissible run whose transfers are on time the queried log is its own topological order |
| Runs.HeadsAreLatest | src/ffi.rs:327-348 | on rising histories the heads of an engine log are exactly the latest events of its entities |
| Lookups.RunRegionsUnique | src/engine.rs:283-329 | after every run no two listed regions share a normalized name and prefix |
| Lookups.StaysListed | src/engine.rs:283-329 | a listed region stays listed unchanged, whatever else is run, unless its id is created again under another lookup key |
| Lookups.KeyStaysIff | src/engine.rs:283-329 | an accepted creation leaves the key of a listed region taken exactly when it creates another id, until the clock saturates |
| Lookups.SecondCreateRefused | src/engine.rs:292-301 | at every later point of a run a created region is listed as requested and is the one found under its key, and every request that spells name and prefix alike, up to letter case and surrounding whitespace, is refused without effect |
| Lookups.RefusedRegionUnchanged | src/engine.rs:283-329 | a refused region creation changes nothing |
| Lookups.NextClockIsLater | src/engine.rs:136-142 | the clock of a new region event exceeds every clock in the log until it saturates |
| Runs.SequenceCountsHistory | src/engine.rs:117-134 | sequence numbers count the history of a vector |
| Stored.StepWrites | src/engine.rs:367-695 | the store after an operation is the states it wrote, whether or not their events were accepted |
| Stored.StepStoresGood | src/engine.rs:367-695 | every operation with any verdict stores validated and certified vectors only, and changes the dimension of a stored vector only by an origin under its id |
| Stored.RunStoresSound | src/certification.rs:3-45 | after every run every stored vector is validated, certified at 700 or 1000 against 700, passes the record policy and has an escrow of its own dimension |
| Stored.RunKeepsDimension | src/engine.rs:415-695 | over every run a stored vector stays stored with its dimension until an origin under its id writes it anew |
| Stored.DimensionIsLastOrigin | src/engine.rs:415-468 | after every run a vector is stored exactly when some origin wrote it, and has the dimension of the last one that did |
| Runs.AdmissibleDrain | src/drain.rs:15-28 | after every admissible run every stored vector fits an event, so every component pays within one unit of its rate |
| Runs.DimensionInLog | src/engine.rs:415-695 | after every admissible run a stored vector has the dimension of the first event of its story |
| Stored.DrainTakesHalf | src/drain.rs:15-28 | after every run a drain charges half the rate and never more, and within one unit in every component exactly when none is above the cap of the saturating product |
| Stored.ReconstructInPlace | src/reconstruction.rs:47-51 | after every run a reconstruction adds to existing components only and never appends one |
| Exactness.OriginAgreesIffFresh | src/engine.rs:437-467 | an accepted origin leaves log and store in agreement exactly when its id was unknown to the log |
| Exactness.RegionAgreesIffFresh | src/engine.rs:283-329 | an accepted region creation leaves log and store in agreement exactly when its id was unknown to the log |
| Exactness.TransferAgreesIffRetold | src/engine.rs:470-533 | an accepted transfer leaves log and store in agreement exactly when replay can tell what it did, on any clock |
| Exactness.TransferFromRising | src/engine.rs:494-531 | from rising histories an accepted transfer keeps agreement exactly when its ends differ, or it moves nothing and the type was already standard, on any clock |
| Exactness.SelfTransferDeparts | src/engine.rs:494-531 | a transfer to the same vector that changes something makes the log unreplayable, whatever the clock says |
| Exactness.AcceptedAgreesIffOrderly | src/engine.rs:283-695 | one accepted operation keeps agreement exactly when ids are fresh and replay can tell the sides of a transfer, on any clock |
| Exactness.RunsAgreeIff | src/engine.rs:283-695 | log and store agree throughout a run exactly when each successful operation had a fresh id and each successful transfer could be told by replay |
| Refusals.FailedUpdateUnchangedIff | src/engine.rs:367-413 | a failing update left the kernel as it was exactly when its vector is unknown or its own checks failed |
| Refusals.FailedUpdateAgreesIff | src/engine.rs:367-413 | a failing update keeps agreement exactly when its own checks failed or it wrote nothing an event shows |
| Refusals.FailedOriginUnchangedIff | src/engine.rs:415-468 | a refused origin left the kernel as it was exactly when its own checks failed or it wrote the very state that was there |
| Refusals.FailedOriginAgreesIff | src/engine.rs:415-468 | a refused origin leaves log and store in agreement exactly when its own checks failed or the stored vector already showed the same |
| Refusals.OriginStateIff | src/state.rs:358-373 | an origin's own checks are: a valid proof, some components of a representable magnitude, and names that are not empty |
| Refusals.FailedTransferIs | src/engine.rs:470-533 | a refused transfer leaves nothing, both states, or both states and the sender's event |
| Refusals.FailedTransferUnchangedIff | src/engine.rs:470-533 | a refused transfer left the kernel as it was exactly when its own checks failed, or it wrote what was there and no event |
| Refusals.FailedTransferAgreesIff | src/engine.rs:470-533 | a refused transfer leaves log and store in agreement exactly when its own checks failed, or nothing an event shows changed on the sides without an event and replay can tell the side with one |
| Refusals.SilentWriteAgreesIff | src/engine.rs:74-92 | a write without an event keeps agreement exactly when no vector's event form changed |
| Refusals.OversizedOriginStays | src/engine.rs:437-466 | an origin with a component beyond 64 bits is refused but stays stored, and the log disagrees |
| Refusals.OversizedUpdateStays | src/engine.rs:645-695 | an update that produces a component beyond 64 bits is refused but stays stored, and the log disagrees |
| Refusals.OversizedTransferStays | src/engine.rs:494-531 | a transfer whose receiving side grows beyond 64 bits is refused; both states stay, with the sender's event if it was accepted, and the log disagrees |
| Refusals.OversizedOriginExample | src/engine.rs:437-466 | a concrete first operation after which log and store disagree |
| Forks.ForkOrder | src/replay.rs:141-176 | two events behind one parent are replayed in key order |
| Forks.ForkToldIff | src/replay.rs:43-179 | a forked history replays exactly when the first recorded event sorts first or neither changed anything |
| Forks.HiddenRetellsIff | src/engine.rs:98-115 | any event behind one that the engine does not see as the latest is told last exactly when its clock, time and id are not below those of the hidden one, or neither changes anything |
| Forks.HiddenUpdateRetold | src/engine.rs:98-115 | behind an event that the engine does not see as the latest, an update is told all the same, because it raises the version |
| Forks.SecondTransferAgreesIff | src/engine.rs:470-533 | two accepted transfers between any vectors, on any clock, leave log and store in agreement exactly when each side of the second is in order with the first by clock readings and, at equal readings, by event ids |
| Forks.IdsByDigits | src/engine.rs:144-186 | at equal clock readings two events of one version are replayed in the order of the decimal digits of their sequence numbers |
| Forks.NinthAndTenth | src/engine.rs:117-134 | in the order of decimal digits the tenth event comes before the ninth |
| Conservation.StepBalancesIff | src/engine.rs:283-695 | from validated vectors, a successful operation changes the live total by exactly what it mints, drains, projects or settles if and only if an origin overwrites no live value and a transfer to the same vector has no amount |
| Conservation.StepBalances | src/engine.rs:283-695 | every operation that fails without effect, or succeeds without overwriting live value or transferring to the same vector, changes the live total by exactly what it mints, drains, projects or settles |
| Conservation.RunBalances | src/engine.rs:283-695 | over every run of such operations (`Conserving`), replayable or not and on any clock, the live total is minted minus drained minus projected plus settled; transfers contribute nothing |
| Conservation.AdmissibleConserves | src/engine.rs:283-695 | every admissible run is a run of such operations (`Conserving`) |
| Conservation.StepWealthIff | src/reconstruction.rs:11-69 | live value plus outstanding escrow changes by mint, fee, credited gain and loss alone exactly when an origin overwrites nothing, a transfer to the same vector has no amount, a projection finds no outstanding escrow and a reconstruction finds its whole principal outstanding |
| Conservation.RunConservesWealth | src/projection.rs:4-45 | over every run that overwrites nothing and alternates projections and reconstructions, replayable or not, live value plus escrow is minted minus drained plus credited gains minus losses |
| Conservation.TransferBalances | src/transfer.rs:7-46 | an accepted transfer leaves the live total alone; one to the same vector adds its amount to it |
| Witnesses.SomeUsable | src/engine.rs:415-468 | there are a digest and a request that satisfy the hypotheses of the runs below |
| Witnesses.RepeatedOrigin | src/engine.rs:415-468 | the same origin twice: both are accepted, and the log no longer replays to the store |
| Witnesses.SelfTransferMints | src/engine.rs:470-533 | a first transfer of a vector to itself is accepted, adds its amount to the live total and breaks the log |
| Witnesses.BackwardClock | src/engine.rs:470-533 | two origins and two transfers on a clock that steps back: all four are accepted, the live total is what was minted, and the log no longer replays to the store |
| Witnesses.SaturatedDrain | src/drain.rs:24 | an origin and a drain of the greatest component, both refused and both written: the drain takes one part in ten thousand where half the rate is a half |
| Witnesses.SettledTwice | src/reconstruction.rs:11-69 | a projected vector is reconstructed twice: all is accepted, and it holds twice what was minted |
| Witnesses.EscrowForgotten | src/projection.rs:4-45 | a projected vector is projected again: all is accepted, and nothing is left of what was minted |
| Ordering.SortEventsCanonical | src/storage.rs:149-163 | sorting forgets the order in which events arrived |
| Text.KeysInOrder | src/serialization.rs:53-59 | iterating an ordered map yields its keys in ascending order, once each |

## Left out

- Records: the record map, record ids and record proofs. That every reachable state passes the admission policy of records is part of `Stored.RunStoresSound`.
- Snapshots, the C and Python interfaces, JSON plumbing, the script interpreter and the query helpers: they call the modelled operations.
- Ed25519, blake3 and SHA-256, nonce search and key handling: foreign library calls, taken as functions.
- Serialization of vector states inside a record, which serde does; only the parameters of a record are encoded by the kernel's own code.
- Error messages: an error keeps its kind and its fixed text, but not the values printed into it. Listing regions fails with one text for every stored creation that cannot be read.
- Equality of `current_state_root` with the replayed state root: they hash different material by design.
- Dag.ValidateDag: checks all parents before it builds the graph, where the source does both in one loop; the outcome is the same because a failing check discards the graph.
- Exactness.RunsAgreeIff: is about runs whose failing operations leave the kernel as it was; what a single failing operation leaves behind, and whether log and store then agree, is in `Refusals`.
- Forks.SecondTransferAgreesIff: starts from histories that rise in clock and time; for longer sequences on a standing clock the condition is the general one of `Exactness.AcceptedAgreesIffOrderly`, not one on readings alone.
- Lookups.SecondCreateRefused: region ids are truncated digests, so two requests for different keys could get one id; a run with such a pair is excluded, and `Lookups.KeyStaysIff` says what it would do.
- Conservation.RunBalances: is about runs whose failing operations leave the kernel as it was, because what a failing operation writes is not declared by anything.
- Progress.UpdateAccepted: that ids cannot collide is proved for logs of one region whose entities have names of one length, because ids that contain `::` can collide as strings.
- Witnesses.SettledTwice: like the other runs, starts from one or two new vectors; a digest of unbounded length stands in for a fixed one, which cannot be injective.
- Runs.SequenceCountsHistory: does not say that event ids differ between vectors, because ids that contain `::` can collide as strings; the store refuses a repeated id.
- Overflow of a version or of a magnitude sum is the error `Panicked` before anything is written, as in a build with overflow checks; wrapping builds are not modelled.
- Case folding and trimming are those of ASCII and of the Unicode White_Space property; no other Unicode detail is modelled.
- The system clock, file system and network.
