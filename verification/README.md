# Rhiza, verified

A Dafny model of the parts of Rhiza whose correctness is about whole runs: cooperative fencing of voters,
checkpoint claims, pins, garbage collection and the CURRENT pointer on a shared object store, the Local
maintenance gate and the mutation drain, the canonical codec of graph originals, managed namespaces,
checkpoint files, and a learner adopting a checkpoint. `dafny verify dfyconfig.toml` checks everything.

Code that one process runs over its own data is modelled in its own form: the fencing ledger, the codec's
writer and reader, the mutation drain and its response bodies are classes whose methods are proved equal to
specification functions, and the file validator, uploader and downloader are methods with loops (the
downloader writes its array in place). Protocols between processes or goroutines are step systems: a state, an
`Event`, `After` for one step and `Trace` for a run; `Reachable` states are those some run leads to, and each
theorem about a run follows from an invariant every event keeps. Safety alone would also hold of a system that does
nothing, so each protocol also has theorems about what it does do: what a call left alone achieves (`Leads(s, t)`: some
run goes from `s` to `t`), and for every decision exactly when it is taken, in terms of stored values.

| file | what it models |
|---|---|
| `FencingProtocol`, `FencingLedger`, `FencingTheorems` | the ledger of runs, stops, drains and exits |
| `FencingAnswers` | which requests the ledger accepts, read off the recorded runs and closures |
| `Supervisor`, `SupervisorAlone` | a supervisor driving one run against an authority whose replies may be lost |
| `GraphValue`, `GraphParser`, `GraphCommand`, `GraphWriter`, `GraphReader` | the graph original codec |
| `GraphFormat` | its format, byte by byte |
| `PublisherClaims`, `ClaimsAlone` | the publisher claim: acquire, bind, renew, release |
| `CheckpointGc`, `CheckpointGcTheorems`, `CollectorAlone` | publication, recovery pins and garbage collection |
| `CheckpointLeases` | claims and bucket together: what sessions do while their leases run |
| `CheckpointRecovery` | publication, collection and download together: what retained checkpoints restore to |
| `CollectorReload` | a collecting manager reloaded by another goroutine in mid-pass |
| `CurrentRegister` | the three promoters of CURRENT |
| `LocalGate` | the Local maintenance gate |
| `MutationDrain`, `DrainReceipt` | the object-store mutation drain |
| `LearnerAdoption` | sync thread, renewal goroutine and verifier goroutine of a learner |
| `ManagedNamespace`, `NamespaceText` | managed namespace derivation and the bound bucket's key check |
| `Snapshot` | cutting, validating and rebuilding checkpoint files |
| `Options`, `ByteStrings` | optional values; bytes, big-endian words and bytewise order |

## How the outside world appears

- An object that takes conditional writes is the sequence of values it has taken, so its version is a fresh number
  per write. An upload stays on the wire and may land at any later moment or never, whatever its sender was told.
- Clocks only move forward. Claims count nanoseconds and store milliseconds, as the code does.
- Lease lengths are fixed per acquire call: a bind or a renewal uses the length its claim was acquired with. It reads
  the clock twice, so the lease it tested may have run out when it decides the new expiry.
- A write or delete that a session makes under its claim lands while some claim value of its generation is unexpired
  and nobody has asked to release it. This is the code's own timing assumption, and the only one: that the session's
  generation is then the stored one is proved (`CheckpointLeases.GuardedWritesLandUnderTheirClaim`). Reads, pin
  renewals, pin closes and the marking of expired pins are not covered by it.
- SHA-256 is injective: a digest is a constructor applied to what it digests, a root stands for its own hash.
  Block objects are named by any injective spelling of digests. Tokens are fresh numbers. The number-lexeme check of the
  codec is a parameter shared by both sides.
- In `LocalGate` two duties are the callers': the operator recovers the gate only once the holder has terminated with
  nothing outstanding (the guard of `Recover`), and a session's callback awaits every storage call it made.
  A callback that does not is part of the model (`Desert`), and `LateIff` says call by call what it costs.

## What turned out not to hold as one might state it

- A voter completion is not final by itself. The next transition revokes it iff it is an accepted close of one of its
  slots by another operation while the generation is open (`CompletionRevokedIff`; over runs, `CompletionLastsIff`),
  and `VoterCompletionCanBeRevoked` is such a run. What is final is the runs (`FencedRunsAreFinal`).
- Compaction can start with the pin already gone from the store: after a shutdown that follows prepare, when the
  verifier goroutine closes the pin before the sync thread enters compaction, and in the deadline's own millisecond,
  because the stored expiry is cut to whole milliseconds. `PinAliveIff` shows that these are exactly the two cases.
- A nil drain receipt does not promise that the next one is nil: a body whose last promised byte has arrived can still
  fail to close (`NilCanBeFollowedByUnknown`). `NilIsKeptIff` says exactly which operations do this.
- A collection pass can lose what it listed if another goroutine reloads its manager between its listing and its merge
  (`ReloadedPassHarms` is such a run, `SparesIffNotReloaded` shows that nothing else does it). Pass by pass, it comes to
  delete a block of a listed root iff at the merge a kept root is missing from the manager's list and has a block that
  no root the pass goes on with shares (`MergeHarmsIff`). The repository's own callers load at start-up only.
- A gated session's mutation can take effect after another session began. For a call in flight this can happen iff its
  callback has stopped waiting for it and its session is neither in doubt about a mutation nor stopped before asking for
  release (`LateIff`); calls that are waited for are never late, even in a session that drops others (`NoLateEffects`).

## Model

| member | source | states |
|---|---|---|
| `FencingLedger.Ledger.Register` | pkg/fencing/ledger.go:24-53 | returns exactly the specified error, or leaves exactly the specified ledger; the scan for an earlier incarnation of the slot is proved equal to its quantified form |
| `FencingLedger.Ledger.Bind` | pkg/fencing/ledger.go:55-76 | same, for binding a WAL identity that no other run of the voter contradicts |
| `FencingLedger.Ledger.CloseNodes` | pkg/fencing/ledger.go:80-126 | same, for closing voter slots: every run of the slots is stopped once, slots are labelled, nothing else changes |
| `FencingLedger.Ledger.Close` | pkg/fencing/ledger.go:128-152 | same, for the generation-wide close |
| `FencingLedger.Ledger.RecordDrain` | pkg/fencing/ledger.go:154-171 | same, for a drain receipt |
| `FencingLedger.Ledger.RecordExit` | pkg/fencing/ledger.go:173-184 | same, for a bound exit |
| `FencingLedger.Ledger.RecordNeverBoundExit` | pkg/fencing/ledger.go:186-201 | same, for an exit of a run that never bound |
| `FencingLedger.Ledger.CompleteNodes` | pkg/fencing/ledger.go:205-254 | the two scans answer true exactly when the operation labels the scope, every run in it has terminated, every slot was observed and every current Pod registered |
| `FencingAnswers.RegisterAcceptedIff` | pkg/fencing/ledger.go:24-53 | in every reachable ledger a new, well-named run is registered iff its slot is open and every run recorded for the slot has the same Pod; it is then there with no stop, and a refusal changes nothing |
| `FencingAnswers.RegisterRepeatedIff` | pkg/fencing/ledger.go:28-44 | a registration of a known run succeeds iff the slot is open and the run is exactly as registered, unbound; it never changes the ledger |
| `FencingAnswers.IllNamedIsRefused` | pkg/fencing/ledger.go:25-33 | an identity of another cluster, an incomplete one or one that brings a WAL is never registered |
| `FencingAnswers.BindAcceptedIff` | pkg/fencing/ledger.go:55-76 | a WAL is bound iff the run is registered as that identity, the slot is open and no run of the slot is bound to another WAL |
| `FencingAnswers.CloseAcceptedIff` | pkg/fencing/ledger.go:128-152 | the generation is closed by the first request, later only by its repetition; every run is then stopped once, and a voter close of no slots is the same close |
| `FencingAnswers.CloseNodesAcceptedIff` | pkg/fencing/ledger.go:80-126 | slots are closed iff, generation open, each is named and not already labelled by the same operation for another request, or, generation closed, each is already so labelled |
| `FencingAnswers.CloseNodesStops` | pkg/fencing/ledger.go:98-126 | an accepted close labels exactly the named slots and stops exactly the unstopped runs in them |
| `FencingAnswers.DrainAcceptedIff` | pkg/fencing/ledger.go:154-171 | a drain is recorded iff it answers the stop of its run, which has no never-bound exit and no other drain |
| `FencingAnswers.ExitAcceptedIff` | pkg/fencing/ledger.go:173-184 | a bound run exits iff its stop was answered by a drain with writers joined and no mutation pending or unknown |
| `FencingAnswers.NeverBoundExitAcceptedIff` | pkg/fencing/ledger.go:186-201 | a run exits as never bound iff it is stopped, unbound and undrained |
| `FencingAnswers.ErrorsMean` | pkg/fencing/ledger.go:24-201 | which error a refused request gets: closed only for one that came too late, pending only for an exit without its proof |
| `FencingAnswers.CompleteIff` | pkg/fencing/ledger.go:205-254 | in every reachable ledger completion needs no more than this: labels, an exit for every run of the scope, every slot seen, every current Pod seen there |
| `FencingTheorems.NextKeepsInv` | pkg/fencing/ledger.go:24-201 | every transition, accepted or refused, keeps runs well formed, one incarnation line per slot and closures consistent |
| `FencingTheorems.OneIncarnationLinePerVoter` | pkg/fencing/ledger.go:24-76 | in every reachable ledger all runs of a slot come from one Pod and its bound runs share one WAL |
| `FencingTheorems.EvidenceIsMonotone` | pkg/fencing/ledger.go:24-201 | no sequence of transitions removes a run or changes an issued stop, a drain, an exit or a stopped run's identity |
| `FencingTheorems.RetryIsIdempotent` | pkg/fencing/ledger.go:24-201 | repeating any accepted transition is accepted and changes nothing |
| `FencingTheorems.FencedRunsAreFinal` | pkg/fencing/ledger.go:80-152 | after completion, in every continuation, no fenced slot registers or binds and its runs stay the same, terminated runs |
| `FencingTheorems.CompletionFollowsLabels` | pkg/fencing/ledger.go:209-254 | a completed operation completes in a continuation iff its labels stand; generation-wide completion stands forever |
| `FencingTheorems.CompletionRevokedIff` | pkg/fencing/ledger.go:98-126 | told from the ledger before it, a transition takes a completion away iff it is an accepted close of a shared slot by another operation with the generation open, partial overlaps included |
| `FencingTheorems.CompletionLastsIff` | pkg/fencing/ledger.go:98-126 | over any run, a completion holds all along iff no step of the run is such a close |
| `FencingTheorems.VoterCompletionCanBeRevoked` | pkg/fencing/ledger.go:98-126 | a reachable completed ledger that a second operation's close revokes |
| `FencingTheorems.RelabellingTransfersCompletion` | pkg/fencing/ledger.go:98-126 | and that step hands the completion over: the new operation completes, the old one no longer does |
| `FencingTheorems.EscalationKeepsVoterAnswer` | pkg/fencing/ledger.go:87-97 | a generation close changes no voter completion, in either direction |
| `FencingTheorems.EscalationCommutesWithEvidence` | pkg/fencing/ledger.go:128-201 | every drain, exit and never-bound exit that was acceptable stays acceptable after a generation close, and the two orders give the same ledger |
| `FencingTheorems.EscalationAdmitsNothingNew` | pkg/fencing/ledger.go:128-201 | about an already stopped run, escalation makes no refused evidence acceptable |
| `FencingTheorems.ExitReachableIff` | pkg/fencing/ledger.go:154-201 | a run can still be brought to an exit iff it has no blocking evidence, in particular no unclean drain |
| `Supervisor.TraceKeepsInv` | pkg/fencing/supervisor.go:137-255 | every interleaving of the supervisor, its handlers, lost calls landing late and other runs' transitions keeps the evidence invariant |
| `Supervisor.ExitIsProven` | pkg/fencing/supervisor.go:164-190 | an exit in the ledger implies the child was waited on and its namespace emptied, and that the run's evidence satisfies completion |
| `Supervisor.ExitComesLast` | pkg/fencing/supervisor.go:164-190 | at the very step that makes an exit durable, the wait, the empty namespace, the stop and a bound run's clean drain are already there |
| `Supervisor.BoundRunNeverExitsUnbound` | pkg/fencing/supervisor.go:215-255 | a bind that took effect, reply lost or not, never ends as a never-bound exit |
| `Supervisor.NeverBoundExitShutsOutLateBinds` | pkg/fencing/supervisor.go:215-255 | once a never-bound exit is durable, a bind still in flight can only be refused |
| `Supervisor.RetriesConverge` | pkg/fencing/supervisor.go:147-159 | whatever was lost before, the first answered drain, exit or never-bound exit is accepted, and success means the exit is durable |
| `SupervisorAlone.StartsIff` | pkg/fencing/supervisor.go:47-89 | an answered supervisor starts its child iff the slot is open and all its runs came from its own Pod |
| `SupervisorAlone.BindsIff` | pkg/fencing/supervisor.go:335-348 | an answered bind is taken over iff the slot is open and no run of it is bound to another WAL |
| `SupervisorAlone.StoppedRunExits` | pkg/fencing/supervisor.go:164-190 | in any run, a serving supervisor whose bound run is stopped and whose child answers with a clean receipt can bring it to a durable exit |
| `SupervisorAlone.UnboundRunExits` | pkg/fencing/supervisor.go:215-255 | likewise one whose child is gone before it bound: the exit recorded is the never-bound one of its stop |
| `SupervisorAlone.UnseenBindGetsNoStop` | pkg/operator/fencing_executor.go:148-163 | a run whose bind took effect unseen is given no stop under its unbound identity, and its supervisor fails rather than report it unbound |
| `GraphWriter.EncodeManagedGraphOriginal` | internal/types/managed_graph_original.go:34-71 | the writer with its latched budget error returns the specified bytes, or nothing exactly when the command is unencodable or over a budget |
| `GraphWriter.Writer.WriteValue` | internal/types/managed_graph_original.go:138-248 | writing a value appends its encoding and counts its nodes, or latches an error exactly when it cannot fit |
| `GraphWriter.Writer.WriteMap` | internal/types/managed_graph_original.go:219-244 | map entries go out in strictly sorted key order whatever the map's own order |
| `GraphWriter.Writer.WriteEntries` | internal/types/managed_graph_original.go:238-243 | the loop over the sorted keys appends exactly the entries' encodings, or latches an error exactly when they do not fit |
| `ByteStrings.SortKeys` | internal/types/managed_graph_original.go:233-237 | the keys of a map come out strictly ascending, each exactly once |
| `GraphReader.DecodeManagedGraphOriginal` | internal/types/managed_graph_original.go:252-297 | the reader with its latched error returns exactly what the specified decoder does, on every byte string |
| `GraphReader.Reader.ReadValue` | internal/types/managed_graph_original.go:357-434 | reads one value as specified or latches; terminates, stays within the data, and counts at most one node past the limit of 65536 |
| `GraphReader.Reader.ReadCount` | internal/types/managed_graph_original.go:346-356 | a container is never sized beyond what the remaining bytes can hold |
| `GraphReader.Reader.ReadEntries` | internal/types/managed_graph_original.go:409-430 | the map loop with its previous key accepts exactly strictly sorted keys and builds that map |
| `GraphParser.ParseSound` | internal/types/managed_graph_original.go:357-434 | accepted bytes are the encoding of the value returned, within depth 32 and the node limit |
| `GraphParser.ParseComplete` | internal/types/managed_graph_original.go:357-434 | every encoding within the limits is accepted and returns the value with integers widened |
| `GraphCommand.DecodeThenEncode` | internal/types/managed_graph_original.go:252-297 | re-encoding any accepted byte string gives exactly those bytes |
| `GraphCommand.EncodeThenDecode` | internal/types/managed_graph_original.go:34-71 | decoding an encoded command returns it with integers widened to int64; nil and empty containers and float bits survive, and nothing emitted is refused |
| `GraphCommand.AcceptsExactlyEncodings` | internal/types/managed_graph_original.go:252-297 | a byte string is accepted iff some command encodes to it |
| `GraphCommand.EncodingIsInjective` | internal/types/managed_graph_original.go:34-71 | two commands share an encoding only if they differ in integer types alone |
| `GraphFormat.ValueFormat` | internal/types/managed_graph_original.go:130-248 | each kind of value starts with its tag, followed by its big-endian number, float bits, length or count, and text |
| `GraphFormat.ListFormat` | internal/types/managed_graph_original.go:207-222 | the items of a list stand behind its count, each behind those before it |
| `GraphFormat.MapFormat` | internal/types/managed_graph_original.go:223-244 | each entry of a map stands as key text then value, entries in ascending key order |
| `GraphFormat.CommandFormat` | internal/types/managed_graph_original.go:34-71 | a command starts with the four magic bytes, then the request identifier and the statement as texts, then arguments, events, offset and trim in this order |
| `GraphFormat.EventsFormat` | internal/types/managed_graph_original.go:39-54 | the events stand behind their count, each behind those before it |
| `GraphFormat.EventFormat` | internal/types/managed_graph_original.go:46-53 | an event is stream, kind and payload, and nothing else |
| `GraphFormat.OffsetFormat` | internal/types/managed_graph_original.go:55-62 | an offset is 1, two texts and a 64-bit number, a missing one 0 |
| `GraphFormat.TrimFormat` | internal/types/managed_graph_original.go:63-69 | a trim is 1, a text and a 64-bit number, a missing one 0 |
| `GraphFormat.SmallestCommand` | internal/types/managed_graph_original.go:34-71 | the empty command, in full |
| `GraphFormat.NestingLimit` | internal/types/managed_graph_original.go:138-146 | lists nested k deep at some depth are accepted iff that makes at most 32 |
| `GraphFormat.NodeLimit` | internal/types/managed_graph_original.go:142-146 | a command is accepted up to 65536 nodes in all, its arguments counting as one |
| `GraphFormat.BodyLimit` | internal/types/managed_graph_original.go:79-88 | and up to 192 KiB in all |
| `GraphFormat.FiniteIff` | internal/types/managed_graph_original.go:176-189 | a float is finite iff its bits, sign aside, are below those of infinity |
| `ByteStrings.BigEndian32` | internal/types/managed_graph_original.go:90-94 | a 32-bit word goes out most significant byte first |
| `ByteStrings.BigEndian64` | internal/types/managed_graph_original.go:95-99 | so does a 64-bit one |
| `ByteStrings.LessIff` | internal/types/managed_graph_original.go:233-237 | the key order: one is a proper prefix of the other, or at the first difference has the smaller byte |
| `PublisherClaims.StepKeepsInv` | pkg/checkpoint/checkpoint.go:279-503 | every step of every call, including late and lost uploads, keeps each stored claim a legal successor of the previous one |
| `PublisherClaims.UnexpiredIsStored` | pkg/checkpoint/checkpoint.go:279-503 | any claim value ever stored whose generation nobody asked to release is, until it expires, of the generation still stored |
| `PublisherClaims.LeaseExclusion` | pkg/checkpoint/checkpoint.go:279-503 | a confirmed, unreleased claim is the stored generation, with at least its expiry, for as long as it is unexpired |
| `PublisherClaims.NoTwoHolders` | pkg/checkpoint/checkpoint.go:337-398 | two such claims belong to the same acquire call |
| `PublisherClaims.LeasesDoNotOverlap` | pkg/checkpoint/checkpoint.go:344-382 | an unreleased lease is over, by the clock its successor read, before the next generation is decided |
| `PublisherClaims.GenerationClaimNeverAdvances` | pkg/checkpoint/checkpoint.go:275-323 | everything stored before a generation claim is that same operation's, at the same reserved index, bound there or not at all |
| `PublisherClaims.GenerationsIncrease` | pkg/checkpoint/checkpoint.go:279-398 | generations go up by one per successful acquire and otherwise stay, and one generation belongs to one acquire call |
| `PublisherClaims.StaleHoldersChangeNothing` | pkg/checkpoint/checkpoint.go:400-503 | a bind, renewal or release of an older generation leaves the object alone whenever it arrives |
| `PublisherClaims.OwnWritesKeepIdentity` | pkg/checkpoint/checkpoint.go:400-503 | a bind, renewal or release that does land is the current session's own and keeps generation, owner, purpose and reserved index |
| `PublisherClaims.ConfirmedIsLogged` | pkg/checkpoint/checkpoint.go:446-460 | a stable read that confirms a write returns a value the same session wrote, by a call that is no release |
| `PublisherClaims.StoredClaimsAreReadable` | pkg/checkpoint/checkpoint.go:505-519 | no stored claim is one the reader refuses |
| `PublisherClaims.PublisherReservesAbovePredecessor` | pkg/checkpoint/checkpoint.go:362-380 | a publisher reserves the least index above the one it was told and all its immediate predecessor reserved or bound |
| `PublisherClaims.LeasesRunInFull` | pkg/checkpoint/checkpoint.go:337-503 | in every run, each stored value that an acquire, a bind or a renewal wrote expires its full lease length after it was decided, and a released one at that moment |
| `PublisherClaims.ConfirmedLeaseIsFull` | pkg/checkpoint/checkpoint.go:400-460 | in every run, a session with a confirmed acquire, bind or renewal holds a lease that runs its full length from the instant that call decided it |
| `PublisherClaims.WritesAreAsAsked` | pkg/checkpoint/checkpoint.go:279-503 | what each write stores is what its call asked for, every other field as before |
| `ClaimsAlone.AcquireSucceeds` | pkg/checkpoint/checkpoint.go:337-398 | left alone over no claim or an expired one, an acquire holds the next generation for its full lease, a publisher with the least index free to it |
| `ClaimsAlone.AcquireGenerationSucceeds` | pkg/checkpoint/checkpoint.go:279-326 | so does a generation claim over an empty namespace or its own expired claim |
| `ClaimsAlone.RenewSucceeds` | pkg/checkpoint/checkpoint.go:421-444 | left alone, the holder of the stored claim renews it for its full lease from now |
| `ClaimsAlone.BindSucceeds` | pkg/checkpoint/checkpoint.go:400-419 | and binds any index it may, with root and full lease |
| `ClaimsAlone.ReleaseSucceeds` | pkg/checkpoint/checkpoint.go:473-503 | a release by the holder of the stored generation vacates the object at once |
| `ClaimsAlone.BusyIff` | pkg/checkpoint/checkpoint.go:349-361 | an acquire is told busy iff the stored lease has not run out |
| `ClaimsAlone.RenewFencedIff` | pkg/checkpoint/checkpoint.go:421-444 | a renewal is fenced iff the stored claim differs, expiry aside, from the one presented or has run out |
| `ClaimsAlone.AcquireTriesAgain` | pkg/checkpoint/checkpoint.go:381-386 | an acquire that lost a race reads again and can succeed over what it finds |
| `ClaimsAlone.SessionIsFenced` | pkg/checkpoint/checkpoint.go:400-503 | a bind, renewal or release that lost one is fenced and changes nothing |
| `ClaimsAlone.HandedOutUnexpired` | pkg/checkpoint/checkpoint.go:446-460 | no step hands out a claim that has run out |
| `CheckpointGcTheorems.StepKeepsInv` | pkg/checkpoint/checkpoint.go:1563-1691 | every publish, promote, pin, renew, close and collection step keeps the storage invariant |
| `CheckpointGcTheorems.GcSafety` | pkg/checkpoint/checkpoint.go:1563-1691 | in every reachable state all stored roots, the roots of unexpired pins and the root of CURRENT have all their blocks, and CURRENT's root is stored |
| `CheckpointGcTheorems.PassSparesListedBlocks` | pkg/checkpoint/checkpoint.go:1638-1691 | a pass deletes no block of a root it listed, kept or removed, nor of a pinned root |
| `CheckpointGcTheorems.OnlyUnneededRootsLeave` | pkg/checkpoint/checkpoint.go:1582-1616 | a root leaves only below the floor, unretained, never as CURRENT or the root of an unexpired pin, and only if the pass listed at least `keep` other roots at or above its index |
| `CheckpointGcTheorems.PassKeepsEnough` | pkg/checkpoint/checkpoint.go:1592-1616 | at every moment of a pass at least `keep` of the roots it listed have been kept, or all if there were fewer |
| `CheckpointGcTheorems.UnneededRootMayLeave` | pkg/checkpoint/checkpoint.go:1598-1616 | conversely a pass may remove any root below the floor with `keep` listed roots above it that is not retained, pinned or CURRENT |
| `CheckpointGcTheorems.LiveIsExact` | pkg/checkpoint/checkpoint.go:1617-1661 | the live set is exactly the blocks of the manager's and the pinned roots |
| `CheckpointGcTheorems.UnsparedBlockMayLeave` | pkg/checkpoint/checkpoint.go:1665-1690 | any other block may be deleted |
| `CollectorAlone.UndisturbedPass` | pkg/checkpoint/checkpoint.go:1563-1691 | a pass left alone can end with exactly the needed roots and exactly the blocks of roots stored or pinned when it started |
| `CheckpointGcTheorems.EveryContentHasAKey` | pkg/checkpoint/checkpoint.go:905-944 | whatever the content, a publisher finds a key for it that takes no other block's place |
| `CheckpointGcTheorems.PinIsTaken` | pkg/checkpoint/checkpoint.go:1248-1310 | a pin taken names its root, with all its blocks there, under the fresh token until the time asked for |
| `CheckpointGcTheorems.RenewalTakesEffect` | pkg/checkpoint/checkpoint.go:1312-1334 | a renewal that finds the pin as read moves its expiry to what was asked for, and nothing else |
| `CheckpointGcTheorems.CloseTakesEffect` | pkg/checkpoint/checkpoint.go:1336-1361 | a close that does ends it at once |
| `CheckpointGcTheorems.LiveCoversListed` | pkg/checkpoint/checkpoint.go:1617-1661 | the merged list of roots still covers every listed and every pinned root |
| `CheckpointGcTheorems.SparesListedIff` | pkg/checkpoint/checkpoint.go:1625-1637 | a pass's live set covers what it listed iff no kept root missing from the manager's list has a block that nothing else it goes on with shares |
| `CollectorReload.SparesIffNotReloaded` | pkg/checkpoint/checkpoint.go:1625-1661 | over all runs with reloads, a pass deletes no block of what it listed iff its list was not reloaded between listing and merge |
| `CollectorReload.MergeHarmsIff` | pkg/checkpoint/checkpoint.go:1625-1661 | in any run, reloaded or not, a pass merging under its claim comes to delete a block of a root it listed, in some continuation, iff a kept root is missing from its manager's list and has a block nothing spared shares |
| `CollectorReload.UnreloadedLosesNothing` | pkg/checkpoint/checkpoint.go:1625-1637 | that condition never holds of a pass whose list was not replaced |
| `CollectorReload.ReloadedPassHarms` | pkg/checkpoint/checkpoint.go:225-266 | a run in which a reloaded pass may delete a block of a root it listed and kept and that stays stored |
| `CollectorReload.UnreloadedRunsAreSafe` | pkg/checkpoint/checkpoint.go:1563-1691 | a run without a reload is a run of `CheckpointGc`, with all that is proved there |
| `CheckpointLeases.GuardedWritesLandUnderTheirClaim` | pkg/checkpoint/checkpoint.go:753-767 | in every run of claims and bucket together, a write or delete that lands while its lease runs lands under the stored generation |
| `CheckpointLeases.GcSafetyUnderLeases` | pkg/checkpoint/checkpoint.go:1563-1691 | hence in every such run all stored roots, the roots of unexpired pins and CURRENT's root can be restored |
| `CheckpointLeases.LiveClaimRuns` | pkg/checkpoint/checkpoint.go:753-767 | a claim held, unexpired and not being released satisfies the timing assumption for its session |
| `CheckpointLeases.NewGenerationBeginsSession` | pkg/checkpoint/checkpoint.go:1500-1561 | each new generation begins one session of the kind its claim was taken for |
| `CheckpointRecovery.StepKeepsInv` | pkg/checkpoint/checkpoint.go:911-957 | over every run of the bucket with contents, each block object present holds bytes of the digest it is named by, and every root written describes its sources |
| `CheckpointRecovery.RetainedBlockIsIntact` | pkg/checkpoint/checkpoint.go:1563-1691 | in every reachable state each block of a checkpoint that is stored, CURRENT or under an unexpired pin is present, of its size and with its digest |
| `CheckpointRecovery.RetainedCheckpointDownloads` | pkg/checkpoint/checkpoint.go:1124-1175 | if a checkpoint is so retained at the moment each of its blocks is fetched, the block checks pass iff no transfer fails, and the file is then the uploaded source byte for byte |
| `CheckpointRecovery.DownloadRetained` | pkg/checkpoint/checkpoint.go:1124-1175 | hence the download, with its writes in any order, returns exactly the source or, if a transfer failed, nothing |
| `CheckpointRecovery.SourcesCanBePublished` | pkg/checkpoint/checkpoint.go:591-704 | from any state, a publisher under its claim can store any acceptable sources: their chunks, and a root that describes them |
| `CheckpointRecovery.PublishedBecomesCurrent` | pkg/checkpoint/checkpoint.go:769-849 | and a root of a higher index becomes CURRENT |
| `CheckpointGcTheorems.MarkedPinsAreNeverRenewed` | pkg/checkpoint/checkpoint.go:1312-1334 | a pin a pass marked expired is expired in every continuation, and no renewal on the wire takes effect on it |
| `CheckpointGcTheorems.WinningRenewalAbortsThePass` | pkg/checkpoint/checkpoint.go:1448-1480 | a renewal that lands after the pass read the pin leaves the pass nothing but to abort, in every continuation |
| `CurrentRegister.JudgeMeans` | pkg/checkpoint/managed_graph.go:177-188 | each verdict of each promoter says how the two values compare; only a strictly higher rank of the same profile advances |
| `CurrentRegister.VerdictIff` | pkg/checkpoint/managed_graph.go:171-188 | each verdict of each promoter both ways: certified and Graph promotions rank by cut alone, so a different value at the same cut conflicts whatever its slot; append-only ones by cut and slot |
| `CurrentRegister.ReadableIff` | pkg/checkpoint/managed_graph.go:42-60 | which stored values each promoter can read |
| `CurrentRegister.CurrentIncreases` | pkg/checkpoint/checkpoint.go:769-849 | over any run of any promoters the stored value strictly increases by cut and seal slot and never changes profile |
| `CurrentRegister.EqualRankIsNeverOverwritten` | pkg/checkpoint/managed_graph.go:336-349 | a write that lands on a value is of a higher rank, and one of a certified or Graph promotion of a strictly greater cut |
| `CurrentRegister.SuccessMeansStored` | pkg/checkpoint/managed_graph.go:142-201 | success means the caller's value was stored at some moment of the call, and that CURRENT is never below it afterwards |
| `CurrentRegister.RefusalIsTruthful` | pkg/checkpoint/managed_graph.go:295-360 | a stale answer names a value above the caller's, a conflicting one a different value of the same rank, stored during the call |
| `CurrentRegister.PromotionAlone` | pkg/checkpoint/managed_graph.go:142-201 | left alone, every promotion is stored, confirmed or refused exactly as its rank deserves |
| `CurrentRegister.LostReplyIsRecovered` | pkg/checkpoint/managed_graph.go:189-198 | a locator that landed is reported stored although its reply was lost |
| `CurrentRegister.RaceLoserIsAnswered` | pkg/checkpoint/managed_graph.go:295-360 | a promotion that lost a race reads again and is answered as it then deserves |
| `LocalGate.StepKeepsInv` | pkg/checkpoint/local_gc.go:75-154 | every step of every session, the wire and recovery keeps the gate invariant |
| `LocalGate.NoLateEffects` | pkg/checkpoint/local_gc.go:123-154 | once another session's work has begun, no mutation of an earlier session that was waited for takes effect, in any continuation, whatever calls that session or others dropped |
| `LocalGate.StepKeepsOrder` | pkg/checkpoint/local_gc.go:75-122 | every step keeps that a session gets the token once: no upload of its own brings it back after its release, and a holder that has begun is the last to have begun |
| `LocalGate.LateIff` | pkg/checkpoint/local_gc.go:123-154 | in any run, a mutation in flight can come to take effect after another session began, without being dropped from here on, iff its call was dropped and its session is neither in doubt nor returned without asking for release |
| `LocalGate.AwaitingIsExact` | pkg/checkpoint/local_gc.go:123-154 | over all runs, exactly the calls that are waited for are never late |
| `LocalGate.HeldUntilRecovery` | pkg/checkpoint/local_gc.go:129-132 | a session with a doubtful mutation, or stopped before asking for release, leaves the gate held and nobody else working until a recovery |
| `LocalGate.UnsettledMutationHoldsTheGate` | pkg/checkpoint/local_gc_bucket.go:63-104 | while a mutation that is waited for can still take effect, the session holds the gate, cannot release it, and no upload on the wire can free it |
| `LocalGate.SuccessMeansReleased` | pkg/checkpoint/local_gc.go:133-154 | reported success means the release took effect, directly or by the read-back after a lost reply, with nothing outstanding but calls the callback dropped |
| `LocalGate.SessionAlone` | pkg/checkpoint/local_gc.go:75-154 | left alone at a free gate, a session works, frees the gate and reports success, even if the reply to its release is lost |
| `LocalGate.RecoveryFrees` | pkg/checkpoint/local_gc.go:158-191 | a gate left held by a session that returned is freed by recovery |
| `LocalGate.ReadBackIff` | pkg/checkpoint/local_gc.go:133-154 | the read-back answers success iff the release took effect and the gate is free |
| `LocalGate.BusyIff` | pkg/checkpoint/local_gc.go:87-100 | a session is turned away iff the gate is held |
| `MutationDrain.Drain.Begin` | internal/objstore/mutation_drain.go:83-91 | admits exactly while not stopped and counts the attempt |
| `MutationDrain.Drain.End` | internal/objstore/mutation_drain.go:93-102 | uncounts an attempt and keeps unknown sticky |
| `MutationDrain.Response.Finish` | internal/objstore/mutation_drain.go:22-29 | ends the attempt the first time only; an unknown outcome is noted every time |
| `MutationDrain.Response.Read` | internal/objstore/mutation_drain.go:31-55 | one read does what the specification says to body, counters and outcome |
| `MutationDrain.Response.Close` | internal/objstore/mutation_drain.go:57-68 | a close before completion ends the attempt unknown, a failing close notes unknown |
| `MutationDrain.ResponseVerdict` | internal/objstore/mutation_drain.go:31-68 | for any reads and closes, the attempt ends with the first settling operation and is known iff the whole body was read, within 64 KiB, of the promised length and with neither error marker occurring anywhere in it |
| `MutationDrain.ContainsIff` | internal/objstore/mutation_drain.go:49-49 | the search finds a needle iff it stands at some place of the text |
| `MutationDrain.MarkedIff` | internal/objstore/mutation_drain.go:49-49 | a body is marked iff `<Error` or `"error"` occurs in it |
| `MutationDrain.EndedOnce` | internal/objstore/mutation_drain.go:22-29 | no later read or close ends it again or clears unknown |
| `DrainReceipt.ReceiptIsSound` | internal/objstore/mutation_drain.go:107-130 | nil means every upload, delete and HTTP attempt ever admitted ended once and known, and nothing is admitted in any continuation |
| `DrainReceipt.ReceiptIff` | internal/objstore/mutation_drain.go:107-130 | the answer is nil iff admission has stopped, the context is not done, every attempt has ended and nothing is unknown |
| `DrainReceipt.AnswerIff` | internal/objstore/mutation_drain.go:107-130 | in every reachable state, which of its answers the drain gives, told by the attempts, the unknown mark and the context |
| `DrainReceipt.UnknownArisesIff` | internal/objstore/mutation_drain.go:22-68 | the steps that set the unknown mark, exactly |
| `DrainReceipt.UnknownAttemptRulesNilOut` | internal/objstore/metrics.go:450-510 | an attempt that ended unknown rules nil out for good, whatever later retries report |
| `DrainReceipt.UnknownIsSticky` | internal/objstore/metrics.go:306-325 | unknown and stopped stay, nothing is admitted after the stop, and an ended attempt keeps its outcome |
| `DrainReceipt.NilCanBeFollowedByUnknown` | internal/objstore/mutation_drain.go:57-68 | a run in which a nil receipt is followed by an unknown mark from a late failing close |
| `DrainReceipt.NilIsKeptIff` | internal/objstore/mutation_drain.go:31-68 | after a nil receipt the next one is nil iff its context is not done and no late read or close of an answered body fails or completes it badly |
| `LearnerAdoption.StepKeepsInv` | replica.go:700-827 | every interleaving of the sync thread, the renewal goroutine, the verifier goroutine and shutdown keeps the adoption invariant |
| `LearnerAdoption.CompactionStartsSafely` | replica.go:865-954 | compaction starts only with no recorded loss, before the deadline, tips past the deciding slot and a seal above the floor; outside shutdown and the deadline's own millisecond the stored pin is unexpired |
| `LearnerAdoption.LossFromPrepareOnLatches` | replica.go:800-827 | a renewal failure recorded from prepare on has latched not-ready when the sync call is over |
| `LearnerAdoption.LossFromPrepareOnIsPermanent` | replica.go:940-979 | and it stays latched in every continuation, with the first failure kept |
| `LearnerAdoption.LatchIsForGood` | replica.go:1007-1013 | the first failure is never replaced and readiness never returns |
| `LearnerAdoption.LatchedNeverAdopts` | replica.go:531-546 | a replica that is not ready never enters adoption again and its floor stays |
| `LearnerAdoption.PinAliveIff` | replica.go:739-781 | for every time, deadline and shutdown state the sync thread can see, the stored pin is unexpired at every start of compaction iff there is no shutdown and the deadline lies in a later millisecond |
| `LearnerAdoption.AdoptionAlone` | replica.go:865-979 | left alone, a ready replica adopts any candidate sealed above its floor that its tips have passed: the floor becomes the seal, nothing else changes |
| `LearnerAdoption.RenewalAlone` | replica.go:783-827 | a renewal that succeeds in time runs the lease for its full length from its start |
| `LearnerAdoption.LeaseNeverOutlastsItsLength` | replica.go:783-827 | in every run the confirmed deadline is at most a lease length away |
| `LearnerAdoption.EarlyLossAlone` | replica.go:800-827 | a loss before prepare costs the job, not the replica |
| `LearnerAdoption.FloorRises` | replica.go:952-979 | the floor only moves up, to the seal just compacted |
| `LearnerAdoption.FailureIsLatched` | replica.go:934-951 | a failed prepare and a lease lost after it latch exactly that failure |
| `ManagedNamespace.FinalParts` | internal/objstore/namespace.go:18-34 | path.Join leaves the derived path unchanged, and its components are root, reserved names, identities and cluster |
| `ManagedNamespace.PrefixesNeverNest` | internal/objstore/namespace.go:18-34 | prefixes of distinct valid tuples neither equal nor contain each other |
| `ManagedNamespace.NoKeyPassesBoth` | internal/objstore/namespace.go:76-84 | no key, as object or listing, passes the checks of two buckets bound to distinct tuples |
| `ManagedNamespace.DerivedPrefixIsBindable` | internal/objstore/namespace.go:36-47 | every derived prefix is itself a valid namespace path, so binding never fails on it |
| `NamespaceText.PrefixComponents` | internal/objstore/namespace.go:30-31 | the components of a derived prefix, by name |
| `NamespaceText.DerivedIff` | internal/objstore/namespace.go:18-29 | which tuples have one |
| `NamespaceText.ValidPathIff` | internal/objstore/namespace.go:34-53 | a name is valid iff it is trimmed and has no forbidden byte and no empty or dot component |
| `NamespaceText.CheckIff` | internal/objstore/namespace.go:76-84 | a bound bucket passes a key iff it is valid and its components properly extend the prefix's; a listing may stop at the prefix |
| `NamespaceText.WithinIff` | internal/objstore/namespace.go:76-84 | the textual prefix test is the test on components |
| `NamespaceText.ValidUtf8Iff` | internal/objstore/namespace.go:18-20 | a byte string is valid UTF-8 iff it encodes some sequence of code points |
| `NamespaceText.TrimmedIff` | internal/objstore/namespace.go:18-20 | a text is trimmed iff neither its first nor its last code point is white space |
| `NamespaceText.HexDigits` | internal/objstore/namespace.go:30-30 | hexadecimal: two lower-case digits per byte, the higher first |
| `NamespaceText.DecimalIs` | internal/objstore/namespace.go:30-30 | decimal: digits without leading zero that stand for the number |
| `Snapshot.ValidateFile` | pkg/checkpoint/checkpoint.go:1757-1779 | the block loop accepts exactly full blocks with a shorter last one that add up to the file |
| `Snapshot.ValidateRoot` | pkg/checkpoint/checkpoint.go:1744-1784 | accepts exactly the descriptors that satisfy the declarative predicate |
| `Snapshot.FileOkIff` | pkg/checkpoint/checkpoint.go:1757-1779 | a file is accepted iff its blocks are the one way to cut its size into 64 MiB blocks, each with a proper digest, and its hash is theirs |
| `Snapshot.RootOkIff` | pkg/checkpoint/checkpoint.go:1744-1784 | a root is accepted iff, in numbers, its identity, roles, files, totals and hash are right |
| `Snapshot.UploadFile` | pkg/checkpoint/checkpoint.go:865-944 | blocks are the file's consecutive chunks, in order, each under its digest |
| `Snapshot.UploadCandidate` | pkg/checkpoint/checkpoint.go:625-704 | returns the sources' descriptor iff the file, total and block limits and the 64 KiB limit on the encoded root are met, and then the validator accepts it |
| `Snapshot.LimitsIff` | pkg/checkpoint/checkpoint.go:625-704 | the limits in numbers: no empty source, 32 GiB and 512 blocks of 64 MiB for all together |
| `Snapshot.UploadedFileIsAccepted` | pkg/checkpoint/checkpoint.go:865-944 | whatever chunks and block keys an upload ends with, the validator accepts the file |
| `Snapshot.BlocksTile` | pkg/checkpoint/checkpoint.go:1140-1143 | in an accepted file every byte lies in exactly one block range |
| `Snapshot.DownloadFile` | pkg/checkpoint/checkpoint.go:1124-1175 | writes land in any order before anything is checked; a file is left iff every block came whole, and it is then exactly the blocks in order |
| `Snapshot.RoundTrip` | pkg/checkpoint/checkpoint.go:1124-1175 | blocks that verify against an uploaded descriptor rebuild the uploaded file byte for byte |
| `Snapshot.DownloadReturnsUpload` | pkg/checkpoint/checkpoint.go:1124-1175 | a download of an uploaded file that succeeds returns that file, whatever the order of the writes |

## Left out

- QuePaxa core, WAL, materializer, archive manager and operator packages: their steps appear as events with free outcomes.
- Append-only candidates, CopyRoot and promotions without a claim: they bypass the publisher claim, so they are outside `CheckpointGc`.
- A stalled write or delete that lands after its lease expired or was released: excluded by the stated timing assumption.
- Attempt and read-stability limits (four tries each): calls may retry for ever or give up at any step, which covers every bounded run.
- Grace periods and the age of objects in garbage collection: a pass may keep any root and skip any block, which covers them.
- Which handle a pin renewal or close presents: in `CheckpointGc` anybody may renew an unexpired pin or close any pin, which covers the token check.
- The probe that selects a learner's candidate, its back-off and its archive snapshot: a job starts with any certified candidate and a confirmed pin.
- Renewal ticker period, poll intervals, timeouts and context plumbing: every timing of the modelled steps is allowed.
- A source file that changes while it is uploaded: the bytes a block is stored with are those it was hashed from.
- JSON encoding of persisted records (the length of an encoded root is a parameter), SHA-256 internals, HTTP, TLS, Kubernetes, sockets and metrics counters.
- KV and SQL commands and the graph execution projection.
- The channel that wakes a waiting drain: `DrainReceipt` looks at the counters at the moment the drain returns.
- 64-bit overflow of byte totals in file descriptors: sums are unbounded integers; the root size limit keeps real ones small.
