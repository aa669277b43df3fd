# blizzard-mock: verified models of its stateful cores

`blizzard-mock` stands in for the services a blizzard runner talks to: a hub that hands out scripted chunks of work, a
forge that serves pull requests, the harness facades, and the seeded data stores. This project models the parts of it
that keep state or carry a protocol, and proves what they keep.

**The hub.** `HubModel` gives every request that changes a chunk (seed, claim, re-key, release, pause, resume, stop,
fact push, completion, gate decision, hub advance, answer, host retirement) as a step on one hub state; a run is any
sequence of them. `HubService` holds the service as a class that updates its tables in place, each method proved equal
to its step. `HubEffects`, `HubCompletions` and `HubReports` say what the steps do in plain terms, without the steps' own
functions. On runs: `HubInvariants` has the reachable-state invariant, `HubHistory` safety over whole runs (exactly-once
completion, the fence, the holder, the nodes a claim covers), `HubFacts` the fact lane, `HubQueue` the matched peek,
`RouteTokens` the route tokens, and `Matching` the walk over the chunk's graph. `Transcripts`, `TranscriptLane` and
`LeaseRead` are the transcript lane, `LeaseOwner` whose a lease's transcript is; `Tokens` is the runner registry.

**The rest.** `RateLedger` and `RateBudgets` (the forge's rate ledger), `Pulls` and `ForgeService` (the pull
lifecycle), `Paging` (page walks), `Rotation` (credential rotation by interleaved processes), `Outbox` (the sequence
allocator), `Splitter` (the behavior-script splitter), `Ids` (ULIDs). `Lexical`, `Sorting`, `Sequences`, `Numbers` and
`Options` are shared.

What the services would ask of levers, clocks, random sources and git is an argument of the step it steers. Integers are
unbounded, as in Python.

**Where the code keeps less than its documentation says.** The model follows the code.

- A chunk is described as running only under a live route (`mock_hub/domain/models.py:476`), but a completion is taken
  without one. `HubHistory.RunsUnheldExactlyBy` says exactly when a chunk comes to run unheld.
- An ended chunk is described as having no step left (`mock_hub/domain/models.py:538`), but a decision or a completion
  can move it. `HubHistory.StoppedChunkRunsAgain` and `HubHistory.DoneChunkIsParked` are runs that show it, and
  `HubHistory.EndedIsLeftExactlyBy` says exactly when.
- A fact acknowledged as already applied need not have been: `HubFacts.RejectedFactIsLost` shows one,
  `HubFacts.LostExactlyWhen` says which. The transcript lane's `already_applied` is no surer
  (`Transcripts.LateRecordIsLost`, `Transcripts.ListReportsVerdict`).
- Reading whose a lease's transcript is assumes one runner per lease, which holds for an epoch minted before it is
  shipped to and else can fail (`LeaseOwner.EarlyPushesContest`), exactly as `LeaseOwner.ContestArisesExactly` says.
- Re-applying a recorded completion is described as idempotent, but a recorded `next` cannot be answered again once the
  chunk stands at the terminal marker: `HubHistory.ReplayAfterTheEndIsLost` is a run that shows it, and
  `HubHistory.ResubmissionAnswers` gives the exact condition.
- A peek at the rate ledger is meant to change nothing, and under budgets for named tokens it does not
  (`RateLedger.OnlyOwnHistoryMatters`); a budget for every bucket can tell (`RateLedger.EveryBucketBudgetSeesPeeks`),
  exactly for the peeks `RateBudgets.PeekShowsExactly` names and the budgets `RateLedger.PeekSeenExactly` names.
- The audit's last line is meant to match the credential file once the lock is free; a failure between rename and
  append breaks that (`Rotation.TornRotationGoesUnaudited`), until the next whole rotation and no longer
  (`Rotation.FreeLockMatchesAudit`).

## Model

| member | source | states |
|---|---|---|
| `Matching.ReachableRunnerNodes` | src/blizzard_mock/mock_hub/domain/matching.py:34-55 | the worklist search ends on every graph, cyclic or with dangling choices, and lists exactly the runner nodes reachable by a path of known nodes and non-terminal choices, each once |
| `Matching.CapabilityIneligible` | src/blizzard_mock/mock_hub/domain/matching.py:105-113 | ineligible exactly when no capability is reported or some reachable runner node is not served |
| `Matching.LineageExactly` | src/blizzard_mock/mock_hub/domain/matching.py:81-102 | the verdict on a node from the declarations alone: its own harnesses and model where it declares any and the chunk's defaults only where not; no harness at all, an available default; one harness or no model, an available capability of it; several and a model, for one of them the first available capability carries a preferred tier or matches a preferred native name |
| `Matching.OwnDeclarationDecides` | src/blizzard_mock/mock_hub/domain/matching.py:58-69 | a node's own declarations get the same verdict under every chunk default, and a default stands in for a missing one as if the node had declared it |
| `Matching.HubNodesAskNothing` | src/blizzard_mock/mock_hub/domain/matching.py:34-55 | a hub node is passed through and asks nothing: what it declares changes no verdict |
| `Matching.EligibilityCarriesOver` | src/blizzard_mock/mock_hub/domain/matching.py:81-113 | eligibility at a node holds at every node reachable from it |
| `Matching.WithdrawnServesNothing` | src/blizzard_mock/mock_hub/domain/matching.py:81-102 | dropping a capability that is not available changes no verdict on any node |
| `HubInvariants.RunsAreSound` | src/blizzard_mock/mock_hub/domain/service.py:733-844 | every state of every run from a sound hub is sound: a claimed chunk names holder and node and is never ready, not-ready or stopped; the current node is a graph node or the marker; at the marker a chunk is done, stopped or waiting for a human; ids are listed once each |
| `HubInvariants.ReachableHubsAreSound` | src/blizzard_mock/mock_hub/domain/models.py:541-585 | so every hub reached from an empty one is sound |
| `HubInvariants.ClaimGrantedExactly` | src/blizzard_mock/mock_hub/domain/service.py:733-780 | in a sound hub a claim is granted exactly when no lever refuses, the chunk is ready and unclaimed, and the runner is registered, active, serves its project and is eligible; and then its envelope never fails |
| `HubEffects.ClaimNamesFirstRefusal` | src/blizzard_mock/mock_hub/domain/service.py:733-762 | a refused claim names the first check, in order, that fails, and changes nothing; with none failing it is granted |
| `HubEffects.GrantHandsOver` | src/blizzard_mock/mock_hub/domain/service.py:763-780 | a granted claim's envelope is for the node the chunk then stands at, where it stood or its entry, at its fence; the route is the claimer's, as asked for, under the answered token; nothing else changes |
| `HubEffects.RekeyExactly` | src/blizzard_mock/mock_hub/domain/service.py:782-801 | a re-key is granted exactly to the holder of a live route on a chunk that has not ended, and the answered token is the live one |
| `HubEffects.ReleaseExactly` | src/blizzard_mock/mock_hub/domain/models.py:557-585 | a release is accepted exactly from the holder of a running chunk at its fence, with the live token where enforced, and leaves the chunk ready at its node with the release on record |
| `HubEffects.ReleasedIsClaimable` | src/blizzard_mock/mock_hub/domain/service.py:803-824 | a released chunk is granted, at the same node, to any active registered runner that serves its project and can work it from there |
| `HubEffects.PauseExactly` | src/blizzard_mock/mock_hub/domain/service.py:828-836 | which statuses a pause refuses, keeps and turns to paused; and after it no claim is granted |
| `HubEffects.StopExactly` | src/blizzard_mock/mock_hub/domain/service.py:1510-1519 | after a stop no claim, re-key or release of the chunk is accepted |
| `HubEffects.RetireExactly` | src/blizzard_mock/mock_hub/domain/service.py:1933-1957 | which retirements are refused, interrupted and done, from whether the runner holds any route |
| `HubEffects.HeldInOrder` | src/blizzard_mock/mock_hub/domain/service.py:1940 | the answered chunks are those the runner held, oldest first |
| `HubEffects.RetirementFrees` | src/blizzard_mock/mock_hub/domain/service.py:1958-1965 | a completed retirement frees exactly the held routes, running work back in the queue at its node, and the runner can claim nothing |
| `HubHistory.StepMovesChunk` | src/blizzard_mock/mock_hub/domain/service.py:1416-1519 | all that any event can do to a given chunk, event by event; every other chunk stays |
| `HubHistory.RunEvolves` | src/blizzard_mock/mock_hub/domain/service.py:1416-1450 | over every run a chunk's fence never falls, its recorded outcomes never change, its releases only grow, and its graph and project stay |
| `HubHistory.CompletionKeyInjective` | src/blizzard_mock/mock_hub/domain/service.py:1426-1428 | the string key of an outcome never conflates two (node, epoch) pairs |
| `HubHistory.OutcomesComeFromTaken` | src/blizzard_mock/mock_hub/domain/service.py:1446-1450 | only a taken completion changes the outcome table, and it adds exactly the outcome it answers, under its own key and as the last response |
| `HubHistory.OutcomeTellsPlace` | src/blizzard_mock/mock_hub/domain/service.py:2442-2458 | the outcome a taken completion answers tells where the chunk then stands and in which status; the envelope comes exactly with NEXT, for that node at the fence; a failed move moves nothing |
| `HubCompletions.CompletionLandsExactly` | src/blizzard_mock/mock_hub/domain/service.py:1416-1450 | an unrecorded completion leaves the hub unchanged and fails exactly when the attempt may not report or no choice of its runner node carries the name; else it lands where the first choice of that name leads, with the outcome on record and nothing else changed |
| `HubCompletions.CompletionMovesExactly` | src/blizzard_mock/mock_hub/domain/service.py:2442-2473 | it answers anything but a failure if and only if that first choice leads to the marker or a known node, and the chunk then stands there |
| `HubCompletions.DecisionParksExactly` | src/blizzard_mock/mock_hub/domain/service.py:1452-1463 | a decision is accepted exactly when the attempt is at or above the fence, from the current node, not escalated and without open questions |
| `HubHistory.TakenAtMostOnce` | src/blizzard_mock/mock_hub/domain/service.py:1416-1450 | over every run, no (node, epoch) advances a chunk twice |
| `HubHistory.ResubmissionAnswers` | src/blizzard_mock/mock_hub/domain/service.py:2460-2466 | after a completion was taken, at every later point of every run submitting it again leaves the hub unchanged and answers the outcome first answered, if and only if that was not NEXT with the chunk now at the terminal marker; NEXT comes with an envelope for the node the chunk now stands at, any other outcome is answered by the very response first given |
| `HubHistory.FencedEpochIsDead` | src/blizzard_mock/mock_hub/domain/service.py:1430-1431 | once the fence has passed an epoch, at no later point of any run is a completion of that epoch taken or anything changed by one, or a decision of it accepted, whatever its node, choice and levers |
| `HubHistory.ReplayAfterTheEndIsLost` | src/blizzard_mock/mock_hub/domain/service.py:2460-2481 | a run after which a recorded NEXT takes the not-found path, by way of a chunk running without a route |
| `HubHistory.RouteChanges` | src/blizzard_mock/mock_hub/domain/service.py:803-824 | one event ends a route exactly by the holder's accepted release, a stop or the holder's retirement, starts one exactly by a granted claim, and otherwise keeps the holder |
| `HubHistory.HolderChangesOnlyByFreeing` | src/blizzard_mock/mock_hub/domain/service.py:1933-1965 | between two points of a run with different holders there is a freeing event and then a grant to the later holder |
| `HubHistory.ClaimCoversTenure` | src/blizzard_mock/mock_hub/domain/service.py:760-768 | after a granted claim, in every run up to the next grant, the chunk stands only at nodes the claimed capabilities serve, and at which they serve everything still reachable |
| `HubHistory.EndedIsLeftExactlyBy` | src/blizzard_mock/mock_hub/domain/service.py:1452-1463 | an ended chunk leaves its end exactly by an accepted gate decision or a taken completion onto a runner node |
| `HubHistory.StoppedChunkRunsAgain` | src/blizzard_mock/mock_hub/domain/service.py:1416-1450 | a run from an empty hub in which a stopped chunk comes to run again, by a completion |
| `HubHistory.DoneChunkIsParked` | src/blizzard_mock/mock_hub/domain/service.py:1452-1463 | a run from an empty hub in which a chunk that is done is parked at a gate, by a decision from the terminal marker |
| `HubHistory.RunsUnheldExactlyBy` | src/blizzard_mock/mock_hub/domain/service.py:2442-2458 | a chunk comes to run unheld exactly when unclaimed and a completion onto a runner node is taken, or a pause that found it running is resumed |
| `HubHistory.ResumeUndoesPause` | src/blizzard_mock/mock_hub/domain/service.py:828-844 | resuming a chunk that was not paused before the pause restores its status, whatever the pause did |
| `RouteTokens.RekeyNeverEchoes` | src/blizzard_mock/mock_hub/domain/service.py:782-801 | in every run a re-key answers a token the chunk never had live before, over all its tenures |
| `HubFacts.RedeliveryIsHarmless` | src/blizzard_mock/mock_hub/domain/service.py:1156-1182 | pushing a and then a with b behind it leaves exactly the hub of one push of both, marks included, and the applied lists join to the same list |
| `HubFacts.AppliedClimb` | src/blizzard_mock/mock_hub/domain/service.py:1163-1179 | a batch's applied seqs climb from the old mark to the new one, which is the last of them; a rejected fact holds nothing back |
| `HubFacts.EveryFactIsAcknowledged` | src/blizzard_mock/mock_hub/domain/service.py:1167-1178 | every fact of a batch lands in exactly one acknowledgement list |
| `HubFacts.AppliedSeqsIncrease` | src/blizzard_mock/mock_hub/domain/service.py:1316-1412 | over every run the seqs applied for a runner strictly increase from its first mark to its last, which is the last of them, so no fact takes effect twice |
| `HubFacts.LostExactlyWhen` | src/blizzard_mock/mock_hub/domain/service.py:1167-1179 | the mark has passed a seq that was never applied if and only if it was not applied and lies at or below the first mark or below one that was applied |
| `HubFacts.AlreadyMeansAppliedOrLost` | src/blizzard_mock/mock_hub/domain/service.py:1169-1171 | a seq acknowledged as already applied was applied or is lost, and if lost takes no effect at any later point of the run |
| `HubFacts.RejectedFactIsLost` | src/blizzard_mock/mock_hub/domain/service.py:1174-1178 | in any hub that has applied nothing for a runner, a rejected fact passed by the next one is acknowledged as already applied when redelivered in a form the hub would take |
| `HubReports.OneFactExactly` | src/blizzard_mock/mock_hub/domain/service.py:1316-1412 | a pushed fact is inert at or below the mark, and above it rejected exactly for the listed reasons of its kind, else applied with the mark moved to it |
| `HubReports.MintRaisesFence` | src/blizzard_mock/mock_hub/domain/service.py:2374-2379 | a mint leaves the fence at the greater of what it was and the epoch, and the epoch with its first owner |
| `HubReports.OnlyMintsMoveFences` | src/blizzard_mock/mock_hub/domain/service.py:1322-1412 | no other fact moves a fence or an owner |
| `HubReports.PushedMintFences` | src/blizzard_mock/mock_hub/domain/service.py:1156-1182 | a push carrying a mint under a seq above the runner's mark leaves the fence at that epoch or above |
| `HubReports.MintFencesForGood` | src/blizzard_mock/mock_hub/domain/service.py:1430-1431 | from such a push on, at no later point of any run is a completion of an earlier epoch taken or a decision of one accepted |
| `HubReports.ReportsHoldAttemptBack` | src/blizzard_mock/mock_hub/domain/models.py:592-603 | an attempt that escalated cannot report, nor one that asked until the question is answered |
| `HubReports.AnswerReleasesExactly` | src/blizzard_mock/mock_hub/domain/service.py:1496-1508 | an answer lets exactly those attempts report that might but for its question |
| `HubFacts.OthersAreRefusedForever` | src/blizzard_mock/mock_hub/domain/service.py:2374-2379 | once a runner owns an epoch, in every later hub a transcript record of it from any other runner is refused and stores nothing |
| `HubQueue.ChoiceIsUnique` | src/blizzard_mock/mock_hub/domain/service.py:667-713 | the declarative choice (first offerable position under either policy) admits one reply only |
| `HubQueue.ChoiceIsOldest` | src/blizzard_mock/mock_hub/domain/service.py:690-713 | in the seeded order: the offer is the oldest ready id that qualifies, at the number of ready ids before it; under hold no served ready id stands before it, in its project when projects are named; nothing exactly when no id qualifies |
| `HubQueue.OfferedExactly` | src/blizzard_mock/mock_hub/domain/service.py:1709-1721 | a project is offered exactly by an entry that resolved to it, through a binding no host report speaks against where any were sent, and named by entry or id where any are |
| `HubQueue.OfferCanBeClaimed` | src/blizzard_mock/mock_hub/domain/service.py:733-780 | an active registered runner storing the capabilities it asserted is granted the chunk it was offered |
| `HubQueue.NothingOfferedNothingClaimable` | src/blizzard_mock/mock_hub/domain/service.py:1665-1721 | under pass-over, a runner without bindings that is offered nothing is granted no claim at all |
| `HubService.MockHub.SeedChunk` | src/blizzard_mock/mock_hub/domain/service.py:544-574 | seeds exactly when the entry is a node, the project exists and the status is not running, keeping the place of a re-seeded id; keeps the invariant unless the graph uses the reserved id |
| `HubService.MockHub.Claim` | src/blizzard_mock/mock_hub/domain/service.py:733-780 | updates the hub and answers as the claim step, every check in order, then the whole route; in a sound hub it keeps the invariant and never fails on the envelope |
| `HubService.MockHub.Rekey` | src/blizzard_mock/mock_hub/domain/service.py:782-801 | updates the hub and answers as the re-key step, and keeps the invariant |
| `HubService.MockHub.Release` | src/blizzard_mock/mock_hub/domain/service.py:803-824 | updates the hub and answers as the release step, with the route-token lever's check, and keeps the invariant |
| `HubService.MockHub.RetireHosted` | src/blizzard_mock/mock_hub/domain/service.py:1933-1965 | updates the hub and answers as the retirement step, interrupted or not, and keeps the invariant |
| `HubService.MockHub.FreeRoutes` | src/blizzard_mock/mock_hub/domain/service.py:1958-1964 | the loop frees exactly the listed chunks and leaves the rest |
| `HubService.MockHub.PauseChunk` | src/blizzard_mock/mock_hub/domain/service.py:828-836 | pauses exactly the pausable, remembering the status it found, and keeps the invariant |
| `HubService.MockHub.ResumeChunk` | src/blizzard_mock/mock_hub/domain/service.py:838-844 | restores the remembered status and keeps the invariant |
| `HubService.MockHub.StopChunk` | src/blizzard_mock/mock_hub/domain/service.py:1510-1519 | stops the chunk and ends its route in one write, and keeps the invariant |
| `HubService.MockHub.ApplyFact` | src/blizzard_mock/mock_hub/domain/service.py:1316-1412 | applies exactly the admitted facts, with their effect, and else changes nothing; keeps the invariant |
| `HubService.MockHub.IngestFacts` | src/blizzard_mock/mock_hub/domain/service.py:1156-1182 | the loop computes the pushed hub, the mark and the three lists, and keeps the invariant |
| `HubService.MockHub.AttemptIncoherent` | src/blizzard_mock/mock_hub/domain/models.py:592-603 | incoherent exactly when off the current node, escalated at that epoch, or a question of that epoch is open |
| `HubService.MockHub.ApplyCompletion` | src/blizzard_mock/mock_hub/domain/service.py:1416-1450 | updates the hub and answers as the completion step, replay lever and recorded outcomes first, and keeps the invariant |
| `HubService.MockHub.ApplyDecision` | src/blizzard_mock/mock_hub/domain/service.py:1452-1463 | updates the hub and answers as the gate-decision step, and keeps the invariant |
| `HubService.MockHub.HubAdvance` | src/blizzard_mock/mock_hub/domain/service.py:1465-1482 | runs exactly for a chunk parked at a hub node, which it ends, and keeps the invariant |
| `HubService.MockHub.AnswerQuestion` | src/blizzard_mock/mock_hub/domain/service.py:1496-1508 | marks exactly a known question answered, and keeps the invariant |
| `HubService.MockHub.PeekMatched` | src/blizzard_mock/mock_hub/domain/service.py:667-713 | the scan answers the declarative choice, which is the oldest qualifying chunk, at its index in the whole ready order |
| `Transcripts.EveryLedgerIsBalanced` | src/blizzard_mock/mock_hub/domain/service.py:1228-1280 | after any pushes a chunk's recorded bytes are the summed sizes retained for it and at most 64 MiB; state, owner and rejection tables describe the same keys; every accepted key is retained by its owning lease |
| `Transcripts.RetainedForever` | src/blizzard_mock/mock_hub/domain/service.py:1252-1271 | over every run nothing retained is lost, altered or moved |
| `Transcripts.KeyIsRetainedOnce` | src/blizzard_mock/mock_hub/domain/service.py:1267-1271 | a natural key is retained in one place only, across all leases |
| `Transcripts.BatchIsAcknowledged` | src/blizzard_mock/mock_hub/domain/service.py:1239-1271 | each record of a batch lands in exactly one of the four lists |
| `Transcripts.PushIsAcknowledged` | src/blizzard_mock/mock_hub/domain/service.py:1239-1271 | a push names every seq in its lists as often as it carries it |
| `Transcripts.FreshRecordExactly` | src/blizzard_mock/mock_hub/domain/service.py:1251-1271 | a fresh record under a key not accepted is retained as it came, behind what its lease has, exactly if at most 10 MiB and within the 64 MiB of its chunk; else everything retained stays and it is kept without its turns |
| `Transcripts.BatchOvertakesNothing` | src/blizzard_mock/mock_hub/domain/service.py:1239-1250 | a seq is acknowledged as old only if the mark had passed it before the push or the push carries it twice |
| `Transcripts.MarkEndsAtMaximum` | src/blizzard_mock/mock_hub/domain/service.py:1243-1251 | the mark ends at the greatest seq seen, refused and capped ones included |
| `Transcripts.ListReportsVerdict` | src/blizzard_mock/mock_hub/domain/service.py:1243-1271 | what each list says of a key: applied, accepted and retained; capped, rejected and kept bare; already, retained exactly if the key was ever decided and else in no table; refused, nothing changed and another runner owns the epoch |
| `Transcripts.LateRecordIsLost` | src/blizzard_mock/mock_hub/domain/service.py:1247-1250 | a run in which a record arriving under a lower seq than one already seen is acknowledged as applied before and stored nowhere |
| `Transcripts.ReshippingIsInert` | src/blizzard_mock/mock_hub/domain/service.py:1247-1250 | shipping a batch again changes nothing and applies nothing |
| `TranscriptLane.Lane.Ingest` | src/blizzard_mock/mock_hub/domain/service.py:1228-1280 | the loop computes the ingested ledger, mark and lists, and keeps balance and everything retained |
| `TranscriptLane.Lane.Adjudicate` | src/blizzard_mock/mock_hub/domain/service.py:1240-1271 | one record, checks in order |
| `TranscriptLane.Lane.Credit` | src/blizzard_mock/mock_hub/domain/service.py:1257-1271 | over either cap only the identity is kept, else bytes are credited and the record retained |
| `LeaseRead.ReadLease` | src/blizzard_mock/mock_hub/domain/service.py:1289-1314 | the loop answers the view of the lease |
| `LeaseRead.ReadIsOrdered` | src/blizzard_mock/mock_hub/domain/service.py:1296-1311 | a read lists exactly the retained records of segments nothing supersedes, strictly by (generation, segment, first turn), with turns numbered from zero |
| `LeaseRead.ReadServesExactly` | src/blizzard_mock/mock_hub/domain/service.py:1296-1314 | turn t of the i-th record read is entry (turns of the records before it) + t, numbered so, and there is no other entry; the records are the retained ones no retained or capped record replaces, by generation, segment and first turn; truncated exactly if a capped one was not replaced or a served one cut short |
| `LeaseRead.ReadIgnoresArrivalOrder` | src/blizzard_mock/mock_hub/domain/service.py:1289-1314 | hubs that retain the same records and rejections for a lease serve the same transcript |
| `LeaseOwner.LeaseTranscriptOwner` | src/blizzard_mock/mock_hub/domain/service.py:1282-1287 | the read fails exactly when two of the lease's keys are on record from different runners, answers nobody exactly when none is, and else the one runner of all of them |
| `LeaseOwner.ContestArisesExactly` | src/blizzard_mock/mock_hub/domain/service.py:1242-1259 | a record brings a lease to that exactly when it is decided, is of that lease, and another of the lease's keys is on record from another runner |
| `LeaseOwner.MintedLeaseHasOneOwner` | src/blizzard_mock/mock_hub/domain/service.py:1242-1246 | over any pushes that all see the lease's epoch owned by one runner, no other has a key of it |
| `LeaseOwner.MintingFirstPreventsContest` | src/blizzard_mock/mock_hub/domain/service.py:2374-2379 | once an epoch is minted, pushes taken at any later points of any hub run leave its leases with one owner, so the read never fails |
| `LeaseOwner.EarlyPushesContest` | src/blizzard_mock/mock_hub/domain/service.py:1282-1287 | two pushes before any mint after which the read fails |
| `Tokens.RunsAreOrderly` | src/blizzard_mock/mock_hub/internal/state_store.py:135-140 | with fresh tokens, in every run a runner has at most one current token, none when retired, no token is both current and revoked, and every issued token is one of the two, for the runner it was issued to |
| `Tokens.RevocationIsForever` | src/blizzard_mock/mock_hub/domain/service.py:1796-1798 | a revoked token stays revoked for its runner, is never current again and names no principal |
| `Tokens.RetirementIsForever` | src/blizzard_mock/mock_hub/domain/service.py:1800-1807 | a retired runner stays retired in every run |
| `Tokens.RetiredTokensReadRetired` | src/blizzard_mock/mock_hub/domain/service.py:1991-2014 | every token ever issued to a runner now retired names no principal and reads `retired` |
| `Tokens.RevokedReadsRevoked` | src/blizzard_mock/mock_hub/domain/service.py:2009-2014 | a revoked token reads `retired` exactly if its runner has retired, else `revoked` |
| `Tokens.IdentityTellsIssue` | src/blizzard_mock/mock_hub/domain/service.py:1991-2031 | unknown exactly when never issued, known and a principal exactly when current, and always the runner it was issued to |
| `Tokens.RequestLeaves` | src/blizzard_mock/mock_hub/domain/service.py:1783-1807 | after adding or enrolling the new token is the only one, after revoking or retiring there is none, every earlier one is revoked, and no other runner is touched |
| `Tokens.Store.ReplaceToken` | src/blizzard_mock/mock_hub/internal/state_store.py:135-140 | the loop revokes exactly the runner's tokens and makes the new one current |
| `Tokens.Store.AddRunner` | src/blizzard_mock/mock_hub/internal/state_store.py:79-83 | adds a runner once, with its token |
| `Tokens.Store.EnrollRunner` | src/blizzard_mock/mock_hub/domain/service.py:1783-1794 | rotates the token of an active runner of the tenant |
| `Tokens.Store.RevokeToken` | src/blizzard_mock/mock_hub/domain/service.py:1796-1798 | revokes a known runner's token |
| `Tokens.Store.RetireRunner` | src/blizzard_mock/mock_hub/domain/service.py:1800-1807 | retires once, revoking in the same pass |
| `RateLedger.LazyAnswersAsSimple` | src/blizzard_mock/forge/internal/rate_ledger.py:34-76 | under a clock that never goes back, after any run of counts, peeks and named budgets, the lazily deleting ledger answers as a ledger that deletes nothing |
| `RateLedger.OnlyOwnHistoryMatters` | src/blizzard_mock/forge/internal/rate_ledger.py:48-62 | dropping every peek and every other bucket's requests from a run changes no answer |
| `RateLedger.AnswersAreSane` | src/blizzard_mock/forge/internal/rate_ledger.py:48-57 | an answered reset lies in the future, and a count right after a peek answers one less, at least zero |
| `RateLedger.CountsSpend` | src/blizzard_mock/forge/internal/rate_ledger.py:48-53 | n counts leave n fewer, never fewer than none, until the reset, and no other bucket's answer changed |
| `RateLedger.BudgetTakesHold` | src/blizzard_mock/forge/internal/rate_ledger.py:59-62 | after a named budget a peek answers the figures set, and for those not set what it answered before; no other bucket's answer changed |
| `RateLedger.EveryBucketBudgetTakesHold` | src/blizzard_mock/forge/internal/rate_ledger.py:63-70 | an every-bucket budget takes hold at once on live windows and on buckets opened while it stands |
| `RateLedger.EveryBucketBudgetSeesPeeks` | src/blizzard_mock/forge/internal/rate_ledger.py:63-70 | an every-bucket budget after which a peek has changed a later answer |
| `RateLedger.PeekSeenExactly` | src/blizzard_mock/forge/internal/rate_ledger.py:59-70 | a peek changes some answer after an every-bucket budget if and only if it dropped the anonymous bucket's expired window under a standing older budget that differs |
| `RateBudgets.DroppedPeeksGoUnseen` | src/blizzard_mock/forge/internal/rate_ledger.py:34-76 | from any ledger, in any run of counts, peeks, named and every-bucket budgets, dropping every peek but those of the anonymous bucket that find its window expired, still stored, under a standing every-bucket budget changes no later answer |
| `RateBudgets.PeekShowsExactly` | src/blizzard_mock/forge/internal/rate_ledger.py:55-70 | and that is exact: some continuation tells a peek from none if and only if it is one of those |
| `RateLedger.InMemoryRateLedger.Live` | src/blizzard_mock/forge/internal/rate_ledger.py:34-39 | answers the live window and drops an expired one |
| `RateLedger.InMemoryRateLedger.Fresh` | src/blizzard_mock/forge/internal/rate_ledger.py:41-46 | answers the template while it stands, else a full window, dropping an expired template |
| `RateLedger.InMemoryRateLedger.Count` | src/blizzard_mock/forge/internal/rate_ledger.py:48-53 | spends one request of the bucket's window and answers it |
| `RateLedger.InMemoryRateLedger.Peek` | src/blizzard_mock/forge/internal/rate_ledger.py:55-57 | answers the window without opening one |
| `RateLedger.InMemoryRateLedger.SetBudget` | src/blizzard_mock/forge/internal/rate_ledger.py:59-62 | adjusts a named bucket's window, opening one if none is live |
| `RateLedger.InMemoryRateLedger.AdjustLive` | src/blizzard_mock/forge/internal/rate_ledger.py:64-66 | the loop adjusts exactly the live windows and drops the others |
| `RateLedger.InMemoryRateLedger.SetBudgetAll` | src/blizzard_mock/forge/internal/rate_ledger.py:63-70 | opens the anonymous bucket if absent, adjusts the live windows and sets the template |
| `Rotation.RunKeepsInv` | src/blizzard_mock/harness/facades/_codex_app_server.py:93-148 | in every interleaving of any number of processes: only the lock's holder is inside, and the file and audit are those of the log of rotations |
| `Rotation.RotationsAreSerialized` | src/blizzard_mock/harness/facades/_codex_app_server.py:93-123 | each rotation read exactly what the one before it wrote, the file is the last one's text, and no reader ever saw a partial text |
| `Rotation.FreeLockMatchesAudit` | src/blizzard_mock/harness/facades/_codex_app_server.py:140-148 | with the lock free after a rotation, the file's digest is the last audit entry if the last rotation was not torn, whatever befell earlier ones; and only if, unless an earlier rotation's digest is the same |
| `Rotation.MissingLinesAreTears` | src/blizzard_mock/harness/facades/_codex_app_server.py:121-122 | in every run rotations are the audit lines plus the torn ones plus one about to be appended, so with the lock free the audit is complete if and only if nothing was torn |
| `Rotation.TornRotationGoesUnaudited` | src/blizzard_mock/harness/facades/_codex_app_server.py:121-122 | for any usable file, a failure between rename and append leaves the lock free, the file new and the audit empty |
| `Rotation.AccountSurvives` | src/blizzard_mock/harness/facades/_codex_app_server.py:103-123 | however many rotations, everything but the two tokens and the refresh time is kept |
| `Rotation.RotationRenamesNothing` | src/blizzard_mock/harness/facades/_codex_app_server.py:114-120 | the rotated document holds the given access and refresh tokens under their names, and the account it named |
| `Rotation.Credentials.RotateLocked` | src/blizzard_mock/harness/facades/_codex_app_server.py:103-123 | the code under the lock rotates exactly a usable file, appends the digest of what it wrote, and answers the account the file names before and after |
| `Rotation.StepsRotate` | src/blizzard_mock/harness/facades/_codex_app_server.py:93-123 | the lock holder's interleaved steps, taken in a row, do what the code under the lock does and free the lock |
| `Pulls.RunsAreSound` | src/blizzard_mock/forge/domain/service.py:417-431 | over every run a closed or merged pull carries both pinned shas and exactly the merged ones have a merge sha |
| `Pulls.ClosedIsViewable` | src/blizzard_mock/forge/domain/service.py:556-572 | in every run a closed pull is viewable at its pinned head whatever has become of the branches |
| `Pulls.ClosedStaysPinned` | src/blizzard_mock/forge/domain/service.py:417-431 | a closed pull stays exactly as it closed until a reopening is accepted or a merge of it lands |
| `Pulls.ClosedChangesExactlyBy` | src/blizzard_mock/forge/domain/service.py:513-528 | one event changes a closed pull if and only if it is an accepted reopening or a merge that lands |
| `Pulls.MergeIsWriteOnce` | src/blizzard_mock/forge/domain/service.py:544-554 | once merged, always merged with the same merge sha, reopened or not |
| `Pulls.MergedAtMostOnce` | src/blizzard_mock/forge/domain/service.py:329-357 | no run lands a pull twice |
| `Pulls.LandingMerges` | src/blizzard_mock/forge/domain/service.py:544-554 | a landing merge pins the head it landed and the merge sha as base, closes the pull, moves the base branch there and touches no other pull |
| `Pulls.DeletionClosesItsPulls` | src/blizzard_mock/forge/domain/service.py:688-705 | a branch is deleted if and only if it exists and no open pull on it lacks its other branch; then no open pull heads or is based on it and each closed one is pinned to the branches' shas |
| `Pulls.CloseExactly` | src/blizzard_mock/forge/domain/service.py:417-422 | closing takes both branches and pins their shas; without the base it stays open though its head is pinned |
| `Pulls.ReopenExactly` | src/blizzard_mock/forge/domain/service.py:423-431 | reopening takes the head branch unless merged, and unpins unless merged |
| `Pulls.MergeExactly` | src/blizzard_mock/forge/domain/service.py:329-357 | a merge succeeds exactly when it lands, and else names what is wrong and changes nothing |
| `ForgeService.Repository.CreatePull` | src/blizzard_mock/forge/domain/service.py:304-327 | opens a pull exactly for two existing branches without an open pull between them, and keeps the invariant |
| `ForgeService.Repository.Freeze` | src/blizzard_mock/forge/domain/service.py:702-705 | pins head, then base, stopping at a missing branch |
| `ForgeService.Repository.SetPullState` | src/blizzard_mock/forge/domain/service.py:417-431 | closes, reopens or re-states a pull as the state step does, and keeps the invariant |
| `ForgeService.Repository.MergePull` | src/blizzard_mock/forge/domain/service.py:329-357 | lands an open pull as the merge step does, with every refusal, and keeps the invariant |
| `ForgeService.Repository.ExternalMerge` | src/blizzard_mock/forge/domain/service.py:513-528 | lands a pull outside the flow, closed or not, and keeps the invariant |
| `ForgeService.Repository.DeleteRef` | src/blizzard_mock/forge/domain/service.py:688-705 | the loop closes the touched pulls in number order, stops where one cannot be frozen, and keeps the invariant |
| `Paging.ListingIsOrdered` | src/blizzard_mock/forge/domain/service.py:277-289 | a listing is the kept pulls, each once, in strict order by time and number |
| `Paging.ListingStands` | src/blizzard_mock/forge/domain/service.py:284-289 | the kept pulls by creation or update time, newest first unless by update or told otherwise, equal times by number in the same direction |
| `Paging.PageHolds` | src/blizzard_mock/forge/domain/service.py:290-297 | page p holds, in order, the items from (p - 1) times the size on, the size brought within 1 and 100, and `next` is named exactly while items are left |
| `Paging.PullWalkIsExact` | src/blizzard_mock/forge/domain/service.py:107-111 | following `next` from page 1 ends and collects the whole list in order, for every page size |
| `Paging.CursorRoundTrip` | src/blizzard_mock/mock_hub/domain/service.py:1060-1071 | an issued cursor reads back as its offset |
| `Paging.DocketPageHolds` | src/blizzard_mock/mock_hub/domain/service.py:1068-1071 | a page holds the items from its offset on, at most the limit, and names the next offset exactly while items are left |
| `Paging.DocketWalkIsExact` | src/blizzard_mock/mock_hub/domain/service.py:1053-1071 | following `next_cursor` ends and collects the whole docket in order, for every limit of at least one |
| `Paging.ZeroLimitStalls` | src/blizzard_mock/mock_hub/api/routes.py:604 | a limit of zero hands back the cursor it was given, which is why the route demands one |
| `Outbox.AssignOutboxSeqs` | src/blizzard_mock/mock_data/domain/seeding.py:318-343 | the loop computes the assignment |
| `Outbox.WriteAllocatesAbove` | src/blizzard_mock/mock_data/internal/reflected_store.py:147-175 | an assigned seq exceeds the lane's counter, every seq it holds and every earlier one of the write; afterwards a touched counter is at least every seq held |
| `Outbox.AssignedIsNext` | src/blizzard_mock/mock_data/domain/seeding.py:318-343 | an assigned seq is one above the greatest of where its lane stood and what stands on it earlier in the write; other rows pass through |
| `Outbox.ResumesFromGreatest` | src/blizzard_mock/mock_data/internal/reflected_store.py:156-168 | the count resumes from the greatest of the counter and the seqs held |
| `Outbox.WriteLeaves` | src/blizzard_mock/mock_data/internal/reflected_store.py:171-174 | a touched counter moves to the greatest seq of its lane, and a lane no row is on keeps its counter and its seqs |
| `Outbox.CountersNeverFall` | src/blizzard_mock/mock_data/internal/reflected_store.py:171-174 | over every run a counter never falls |
| `Outbox.AssignedSeqsClimb` | src/blizzard_mock/mock_data/domain/seeding.py:318-343 | over every run, rows drained or inserted by others included, an assigned seq exceeds every seq an earlier write gave the lane, supplied ones included |
| `Outbox.AssignedSeqsExceedHeld` | src/blizzard_mock/mock_data/internal/reflected_store.py:156-168 | while only writes touch a lane, an assigned seq exceeds every seq the lane has held at any point |
| `Outbox.FailedWritesCanBeDropped` | src/blizzard_mock/mock_data/internal/reflected_store.py:272-297 | a run without its failed writes ends at the same store, and a later write draws the same seqs |
| `Outbox.OutboxStore.Write` | src/blizzard_mock/mock_data/internal/reflected_store.py:272-297 | one transaction: counters and tables together when committed, and when inserting some row fails everything written before it rolled back |
| `Outbox.OutboxStore.AdvanceCounters` | src/blizzard_mock/mock_data/internal/reflected_store.py:171-174 | the loop moves exactly the touched counters |
| `Outbox.OutboxStore.InsertRows` | src/blizzard_mock/mock_data/internal/reflected_store.py:286-291 | the loop inserts the rows' seqs into their lanes |
| `Splitter.SplitBehaviorScript` | src/blizzard_mock/harness/engine.py:285-333 | the loop, with its early stops, answers the split |
| `Splitter.TagLinesAre` | src/blizzard_mock/harness/engine.py:276-282 | a line opens or closes exactly when it is the tag between spaces and tabs |
| `Splitter.SplitAcceptsExactly` | src/blizzard_mock/harness/engine.py:285-333 | accepted exactly when the tag lines alternate, end closed and enclose something not blank; no script exactly when there is no tag line; every other line is in a block or the prose, once and in order |
| `Splitter.RefusalIsExplained` | src/blizzard_mock/harness/engine.py:296-332 | the lines a refusal names are the first tag not due and the last opening before it |
| `Splitter.SplitUndoesRender` | src/blizzard_mock/harness/engine.py:285-333 | splitting a rendering gives the blocks and prose back |
| `Splitter.AcceptedIsRendered` | src/blizzard_mock/harness/engine.py:285-333 | every accepted prompt is a rendering of exactly what was found in it |
| `Ids.Encode` | src/blizzard_mock/ids.py:33-38 | the divmod loop gives the last base-32 digits, most significant first |
| `Ids.EncodingKeepsOrder` | src/blizzard_mock/ids.py:33-38 | below 32^length, string order is numeric order and different values get different strings |
| `Ids.EncodingRoundTrip` | src/blizzard_mock/ids.py:33-38 | below 32^length, reading the string as base-32 digits of the alphabet gives the value back |
| `Ids.EncodingWraps` | src/blizzard_mock/ids.py:33-38 | values that differ by a multiple of 32^length get the same string |
| `Ids.MintedSortByStamp` | src/blizzard_mock/ids.py:41-50 | ids of one prefix with stamps below 2^50 sort by stamp, then by random tail, and collide only when both agree |

## Left out

- Aliasing: chunk, runner and pull rows are values in the tables; the live row objects the services hand around, and `put_chunk`/`put_pull` writing them back, are one table update here.
- Levers: which lever is armed, and its consumption, are arguments of each request; the peek reads its blocked markings as a set.
- Registry writes in hub runs: adding, registering, pausing and hosting runners are arbitrary row writes, a superset of what the registry does; token revocation on retirement is in `Tokens` only.
- Reserved id and re-seeding: seeded graphs leave `done` unused as a node id; lemmas relating two points of a run ask that the chunk's id is not seeded again between them.
- Unknown runners: a fact push by a runner the registry does not hold is refused, as the router does; a malformed payload that raises in mid-batch and `reset` are not part of the runs.
- Timestamps, free-text details, takeover commands, wire views, analytics, usage contents and cost: carried as opaque text or not at all.
- Pattern matching of model names: a capability's reported patterns are the predicate of names they match.
- Transcript sizes: the encoded size of a record's turns is a number of the record; JSON is not modelled.
- Tokens.RunsAreOrderly: asks that each minted token is new, as the random source makes it; `record_registration` changes no token and is not a step.
- RateLedger.LazyAnswersAsSimple: runs hold named-token budgets only, since for every-bucket budgets the law fails and `RateBudgets` has what does hold; one clock reading per call stands for the several the code takes; `clear` is not a step.
- Rotation: JSON text and the digest are the fields of `Codec`, and a partly written audit line is not modelled.
- Git: branches are a map from name to sha, a merge's commit is an argument, raw revisions do not resolve, and merge methods and messages are left out; replies are those of the write, before the answer's view is built.
- Listing filters by state, base and head: one predicate of the query; refusal of unknown sort and direction values is left out.
- Cursor text: a cursor is accepted as plain digits; the signs, spaces and underscores Python's `int` would also take are refused.
- Outbox stores without a counters table, resets, foreign keys and schema drift: not modelled; which row's insertion fails is an argument.
- Splitter: starts from the prompt's lines, before dedent, blank-line collapse and the final strip.
- Ids: clock and random source are arguments.
- Routes, middleware, the command line, the git backend, script execution, hooks, transcript writers, the identity provider and clock control: request plumbing or foreign calls.
