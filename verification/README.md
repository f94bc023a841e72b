# Verified model of the CrowdTensor volunteer training core

A Dafny 4.11 model of the parts of CrowdTensor whose correctness is not visible
from any single function: the placement scheduler, the volunteer round
coordinator with its audit ledger, the numeric outer loop, resumable uploads,
admission control, and four small arithmetic kernels. `dafny verify
dfyconfig.toml` checks the whole project.

## What is modelled

**Placement** (`Order`, `Placement`, `FeasibilitySearch`, `BeamPlan`, `Beam`,
`BeamSearch`, `BeamWidth`, `BeamCoverage`, `PlacementBounds`). Stages and devices are finite sequences, byte counts are integers,
and the incremental score is an arbitrary real function of the prefix and the
device. `FeasibilitySearch.Search` is the memoised, fewest-options-first search
with its mutable set of failed states; `BeamSearch.BuildPlacement` is the nested
loop with sort and truncation. `Beam` is the beam on its own, over any kind of
state. The results: the search answers exactly whether a placement of the
remaining stages exists; therefore a beam of any width reports exhausted capacity
exactly when no placement exists; every returned plan is sound; an untruncated
beam returns the least covering plan. Coverage of required device types is tested
after truncation, and `TruncationCanLoseCoverage` shows on a concrete problem that
truncation can lose it. `AlwaysCoveredExactly` says for which problems it cannot: a
covering plan is found whatever the incremental scores if and only if one exists and
fewer complete plans fail to cover than the beam is wide. `PlacementBounds` says all of it
again from the fields of the problem: what room a device has, which plans are
placements, which answer is given when.

**Coordinator** (`Ledger`, `Campaign`, `CampaignInvariant`, `CampaignAccept`,
`CampaignRun`, `CampaignTheorems`, `CampaignReports`, `CampaignRules`, `SubmissionRules`,
`CampaignHistory`, `CampaignLedger`, `Lineage`, `LineageRules`, `Coordinator`).
`Campaign` defines every operation as a function from system to system, where a
system is the saved state file together with the ledger file; the two are kept
apart because an event is appended at once while the state is saved at the end.
`Coordinator.VolunteerCoordinator` is the object that does the same step by step.
One inductive invariant holds in every reachable state; lease exclusivity,
accounting, generation fencing, replay, lineage and ledger verification are
theorems about whole runs. `CampaignRules` and `SubmissionRules` say, from the saved
state, the request and the clock alone, when a claim, a heartbeat and a submission get
which answer and what they change; `CampaignLedger` that a ledger that verifies accounts
for the state.

The ledger claim is false as the code stands. A heartbeat that sweeps a lapsed
lease and is then refused leaves an event in the ledger file that the saved head does
not cover, and so does a submission that escapes with an exception between the sweep
and the save: an adapter version of infinity, a lease token outside ASCII, sample
counts that are not numbers, and the like. `LateHeartbeatBreaksTheLedger` and
`EndlessVersionBreaksTheLedger` are such runs for every campaign.
`LedgerVerifiesExactlyWhenUnbroken` says when it happens, over runs of the modelled
operations in which any operation may moreover be cut off, by an exception or a crash,
after any number of its ledger events: the ledger verifies if and only if no operation
ended with an event in the file and the state unsaved. Once broken it never verifies
again, so recovery refuses from then on. Operations outside training, the browser probe
tasks among them, are `Administer`: events without a change of training. A browser probe
heartbeat that expires tasks and is then refused breaks the same ledger, as an `Administer`
cut off after its events.

**Outer loop** (`Tensors`, `OuterLoop`, `OuterRules`, `ErrorFeedback`, `SignRules`). Named tensors over the
reals. Norm bounds are handled through squares, so no square root is computed; the
norm the coordinator computes is a parameter whose square is the sum of squares.
Clipping, averaging and momentum compose to the drift bound. Sign compression is
modelled with its transport file, key names included. Compression conserves
(decoded + new residual = delta + old residual) exactly when every non-zero
residual finds its tensor in the delta in the same shape; this is proved for one
compression and for whole sequences, with a concrete loss otherwise.

**Uploads** (`Uploads`, `UploadSafety`, `UploadRules`, `UploadClient`). Every operation is a
sequence of durable writes, and a crash keeps a prefix of them. The manager object
carries the number of writes its process still gets through. One crash point is
not harmless: `start` cut between creating the chunk directory and writing the
manifest makes every later start of that upload fail. `RunIsStuckExactly` says in
which runs this happens, and `StuckForGood` that it lasts.

**Admission** (`MapSums`, `Admission`, `AdmissionRuns`, `AdmissionRules`, `AdmissionLosses`). Issue, revoke and
authorize with replay memory, fixed windows and lifetime quotas. Any interval of
one window length grants at most twice the limit, and for every limit there is a
run that reaches the factor two. An operation that is authorized and then raises
before it saves loses its charge and its nonce: the bounds hold of the saved grants,
a repeat within the replay time means that the earlier grant was lost, and lost
grants are not limited at all. Over every run `GrantedExactly` says which requests are
granted: what their credential goes back to, and what was granted before.

**Kernels** (`Arithmetic`, `Bitwise`, `Probe`, `ProbeWords`, `Framing`, `FramingRules`,
`Partition`, `Cursor`). The masked xorshift probe over unbounded integers, with an
explicit inverse and a refinement to fixed-width registers; length-prefixed
framing of checkpoint directories and of submission envelopes; half-even layer
boundaries; the cyclic data cursor.

Hashes are arbitrary functions into strings, and no theorem assumes that they are
free of collisions: where it matters that two contents with the same hash are the
same, the theorem says that it fails exactly if those two contents collide.
`Wrappers` holds the shared types, and what a collision is. `Hurdles` holds what it
means that a request passes a list of checks, or is stopped at the first that fails:
the modules whose names end in `Rules` state each operation by such a list.

## Model

| member | source | states |
|---|---|---|
| Placement.BranchingIsExact | crowdtensor/adapters/capabilities.py:1037-1066 | the remaining stages are placeable if and only if they are placeable after putting any one chosen stage on one of its open devices: branching on a single stage loses no solution |
| Placement.FeasibleReadsLookupsOnly | crowdtensor/adapters/capabilities.py:1006-1012 | feasibility depends on the usage dictionaries only through lookups with default zero |
| FeasibilitySearch.EqualKeysEqualAnswers | crowdtensor/adapters/capabilities.py:1006-1014 | states with the same memo key, zero entries dropped, have the same answer, so a remembered failure never hides a solution |
| FeasibilitySearch.NoOpenDeviceMeansInfeasible | crowdtensor/adapters/capabilities.py:1016-1035 | one stage without an open device refutes the whole state |
| FeasibilitySearch.MostConstrained | crowdtensor/adapters/capabilities.py:1037-1044 | the loop picks a stage with the fewest options, the smallest stage id among equals |
| FeasibilitySearch.Search.Run | crowdtensor/adapters/capabilities.py:999-1063 | the memoised recursion returns true if and only if some assignment of the remaining stages fits, keeps every remembered failure true, and terminates |
| FeasibilitySearch.RemainingStagesFeasible | crowdtensor/adapters/capabilities.py:962-1069 | the filter is exact in both directions for the stages from a given one on |
| BeamPlan.CompletableMeansFeasible | crowdtensor/adapters/capabilities.py:1358-1368 | a good prefix extends to a complete placement if and only if the filter's question has the answer yes |
| BeamPlan.GoodStep | crowdtensor/adapters/capabilities.py:1231-1253 | adding one stage keeps a prefix within eligibility, budgets and miner limits if and only if the device passes the loop's guards |
| BeamPlan.CompletePlanKeepsReserve | crowdtensor/adapters/capabilities.py:1143-1156 | on every device a plan uses, the peak sum is within the budget, and the budget within total minus reserve, even after reclaiming |
| Beam.LevelInhabited | crowdtensor/adapters/capabilities.py:1223-1419 | if every kept state has a kept extension, no level of a truncated beam is empty, for any width of at least one |
| Beam.UncutBeamIsExhaustive | crowdtensor/adapters/capabilities.py:1413-1419 | a beam that was never truncated contains every path of extensions |
| BeamWidth.RoomMeansUncut | crowdtensor/adapters/capabilities.py:1413-1419 | a beam that was ever cut is full at the end |
| BeamWidth.SteeredLevel | crowdtensor/adapters/capabilities.py:1413-1419 | states that sort first are cut last: a path of them stays in the beam unless they fill it |
| BeamSearch.ViableIsCompletable | crowdtensor/adapters/capabilities.py:1358-1370 | on a sound state the loop keeps an extension exactly when the extended plan is good and completable |
| BeamSearch.EveryLevelIsSound | crowdtensor/adapters/capabilities.py:1223-1419 | every state of every level carries a good, completable plan and the loads of exactly that plan |
| BeamSearch.CapacityErrorIsExact | crowdtensor/adapters/capabilities.py:1402-1410 | for any beam width, if every stage has an eligible device, exhausted capacity is reported if and only if no complete placement exists |
| BeamSearch.PlacedPlanIsSound | crowdtensor/adapters/capabilities.py:1421-1441 | a returned plan covers each stage once, in order, on an eligible device, within budgets and miner limits, and covers the required device types |
| BeamSearch.UntruncatedPlanIsLeast | crowdtensor/adapters/capabilities.py:1411-1441 | when no level was truncated, the returned plan is least in (rounded score, signature) among all feasible placements that cover the required types |
| BeamSearch.TruncationCanLoseCoverage | crowdtensor/adapters/capabilities.py:1421-1433 | a concrete problem, with default reserves and real sizes, where a beam of width one reports missing coverage although a covering plan exists |
| BeamCoverage.AlwaysCoveredExactly | crowdtensor/adapters/capabilities.py:1411-1433 | a plan is returned for all incremental scores if and only if there is a covering plan and fewer complete plans miss a required type than the beam is wide |
| BeamCoverage.FewMissesArePlaced | crowdtensor/adapters/capabilities.py:1411-1433 | with fewer such misses than the beam is wide, no scores can push the covering plans out of the beam |
| BeamCoverage.MissesFillTheBeam | crowdtensor/adapters/capabilities.py:1411-1433 | with at least as many, scores that are zero along the misses and one off them leave nothing but misses in the last level |
| BeamSearch.BuildPlacement | crowdtensor/adapters/capabilities.py:1166-1433 | the nested loops, the sort and the cut compute the specified answer, all error cases included |
| BeamSearch.ExtendState | crowdtensor/adapters/capabilities.py:1227-1400 | the inner device loop yields exactly the viable extensions of a state, in device order |
| PlacementBounds.BudgetIsRoom | crowdtensor/adapters/capabilities.py:871-883 | a load is within a device's budget if and only if it fits beside the least sufficient reserve, and is at most what is free beside it plus what the replaced plan holds there, nothing of it if nothing is free or the device is unhealthy |
| PlacementBounds.EligibleExactly | crowdtensor/adapters/capabilities.py:1166-1186 | a device is eligible for a stage if and only if it is healthy, of an allowed type, has the required dtype and has room for the stage's peak |
| PlacementBounds.RejectionIsFirstReason | crowdtensor/adapters/capabilities.py:1170-1181 | each rejection reason is given exactly when it is the first that applies |
| PlacementBounds.CompleteExactly | crowdtensor/adapters/capabilities.py:1231-1253 | the complete placements are exactly the plans that put every stage on a device of the right kind, with every used device having room for the sum of its peaks and every miner within both stage limits |
| PlacementBounds.AuditAnswersExactly | crowdtensor/adapters/capabilities.py:1087-1219 | the error for no devices, and the error for the first stage that no device takes alone, are given exactly then |
| PlacementBounds.CapacityAnswerExactly | crowdtensor/adapters/capabilities.py:1402-1418 | the capacity error is given exactly when every stage has a device that takes it alone and no plan places them all, and then at the first stage |
| PlacementBounds.PlacedPlanFitsFreeMemory | crowdtensor/adapters/capabilities.py:1143-1156 | a returned plan puts on each device at most the free memory beside the reserve plus what the replaced plan gives back there |
| PlacementBounds.ReturnedPlanPlaces | crowdtensor/adapters/capabilities.py:1421-1441 | a returned plan places every stage, uses every required device type and carries the sum of its incremental scores |
| PlacementBounds.UncutAnswerIsLeast | crowdtensor/adapters/capabilities.py:1419-1433 | a beam that was never cut returns the plan that is first by nearest ninth decimal, ties to the even one, and then by the device names at the first stage where plans differ |
| Ledger.VerifyLedger | crowdtensor/volunteer_training_coordinator.py:3547-3586 | the verification loop reports nothing if and only if the chain is intact and agrees with the saved head and count |
| Ledger.AppendKeepsChain | crowdtensor/volunteer_training_coordinator.py:982-1010 | appending to a tracked ledger gives a ledger that verifies against the new head and count |
| Ledger.VerifiedLedgersAgree | crowdtensor/volunteer_training_coordinator.py:3547-3586 | two ledgers that verify with the same head and count are equal event by event if and only if no two events at the same place are different and have the same hash |
| CampaignLedger.LedgerTellsTheState | crowdtensor/volunteer_training_coordinator.py:982-1010 | as long as no operation left events unsaved, the events of the ledger add up to the state: accepted results in order, rejected, lapsed and reassigned counts, closed rounds, recoveries, and for every work unit as many leases as its generation |
| CampaignLedger.VerifiedLedgerTellsTheState | crowdtensor/volunteer_training_coordinator.py:3547-3586 | every ledger of a run that verifies accounts for the state in this way |
| CampaignInvariant.SweepKeeps | crowdtensor/volunteer_training_coordinator.py:1362-1394 | requeueing lapsed leases keeps the invariant |
| CampaignInvariant.GrantKeeps | crowdtensor/volunteer_training_coordinator.py:1565-1604 | granting a lease keeps the invariant |
| CampaignInvariant.RenewKeeps | crowdtensor/volunteer_training_coordinator.py:1661-1681 | extending a lease keeps the invariant |
| CampaignAccept.AcceptKeepsCore | crowdtensor/volunteer_training_coordinator.py:1955-1991 | recording an accepted update keeps round shape, lease safety and accounting |
| CampaignAccept.QuorumIsCellDistinct | crowdtensor/volunteer_training_coordinator.py:2019-2025 | a round at quorum has exactly quorum results, from as many distinct cells, so the aggregation error cannot occur |
| CampaignAccept.ClosingAcceptKeeps | crowdtensor/volunteer_training_coordinator.py:1992-2147 | the accepted update that reaches quorum, the aggregation and the start of the next round keep the invariant |
| CampaignRun.RunKeeps | crowdtensor/volunteer_training_coordinator.py:1489-2147 | the invariant holds after every sequence of operations |
| CampaignRun.LedgerVerifiesExactlyWhenUnbroken | crowdtensor/volunteer_training_coordinator.py:603-610 | the ledger of a run verifies if and only if no operation was cut off after an event, no heartbeat was refused and no submission raised while sweeping a lapsed lease |
| CampaignRun.UnsavedExactlyWhenBroken | crowdtensor/volunteer_training_coordinator.py:1004-1009 | the saved event count covers the whole ledger file until the first such operation, and never again |
| CampaignRun.BrokenForGood | crowdtensor/volunteer_training_coordinator.py:3420-3477 | a ledger that fails verification fails it after every continuation, so recovery never succeeds again |
| CampaignRun.LedgerBreaksExactlyThen | crowdtensor/volunteer_training_coordinator.py:1644-1660 | on a verified ledger the next operation breaks verification if and only if it ends with events in the file and the state unsaved |
| CampaignRun.SubmitEscapes | crowdtensor/volunteer_training_coordinator.py:1792-1799 | a submission that raises after the sweep changes nothing but the ledger file, which gains one event per lapsed lease |
| CampaignReports.LateHeartbeatBreaksTheLedger | crowdtensor/volunteer_training_coordinator.py:1650-1660 | in every campaign, claiming, letting the lease lapse and sending any heartbeat makes the ledger fail verification |
| CampaignReports.EndlessVersionBreaksTheLedger | crowdtensor/volunteer_training_coordinator.py:1792-1799 | in every campaign, claiming, letting the lease lapse and sending any submission with an infinite adapter version makes the ledger fail verification |
| CampaignTheorems.RunsEvolve | crowdtensor/volunteer_training_coordinator.py:1489-2147 | along every run completed rounds and recorded submissions are final, and no version, round count or generation decreases |
| CampaignTheorems.GenerationsNeverDecrease | crowdtensor/volunteer_training_coordinator.py:1589-1604 | the lease generation of a work unit never decreases |
| CampaignTheorems.ExpiredGenerationIsFenced | crowdtensor/volunteer_training_coordinator.py:1823-1863 | once a generation of a work unit has expired, no later submission carrying it is newly accepted, whatever interleaves |
| CampaignRules.SweepExactly | crowdtensor/volunteer_training_coordinator.py:1362-1394 | expiry changes the leases that have run out, back to the queue under their generation, and the count of them, and nothing else |
| CampaignRules.ClaimExactly | crowdtensor/volunteer_training_coordinator.py:1489-1628 | over every run: each answer of a claim by its condition on the saved state, the unit handed out and the state left behind; a unit is newly leased if and only if the campaign runs, a round is under way, the cell has neither a live lease nor an accepted update, and the unit has the least shard of those free |
| CampaignRules.HeartbeatExactly | crowdtensor/volunteer_training_coordinator.py:1630-1681 | over every run: the lease is renewed for the configured time if and only if it is live and generation, holder and token agree; otherwise the first of these that fails decides the answer and the saved state stays |
| SubmissionRules.AcceptedExactly | crowdtensor/volunteer_training_coordinator.py:1707-1919 | over every run: a submission under a new result id is newly accepted if and only if it is authorized and an explicit conjunction over request, round and work unit holds |
| SubmissionRules.SubmissionExactly | crowdtensor/volunteer_training_coordinator.py:1707-2147 | over every run: the first check that fails decides the refusal, and an accepted submission leaves the spelled out record, work unit, round, aggregation, next round and receipt; a known result id is answered by its record |
| CampaignHistory.GenerationsGrowExactlyThen | crowdtensor/volunteer_training_coordinator.py:1589-1604 | the generation of a work unit grows, by one, exactly when an uncut authorized claim is granted on it |
| CampaignHistory.StoppedLeasesNothing | crowdtensor/volunteer_training_coordinator.py:1508-1520 | while a campaign is paused or finalized no generation of any work unit grows |
| CampaignHistory.LifecycleExactly | crowdtensor/volunteer_training_coordinator.py:2230-2262 | the lifecycle changes by pausing, resuming and finalizing only |
| CampaignHistory.FinalizedForGood | crowdtensor/volunteer_training_coordinator.py:2670-2713 | a finalized campaign stays finalized and leases nothing any more |
| CampaignHistory.AdministrationExactly | crowdtensor/volunteer_training_coordinator.py:3420-3477 | what pausing, finalizing and recovering answer; recovery is refused for its ledger if and only if an operation left events unsaved |
| CampaignReports.LeasesAreExclusive | crowdtensor/volunteer_training_coordinator.py:1535-1563 | in every active round no cell holds two leases, no accepted cell holds one, accepted cells are distinct, and some unit is unaccepted |
| CampaignReports.GuardsNeverFire | crowdtensor/volunteer_training_coordinator.py:1872-1879 | the concurrency limit, the expired-lease check and the distinct-cell check never refuse a request |
| CampaignReports.SubmissionNeverFails | crowdtensor/volunteer_training_coordinator.py:2019-2025 | no submission in any run ends in the aggregation error |
| CampaignReports.AccountingIsExact | crowdtensor/volunteer_training_coordinator.py:1955-1991 | accepted count = recorded submissions = quorum per completed round plus those of the active round; uploaded bytes are their sum |
| CampaignReports.ResultSitsOnce | crowdtensor/volunteer_training_coordinator.py:1955-1991 | each result id sits at exactly one place of exactly the round its record names |
| CampaignReports.RecordAgreesWithRound | crowdtensor/volunteer_training_coordinator.py:1992-2009 | the recorded aggregation flag and version agree with the round the submission went into |
| CampaignReports.ReplayAnyTime | crowdtensor/volunteer_training_coordinator.py:1730-1784 | resubmitting an accepted result at any later time returns the receipt of the first acceptance and changes nothing |
| Lineage.CheckpointLineage | crowdtensor/volunteer_training_coordinator.py:3479-3541 | the report loop computes the fold over completed rounds, with its error entries |
| Lineage.LineageIsAlwaysOk | crowdtensor/volunteer_training_coordinator.py:3479-3541 | in every reachable state the report has no error, one verified entry per version, linked from the initial to the current adapter hash |
| Lineage.ExactlyTheLastRoundIsActive | crowdtensor/volunteer_training_coordinator.py:558-600 | version = completed rounds, round i has index and base version i, and exactly the last round is active unless the target is reached |
| Lineage.LaterReportsExtend | crowdtensor/volunteer_training_coordinator.py:3479-3541 | a later report of the same run extends an earlier one by appending entries only |
| Lineage.Convert | crowdtensor/backends/elastic_peft.py:103-169 | the conversion loop computes the specified chain of checkpoints or the specified error |
| Lineage.ReachableReportsConvert | crowdtensor/backends/elastic_peft.py:142-169 | every reachable report converts, to checkpoints with steps 0..version that link back to the initial adapter |
| LineageRules.ReportExactly | crowdtensor/volunteer_training_coordinator.py:3479-3541 | the report of any state: one line per completed round, verified exactly if it links up, steps by one and has quorum inputs; one error per line that is not, and one if the head differs |
| LineageRules.ConvertsExactly | crowdtensor/backends/elastic_peft.py:103-169 | a report converts if and only if it has no error, every line steps and the last output is the current adapter; otherwise the first line that does not step decides |
| Coordinator.VolunteerCoordinator.ExpireLeasesIn | crowdtensor/volunteer_training_coordinator.py:1362-1394 | the expiry loop requeues exactly the lapsed leases, counting and logging each |
| Coordinator.VolunteerCoordinator.ClaimWork | crowdtensor/volunteer_training_coordinator.py:1489-1628 | the claim operation makes the specified change to state and ledger file and gives the specified reply |
| Coordinator.VolunteerCoordinator.RenewLease | crowdtensor/volunteer_training_coordinator.py:1630-1681 | the heartbeat operation, including the refusals and the exception that leave before saving |
| Coordinator.VolunteerCoordinator.RejectSubmission | crowdtensor/volunteer_training_coordinator.py:1683-1705 | a rejected submission is counted, logged and saved |
| Coordinator.VolunteerCoordinator.AggregateRound | crowdtensor/volunteer_training_coordinator.py:2011-2147 | closing a round at quorum and starting the next, or reaching the target |
| Coordinator.VolunteerCoordinator.SubmitUpdate | crowdtensor/volunteer_training_coordinator.py:1707-2009 | the submit operation: replay, collision, every refusal and every uncaught exception in its place, acceptance and aggregation |
| Coordinator.VolunteerCoordinator.SetLifecycle | crowdtensor/volunteer_training_coordinator.py:2230-2262 | pausing and resuming, refused once finalized |
| Coordinator.VolunteerCoordinator.Finalize | crowdtensor/volunteer_training_coordinator.py:2670-2713 | finalizing a campaign |
| Coordinator.VolunteerCoordinator.RecoverOnStart | crowdtensor/volunteer_training_coordinator.py:3420-3477 | recovery is logged exactly when the ledger file verifies and the files are intact |
| OuterLoop.ClippedIsBounded | crowdtensor/volunteer_training_coordinator.py:1923-1934 | an accepted delta has norm at most the clip norm, and one already within it is unchanged |
| OuterLoop.AverageIsBounded | crowdtensor/named_tensor_optimizer.py:149-160 | the average of deltas within a bound is within it |
| OuterLoop.ApplyOuterStep | crowdtensor/named_tensor_optimizer.py:163-191 | the loop over sorted names computes the momentum step, or reports the first name without a delta |
| OuterLoop.StepMoves | crowdtensor/named_tensor_optimizer.py:180-187 | the new velocity is momentum times the old plus the mean, and the adapter moves by the rate times it |
| OuterLoop.RunBound | crowdtensor/named_tensor_optimizer.py:163-191 | from rest, after k rounds velocity and distance are within the partial sums of the geometric series |
| OuterLoop.DriftBound | crowdtensor/volunteer_training_protocol.py:431-444 | in every run of R rounds no round fails, the velocity is at most C/(1-m), the last step at most rC/(1-m), the whole way at most RrC/(1-m) |
| OuterRules.ClippedExactly | crowdtensor/volunteer_training_coordinator.py:1923-1930 | every entry of a delta above the clip norm is scaled by clip norm over norm, and otherwise kept |
| OuterRules.AverageExactly | crowdtensor/named_tensor_optimizer.py:149-160 | the two errors of averaging, each exactly when, and every entry of the mean |
| OuterRules.OuterStepExactly | crowdtensor/named_tensor_optimizer.py:163-187 | the step fails as averaging does or at the least name without a delta, and otherwise moves every entry by the rate times momentum times old velocity plus mean |
| ErrorFeedback.CompressSignWithErrorFeedback | crowdtensor/named_tensor_optimizer.py:85-111 | the loop stores signs and scale of each corrected tensor under its keys and the new residual of each |
| ErrorFeedback.DecodeSignTransport | crowdtensor/named_tensor_optimizer.py:130-146 | the decoding loop, with its schema, hash, key and shape errors |
| ErrorFeedback.TransportRoundTrip | crowdtensor/named_tensor_optimizer.py:85-146 | decoding what was compressed yields, tensor by tensor, the value the residual was reduced by |
| ErrorFeedback.KeysAreDistinct | crowdtensor/named_tensor_optimizer.py:95-96 | sign and scale keys of different tensors never collide, also past four digits |
| ErrorFeedback.ConservedExactlyWhenUsable | crowdtensor/named_tensor_optimizer.py:87-94 | one compression neither loses nor invents anything if and only if every non-zero residual finds its tensor in the delta, in the same shape |
| ErrorFeedback.SkippedTensorLosesItsResidual | crowdtensor/named_tensor_optimizer.py:85-94 | a tensor left out of a delta loses its residual for good, whatever else the delta holds |
| ErrorFeedback.BooksBalanceExactlyWhenUsable | crowdtensor/named_tensor_optimizer.py:85-100 | over any sequence, decoded total + residual = sent total + initial residual after every step if and only if every step's residual is usable |
| ErrorFeedback.OneLayoutBalances | crowdtensor/named_tensor_optimizer.py:85-100 | with the same names and shapes throughout, the sums always balance |
| ErrorFeedback.ResidualContracts | crowdtensor/named_tensor_optimizer.py:90-94 | the new residual of a tensor of n entries has at most 1 - 1/n of the corrected input's squared norm |
| SignRules.DecodedExactly | crowdtensor/named_tensor_optimizer.py:85-111 | in terms of the corrected tensor: an entry is received as zero if it is zero, and otherwise as the mean magnitude with its sign; the rest is the new residual, so zeros stay zero |
| SignRules.SignsSent | crowdtensor/named_tensor_optimizer.py:92-97 | the transport file holds one, minus one or zero for each entry, under the key of its tensor |
| SignRules.ResidualNormExactly | crowdtensor/named_tensor_optimizer.py:90-94 | the squared norm of the new residual is that of the corrected tensor minus (2n - z) times the squared scale, with z of n entries not zero |
| SignRules.TransportDecodedExactly | crowdtensor/named_tensor_optimizer.py:130-146 | which transport files decode, to what, and how the others fail: by schema, by hash, or by the first reason of the first bad entry |
| UploadSafety.RunKeepsInv | crowdtensor/volunteer_training_storage.py:397-574 | with chunks in any order, repeats, restarts and a crash between any two durable writes, every recorded chunk keeps its matching file |
| UploadSafety.ReceivedBytesAreExact | crowdtensor/volunteer_training_storage.py:521-523 | received bytes reach the total exactly when all chunks are in |
| UploadSafety.CompletedIsOriginal | crowdtensor/volunteer_training_storage.py:576-589 | a completed session hands out something with the hash of the original file, which is that file if and only if the two do not collide |
| UploadSafety.HonestCompletion | crowdtensor/volunteer_training_storage.py:527-574 | a session fed with pieces of its file completes exactly when all of them are in, and then holds that file, whatever the hash |
| UploadSafety.EventGoesForward | crowdtensor/volunteer_training_storage.py:397-574 | no operation and no crash takes back a recorded chunk or a completion |
| UploadSafety.StartSucceedsExactly | crowdtensor/volunteer_training_storage.py:406-441 | a valid start succeeds exactly when its session matches or there is no trace of one |
| UploadSafety.StuckExactlyWhenCut | crowdtensor/volunteer_training_storage.py:440-465 | a session gets stuck exactly when its first valid start is cut between its two writes |
| UploadSafety.RunIsStuckExactly | crowdtensor/volunteer_training_storage.py:440-465 | a run from an empty disk ends stuck if and only if its first valid start that wrote anything died after its first write |
| UploadSafety.StuckForGood | crowdtensor/volunteer_training_storage.py:440-441 | once stuck, a session stays stuck in every run |
| UploadSafety.EveryRun | crowdtensor/volunteer_training_storage.py:397-589 | the three upload promises together, over every run from an empty disk |
| UploadRules.StrangersAreRefused | crowdtensor/volunteer_training_storage.py:474-589 | another cell changes nothing of a session, wherever its operation is cut off, and gets neither a manifest nor the blob |
| UploadRules.StrangersMakeNoDifference | crowdtensor/volunteer_training_storage.py:397-574 | leaving out of a run everything that other cells do to a session gives the same disk |
| UploadRules.StartExactly | crowdtensor/volunteer_training_storage.py:397-465 | starting succeeds exactly when it passes, by the first check that fails it is refused without a write, and the new or resumed session is spelled out |
| UploadRules.PutExactly | crowdtensor/volunteer_training_storage.py:474-525 | the same for a chunk: digest, owner, index, size and hash, and no collision |
| UploadRules.CompleteExactly | crowdtensor/volunteer_training_storage.py:527-574 | the same for completion, on any disk |
| UploadRules.NoSession | crowdtensor/volunteer_training_storage.py:486-487 | without a session nothing is stored, completed or handed out |
| UploadRules.DamagedCopyFallsBack | crowdtensor/volunteer_training_storage.py:576-589 | whatever becomes of the completed copy, what is handed out has the hash of the file |
| UploadRules.StoreExactly | crowdtensor/volunteer_training_storage.py:85-121 | storing a blob fails exactly if something else sits under its hash |
| UploadClient.UploadManager.StartUpload | crowdtensor/volunteer_training_storage.py:397-465 | starting or resuming makes the specified writes, as far as the process gets |
| UploadClient.UploadManager.PutChunkBytes | crowdtensor/volunteer_training_storage.py:474-525 | storing a chunk, its replay and its refusals |
| UploadClient.UploadManager.StoreBlob | crowdtensor/volunteer_training_storage.py:85-121 | storing a blob under its hash, idempotently |
| UploadClient.UploadManager.CompleteUpload | crowdtensor/volunteer_training_storage.py:527-574 | assembling, storing, recording and cleaning up |
| UploadClient.SubmitResumable | crowdtensor/volunteer_training_cell.py:494-570 | the client's skip-and-send loop computes the specified attempt |
| UploadClient.AttemptEffect | crowdtensor/volunteer_training_cell.py:523-562 | an attempt is interrupted exactly when at least k chunks are missing, and then stored k more; otherwise it delivers the file, whatever the hash |
| UploadClient.AttemptsNeeded | crowdtensor/volunteer_training_cell.py:523-562 | with m chunks missing, whatever was already received, a client interrupted after every k new chunks needs exactly Tries(m, k) attempts |
| UploadClient.TriesAre | crowdtensor/volunteer_training_cell.py:523-562 | that number of attempts is floor(m/k) + 1 |
| UploadClient.FreshUploadAttempts | crowdtensor/volunteer_training_cell.py:523-562 | a fresh upload of n chunks needs exactly floor(n/k) + 1 attempts |
| UploadClient.EveryFileCanBeAskedFor | crowdtensor/volunteer_training_storage.py:406-418 | the premises of the attempt theorems are met for every file that is not empty, even by a hash that tells nothing apart |
| Admission.OperatorPolicy.ActiveCredentials | crowdtensor/volunteer_training_operator.py:172-179 | the credentials neither revoked nor expired |
| Admission.OperatorPolicy.Issue | crowdtensor/volunteer_training_operator.py:182-252 | issuing a credential, with its capacity, scope and lifetime refusals |
| Admission.OperatorPolicy.Revoke | crowdtensor/volunteer_training_operator.py:255-280 | revoking a credential, idempotently |
| Admission.OperatorPolicy.PruneReplay | crowdtensor/volunteer_training_operator.py:323-326 | the pruning loop leaves exactly the unexpired replay entries |
| Admission.OperatorPolicy.Authorize | crowdtensor/volunteer_training_operator.py:283-379 | authorization: every refusal in its order, and the charges of a grant |
| AdmissionRuns.AtMostTwiceTheLimit | crowdtensor/volunteer_training_operator.py:336-346 | in any half-open interval of one window length a credential is granted at most twice the per-window limit |
| AdmissionRuns.TwiceTheLimitIsReached | crowdtensor/volunteer_training_operator.py:336-346 | for every limit, a policy and a run in which twice the limit is granted within one window length |
| AdmissionRuns.ReplaysAreApart | crowdtensor/volunteer_training_operator.py:323-334 | two grants of the same credential and nonce are at least the replay time apart |
| AdmissionRuns.QuotasAreKept | crowdtensor/volunteer_training_operator.py:355-372 | a credential's counters are exactly what was granted to it, and never exceed its lifetime quotas |
| AdmissionRuns.AuthenticationsAddUp | crowdtensor/volunteer_training_operator.py:366-373 | the authentication counter is the number of grants and the sum of all request counts |
| AdmissionRuns.CapacityIsKept | crowdtensor/volunteer_training_operator.py:200-208 | at no time are more credentials active than allowed, in total and per cell |
| AdmissionRules.IssueExactly | crowdtensor/volunteer_training_operator.py:182-252 | a credential is issued exactly when scopes, both capacities and lifetime pass, as the spelled out record; otherwise the first that fails decides code and counter |
| AdmissionRules.RevokeExactly | crowdtensor/volunteer_training_operator.py:255-280 | revoking marks the record and counts once |
| AdmissionRules.AuthorizeExactly | crowdtensor/volunteer_training_operator.py:283-379 | a request is granted exactly when it passes fourteen checks in order, with the charges spelled out; otherwise the first that fails decides code, counter and what is pruned or rolled |
| AdmissionRules.RecordsGoBack | crowdtensor/volunteer_training_operator.py:213-229 | over every run: a record goes back to the one event that issued the credential, and is revoked exactly if a later event revoked it |
| AdmissionRules.GrantedExactly | crowdtensor/volunteer_training_operator.py:283-379 | over every run: a request is granted if and only if its credential was issued for its cell and scope and has neither run out nor been revoked, claims and nonce are in order, the nonce was not granted within the replay time, and memory, window and quotas have room |
| AdmissionRules.GrantsAreEarned | crowdtensor/volunteer_training_operator.py:296-317 | every entry of the log of grants is a request that was entitled in this way when it came |
| AdmissionRules.RevokedLogsNothing | crowdtensor/volunteer_training_operator.py:298-299 | after a credential was revoked the log has no new entry for it |
| AdmissionLosses.SavedGrantsAreLimited | crowdtensor/volunteer_training_coordinator.py:1641-1660 | with operations that raise after authorizing, twice the limit still bounds the grants that were saved |
| AdmissionLosses.EarlyRepeatMeansLoss | crowdtensor/volunteer_training_coordinator.py:1641-1660 | if a credential and nonce are granted again within the replay time, the earlier grant was lost |
| AdmissionLosses.LostGrantsAreUnlimited | crowdtensor/volunteer_training_coordinator.py:1641-1660 | what is granted once and lost can be granted any number of times, at the same instant and under the same nonce |
| AdmissionLosses.LossesDefeatTheLimits | crowdtensor/volunteer_training_coordinator.py:1641-1660 | under a limit of one, a run with any number of equal lost grants |
| Probe.BrowserProbeValue | crowdtensor/volunteer_browser_probe.py:27-36 | the masked loop computes the specified value |
| Probe.ProbeIsABijection | crowdtensor/volunteer_browser_probe.py:27-36 | for every index and round count, a bijection of 32-bit seeds onto 32-bit values with an explicit two-sided inverse |
| Probe.StepInverts | crowdtensor/volunteer_browser_probe.py:32-34 | a masked xorshift step has an explicit inverse: the sum of the shifts by multiples of its amount |
| Probe.OnlyLowBitsCount | crowdtensor/volunteer_browser_probe.py:30 | the seed is mixed in before masking, yet only its low 32 bits count, of negative seeds too |
| ProbeWords.CodeRefinesRegisters | crowdtensor/volunteer_browser_probe.py:27-36 | bit for bit, the unbounded masked code computes what fixed-width registers with wrapping addition do |
| ProbeWords.BrowserProbeOnRegisters | crowdtensor/volunteer_browser_probe.py:22-36 | the browser probe is a 32-bit number, the one a register machine with shifts 13, 17, 5 and the two constants computes |
| Framing.DirectoryDigest | crowdtensor/backends/stable_session.py:92-112 | the nested loops feed exactly the framed stream, count bytes and files, and report missing, empty and symlink errors |
| Framing.StreamIsInjective | crowdtensor/backends/stable_session.py:98-112 | different lists of (path, content) never produce the same stream |
| Framing.StreamReadsBack | crowdtensor/backends/stable_session.py:98-112 | a parser reads the files back from the stream |
| Framing.DigestDeterminesTheTree | crowdtensor/backends/stable_session.py:98-112 | two trees have the same digest if and only if they are equal or the hash collides on their streams |
| Framing.EnvelopeRoundTrip | crowdtensor/volunteer_training_protocol.py:552-583 | decoding an encoded envelope returns the same metadata and delta, exactly when the delta is admissible and the schema matches |
| Framing.DecodedReencodes | crowdtensor/volunteer_training_protocol.py:552-583 | a decoded envelope re-encodes to the same bytes if and only if its header is the canonical one |
| FramingRules.StreamLayout | crowdtensor/backends/stable_session.py:98-112 | where every file sits in the stream: an eight-byte path length, the path, an eight-byte content length, the content, and nothing else |
| FramingRules.EncodedExactly | crowdtensor/volunteer_training_protocol.py:552-558 | encoding fails exactly for a header above 4 MiB or an empty delta, and else lays out an eight-byte length, header and delta |
| FramingRules.DecodedExactly | crowdtensor/volunteer_training_protocol.py:561-583 | an envelope is accepted exactly when it passes six checks, by the first of which it is refused otherwise |
| Partition.PartitionSucceeds | crowdtensor/model_adapter.py:169-177 | a stage count is refused exactly when it is out of range; the empty-stage error is unreachable |
| Partition.StageSize | crowdtensor/model_adapter.py:175 | consecutive boundaries are floor or ceiling of layers/count apart |
| Partition.PartitionIsBalanced | crowdtensor/model_adapter.py:169-188 | the stages tile the layers, each with floor or ceiling of layers/count of them; embedding first, norm and head last |
| Partition.LayerHasOneStage | crowdtensor/model_adapter.py:178-188 | every layer lies in exactly one stage |
| Partition.StagesAreNearest | crowdtensor/model_adapter.py:175-188 | each stage goes from the layer nearest to its share of the model to the next, of two the even one |
| Cursor.TrainLocal | crowdtensor/hf_lora_training.py:611-641 | the CPU loop draws the first samples of the stream from its cursor and ends where it goes on |
| Cursor.TrainCuda | crowdtensor/hf_lora_training.py:978-1052 | the CUDA loop draws the stream up to the target step; every checkpoint saves the step and the cursor where the stream goes on |
| Cursor.ResumeContinuesTheStream | crowdtensor/hf_lora_training.py:981-992 | stopping at a checkpointed step and resuming from it yields the sample stream of the uninterrupted run |
| Cursor.DrawsAreEven | crowdtensor/hf_lora_training.py:485-488 | after any number of draws every shard position was drawn floor or ceiling of draws/size times |

## Left out

- BeamSearch.UntruncatedPlanIsLeast: scores are reals, rounded half-even to nine decimals; floating-point summation and the rounding of floats are not modelled.
- Placement.BranchingIsExact: assumes one capability report per miner, so that a device key occurs once and devices of a miner share a stage limit.
- Partition.StageSize: boundaries are rounded exact quotients; the floating-point division of very large layer counts is not modelled.
- OuterLoop.DriftBound: reals instead of float tensors; the casts to the storage dtype, and the rounding they cause, are not modelled.
- OuterLoop.ClippedIsBounded: the norm is a parameter whose square is the sum of squares, since no square root is computed.
- CampaignRun.RunKeeps: an operation that is cut off leaves the saved state as it was; the version directory that a cut aggregation leaves behind is not modelled, only that later operations may be cut off too.
- CampaignReports.ReplayAnyTime: the token and credential checks before an operation are one boolean, and their counters are not part of the campaign state.
- Coordinator.VolunteerCoordinator.SubmitUpdate: runs to its end or to one of the exceptions its request causes, while cutting an operation off elsewhere is a matter of runs; the checks of names and hashes, and those of the delta file, are one outcome each, and the files that clipping and aggregation write are hashes that come with the operation.
- Coordinator.VolunteerCoordinator.Finalize: evaluation reports and the release files are reduced to whether they are complete.
- UploadSafety.RunKeepsInv: one upload session at a time, with other sessions acting on the shared blob store; temporary files a crash leaves behind are invisible to every operation and not modelled.
- Admission.OperatorPolicy.Issue: the token, its signature and its random id are replaced by a fresh credential id.
- AdmissionRuns.AtMostTwiceTheLimit: assumes a policy that is not reconfigured during the run.
- Framing.DirectoryDigest: the sorted list of files is an input, file sizes do not change while they are read, and lengths fit eight bytes.
- Framing.EnvelopeRoundTrip: the JSON encoder and decoder are parameters; the theorem names what it needs of them.
- Cursor.TrainCuda: only the cursor, the steps and the drawn positions; the optimizer, the losses and the checkpoint contents are not modelled.
- Probe.ProbeIsABijection: the digest over a vector of values is not modelled.
- Browser probe tasks have the same lease structure as training work; only their ledger events are modelled.
- Pairing codes, public status pages, metrics, backup and restore, S3 storage, HTTP routes, file locking and fsync are not modelled.
- Latency estimates of the placement score, straggler detection and the generation counter of plans are not modelled.
- Manifest and delta validators appear only as the bounds they guarantee.
- Session controllers, work units and lineage objects of the stable session are not part of this model.
