# RustFS admin-operation evidence, modelled and proved

The fault suite drives a destructive RustFS pool operation (a decommission or a
rebalance) against a server it does not trust, keeps every receipt, and later
accepts or rejects the whole run from those receipts. This project models that
evidence engine (`src/fault`) and proves what its many local checks add up to.

Verify everything with `dafny verify dfyconfig.toml`.

| file | what it models |
|---|---|
| `Basics.dfy` | checked u64 arithmetic, trimming, decimal text, list folds, and their order and permutation laws |
| `Receipts.dfy` | receipts, endpoints, requests, snapshots and their per-receipt checks |
| `TopologyProof.dfy`, `Preflight.dfy` | binding Tenant pools to runtime pools, capacity, building a topology proof, Pod names; when exactly a proof is built and what it says |
| `StatusProjection.dfy` | fail-closed projections of status bodies, progress samples |
| `Evidence.dfy`, `Acceptance.dfy` | acceptance of the artifacts: one chronology, conserved pools; what accepted artifacts say field by field |
| `Builders.dfy` | live operation builders against the offline terminal check |
| `Progress.dfy` | validation of a progress run |
| `History.dfy`, `Overlap.dfy`, `Families.dfy` | the recorded S3 history, the workload slice, overlap evidence, its stability and what it shows |
| `Polling.dfy`, `Exchanges.dfy`, `Policy.dfy`, `AdminDriver.dfy` | live polling, ownership, cancel, clear and stop against an arbitrary server: what may be sent and what must be |
| `FastPath.dfy` | operations that end before they are seen running |
| `Handover.dfy`, `RebalanceHandover.dfy`, `DriverHandover.dfy` | what was sampled live, by a poll or by the hooks of a workflow, against what is re-derived offline |
| `Workflow.dfy` | the phase runner, its evidence and the validator of that evidence |
| `ExampleCluster.dfy`, `Example.dfy`, `RebalanceExample.dfy`, `DecommissionExample.dfy`, `OverlapExample.dfy`, `FastPathExample.dfy` | a concrete cluster, a rebalance run and a decommission run that every acceptance check lets through, their polls, valid overlap evidence, and a live run that the fast-completion path refuses |
| `AckTrigger.dfy` | the ACK-to-fault trigger and the calibration environment |

How the source's notions appear here:

- A validator that returns `Result<()>` is a predicate, or a method with a loop
  proved equivalent to one; it holds exactly when the source returns `Ok`.
- The server is an arbitrary script of replies held by the session object; an
  exhausted script is a silent server. Each reply also says whether the caller's
  deadline has passed by the time it is handled, so every placement of a timeout
  is covered, and the loops end because the script does.
- The session keeps a ghost log of every request it sends, answered or not, with
  the ownership claim under which it was sent.
- Bodies are identified with what they decode to, a digest with the body it is
  of; status strings are an enumeration with an "other" case; `used: f64` is a
  real number; u64 bounds and checked arithmetic are explicit.
- Wall-clock readings are an arbitrary function of the reading's number; where
  order in time needs them not to step back, that is a stated condition. The
  monotonic clock advances by an arbitrary amount at every awaited step, and a
  step that outlasts its timer is dropped unless it is found ready first.
- A check that is used in several places is also stated in the fields it reads:
  lemmas named `...Reads` say what a passed check says of the raw receipt, and
  `...IsRefused` lemmas what it turns away.
- Each driver hook adds to one ghost log of hook calls when it is called. The
  workload may return after any number of observations.

Three places where the code does not do what it is meant to do are recorded,
each with its exact condition.

- The fast-completion path never succeeds live. An operation that ends before it
  was seen running is let through only if its receipts prove the overlap and every
  request's target equals the target of the topology proof
  (`src/fault/admin_decommission.rs:2048-2054`, `src/fault/admin_rebalance.rs:1773-1779`).
  For receipts that prove the overlap and come from one runtime, this asks exactly
  that every request be the proof's own capture, times included
  (`FastPath.FastPathIffOneCapture`). The source compares the Namespace and Service
  bodies, their digests and the Service resource version of a capture too; the
  model holds these in one consistency flag, so its condition speaks of the times
  and the Tenant body. A live adapter captures its endpoint anew for every request
  (`src/fault/admin_topology.rs:961-1009`), after the snapshot the proof was built
  from. So the path is refused unless the start's capture shows an earlier wall
  clock time than the pools/list receipt before it
  (`FastPath.FastPathNeedsAnEarlierCapture`); `FastPathExample.LiveRunIsRefused` is
  an accepted live run whose receipts prove the overlap and which is refused. A live
  workflow completes only if it saw the operation running
  (`Workflow.ExecuteAdminWorkflow`). Should the clock step back and the path succeed,
  the transcript is still never built into an operation
  (`FastPath.FastPathIsNeverBuilt`) nor passes the success check
  (`FastPath.FastPathNeverVerifies`); `OverlapExample.FastPathAcceptsIt` is such a
  transcript.
- The public constructor `from_decommission` never reads the state word beyond
  excluding failed and canceled, so it can call completed what the offline check
  rejects (`DecommissionExample.BuilderIgnoresTheStateWord`);
  `Builders.DecommissionBuilderAgrees` gives the exact condition. Its two callers
  pass only polled statuses, for which a cancel request is the only disagreement
  left (`Builders.PolledStatusAgreesUnlessCanceled`).
- A fully successful workflow is refused when the wall clock steps back from one
  phase to the next (`Workflow.SteppedBackClockIsRefused`); for a named run this is
  the only way (`Workflow.RunnerEvidenceValidates`).

## Model

| member | source | states |
|---|---|---|
| `Basics.BlankMeansTrimsToNothing` | src/fault/admin_topology.rs:1467-1475 | the blankness test used by every identity check is exactly "trims to the empty string" |
| `Basics.TrimReads` | src/fault/admin_topology.rs:1640-1699 | trimming takes whitespace from both ends of a cmdline, all of it and nothing else |
| `Basics.DecimalDenotes` | src/fault/admin_topology.rs:3061-3078 | the decimal text of a pool id or count denotes that number, without leading zeros |
| `Receipts.EndpointReads` | src/fault/admin_topology.rs:413-506 | a valid endpoint capture is ordered in time, names everything, uses port 9000 and holds the unaltered Tenant it names |
| `Receipts.BindingReads` | src/fault/admin_topology.rs:617-643 | a valid runtime binding is a 2xx answer naming the deployment, taken after its capture, with its digest |
| `Receipts.RequestReads` | src/fault/admin_topology.rs:645-690 | a valid request follows its capture and its own probe of the same target; every mutation has a probe; body and digest come together |
| `Receipts.TenantGetReads` | src/fault/admin_topology.rs:733-759 | a valid Tenant GET names and holds one Tenant, unaltered, at one resource version |
| `Receipts.ListReads` | src/fault/admin_topology.rs:813-865 | a valid pool snapshot is the captured 2xx pools/list answer of the runtime and Tenant it names, taken after the Tenant GET |
| `TopologyProof.BindingIsABijection` | src/fault/admin_topology.rs:1640-1699 | accepted pool lists are matched by (id, trimmed expression) one to one in both directions, with equal id sets |
| `TopologyProof.CheckedFreeIsTheSum` | src/fault/admin_topology.rs:1722-1727 | the checked fold yields the mathematical sum of surviving free bytes, and nothing exactly when that sum leaves u64 |
| `TopologyProof.DecommissionCapacityIsExact` | src/fault/admin_topology.rs:1708-1749 | for any ceiling of 130% of the target's bytes, each verdict and each error occurs exactly under its arithmetic condition, and the accepted figures are the exact ones |
| `TopologyProof.CapacityWithoutTarget` | src/fault/admin_topology.rs:1713-1767 | no budget and missing target are reported exactly then; without a target, acceptance means exactly that the free bytes fit u64 and cover the workload |
| `TopologyProof.AcceptedCapacitySuffices` | src/fault/admin_topology.rs:1708-1749 | accepted capacity holds the survivors' data, the target's data and the whole workload with at least 30% of the target's bytes to spare |
| `TopologyProof.CapacityIgnoresOrder` | src/fault/admin_topology.rs:1708-1768 | the verdict and all figures are the same for every order of the pool list |
| `TopologyProof.BuildIgnoresListOrder` | src/fault/admin_topology.rs:1301-1367 | permuting the Tenant's pool list or the runtime list changes neither whether a proof is built nor its target and capacity figures |
| `TopologyProof.DraftPassesItsSelfCheck` | src/fault/admin_topology.rs:1369-1447 | the self-check that ends building never rejects what building has just recorded |
| `Preflight.ProofIsBuiltIff` | src/fault/admin_topology.rs:1301-1367 | a proof is built exactly when the attempt is admissible, two declared pools are bound as declared to two idle, distinct, consistently sized runtime pools, the plan finds its target, and the capacity suffices |
| `Preflight.SatisfiedIffRebuilt` | src/fault/admin_topology.rs:1369-1447 | a proof of its scenario's case is satisfied exactly when building anew from the Tenant it captured and the pools it lists yields this very proof |
| `Preflight.BuiltProofIsOfAnIdleCluster` | src/fault/admin_topology.rs:1640-1706 | every pool of a built proof is active or ready, has no decommission word or record and no running rebalance; sizes add up, ids and cmdlines differ |
| `Preflight.BusyPoolPreventsAProof` | src/fault/admin_topology.rs:1770-1782 | one busy or inconsistently sized pool, in any of these fields, and no proof is built |
| `Preflight.BuiltProofIsOfThisTenant` | src/fault/admin_topology.rs:1450-1465 | a built proof is of the scenario's own case, the captured Tenant, its own Service and a named deployment |
| `Preflight.PoolIsBoundIff` | src/fault/admin_topology.rs:1538-1638 | a declared pool is bound exactly to the one runtime pool whose trimmed cmdline is the one its scheme, names, counts and data path spell out |
| `Preflight.BuiltProofBindsTheDeclaredPools` | src/fault/admin_topology.rs:1485-1511 | the two declared pools are bound in order under different names and ids; the target is the pool named decommission-target, or none for a rebalance |
| `Preflight.BuiltProofHasRoom` | src/fault/admin_topology.rs:1708-1768 | free bytes are the sum over the survivors and cover the workload plus, for a decommission, 130% of the target's bytes rounded up |
| `TopologyProof.PodNameSplitsUniquely` | src/fault/admin_topology.rs:1284-1299 | equal Pod names have equal StatefulSets and equal ordinals |
| `TopologyProof.SatisfiedProofHasDistinctPods` | src/fault/admin_topology.rs:1369-1447 | a satisfied proof lists distinct Pods, as many as all servers together, and at least one |
| `TopologyProof.ExpectedPodNames` | src/fault/admin_topology.rs:1284-1299 | fails exactly on a duplicate or on none at all; for a satisfied proof it never fails and returns as many names as there are servers |
| `StatusProjection.TotalsAreExact` | src/fault/admin_topology.rs:2744-2858 | the checked fold over participants yields the three exact sums, and fails exactly when one of them leaves u64 |
| `StatusProjection.DecommissionProjectionReads` | src/fault/admin_topology.rs:2534-2617 | a status is projected exactly when it is the target's, carries the identity (or is queued without one) and its word and flags agree; failed, canceled and completed are read off the raw fields |
| `StatusProjection.RebalanceFailureReads` | src/fault/admin_topology.rs:2776-2796 | failed exactly when a pool shows an error, a warning, or the word failed or blocked, or a peer failed; stopped exactly by its four sources; a failure makes the state failed and never completed |
| `StatusProjection.RebalanceCompletionReads` | src/fault/admin_topology.rs:2797-2858 | completed exactly when something moved, every pool has completed or stands idle outside, and nothing failed or stopped; participants and sums are those of the movers |
| `StatusProjection.RebalanceIsProjectedWhen` | src/fault/admin_topology.rs:2744-2775 | a status is projected exactly when it names the given pools, each once, in known states, with sums within u64 |
| `StatusProjection.ReprojectionSucceeds` | src/fault/admin_decommission.rs:694-712 | a receipt that projects under the identity it reveals projects under every identity it does not contradict, with only the identity changed; without an identity it is queued |
| `Evidence.ValidateRequestTiming` | src/fault/admin_topology.rs:2939-2973 | accepts exactly the transcripts that lie in the window and whose adjacent requests are ordered |
| `Evidence.EarlierRequestsPrecede` | src/fault/admin_topology.rs:2939-2973 | adjacent order makes every earlier request observed before any later one begins |
| `Evidence.TranscriptIsStartThenStatuses` | src/fault/admin_topology.rs:2985-3059 | without a cancel or stop the transcript is exactly one start and then one or more statuses |
| `Evidence.AcceptedArtifactsHaveOneChronology` | src/fault/admin_topology.rs:3383-3433 | accepted artifacts form one total order from the runtime probe to the last capture of the post snapshot, and both pre-start receipts are at most 5000 ms old at the start |
| `Evidence.DecommissionConservesPools` | src/fault/admin_topology.rs:2297-2434 | afterwards the pools are those before, or those minus the target; the others are active or ready with no decommission and no running rebalance; a retained target spells this operation's identity and counters and shows a clean end, field by field |
| `Evidence.RebalanceConservesPools` | src/fault/admin_topology.rs:2297-2434 | afterwards the set of (id, expression) is exactly that before and every pool is active or ready, with no decommission word or record and no running rebalance |
| `Evidence.DecommissionPoolsAcceptedIff` | src/fault/admin_topology.rs:2297-2384 | over well-formed snapshots the pools check of a decommission holds exactly when the target moved something, was asked for by id, at most the target was lost, what is listed of it is this operation's clean end, and the others are idle |
| `Evidence.RebalancePoolsAcceptedIff` | src/fault/admin_topology.rs:2385-2434 | that of a rebalance exactly when something moved, the participants are distinct listed pools, the identities are conserved and every pool is idle |
| `Evidence.StrangeTargetIsRefused` | src/fault/admin_topology.rs:1784-1811 | a retained target that differs from the operation in identity, counters or any sign of a clean end makes the operation unsuccessful |
| `Evidence.BusyPoolIsRefused` | src/fault/admin_topology.rs:2297-2434 | so does any other pool that is busy in any field |
| `Acceptance.SuccessReads` | src/fault/admin_topology.rs:2191-2240 | success is of a named operation of its own case that says it completed and neither failed nor was stopped |
| `Acceptance.TranscriptAcceptedIff` | src/fault/admin_topology.rs:2985-3100 | a transcript is accepted exactly when it has one start, every other request is a status sent after the start's answer or a cancel or stop, and all carry exactly the scenario's query |
| `Acceptance.SuccessfulTranscriptReads` | src/fault/admin_topology.rs:2985-3100 | one POST of the scenario's start path, then GETs of its status path, each with exactly its query and a 2xx answer |
| `Acceptance.SuccessfulRequestIsTimely` | src/fault/admin_topology.rs:2939-2973 | every request lies in the window from its capture to its answer, with its own successful probe of the same target in between |
| `Acceptance.SuccessIsOfOneRuntime` | src/fault/admin_topology.rs:2975-2983 | all requests and both snapshots name one endpoint, one Tenant spec and one deployment |
| `Acceptance.SuccessfulSnapshotReads` | src/fault/admin_topology.rs:2241-2296 | both snapshots are of this attempt, in order inside the window, captured with their digest, with distinct pools whose sizes add up |
| `Acceptance.SuccessfulDecommissionReads` | src/fault/admin_topology.rs:2440-2480 | a successful decommission is what its last captured answer says: the target, complete, decommissioned, nothing failed or left, with the answer's identity and counters |
| `Acceptance.SuccessfulRebalanceReads` | src/fault/admin_topology.rs:2481-2521 | a successful rebalance is the one its start answer named, every mover completed, no error, warning or stop anywhere, with the exact sums |
| `Acceptance.FreshSnapshotReads` | src/fault/admin_topology.rs:1844-1885 | the snapshot a start relies on is of this proof and attempt, of an idle cluster with room, and at most 5000 ms old |
| `Acceptance.PreStartReads` | src/fault/admin_topology.rs:1813-1841 | it is read in order before the capture, the probe and the start |
| `Acceptance.PostReads` | src/fault/admin_topology.rs:1887-1922 | the later snapshot is read in order after the terminal answer, of the same runtime, attempt and Tenant |
| `Acceptance.AcceptedArtifactsRead` | src/fault/admin_topology.rs:3383-3433 | accepted artifacts are of one attempt, and their proof is what building anew from its receipts yields |
| `Builders.DecommissionBuilderAgrees` | src/fault/admin_topology.rs:1999-2061 | a built decommission passes the offline check as completed exactly when it is completed, its word is complete and nobody asked to cancel; the projection never calls completed what the builder does not |
| `Builders.DecommissionBuildReads` | src/fault/admin_topology.rs:1999-2061 | every field of a built decommission is read off the terminal status and the requests; failed counters count as failure, any cancel or stop request as cancel |
| `Builders.PolledStatusCompletesByItsWord` | src/fault/admin_topology.rs:2534-2617 | a status that projects is completed for the builder only under the word complete |
| `Builders.PolledStatusAgreesUnlessCanceled` | src/fault/admin_decommission.rs:1800-1808 | for every polled status, a completed build passes the offline terminal check exactly when no cancel was requested |
| `Builders.RebalanceBuilderAgrees` | src/fault/admin_topology.rs:2063-2189 | the projection over the snapshot's pools succeeds exactly when every pool state is known, and then all flags, participants and sums coincide with the builder's |
| `Builders.RebalanceBuildReads` | src/fault/admin_topology.rs:2063-2189 | the same of a rebalance: failed and stopped by their raw sources, the exact sums, and the state word they give |
| `Builders.RebalanceBuildCompletes` | src/fault/admin_topology.rs:2063-2189 | built as completed exactly when something moved, every pool completed or stands idle outside, and nothing failed or stopped |
| `Builders.CompletedRebalancePassesTerminalCheck` | src/fault/admin_topology.rs:2440-2521 | a rebalance built as completed passes the offline terminal check |
| `Progress.ValidateProgress` | src/fault/admin_topology.rs:3133-3309 | accepts exactly the faithful runs |
| `Progress.AcceptedRunIsFaithful` | src/fault/admin_topology.rs:3133-3381 | the local checks give samples one to one with the status receipts in order, each its receipt's projection; nothing regresses between any two; time strictly advances; the last and only the last is terminal and agrees with the operation |
| `Progress.FaithfulStep` | src/fault/admin_topology.rs:3184-3260 | conversely, every turn of the loop accepts a faithful run |
| `Progress.FaithfulRunReads` | src/fault/admin_topology.rs:3262-3309 | in a faithful run no counter falls, no stage is taken back, request ids differ, and only the last sample completes and equals the operation's end |
| `Progress.FaithfulSampleReads` | src/fault/admin_topology.rs:2625-2691 | each of its samples repeats its captured 2xx receipt: state, counters and identity, with no sign of failure, cancel or stop |
| `History.ValidateVersions` | src/fault/history.rs:201-234 | accepts exactly the histories whose created versions have keys and pairwise different identities |
| `History.TurnDecidesOrder` | src/fault/history.rs:254-361 | one turn against the accumulated sets and maps decides order against every earlier record at once |
| `History.ValidateOrder` | src/fault/history.rs:254-361 | accepts exactly the histories whose records are valid and pairwise ordered |
| `History.ValidateHistory` | src/fault/history.rs:236-243 | accepts exactly the histories in scope, with unique versions and in order |
| `History.HistoryReads` | src/fault/history.rs:201-361 | the check holds exactly when each record is sound in its fields and each pair ends in order, shares no id, event or version, and does not overlap on a key |
| `History.EventsAreContiguous` | src/fault/history.rs:254-361 | the 2n recorder sequences of an accepted history are exactly 1 to 2n |
| `History.GrowthComesAfter` | src/fault/history.rs:254-361 | when an accepted history grows into an accepted one, every added record lies wholly after the events it had |
| `Overlap.WorkloadRecords` | src/fault/admin_decommission.rs:928-987 | returns the slice exactly when the window is valid, covered at both ends and crossed by no record, and rejects otherwise |
| `Overlap.OverlapMeansSharedMoment` | src/fault/admin_rebalance.rs:931-941 | two intervals overlap exactly when some moment lies strictly inside both |
| `Overlap.EvidenceIsBuiltIffProven` | src/fault/admin_decommission.rs:180-246 | evidence is built exactly when the receipts show one successful bound run, a status and a record beside the workload, a valid slice and all families; no overlapping status can lack its sample |
| `Families.FamiliesRead` | src/fault/admin_decommission.rs:989-1075 | the family check asks exactly for an ordinary PUT, an overwrite, a zero-byte object, a delete marker, a completed and an aborted multipart upload, enabled versioning, and a version on every successful mutation |
| `Families.EvidenceShowsEveryFamily` | src/fault/admin_decommission.rs:180-246 | built evidence has a record of each family, in raw fields |
| `Families.LackingFamilyIsRefused` | src/fault/admin_decommission.rs:989-1075 | a workload lacking any one family yields no evidence |
| `Families.UnversionedMutationIsRefused` | src/fault/admin_decommission.rs:1059-1073 | nor does a history with a successful mutation without a version |
| `Families.SliceReads` | src/fault/admin_decommission.rs:928-987 | the workload window is valid exactly when it frames its records in sequence and time and both its ends are ends of records |
| `Families.RunReads` | src/fault/admin_decommission.rs:189-209 | the run check holds exactly for samples of one operation, none failed or stopped, only the last completed, never back in time between any two |
| `Families.EvidenceNamesTheWorkload` | src/fault/admin_decommission.rs:266-364 | valid evidence names exactly the records of the window and exactly those that share a moment with the operation |
| `Families.EvidenceNamesTheOperation` | src/fault/admin_decommission.rs:266-364 | it shows one run, every status answered with a 2xx and sampled, and names exactly the statuses that share a moment with the workload |
| `Families.EvidenceSpansTheOperation` | src/fault/admin_decommission.rs:1077-1092 | its operation interval runs from the start answer to the terminal answer and overlaps the workload's |
| `Overlap.BoundStatusesAreSampled` | src/fault/admin_decommission.rs:1094-1126 | bound receipts leave no overlapping status without its progress sample |
| `Overlap.ValidEvidenceIsTheDerivedOne` | src/fault/admin_decommission.rs:266-364 | evidence passes the check exactly when it is what the builder derives from the same receipts |
| `FastPath.SameTargetIffOneCapture` | src/fault/admin_topology.rs:311-340 | of two targets with one runtime identity, equality asks only whether they are one capture, times and Tenant body included |
| `FastPath.FastPathReads` | src/fault/admin_decommission.rs:2016-2066 | the path accepts exactly a satisfied proof, requests answered with a 2xx through the proof's own capture, and receipts that prove the overlap |
| `FastPath.FastPathIffOneCapture` | src/fault/admin_decommission.rs:2016-2066 | of receipts that prove the overlap and come from one runtime, the fast path accepts exactly those whose every request is the proof's own capture |
| `FastPath.LaterCaptureDiffers` | src/fault/admin_topology.rs:961-1009 | a request captured after the snapshot never carries the proof's capture |
| `FastPath.FreshSnapshotIsInOrder` | src/fault/admin_topology.rs:1844-1885 | a fresh pre-start snapshot whose probe precedes its Tenant GET is in order |
| `FastPath.FastPathNeedsAnEarlierCapture` | src/fault/admin_decommission.rs:2016-2066 | the fast path accepts only a start captured at the proof's time, before the pools/list receipt that it followed |
| `FastPath.PreStartCheckExcludesTheProofsCapture` | src/fault/admin_topology.rs:1813-1841 | a start that passes the pre-start check does not carry the proof's capture |
| `FastPath.FastPathIsNeverBuilt` | src/fault/admin_topology.rs:1999-2090 | neither builder accepts a fast-path transcript of valid requests |
| `FastPath.SharedCaptureTimesOneRequest` | src/fault/admin_topology.rs:2939-2973 | requests that share one endpoint capture are timed in order only if there is just one |
| `FastPath.FastPathNeverVerifies` | src/fault/admin_decommission.rs:2016-2066 | a transcript accepted by the fast-completion path is refused by the timing and success checks in every window |
| `Overlap.SliceSurvives` | src/fault/admin_decommission.rs:928-987 | the slice of a longer accepted history is the same slice |
| `Overlap.ClassificationSurvives` | src/fault/admin_decommission.rs:1006-1027 | a later record never turns an ordinary PUT of the slice into an overwrite, nor back |
| `Overlap.OverlapSurvivesHistoryGrowth` | src/fault/admin_decommission.rs:266-364 | evidence valid when the workload ends is valid on a longer history exactly when that history is in scope and order and its added successful mutations carry versions |
| `Polling.AbsorbTracks` | src/fault/admin_decommission.rs:631-680 | one poll turn keeps the tracking invariant; an answer is refused only for being malformed or for another identity, never because earlier receipts cannot be projected again |
| `Polling.TrackedReceiptsAreBound` | src/fault/admin_decommission.rs:1128-1149 | status receipts and progress samples of a tracking poll are bound one to one in order |
| `Polling.PolledRunIsOneSuccessfulRun` | src/fault/admin_decommission.rs:189-209 | a poll ending in its first terminal receipt is one successful run exactly when that receipt is complete, decommissioned and moved something |
| `AdminDriver.AdminSession.PollDecommission` | src/fault/admin_decommission.rs:606-692 | for every reply sequence: requests are the old ones plus the polled ones in order; a bound identity never changes; progress is the projection of all polls under it, earlier unbound ones included; it polls on until an answer is silent, refused, terminal or late, and returns what that answer calls for |
| `AdminDriver.AdminSession.PollRebalance` | src/fault/admin_rebalance.rs:587-621 | every answer is kept and every owned one sampled; it polls on while the owned rebalance runs in time, and returns what the last answer calls for; receipts stay bound to samples |
| `Policy.CarriedRunIsSafe` | src/fault/admin_decommission.rs:714-828 | an attempt that sends what its answers call for, and only that, keeps its control requests justified |
| `Policy.CancelMakesProgress` | src/fault/admin_decommission.rs:749-804 | a running status in time is followed by the cancel, an acknowledged cancel by a status, a running one by another, a clearable one by the clear, which is last |
| `Policy.CancelThenClear` | src/fault/admin_decommission.rs:749-828 | running, acknowledged cancel, clearable, acknowledged clear: the attempt is exactly these four requests and succeeds |
| `Policy.CancelFailureIsNamed` | src/fault/admin_decommission.rs:714-828 | a failed cancel names its last answer: none, another operation's, late, a refused control, or an end neither successful nor clearable |
| `Policy.CancelReads` | src/fault/admin_decommission.rs:830-843 | in raw fields: a cancel follows a queued or running status, a clear one that ended without completing, failed or canceled, with nothing unresolved |
| `Policy.AnswerCallsFor` | src/fault/admin_decommission.rs:749-828 | conversely, in raw fields of an owned answer in time: a running one is followed by the cancel or a status, a failed or canceled end with nothing unresolved by the clear, a clean completion by nothing and success |
| `Policy.CanceledReads` | src/fault/admin_decommission.rs:874-885 | a successful cancel ends with the completed, moved decommission of the target, or with an acknowledged clear |
| `Policy.OwnedDecommissionReads` | src/fault/admin_decommission.rs:845-862 | an owned status is a captured 2xx answer of the proof's runtime to exactly the target's query and spells the owned identity |
| `Policy.ControlReads` | src/fault/admin_topology.rs:2694-2742 | an acknowledged control request is a POST of exactly the target's query to the proof's runtime, answered with a 2xx |
| `Policy.StopMakesProgress` | src/fault/admin_rebalance.rs:623-676 | a running rebalance is stopped, and watched until an answer is silent, foreign, late or shows its end |
| `Policy.RebalanceAnswerCallsFor` | src/fault/admin_rebalance.rs:587-676 | in raw fields of an owned answer in time: a failure, a stop or completion ends the stop or the poll with success, anything else is stopped or watched on |
| `Policy.OwnedRebalanceReads` | src/fault/admin_topology.rs:2864-2918 | an owned rebalance status is a captured 2xx answer of the proof's runtime, names the owned id, and is sampled as it projects |
| `Policy.AbsorbDecides` | src/fault/admin_decommission.rs:1584-1643 | on a tracked transcript an observation is refused for a malformed or foreign answer, and a terminal one succeeds only if complete, decommissioned and moved |
| `Exchanges.OwnedPollsStayBound` | src/fault/admin_rebalance.rs:943-966 | owned statuses extend receipts and samples in step |
| `AdminDriver.AdminSession.ReadOwnedStatus` | src/fault/admin_decommission.rs:845-862 | one status request, its receipt always kept, a sample added exactly when it carries the owned identity |
| `AdminDriver.AdminSession.ClearTerminalDecommission` | src/fault/admin_decommission.rs:796-843 | sends a clear exactly when the status is owned, clearable and in time, and returns what its answer calls for |
| `AdminDriver.AdminSession.CancelOwnedDecommission` | src/fault/admin_decommission.rs:714-794 | for every reply sequence: at most one cancel, as second request, right after an owned running status; at most one clear, as last request, right after a clearable owned status; every answer in time is followed by the request it calls for; the result is what the last answer makes of it; success means completed or cleared, with every control acknowledged |
| `AdminDriver.AdminSession.StopOwnedRebalance` | src/fault/admin_rebalance.rs:623-676 | for every reply sequence: at most one stop, as second request, right after an owned running status; it stops what runs and watches until it has ended; the result is what the last answer makes of it |
| `AdminDriver.AdminSession.Start` | src/fault/admin_decommission.rs:1522-1562 | sends the start exactly when prepared and, for decommission, with a fresh valid snapshot; succeeds exactly when it is answered as demanded and both writes succeed, else names the cause; ownership is ambiguous while it is in flight and becomes owned only by a named rebalance start |
| `AdminDriver.AdminSession.Observe` | src/fault/admin_decommission.rs:1564-1643 | sends one status when it knows what to ask for, else nothing and says why; the report is what the answer makes of it; a status that shows its identity makes the driver its owner; ownership only advances and the bound identity never changes |
| `AdminDriver.AdminSession.ObserveRebalance` | src/fault/admin_rebalance.rs:1332-1370 | keeps and samples only a status of the owned operation |
| `AdminDriver.AdminSession.Cancel` | src/fault/admin_decommission.rs:2106-2199 | sends nothing when not started; when ambiguous one status, and settles exactly on an ended operation younger than the start attempt; justified control requests only when owned, and then all that the answers call for, reporting the last; "no owned operation" means no control request was sent |
| `AdminDriver.AdminSession.ReconcileRebalance` | src/fault/admin_rebalance.rs:1851-1877 | an ambiguous start is only looked at, and is settled only by an ended status younger than the start attempt |
| `AdminDriver.AdminSession.VerifyCompletedOverlap` | src/fault/admin_decommission.rs:2016-2066 | succeeds exactly when the session has ended its owned operation, holds the workload receipt, the fast path accepts the transcript and the write succeeds; with live captures it never does |
| `Handover.LiveSampleIsDerived` | src/fault/admin_topology.rs:2625-2691 | a live sample is what the offline check re-derives from its receipt |
| `Handover.LiveRunIsFaithfulIffClean` | src/fault/admin_decommission.rs:506-604 | a finished decommission poll handed to the builder passes the offline progress check exactly when the receipts are timely, distinct, never decreasing, end in a completed move and contain no cancel |
| `RebalanceHandover.ProjectionReadsIds` | src/fault/admin_topology.rs:2744-2858 | a rebalance projection is the same over every pool list with the same ids |
| `RebalanceHandover.LiveStatusIsMirrored` | src/fault/admin_topology.rs:2864-2918 | a live sample over the proof's pools is what the offline check re-derives over the snapshot's, with counters the exact sums |
| `RebalanceHandover.LiveRebalanceIsFaithfulIffClean` | src/fault/admin_rebalance.rs:524-585 | a finished rebalance poll handed to the builder passes the offline progress check exactly when the receipts are timely, distinct, never decreasing in sum, end in a completed rebalance and contain no stop |
| `Exchanges.DecommissionTurn` | src/fault/admin_decommission.rs:1584-1643 | one accepted observation keeps the transcript the start followed by the observed receipts in order, and the run ends in its first and only terminal one |
| `Exchanges.RebalanceTurn` | src/fault/admin_rebalance.rs:1332-1370 | one owned observation keeps receipts and samples in step, and the run ends in its first and only ended one |
| `DriverHandover.ObservedDecommissionHandsOver` | src/fault/admin_decommission.rs:1784-1808 | after a passed overlap phase the requests are the start and the observed receipts, bound to the progress, and the operation built of them passes the offline progress check exactly when the observations were clean |
| `DriverHandover.ObservedRebalanceHandsOver` | src/fault/admin_rebalance.rs:1517-1542 | the same of a rebalance whose start receipt is no status |
| `ExampleCluster.ProofIsBuilt` | src/fault/admin_topology.rs:1301-1367 | a concrete Tenant with two pools yields a satisfied proof for either scenario |
| `Example.RunIsAccepted` | src/fault/admin_topology.rs:3383-3433 | a concrete rebalance run passes every acceptance check |
| `Example.RunIsFaithful` | src/fault/admin_topology.rs:3133-3309 | its progress is a faithful run |
| `RebalanceExample.OperationIsBuilt` | src/fault/admin_topology.rs:2063-2189 | the builder makes the accepted operation of the run's receipts |
| `RebalanceExample.RunIsPolled` | src/fault/admin_rebalance.rs:587-621 | its receipts are a successful poll and a clean run |
| `RebalanceExample.HandedOverRunIsFaithful` | src/fault/admin_rebalance.rs:524-585 | polled live and built, it passes the offline progress check |
| `DecommissionExample.BuilderIgnoresTheStateWord` | src/fault/admin_topology.rs:1999-2061 | with a satisfied proof and valid snapshots, the builder completes an operation from a status that says running, and the offline check refuses it |
| `DecommissionExample.RunIsAccepted` | src/fault/admin_topology.rs:3383-3433 | a concrete decommission run passes every acceptance check |
| `DecommissionExample.RunIsPolled` | src/fault/admin_decommission.rs:606-692 | its receipts are a successful poll and a clean run |
| `DecommissionExample.RunIsFaithful` | src/fault/admin_topology.rs:3133-3309 | polled live and built, it passes the offline progress check |
| `OverlapExample.EvidenceIsBuilt` | src/fault/admin_decommission.rs:180-246 | a concrete history with every workload family yields overlap evidence |
| `OverlapExample.FastPathAcceptsIt` | src/fault/admin_decommission.rs:2016-2066 | with one shared capture, its valid requests pass the fast path |
| `FastPathExample.LiveRunIsRefused` | src/fault/admin_decommission.rs:2016-2066 | an accepted live decommission, captured after its snapshot, whose receipts prove the overlap and which the fast path refuses |
| `Workflow.RunnerEvidenceValidates` | src/fault/admin_runner.rs:73-140 | the validator accepts what the runner leaves exactly when scenario and run are named and no phase begins at an earlier wall-clock reading than its predecessor began or ended at |
| `Workflow.SteadyClockNeverGoesBack` | src/fault/admin_runner.rs:416-447 | a clock that never decreases meets that condition |
| `Workflow.SteppedBackClockIsRefused` | src/fault/admin_runner.rs:96-101 | a named run of four passed phases, stamped by a concrete clock that steps back from 9 to 8, is refused |
| `Workflow.AcceptedEvidenceReads` | src/fault/admin_runner.rs:73-140 | accepted evidence runs from start to cleanup, each phase over before any later one, with errors on exactly the failed ones; completed exactly when all passed, and then four phases and no cancel |
| `Workflow.FlawedEvidenceIsRefused` | src/fault/admin_runner.rs:73-140 | evidence unnamed, out of order, contradicting its errors, or completed after a failure or a cancel is refused |
| `Workflow.EndPhase` | src/fault/admin_runner.rs:416-439 | appends one valid phase receipt carrying its own error, stamped with the two readings that frame it |
| `Workflow.SequenceGivesOrder` | src/fault/admin_runner.rs:192-311 | hook calls in sequence put start right after a successful prepare, observations after a begun workload, and overlap proof, verify, cancel and cleanup after its return, cleanup once and last |
| `Workflow.Timed` | src/fault/admin_runner.rs:390-414 | an operation phase passes only before both deadlines; a failure of its own is reported as it is unless it was dropped, and any other failure is a timeout |
| `Workflow.WaitForCompletion` | src/fault/admin_runner.rs:354-414 | polls are bounded by the remaining time over the interval; success means running, ..., running, finished before the deadlines, and says whether any was running; failure is the last observation's error or a timeout once time is up |
| `Workflow.CombineOverlap` | src/fault/admin_runner.rs:313-322 | passes only if both sides passed; the operation's failure leads, else the workload's, and a failed workload's error is never lost |
| `Workflow.RunOverlap` | src/fault/admin_runner.rs:245-270 | a passed overlap saw the operation running or had the fast path accept it, after a workload that succeeded and returned; with live captures it saw it running; a failed one names an observation, the time, the workload or the missing proof |
| `Workflow.ProveOverlap` | src/fault/admin_runner.rs:261-264 | the overlap proof is asked for exactly when the suite deadline has not passed, and succeeds exactly when the fast path accepts and the deadline has not passed meanwhile |
| `Workflow.RunVerify` | src/fault/admin_runner.rs:271-275 | verify is called exactly when the suite deadline has not passed, and reports its own outcome unless the deadline passes meanwhile |
| `Workflow.RunStart` | src/fault/admin_runner.rs:211-244 | start is called only after a successful prepare, and the operation deadline is charged from the start request; a failure is of the limits, the suite deadline, the prepare hook or the start |
| `Workflow.RunCancel` | src/fault/admin_runner.rs:276-289 | an attempt not reported as such sent no control request, whether or not the recovery timer dropped it; an owner sends all that the answers call for, and the phase reports the last unless dropped |
| `Workflow.RunCleanup` | src/fault/admin_runner.rs:290-304 | cleanup is always called and reports its own outcome unless the recovery timer dropped it |
| `Workflow.Joined` | src/fault/admin_runner.rs:284-304 | the first failure leads and every later one is attached |
| `Workflow.ExecuteAdminWorkflow` | src/fault/admin_runner.rs:192-311 | every run has one of the four phase sequences; its evidence is valid exactly when named and the clock does not step back between phases; completed means no error; all failures survive in the error; hooks are called in order; ownership advanced throughout; control requests are justified, and there are none if cancellation was not attempted; an owner whose run failed cancels with all that the answers call for; a live run completes only if it saw the operation running; a completed run leaves a transcript fit for the handover |
| `AckTrigger.DurationMs` | src/fault/acknowledged_mutation.rs:663-679 | accepts exactly the positive whole-millisecond durations within u64 |
| `AckTrigger.OnlyEligibleRecordsAcknowledge` | src/fault/acknowledged_mutation.rs:448-504 | a record acknowledges exactly when it is a definite, ordered, keyed, versioned commit of the operation its kind sends, and each refusal occurs exactly for its reason |
| `AckTrigger.QuietClient.Execute` | src/fault/acknowledged_mutation.rs:297-338 | a staged upload is aborted exactly when it did not commit |
| `AckTrigger.ExecuteAndActivateFault` | src/fault/acknowledged_mutation.rs:366-435 | the fault is activated exactly when an eligible record finished in time, once, and never after an abort; evidence bounds the fault by the ACK with the exact difference; every error occurs exactly under its condition |
| `AckTrigger.ConfiguringPins` | src/fault/acknowledged_mutation.rs:71-91 | succeeds exactly when every name was unambiguous and then pins each; only adds entries and touches no other name |
| `AckTrigger.ConfiguringIsIdempotent` | src/fault/acknowledged_mutation.rs:71-91 | a second configuration changes nothing, after success and after failure |
| `AckTrigger.ModesExclude` | src/fault/acknowledged_mutation.rs:71-91 | an environment pinned to one mode refuses the other |
| `AckTrigger.Configure` | src/fault/acknowledged_mutation.rs:71-91 | the loop computes exactly that configuration |

## Left out

- JSON, SHA-256 and URL handling: a body stands for what it decodes to; the loopback URL, port-forward command line, Namespace and Service bodies are one consistency flag of an endpoint.
- ASCII case folding of status words: a word is an enumeration value.
- Rounding of the f64 used ratio: a real number with the same tolerance.
- The HTTP adapter, request signing, port-forwarding and Kubernetes clients: their receipts are arbitrary replies.
- Preparing the fixture, the verify hook, recovery health, artifact and event writing: arbitrary outcomes of the hooks; whether each transcript write succeeds is arbitrary.
- The final checker report and its audit against the history: field comparisons over files that are not part of this model.
- Two driver types: both live drivers are one session class with a kind, since they hold the same state; their hooks keep their own branches.
- Sub-millisecond time: durations and deadlines are whole units, and overflow of the monotonic clock is not modelled.
- Dropped futures: a hook dropped by a timeout is one whose next reply is silent; a drop while waiting for an uncontended lock is not distinguished.
- The inside of the S3 workload: it does not touch the requests or the ownership of the session, so only its beginning, its return among the observations and its outcome are kept.
- `Overlap.WorkloadRecords`: a record that begins before and ends after the whole window is left out of the slice, as the source does; no stronger disjointness is claimed.
- Partial histories, the history phase boundary and the recorder itself (`src/fault/history.rs:245-252`, `363-526`): only the full validator is modelled.
- `require_calibration_image`, Pod calibration evidence, configuration, CLI binaries and the console: field-by-field checks with only easy properties.
