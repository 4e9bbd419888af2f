# Verification of the RavenDB operator's control logic

This project models the parts of the RavenDB Kubernetes operator that decide something, and proves
what they guarantee over every run:

- **The rolling upgrade.** One reconcile performs one *tick*: it selects a node (in-flight first, then
  missing, then the first image mismatch), runs the pre-gates, marks the node's StatefulSet with an
  annotation, applies it, runs the post-gates and removes the mark. `Protocol.dfy` is this as a state
  machine whose steps are single API calls. Between any two of them the environment may crash the
  operator, delete a StatefulSet, remove a mark or have an admitted spec update; a write may fail with
  or without effect; reads may fail. Every sequence of moves is a run. `Rollout.dfy` is the tick as one
  function of what fails in it, with the sets it leaves and the log it writes, proved to be a run of the
  machine. `Upgrader.dfy` is the tick as the operator executes it, with loops, object names and annotation
  maps, proved to compute that function. `Outcomes.dfy` says how a tick ends, from what failed in it. `Limits.dfy` shows what each premise of the safety theorems is
  needed for.
- **The gates.** The wait loop with its doubling, capped back-off (`GateWait.dfy`), and the decision of
  the database gate (`DatabaseGate.dfy`).
- **Status.** Collected facts (`Collector.dfy`) become conditions, Ready and a phase (`Conditions.dfy`,
  `Health.dfy`, `Evaluator.dfy`), and condition changes become events (`Events.dfy`). `HealthLaws.dfy`
  holds what is proved of an evaluation, and `Observation.dfy` what a reconcile reports of the objects
  that the API server lists.
- **Admission.** Image references, version order, immutability and uniqueness (`Images.dfy`,
  `Admission.dfy`, with the string functions in `Text.dfy`). Composed with the machine, admission gives
  version monotonicity over whole runs (`Versions.dfy`).

`dafny verify dfyconfig.toml` checks everything.

## Reading the main results

A run is `Exec(f, w, ms)` for any list of moves `ms` from a state `w`. `f` says which of three reads may
fail; all other reads always may. What each of the three is needed for:

- The scan for a marked set must read truthfully for at most one set to be in flight; no other safety theorem
  needs it. From every quiet state with two outdated nodes, `SingleInFlight` holds of all runs if and only if it does
  (`SingleInFlightIff`).
- The scan for an outdated set must read truthfully for the rollout to follow spec order; no other safety
  theorem needs it (`FaultyImageScanBreaksOrder` breaks the order otherwise).
- The actor's read of the live set may fail: gate-before-change holds all the same, unless a third party
  removes the annotation between the mark and that read. It takes both, the failed read and the removal,
  to change the image of an unmarked set (`StripBeforeFailedReadThaws`).
- No read needs to be truthful for versions never to decrease.

Premises, all visible as preconditions: node tags are distinct (what `ValidateUniqueTags` enforces) and,
for the imperative tick, lower-case ASCII without surrounding space, because the upgrader looks sets up
under a lower-cased name while the builder does not lower-case it; specs have a non-empty image, at least
one node, and tags and URLs that are non-empty and free of `|`; existing sets have a container image; a
third party does not remove the annotation of a set between the actor's read of it and the apply that
follows (`ApplyUndisturbed`; `StripBeforeApplyThaws` shows what happens otherwise).

Two more are built into the machine, which has no move for them: nobody but the operator changes the image
of a set or adds the upgrade annotation, and nobody but the operator creates a node's set.

Where the code differs from the repository's README: that document says (README.md:322) that the upgrade
stops on failed gates and resumes from the same node. The code does so after a failed pre-gate
(`PreGateResume`), but a failed post-gate clears the mark and leaves the new image, so the next tick moves
on to another node (`PostGateFailureMovesOn`), whether the failed tick started the upgrade of its node or
resumed it. `NextAfterFailure` says exactly when a failed node is next, for every failed tick and every
store; `ResumesUnlessRolledAndCleared` spells this out for a node that the tick found missing, outdated or
in flight; and `InFlightIsNextInLine` says what its last condition comes to in the states of a run.

## Model

| member | source | states |
|---|---|---|
| InFlight.SingleInFlight | pkg/upgrade/upgrader.go:141-236 | In every state of every run from a state without marks, mid-tick and after crashes and failed cleanups included, at most one StatefulSet carries the upgrade annotation, provided the scan for marks reads truthfully; every other read may fail |
| InFlight.PlannedStep | pkg/upgrade/upgrader.go:102-119 | Every step keeps the running tick's plan listing exactly the spec's nodes, even when the spec is updated during the tick |
| InFlight.ControllerTouchesSelected | pkg/upgrade/upgrader.go:141-207 | No step of the operator changes a set other than the selected node's, and the selection holds to the end of the tick |
| InFlight.OneSetPerTick | pkg/upgrade/upgrader.go:138-207 | Any two changes the operator makes to the store within one tick are to the same StatefulSet |
| Limits.SingleInFlightIff | pkg/upgrade/upgrader.go:223-236 | From every state without marks and with two outdated nodes, at most one set is marked in all runs if and only if the scan for marks reads truthfully |
| Limits.FaultyMarkScanMarksTwo | pkg/upgrade/upgrader.go:223-236 | If that scan may skip an unreadable set, two ticks that do not get to remove their mark leave two sets marked |
| Limits.FaultyImageScanBreaksOrder | pkg/upgrade/upgrader.go:330-339 | If the scan for outdated sets may skip one, a tick rolls a later node while an earlier one is outdated, from every state without marks and with two outdated nodes |
| Limits.StripBeforeFailedReadThaws | pkg/actor/statefulset_actor.go:75-101 | If a third party removes the annotation after it was written and the actor then takes its failed read for an absent set, the image of an unmarked set changes, from every quiet state whose next node is outdated |
| Limits.StripBeforeApplyThaws | pkg/actor/statefulset_actor.go:75-109 | If a third party removes the annotation between the actor's read and its apply, the image of an unmarked set changes although every read is truthful |
| GateEvidence.GateBeforeChange | pkg/upgrade/upgrader.go:160-185 | Whenever a run changes an existing set's image, the set is marked at that moment, and the mark was written right after node-alive, connectivity and databases-excluding-that-node passed in this order for that node in one tick, with no removal of the mark since; any read may fail, the actor's included, as long as nobody removes the mark in the window before the apply |
| GateEvidence.EveryMarkEarned | pkg/upgrade/upgrader.go:163-176 | Every mark in every reachable state was earned by the three pre-gates of its own tick and not removed since, whatever reads fail |
| GateEvidence.FrozenAlways | pkg/actor/statefulset_actor.go:75-101 | In every run what a tick is about to write over a set is the set's own image, unless the set is marked; a tick whose actor read may fail comes to that read only with a mark or an up-to-date image |
| GateEvidence.ImageChange | pkg/actor/statefulset_actor.go:79-101 | So a step changes the image of an existing set only if the set is marked |
| GateEvidence.FindGates | pkg/upgrade/upgrader.go:238-249 | The log monitor's verdict "three gates passed" pins down three log positions in order with only environment entries between |
| PostGates.UpgradeReportedOnlyAfterGates | pkg/upgrade/upgrader.go:187-204 | In every run each reported success is preceded, in the same tick, by the apply of that node's set and then the three post-gates in order, excluding no node |
| Versions.StoredPlanSpecOrdered | pkg/webhook/validator/image_validator.go:47-56 | In every state of every run, with any reads failing and updates admitted during ticks, stored version <= tick's snapshot version <= spec version |
| Versions.VersionsNeverDecrease | pkg/webhook/validator/image_validator.go:82-100 | Between any two moments of a run at which a node's set exists its version does not decrease, even across deletion and re-creation |
| SpecOrder.SpecOrderRollout | pkg/upgrade/upgrader.go:314-342 | With the spec fixed, an existing set's image only changes to the spec's image, and then every earlier node in the spec is absent or already has it, through crashes, failures and deletions, even with several sets marked, provided the scan for outdated sets reads truthfully |
| SpecOrder.FinishedStaysFinished | pkg/upgrade/upgrader.go:163-206 | With the spec fixed and no deletions, no step of any run makes a finished node unfinished |
| Rollout.First | pkg/upgrade/upgrader.go:320-339 | A scan answers the first node in spec order that can be read and is wanted, and every node before it is unreadable or not wanted |
| Rollout.ChooseRun | pkg/upgrade/upgrader.go:314-342 | The machine's three scans, with any nodes unreadable, come to exactly the node that the selection function chooses, or end the tick |
| Rollout.TickIsARun | pkg/upgrade/upgrader.go:102-219 | Every tick, with any failures in it, is a run of the machine that ends idle with the same store and has logged the same entries |
| Convergence.ChosenIsUnfinished | pkg/upgrade/upgrader.go:314-342 | A chosen node is unfinished, whatever could not be read; and none is picked exactly when every node exists, unmarked, with the spec's image |
| Convergence.PickIsForemost | pkg/upgrade/upgrader.go:314-342 | A node is picked if and only if there is a reason to work on it and every other node has none, a worse one (in flight before missing before outdated), or the same one later in the spec |
| Convergence.TickKeepsFinished | pkg/upgrade/upgrader.go:163-206 | No tick, whatever fails in it, reads included, enlarges the set of unfinished nodes |
| Convergence.CleanTick | pkg/upgrade/upgrader.go:130-206 | An error-free tick finishes exactly one node, and changes nothing when all are finished |
| Convergence.Converges | pkg/upgrade/upgrader.go:130-206 | Of k unfinished nodes at most k - n are left after any sequence of ticks of which n are free of errors, whatever fails in the others; if none fails, exactly k - n |
| Convergence.FinishedIsStable | pkg/upgrade/upgrader.go:130-136 | When all nodes are finished, further error-free ticks leave every set as it is |
| Convergence.PreGateResume | pkg/upgrade/upgrader.go:164-168 | Over any number of ticks whose pre-gates fail, every tick works on the same node and no set changes |
| Convergence.NextAfterFailure | pkg/upgrade/upgrader.go:164-198 | After any failed tick from any store, the failed node is next if and only if the tick left something to do for it and no other node comes before it for that reason |
| Convergence.ResumesUnlessRolledAndCleared | pkg/upgrade/upgrader.go:164-198 | The same node is resumed if and only if: a missing one was not created; an outdated one was not both rolled and cleared; one in flight kept its mark, or lost it while still outdated and next in line |
| Convergence.InFlightIsNextInLine | pkg/upgrade/upgrader.go:314-342 | In every state between ticks of a run with a fixed spec, an outdated node in flight is next in line exactly when no node's set is missing |
| Convergence.PostGateFailureMovesOn | pkg/upgrade/upgrader.go:188-198 | After a failed post-gate with the mark cleared, in a tick that started or resumed the node, the failed node counts as finished and the next tick selects another unfinished node |
| Reports.TickReports | pkg/upgrade/upgrader.go:187-204 | A tick ends in success for a node exactly when it logs the report of that success |
| Reports.SuccessIsVerified | pkg/upgrade/upgrader.go:178-204 | In the log of a tick that reports success, the report follows the apply of that node's set and the passes of its three post-gates, in order and with nothing else in between |
| Reports.SuccessIsRolled | pkg/upgrade/upgrader.go:178-204 | What was applied then is the spec's image, and the set has it, unmarked unless the cleanup was lost |
| Upgrader.FreshSuccessIsVerified | pkg/upgrade/upgrader.go:187-218 | A success entry in the returned statuses that is not carried over is this tick's, and its log has the apply and the three post-gate passes before the report |
| Outcomes.WorkEnds | pkg/upgrade/upgrader.go:148-206 | The work on a node ends in one of seven ways, each exactly under its condition: load, pre-gates, mark, apply of set or service, or post-gates failed, or upgraded, or applied |
| Outcomes.TickFailsIff | pkg/upgrade/upgrader.go:102-206 | A tick gives up on its node if and only if reading the set failed, or the pre-gates or the mark of an upgrade that starts here, or the apply of the set or service, for a created node too, or the post-gates of an upgrade |
| Outcomes.NothingWritten | pkg/upgrade/upgrader.go:110-168 | A tick whose gates could not be built, with nothing to do, or failed before the mark, leaves every set as it was |
| Convergence.TicksLeaveOneMark | pkg/upgrade/upgrader.go:102-219 | After any sequence of ticks with any failures but unread marks at most one set is left marked |
| Examples.PostGateFailureMovesOnToB | pkg/upgrade/upgrader.go:189-198 | On a concrete two-node cluster a failed post-gate on the first node makes the next tick work on the second |
| Examples.ResumedPostGateFailureMovesOnToB | pkg/upgrade/upgrader.go:189-198 | So does a tick that resumes the first node when it is rolled and in flight |
| Upgrader.Operator.FindInFlightTag | pkg/upgrade/upgrader.go:223-236 | Answers the first node in spec order whose set can be read and carries the annotation |
| Upgrader.Operator.PickSelectedTag | pkg/upgrade/upgrader.go:314-342 | Answers the normalised tag of the node that the selection function chooses, passing over the sets that each scan cannot read, or the empty string |
| Upgrader.Operator.SetUpgradeAnnotation | pkg/upgrade/status_and_annotation.go:85-110 | Gives the one annotation of the one set the value, or removes it for an empty one, in effect or not as the write goes, leaves every other annotation, image and set alone, and treats a missing set as success |
| Upgrader.MergeAnnotations | pkg/actor/statefulset_actor.go:80-88 | In whatever order the live annotations are visited, the result is the live ones overridden by the built ones |
| Upgrader.Freeze | pkg/actor/statefulset_actor.go:79-101 | The set to apply keeps the live annotations, and keeps the live image unless the live set is marked |
| Upgrader.AppliedSet | pkg/actor/statefulset_actor.go:64-115 | After an apply the set has all its annotations, the builder's own one set, its other containers, and the new image if it was marked, absent or could not be read |
| Upgrader.Operator.RunGates | pkg/upgrade/upgrader.go:238-271 | The gates of a phase pass in order until one fails, and only three passes are a success |
| Upgrader.Operator.Act | pkg/actor/statefulset_actor.go:64-115 | Leaves the store as the protocol's apply does, whether or not its read fails; every annotation but the one the builder sets, the other containers and all other sets stay as they are |
| Upgrader.Operator.WorkOnNode | pkg/upgrade/upgrader.go:148-206 | Marks, applies, checks and cleans up one node with the store, log and outcome of the protocol's tick |
| Upgrader.Operator.VisitNodes | pkg/upgrade/upgrader.go:138-219 | The pass over all nodes works on the selected one only; on success there is one entry per node in spec order, on failure the prefix ending in the failed node's entry |
| Upgrader.Operator.Run | pkg/upgrade/upgrader.go:102-219 | A whole tick, whatever it cannot read or write, leaves the store, the log and the outcome of the protocol's tick; it fails exactly when something it needs fails, and then its list ends in the node's Failed entry; otherwise it lists every node; every entry but the selected node's is the last previous status of that node or the default |
| Upgrader.PrevMapKeepsLast | pkg/upgrade/upgrader.go:285-291 | Of several previous statuses for one tag the last is kept, filed under the tag's normal form |
| Upgrader.CarriedEntry | pkg/upgrade/upgrader.go:307-312 | The carried-over entry is the last previous status listed for the tag, or the default Created entry if none is |
| Upgrader.ReportedIsReturned | pkg/upgrade/upgrader.go:138-218 | What the list holds, entry by entry: the failed, fresh or carried-over status in full |
| Upgrader.Reorder | pkg/upgrade/upgrader.go:209-218 | The final reordering by normalised tag is the identity |
| Upgrader.NamesOfNormalTags | pkg/upgrade/status_and_annotation.go:80-82 | For lower-case trimmed tags the looked-up name is the built name, ravendb- and the tag, names are injective, and case-insensitive selection is exact |
| GateWait.ReadTiming | pkg/upgrade/status_and_annotation.go:42-59 | Whatever the annotations hold, waits and intervals stay positive |
| GateWait.TimingFollowsAnnotations | pkg/upgrade/status_and_annotation.go:42-59 | Each of the four annotations sets exactly its own field when it holds a positive duration that is not blank, whatever the others hold, and leaves the default otherwise |
| GateWait.SleepsAsIntendedIff | pkg/upgrade/wait.go:133-138 | The k-th sleep is the interval for k = 0 and min(2^k * interval, 15s) after that, in 64-bit arithmetic, if and only if the interval is below 2^62 ns |
| GateWait.Wait | pkg/upgrade/wait.go:57-140 | For any interval, ends in the first round that is cancelled, not blocked, or past the deadline, with that round's verdict, after exactly the back-off's sleeps and one block event per earlier round |
| GateWait.WaitBounds | pkg/upgrade/wait.go:119-131 | Without cancellation or a hard error a wait never gives up before maxWait, and for an interval below 2^62 ns it makes at most ceil(maxWait / min(interval, 15s)) + 1 checks |
| GateWait.VerdictMeans | pkg/upgrade/wait.go:82-131 | The last round announces a pass exactly for an open gate and a timeout exactly when cancelled or past the deadline, and answers the hard error, the last information or the cancellation |
| GateWait.UpgradeWaitBounds | pkg/upgrade/wait.go:39-55 | Both bounds hold for every gate and phase with the timing read from any annotations over the defaults |
| GateWait.DefaultWaitBounds | pkg/upgrade/status_and_annotation.go:32-40 | With the default timing a failing gate is checked at most 61 (before) and 145 (after) times, the database gate 31 and 73 times |
| DatabaseGate.PluckTags | pkg/upgrade/gate_db_availability.go:128-144 | Lists each non-blank trimmed tag once |
| DatabaseGate.PluckedLists | pkg/upgrade/gate_db_availability.go:128-144 | The listed tags are distinct, and are exactly the non-blank tags of the entries |
| DatabaseGate.PluckedOrder | pkg/upgrade/gate_db_availability.go:128-144 | The tags are listed in the order in which they are first named |
| DatabaseGate.IsIgnoredTransient | pkg/upgrade/gate_db_availability.go:118-126 | True exactly when the lower-cased text contains one of the five snippets |
| DatabaseGate.HardErrorIff | pkg/upgrade/gate_db_availability.go:114-116 | An error is hard exactly when it names EndOfStreamException in any letter case |
| DatabaseGate.TransientIff | pkg/upgrade/gate_db_availability.go:118-126 | An error is passed over exactly when it holds one of the five phrases in any letter case |
| DatabaseGate.OkIff | pkg/upgrade/gate_db_availability.go:85-88 | A status is ok exactly when it is the word ok in any letter case with any space around it |
| DatabaseGate.UnknownStatus | pkg/upgrade/gate_db_availability.go:85-92 | A node without a status is neither ok nor has a hard error |
| DatabaseGate.CheckDatabase | pkg/upgrade/gate_db_availability.go:65-109 | One database is usable exactly when some considered node is ok and no considered node has a hard load error; any other answer is explained by the first considered node with a hard or a notable error, or by all of them |
| DatabaseGate.DatabasesOnline | pkg/upgrade/gate_db_availability.go:38-112 | The gate passes exactly when every enabled database with replication factor other than 1 is served by the nodes of its member, promotable and rehab lists that are not excluded; otherwise it names the first that is not |
| DatabaseGate.GateIgnoresOrder | pkg/upgrade/gate_db_availability.go:65-109 | Permuting the databases, or the entries of the member, promotable and rehab lists, does not change the verdict |
| DatabaseGate.ExcludingNothing | pkg/upgrade/gate_db_availability.go:80-83 | Excluding the empty tag excludes no node |
| DatabaseGate.ExcludedStatusIsIgnored | pkg/upgrade/gate_db_availability.go:80-83 | The verdict does not depend on the status of the excluded node |
| Conditions.GetSet | api/v1/status_helpers.go:75-97 | Setting one condition type updates that one, moving its transition time only on a status flip, and leaves every other type as it was |
| Conditions.SetSays | api/v1/status_helpers.go:75-97 | A set condition has the given status and message, the given reason or Completed for an empty one, and a transition time that moves exactly when it is new or flips |
| Conditions.SetSame | api/v1/status_helpers.go:75-97 | Setting a condition to what it already says changes nothing |
| Conditions.SetKeepsTypes | api/v1/status_helpers.go:75-97 | Types stay unique and no condition is moved or removed |
| HealthLaws.EvaluateResult | pkg/health/evaluator.go:47-75 | After an evaluation every type holds the verdict that spec and facts alone call for, with a transition time that moves only on a flip; phase and message depend on spec and facts alone |
| HealthLaws.EvaluateIsIdempotent | pkg/health/evaluator.go:47-75 | A second evaluation of the same facts at any later time leaves the whole status equal |
| HealthLaws.EvaluateForgetsHistory | pkg/health/evaluator.go:248-274 | Two evaluations of the same spec and facts agree on phase, message and verdicts whatever status each started from |
| HealthLaws.PhaseCharacterisation | api/v1/status_helpers.go:99-153 | Running exactly when storage, secrets, pods, bootstrap and configured access are fine; otherwise Error exactly when the bootstrap failed or a pod restarted at least five times; otherwise Deploying |
| Evaluator.BucketizePodsByState | pkg/health/evaluator.go:343-371 | Each pod lands in the bucket of its phase, and running pods only when not ready |
| Evaluator.GetMissingSecrets | pkg/health/evaluator.go:310-334 | Lists, in sorted order and each as often as expected, the expected names that no observed secret has |
| HealthLaws.StorageMet | pkg/health/evaluator.go:77-98 | Storage is ready exactly when there are volume claims and all are bound |
| Evaluator.BootstrapVerdict | pkg/health/evaluator.go:100-119 | A completed job outweighs failed ones, and a failed one a running one |
| HealthLaws.SecretsMet | pkg/health/evaluator.go:121-140 | Certificates and licence are ready exactly when every expected secret and a referenced licence secret are observed |
| HealthLaws.ExpectedSecretsAre | pkg/health/evaluator.go:276-308 | The expected names are the client certificate's, and those of the nodes in mode LetsEncrypt or of the cluster and its authority in mode None |
| HealthLaws.CertificatesIgnoreOrder | pkg/health/evaluator.go:318-334 | The certificate verdict, message included, does not depend on the order in which the spec names its secrets |
| Evaluator.LicenseVerdict | pkg/health/evaluator.go:176-194 | True exactly when no licence is referenced or its secret is observed |
| HealthLaws.PodsMet | pkg/health/evaluator.go:142-174 | Nodes are healthy exactly when there are pods and each has succeeded or is running and ready |
| Evaluator.ExternalAccessVerdict | pkg/health/evaluator.go:196-224 | Skipped when access is not configured; an observed ingress hides the services |
| Evaluator.ProgressingVerdict | pkg/health/evaluator.go:227-245 | True exactly when a set is updating or a job is active |
| HealthLaws.DegradedMeansBroken | pkg/health/evaluator.go:248-274 | Degraded exactly when the bootstrap failed with no job completed, or a pod restarted at least five times |
| HealthLaws.DegradedReasons | pkg/health/evaluator.go:248-274 | A bootstrap that failed with no job completed is the reason given before restarting pods |
| HealthLaws.ProgressingMet | pkg/health/evaluator.go:227-245 | Progressing exactly when a set is updating or a job is active |
| HealthLaws.ReasonsGiven | pkg/health/evaluator.go:77-245 | Storage, certificates, licence, bootstrap and progress each give their own reason |
| HealthLaws.PodReasons | pkg/health/evaluator.go:142-174 | Pods are waited for exactly when there are none or one is pending; otherwise not-ready ones are the reason |
| HealthLaws.AccessReasons | pkg/health/evaluator.go:196-224 | Without access the ingress is waited for exactly when there is one, and the load balancer otherwise |
| HealthLaws.NotBoundLists | pkg/health/evaluator.go:84-95 | The storage message names exactly the claims that are not bound, in order |
| HealthLaws.BucketLists | pkg/health/evaluator.go:343-371 | A bucket names exactly the pods in its phase, running ones only when not ready, in order |
| HealthLaws.OffendersList | pkg/health/evaluator.go:258-272 | The degraded message names exactly the pods with at least five restarts, in order |
| HealthLaws.ReadyExplains | api/v1/status_helpers.go:99-137 | A cluster that is not ready names the first condition not met, in the fixed order, with its reason and message |
| Evaluator.Cluster.GetCondition | api/v1/status_helpers.go:43-52 | Finds the first condition of a type |
| Evaluator.Cluster.SetCondition | api/v1/status_helpers.go:75-97 | Updates or appends one condition in place, leaving the rest of the status |
| Evaluator.Cluster.ComputeReady | api/v1/status_helpers.go:99-137 | Ready is false for the first required condition that is absent or not true, with its message, and true if there is none |
| Evaluator.Cluster.UpdatePhaseFromConditions | api/v1/status_helpers.go:139-153 | The phase follows Ready, then Degraded |
| Evaluator.Cluster.EvaluateHealth | pkg/health/evaluator.go:47-61 | The in-place evaluation ends in the status of the evaluation function |
| Events.EmitConditionTransitions | internal/controller/ravendbcluster_controller.go:200-226 | Emits one event, in list order, for each condition that is new or changed in status, reason or message |
| Events.TransitionsAnnounce | internal/controller/ravendbcluster_controller.go:200-226 | The events announce exactly the types whose verdict differs from before, with the new verdict |
| Events.TransitionsAre | internal/controller/ravendbcluster_controller.go:208-225 | There is exactly one event for each condition that is new or says something else, in list order, with its type and verdict |
| Events.EventLogAgrees | internal/controller/ravendbcluster_controller.go:183-195 | Over every run of reconciles, with any facts and any failing patches, the last event of each type tells the persisted verdict of that type, and a type without events has no condition |
| Events.QuietWhenUnchanged | internal/controller/ravendbcluster_controller.go:208-225 | An evaluation that changes no verdict emits nothing |
| Events.MissedEventsStayMissed | internal/controller/ravendbcluster_controller.go:186-195 | If the operator stops between patch and events, no later reconcile of the same facts emits them |
| Events.EvaluateKeepsTypes | pkg/health/evaluator.go:47-75 | Condition types stay unique and every condition keeps its place |
| Events.TransitionTimes | api/v1/status_helpers.go:75-97 | Over every run each transition time is the time of the reconcile that last flipped or created that condition, and its status has been the same ever since |
| Collector.IsOwnedByCluster | pkg/health/resource_collector.go:330-338 | An object is the cluster's exactly when an owner reference has kind RavenDBCluster and the cluster's identifier |
| Collector.TotalRestarts | pkg/health/resource_collector.go:359-366 | The restarts are the sum of the counts in 32 bits: the sum itself when it fits |
| Collector.CollectStatefulSets | pkg/health/resource_collector.go:100-139 | One fact, in order, for each set of the cluster and no other: updating exactly when both revisions are set and differ; and exactly their identifiers |
| Collector.CollectJobs | pkg/health/resource_collector.go:141-168 | One fact, in order, for each job of the cluster and no other: completed exactly when one succeeded, active and failed as counted |
| Collector.CollectServices | pkg/health/resource_collector.go:258-285 | One fact, in order, for each service of the cluster and no other, ready exactly when it has an address |
| Collector.CollectIngresses | pkg/health/resource_collector.go:287-309 | One fact, in order, for each ingress of the cluster and no other, ready exactly when it has an address |
| Collector.CollectPodsAndPVCRefs | pkg/health/resource_collector.go:170-207 | One fact, in order, for each pod of the cluster's sets and no other: its name, phase and restarts, ready exactly with a true Ready condition; and a claim name is collected exactly when a volume of such a pod names it |
| Collector.CollectPVCs | pkg/health/resource_collector.go:209-256 | One fact, in order, for each claim owned by one of the sets or their pods or named by such a pod, and no other, bound as its phase says |
| Collector.Collect | pkg/health/resource_collector.go:41-98 | Succeeds exactly when every list call does; the facts are, field by field, those of the cluster's own objects for every kind listed before the first failing call, and none for the others |
| Observation.FactsAreFine | pkg/health/resource_collector.go:41-98 | A complete collection meets all that Ready asks for exactly when the listed objects do |
| Observation.FactsAreBroken | pkg/health/resource_collector.go:41-98 | It counts as broken exactly when a listed job of the cluster failed with none completed, or a listed pod has five restarts |
| Observation.ActiveJobsAreProgress | pkg/health/evaluator.go:100-119 | While the cluster's jobs are active and none failed, a rollout is under way, and only a pod with five restarts makes the phase Error |
| Observation.CollectAndEvaluate | internal/controller/ravendbcluster_controller.go:179-184 | From the listed objects alone: the phase is Running, Error or Deploying, and Progressing true, each exactly when these objects call for it; if any list call fails, Ready is false and the phase is not Running, whatever the status said before |
| Images.ExtractTagRoundTrip | pkg/webhook/validator/image_validator.go:110-127 | Extracting from repo + ":" + tag gives the tag back |
| Images.ExtractedTagIsShaped | pkg/webhook/validator/image_validator.go:110-127 | Every extracted tag is non-empty, free of '/', ':' and '@', and named by the image |
| Images.ExtractTagIff | pkg/webhook/validator/image_validator.go:110-127 | A tag is extracted if and only if the image is repository:tag, with or without a digest behind an at sign, for a well-shaped tag |
| Images.ParsePrintedVersion | pkg/webhook/validator/image_validator.go:138-159 | A printed major.minor.patch is read back, whatever non-digit follows; numbers beyond int are read as the largest int |
| Images.ParsePrintedMinor | pkg/webhook/validator/image_validator.go:138-159 | A printed major.minor that no patch number follows is read with patch 0 |
| Images.ParsesIff | pkg/webhook/validator/image_validator.go:138-150 | A version is read if and only if the tag begins with digits, a dot and a digit |
| Images.LeadingZero | pkg/webhook/validator/image_validator.go:152-156 | Leading zeros do not change a number |
| Images.CompareIsPrecedence | pkg/webhook/validator/image_validator.go:161-183 | The comparison is the precedence of section 11 of Semantic Versioning 2.0.0 on major, minor and patch: the first differing field decides |
| Images.ImageUpdateAccepted | pkg/webhook/validator/image_validator.go:47-100 | An image update is accepted exactly when the new image is valid, both versions parse and the new one does not precede the old |
| Images.ValidImageIff | pkg/webhook/validator/image_validator.go:62-80 | An image is valid if and only if it is under ravendb/, holds no sha256 digest and names a tag with "ubuntu." and without "latest" in it |
| Images.DowngradeRefused | pkg/webhook/validator/image_validator.go:47-100 | Between images whose tags begin with printed versions, in two parts or three, a valid new image is accepted if and only if its version does not precede the old one |
| Admission.ValidateImmutableOnceCreated | pkg/webhook/validator/general_validator.go:251-271 | One error for each of mode, domain and the three joined lists that changed, and so none exactly when all are unchanged |
| Admission.ImmutablesKeptIsSameTopology | pkg/webhook/validator/general_validator.go:251-271 | On well-formed specs the joined comparison decides equality of the ordered tags and URLs |
| Admission.JoinedComparisonNeedsPlainElements | pkg/webhook/validator/general_validator.go:260-268 | With the separator bar inside an element, or an empty element, different lists compare equal |
| Admission.ValidateUniqueTags | pkg/webhook/validator/node_validator.go:103-115 | The errors are the repeated tags, and there is none exactly when the tags are distinct |
| Admission.RepeatsAre | pkg/webhook/validator/node_validator.go:103-115 | There is one error, in order, for each tag that stood before in the list |
| Admission.ValidateUniqueUrls | pkg/webhook/validator/node_validator.go:117-143 | No error exactly when public and TCP URLs taken together are distinct |
| Admission.ScanFindsRepeats | pkg/webhook/validator/node_validator.go:117-143 | Each error pairs two fields that hold one URL |
| Admission.Registry.SetupWebhook | api/v1/webhook.go:35-40 | The image, general and node validators are among those registered, and none registered before is lost |
| Admission.Registry.RunUpdate | pkg/webhook/validator/validator.go:51-59 | Admits exactly when every registered validator accepts, and otherwise names the refusing ones in order; with the webhook's validators registered, an admitted update meets the conditions of the image, general and node validators |
| Admission.RefusalsAre | pkg/webhook/validator/validator.go:51-59 | The errors name exactly the validators that refuse, in registration order |
| Admission.NoRefusalIsAdmitted | pkg/webhook/validator/validator.go:51-59 | Whatever else is registered, an admitted update passed the image, general and node validators |
| Admission.AdmittedUpdate | pkg/webhook/validator/validator.go:51-59 | An admitted update keeps the topology, never lowers the version and leaves distinct tags |
| Admission.AdmittedIff | pkg/webhook/validator/validator.go:51-59 | On well-formed specs an update passes the modelled validators if and only if it keeps the topology, repeats no tag or URL, and moves between versioned images to a valid one that does not precede the old |
| Admission.TopologyFixedForLife | pkg/webhook/validator/general_validator.go:251-271 | Along every chain of admitted updates the topology is the original one and versions only grow |
| Text.JoinInjective | pkg/webhook/validator/general_validator.go:260-268 | Lists of separator-free strings join alike exactly when they are equal, or one is empty and the other holds one empty string |

## Left out

- HTTP, TLS, certificates and JSON decoding: a gate check is an arbitrary answer, and the database gate starts from the decoded response.
- The Kubernetes client, caching, leader election and server-side-apply field ownership: there is one store of StatefulSets, whose writes may fail with or without effect, and an apply leaves what it does not mention.
- The cluster-level actors (ingress, bootstrap job, hooks) and the service object: only that applying the service may fail after the StatefulSet was applied.
- Resource builders: only the image, the name and the annotations that the built StatefulSet carries.
- Secret, storage, external-access, URL and port validators, and creation-time checks other than uniqueness: they can only refuse more updates than the modelled validators.
- Letter case beyond ASCII: case mapping and folding are exact for ASCII and for the non-ASCII letters that meet ASCII; other letters are their own case.
- Message texts and the severity of events: names in messages stand for namespace/name, and error texts of gates are parameters.
- Duration syntax: parsing an annotation into a duration is a parameter.
- Node statuses inside the reconcile's status patch: a patch that only changes them emits no event, and conditions do not depend on them.
- GateWait.Wait: assumes that a round takes at least a nanosecond, which matters only from an interval of 2^62 ns on, where the doubling overflows (SleepsAsIntendedIff) and sleeps may last no time at all.
