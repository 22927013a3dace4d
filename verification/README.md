# A verified model of the campaign engine and its protocols

This project models, in Dafny 4.11, the parts of `pic_agentic` whose correctness depends on many steps at once, and
proves what they promise:

* **The campaign engine** (`Agenda`, `Campaign`, `Planner`, `Engine*`, `Runs`, `LostJobs`, `JobCap`, `Retries`,
  `CampaignService`). A campaign is a tree of simulations, one record per leaf. A tick loads it, folds observations,
  satisfies leaves by reuse, plans under a budget, emits callbacks, saves, submits through the gates, saves after each
  submission and once more at the end. `Engine.Tick` is that tick as a function of what is durable and of what the
  environment does; `Env.life` is the number of saves and cluster calls performed before the process dies, so every crash
  point is one value of it. `EngineClass.AgendaEngine` is the imperative engine, proved to leave exactly what `Engine.Tick`
  says. `Runs` interleaves ticks (each with its own crash
  point, lost acknowledgements and observations) with everything an agent does (approve, add a leaf, pause, stop, resume,
  drain) and with the jobs the cluster starts for anyone else.
* **The rotating-token protocol** (`Tokens`): any number of processes, one cache file, one file lock, a chain of single-use
  refresh tokens.
* **The reuse registry and its in-memory index** (`Reuse`).
* **The wire codec and the signed envelope** (`Json`, `Wire`, `Envelope`).
* **The job follower** (`Follow`).
* **Self-contained algorithms**: the analysis evaluator (`Analysis`, `AnalysisEval`, `AnalysisMeaning`,
  `AnalysisExponents`), the dotted-path patch (`Patch`), the solver stability limits (`Cfl`), wire-budget shrinking
  (`Shrink`) and the sweep refiner (`Refine`).

Imperative code is modelled by methods and classes with loops, each proved against a specification function; what the
source promises is then proved about those functions.

## Assumptions

* The cluster replays a known command id and starts at most one job for an unknown one. A command id is an injective
  function of campaign name, leaf path and spec; a wire payload is compared as a value, where the source compares digests.
* Simulation ids name one leaf each when an observation is attributed by them; where two leaves carry one id, the last in
  flattening order receives it, as in the source's dictionary.
* Costs reported by the cluster and resource estimates are not negative where the ledger and the caps are concerned.
  `EngineBudget.CapKeptExactly` says when a batch is safe without that.
* The run ids in the reuse registry are command ids: not empty, and of one content key each.
* `repr` and `float` are mutually inverse on doubles, all NaNs being one value; digests are functions of the payload.

## What turned out otherwise

* Planning a batch in advance is not safe for negative estimates: under a cap of 10 hours, requests for 10, -5 and 5 are all
  admitted, and accepting only the first and the last breaks the cap (`EngineBudget.NegativeEstimateBreaksCap`), of core
  hours and likewise of GPU hours. `EngineBudget.CapKeptExactly` gives the exact condition on the planned batch, for either.
* A token handed out after a refresh is not checked against the skew, against the documentation of `access_token`:
  `Tokens.ShortGrantMissesSkew` is such a run. `RefreshLocked` and `AccessToken` state exactly when what they return is good
  for the skew: when no grant was needed, or the grant lasts longer.
* Losing a grant between the server and the cache loses the chain for ever, exactly when the server rotated the token; a
  process that cannot read the cache posts a consumed token exactly when its own copy is not what the cache holds
  (`Tokens.UnreadableCachePostsConsumed` is such a run).
* The encoding is not onto: wire values that are not canonical, such as one with an unescaped reserved key
  (`Wire.UnescapedKeyDoesNotReturn`), do not survive decoding and encoding, and two keys that decode to one are resolved by
  their order. Integers beyond 2^53 - 1 pass the encoder although a homeserver refuses them
  (`Wire.UnsafeIntegerPasses`); `Wire.DeliverableExactly` gives the condition.
* The loop that bounds a plugin summary does not end when a list of two different values is left and the summary is still
  too large: two different strings of 25000 characters are such a list, under every size that counts at least the
  characters (`Shrink.TwoStringsNeverEnd`). `Shrink.EndsExactly` gives the exact condition.
* A slice is documented to spread over the whole range of the data, but what exceeds 4096 points before the byte budget is
  looked at is cut off at the end: of 5000 values the last 904 are never returned (`Shrink.LongSliceIsCut`).
  `Shrink.SliceSpansExactly` says when a slice reaches the end.
* Lists that belong together are thinned one by one, and each keeps its last value only if that differs from the value
  picked last, so lists of one length may leave with two (`Shrink.PairedListsDrift`). `Shrink.PairedExactly` says when one
  thinning keeps their lengths equal, `Shrink.PairedRoundsExactly` when any number of rounds does.
* The refiner breaks ties by insertion order in one place and along the axis in another, so an edge optimum that is tied
  may be refined inside the tested range (`Refine.TieStaysInside`). `Refine.EdgeSuggestionsExactly` says exactly when it is
  not. Near zero every suggestion of an unconverged sweep may be dropped (`Refine.NearZeroSuggestsNothing`);
  `Refine.EdgeOptimumExtendsRange` says when.
* The evaluator documents exponents as constant scalars in [0, 12]. Validation bounds literal exponents only, drops their
  sign and cuts off their fraction, and the evaluator refuses sequences only: a valid program may raise to any number its
  data hold (`AnalysisExponents.ValidProgramRaisesToAnything`), and -12.5 passes as a literal
  (`AnalysisExponents.LiteralPasses`). `AnalysisExponents.ExponentsOkExactly` says exactly when a program's exponents stay
  within a standard whatever its data hold and its numeric kernels compute. That the condition suffices holds of the real
  kernels, as of any; that it is needed is shown with kernels that may answer anything. For given kernels a weaker condition
  suffices: an exponent without variables counts by its value (`AnalysisExponents.ConstantExponentsStayOk`, and
  `AnalysisExponents.SumPowerIsCurbed` for `a ** (2 + 3)`).
* A job whose acknowledgement was lost reserves nothing, so the cluster may run more than the caps allow: with one job
  allowed, a run of two ticks starts two (`JobCap.OrphanBreaksCap`). It does not when every job that starts is acknowledged
  and no process dies between a submission and its save (`JobCap.AnsweredRunsStayWithinCap`, a condition on the events
  alone). A tick leaves a job unknown exactly when its plan, its gates, the answers to come and its life let it send a
  submission whose job starts and whose acknowledgement does not come or is not saved (`LostJobs.TickLosesExactly`; for
  runs `JobCap.AlwaysToldExactly`), and a run stays within a number of jobs exactly when no tick sends more new commands
  whose jobs start than are left (`JobCap.ClusterWithinExactly`).
* Dependency names cannot hold a slash, so the last of the three resolution rules never finds anything new
  (`Agenda.LastRuleAddsNothing`); for a path-style name it would (`Agenda.LastRuleWouldMatter`).
* A leaf cannot be called `self`: it is refused although the name is legal (`Runs.SelfIsRefused`).

## Model

| member | source | states |
|---|---|---|
| Agenda.PathsDistinct | src/pic_agentic/agenda/model.py:504-518 | flattening gives every leaf its own path |
| Agenda.LeafAtInvertsFlattening | src/pic_agentic/agenda/engine.py:1128-1143 | path text reaches the leaf it was built from, and only text that spells a leaf's path reaches it |
| Agenda.AppendKeepsLeaves | src/pic_agentic/agenda/model.py:368-392 | adding an entry keeps every leaf's path and place and puts the new leaf last |
| Agenda.SubtreeIsItsLeaves | src/pic_agentic/agenda/planner.py:150-201 | a resolved dependency ranges over leaves of the tree, and the recursive done and failed tests are the for-all and exists tests over them |
| Agenda.LastRuleAddsNothing | src/pic_agentic/agenda/planner.py:177-201 | for names without a slash the three resolution rules come to siblings, then root entries |
| Agenda.SiblingByPath | src/pic_agentic/agenda/planner.py:191-194 | a sibling of a leaf is the entry of that name in the group at the leaf's path without its last name |
| Agenda.ResolvesByPath | src/pic_agentic/agenda/planner.py:177-201 | a dependency resolves to the entry at its path (the leaf's group and the name if there is such an entry, else the name from the root) and ranges over exactly the leaves whose paths extend that |
| Campaign.KeysDistinct | src/pic_agentic/agenda/engine.py:1351-1363 | two leaves of a campaign never share a command id |
| Campaign.CountsInFlight | src/pic_agentic/agenda/planner.py:266-270 | the running count is the number of leaves submitted or running |
| Campaign.WiresCollideExactly | src/pic_agentic/agenda/engine.py:1277-1310 | two specifications share a wire payload exactly when they share a `sim` part, or have none and are equal |
| Planner.ApplyStates | src/pic_agentic/agenda/planner.py:204-225 | the two loops give each leaf the status of the observation attributed to it, unknown states ignored |
| Planner.SortDependencies | src/pic_agentic/agenda/planner.py:287-328 | the dependency loop collects exactly the unmet and the failed dependencies, in order |
| Planner.NextActions | src/pic_agentic/agenda/planner.py:228-284 | each leaf's step is decided against the usage with every earlier planned submission reserved |
| Planner.PlanRespectsDependencies | src/pic_agentic/agenda/planner.py:303-327 | a planned leaf is planned for submission exactly when every leaf below each of its dependencies, told by path, is done and the budget admits it, and planned to fail exactly when some such leaf has failed |
| EngineSafety.StepTouches | src/pic_agentic/agenda/engine.py:445-497 | one round of the step loop rewrites its own leaf only, keeps its work, and only appends callbacks |
| EngineSafety.StepDisk | src/pic_agentic/agenda/engine.py:493-496 | the store holds the campaign as of some save, never a mixture |
| EngineSafety.ExecInvariant | src/pic_agentic/agenda/engine.py:445-497 | whatever one step of the loop keeps, the whole loop keeps |
| EngineSafety.CallSound | src/pic_agentic/agenda/engine.py:977-990 | a cluster call starts at most one job, owned by the leaf, and keeps every run identity right |
| EngineSafety.StepSound | src/pic_agentic/agenda/engine.py:536-594 | accepted, deferred, refused or guarded, a submission keeps run identities and the launch log sound |
| EngineSafety.TickKeepsWork | src/pic_agentic/agenda/engine.py:394-443 | no tick, from any stored campaign, changes which leaves there are or what they run |
| EngineSafety.TickKeepsSound | src/pic_agentic/agenda/engine.py:394-443 | crash anywhere, lose any acknowledgement: what the tick left durable is sound |
| EngineLedger.ReconcileBalances | src/pic_agentic/agenda/engine.py:912-954 | reconciling leaf by leaf keeps usage equal to the sum over leaves: once per leaf, and the clamp at zero never binds |
| EngineLedger.AnswerMovesBooks | src/pic_agentic/agenda/planner.py:330-365 | every answer to a submission moves usage by exactly what it changes in its leaf |
| EngineLedger.TickKeepsLedger | src/pic_agentic/agenda/engine.py:925-954 | whatever save a tick ended on, usage is the sum over leaves of actual or else estimated cost |
| EngineBudget.AdmissionMeansWithinCaps | src/pic_agentic/agenda/budget.py:61-112 | admission is exactly that the reservation stays within every cap, the GPU cap for GPU requests only |
| EngineBudget.PlannerThreads | src/pic_agentic/agenda/planner.py:259-284 | every planned submission was admitted against the threaded usage and advances it |
| EngineBudget.AcceptedSubmissionsWithinCaps | src/pic_agentic/agenda/engine.py:458-497 | at every point of every tick, however the planned batch was cut short, usage after an accepted job is within all caps, counts the leaves in flight, and no more jobs were accepted than the policy allows |
| EngineBudget.RunningWithinCap | src/pic_agentic/agenda/engine.py:458-497 | at every point of every tick, whatever the estimates, usage counts exactly the leaves submitted or running, and after an accepted job those leaves are no more than the concurrency cap |
| EngineBudget.TickKeepsJobCap | src/pic_agentic/agenda/budget.py:76-81 | no save of a tick counts more jobs than the cap on jobs, if none did before |
| EngineBudget.CapKeptExactly | src/pic_agentic/agenda/engine.py:458-497 | with estimates of any sign and open gates, the core-hour cap, and likewise the GPU-hour cap, survives every answer of the cluster if and only if each planned submission it is looked at for fits on top of the earlier ones that could add to usage |
| EngineBudget.FittingBatchKeepsCap | src/pic_agentic/agenda/engine.py:458-497 | whatever gates close and whatever becomes of each submission, such a batch keeps the cap after every accepted one |
| EngineBudget.SequentialAdmissionSuffices | src/pic_agentic/agenda/planner.py:259-284 | without negative estimates every batch the planner admits is such a batch |
| EngineBudget.NegativeEstimateIsPlanned | src/pic_agentic/agenda/budget.py:50-58 | a fresh campaign with a negative estimate, of core or of GPU hours, all of which is planned |
| EngineBudget.NegativeEstimateBreaksCap | src/pic_agentic/agenda/budget.py:50-58 | its first tick ends beyond its cap for the answers given |
| EngineDuplicates.TickKeepsPayloadsDistinct | src/pic_agentic/agenda/engine.py:1277-1333 | at every save, leaves that claim a simulation of their own have pairwise distinct wire payloads |
| EngineDuplicates.GuardNeverFires | src/pic_agentic/agenda/engine.py:1313-1333 | once the up-front scan has passed, the guard inside the loop cannot fire in that tick, retries included |
| EngineCallbacks.FirstEdgeTriggered | src/pic_agentic/agenda/engine.py:717-770 | the first save of a tick holds one new callback for each leaf the fold or reuse newly made terminal, and no other |
| EngineCallbacks.TickEdgeTriggered | src/pic_agentic/agenda/engine.py:401-429 | at whichever save a tick ended, each leaf has gained exactly one callback if it newly is done or failed, and none otherwise |
| EngineCallbacks.TickCallbacksTellLeaves | src/pic_agentic/agenda/engine.py:717-770 | every callback a tick added is about a stored leaf with that outcome and simulation, and its error and health warning are that leaf's |
| EngineObserved.FirstSaveStatus | src/pic_agentic/agenda/planner.py:204-225 | the status each kind of observation gives its leaf, what reuse gives a planned leaf that is not observed, and that any other leaf keeps its own |
| EngineObserved.FirstSaveBooks | src/pic_agentic/agenda/engine.py:847-880 | an ended leaf that ran takes its actual cost once, a newly failed leaf the observed reason, a done leaf the observed warning, and nothing else of a record changes |
| EngineObserved.FirstSaveCalls | src/pic_agentic/agenda/engine.py:717-770 | new callbacks come in leaf order, and each newly ended leaf has one carrying its observed failure or warning, if there is one, and nothing otherwise |
| EngineObserved.TickTellsObserved | src/pic_agentic/agenda/engine.py:394-443 | wherever a tick ends after its first save, each leaf so ended is stored as that save wrote it, beside that callback |
| EngineOutcomes.TickOutcomes | src/pic_agentic/agenda/engine.py:445-682 | wherever a tick ends after its first save, a leaf that save left planned is stored untouched, deferred, acknowledged with what it asks for reserved, or failed with a callback that gives the reason: the blocked dependencies, the refusal as it was given, or how long and how often an answer was awaited |
| EngineOutcomes.BlockedByFailed | src/pic_agentic/agenda/planner.py:303-327 | the dependencies a failed leaf names are its own with a failed leaf below, and all of those |
| EngineDeferral.DeferralIsBoundedByTime | src/pic_agentic/agenda/engine.py:596-682 | a leaf outlives any number of lost acknowledgements exactly while each falls inside the window opened by the first, and keeps count, first time and first simulation id |
| EngineDeferral.LostTickDefers | src/pic_agentic/agenda/engine.py:596-682 | a tick that loses a leaf's acknowledgement and saves that, wherever it crashes afterwards, stores the leaf's deferral and nothing else of it |
| EngineDeferral.HeldTickKeeps | src/pic_agentic/agenda/engine.py:445-525 | a tick that raises, or that neither observes nor reuses an unfinished leaf and waits for it, finds it failed, holds it back at a gate or dies before it can save, stores the leaf as it was |
| Retries.RetriesAreBoundedByTime | src/pic_agentic/agenda/engine.py:536-682 | over every run each tick of which loses a leaf's acknowledgement or leaves the leaf alone, pauses, other edits and crashes in between, it stays planned exactly while all losses fell inside the window opened by the first, under one command id and reserving nothing |
| EngineGating.TickLaunchesGated | src/pic_agentic/agenda/engine.py:460-466 | a tick launches a job for, or records as submitted, only a planned leaf of a running campaign that is approved or that neither it nor the policy asks to approve, and the leaves below whose dependencies, told by path, were already saved as done, retries included |
| EngineGating.MaySubmitExactly | src/pic_agentic/agenda/engine.py:970-973 | the approval gate opens exactly for leaves approved beforehand or in the store, and for leaves that nobody asks to approve: not the leaf, not the policy, not the core-hour threshold |
| EngineGating.HeldTickLaunchesNothing | src/pic_agentic/agenda/engine.py:499-525 | a tick of a paused or stopped campaign leaves cluster and lifecycle as they were |
| EngineGating.CompletedTickPropagates | src/pic_agentic/agenda/engine.py:811-845 | a planned leaf behind an undone one is not submitted, and fails if the other has failed, also while paused |
| EngineGating.FailedLeafStaysFailed | src/pic_agentic/agenda/planner.py:303-327 | without a new observation a failed leaf stays failed |
| EngineGating.FailureTravelsDownTheChain | src/pic_agentic/agenda/planner.py:150-201 | a chain of planned leaves behind a failed one fails one leaf per tick and none is ever launched, running or paused |
| EngineClass.ApplyReuse | src/pic_agentic/agenda/engine.py:882-910 | the reuse loop marks exactly the planned leaves with a registry hit |
| EngineClass.ReconcileActuals | src/pic_agentic/agenda/engine.py:912-954 | the reconciliation loop computes the specified leaves and usage |
| EngineClass.Plan | src/pic_agentic/agenda/engine.py:847-880 | fold, reuse, recount, reconcile, plan, in that order |
| EngineClass.RejectDuplicateSpecs | src/pic_agentic/agenda/engine.py:1277-1310 | the scan raises if and only if a leaf to be submitted shares its payload with a leaf that has a simulation id or is submitted before it |
| EngineClass.RejectDuplicateSpec | src/pic_agentic/agenda/engine.py:1313-1333 | the guard raises if and only if another leaf with a simulation id has the payload |
| EngineClass.EmitCallbacks | src/pic_agentic/agenda/engine.py:717-770 | the emission loop stamps reasons and health flags and appends the specified callbacks in leaf order |
| EngineClass.RecordDeferral | src/pic_agentic/agenda/engine.py:596-682 | a lost acknowledgement leaves the leaf planned inside the window and fails it once the window is exhausted |
| EngineClass.AgendaEngine.SubmitOne | src/pic_agentic/agenda/engine.py:536-594 | one submission and its save change store, cluster and counters as the specified step does |
| EngineClass.AgendaEngine.RunSteps | src/pic_agentic/agenda/engine.py:445-497 | the loop is the fold of its steps, cut off where the process dies |
| EngineClass.AgendaEngine.Tick | src/pic_agentic/agenda/engine.py:394-443 | what is durable after the imperative tick is the specified tick, and it raises exactly on a duplicate payload |
| Runs.WorkIsFixed | src/pic_agentic/server/agenda.py:1211-1262 | over any run no operation changes an existing leaf's path or spec |
| Runs.ExactlyOnce | src/pic_agentic/agenda/engine.py:977-1022 | over every interleaving of ticks, crashes, lost acknowledgements and agent edits, whatever else the cluster runs, it starts at most one job per leaf path, of the leaf's spec, and a leaf the campaign ran names exactly the job of its own command id |
| Runs.JobsBeyondTheLedger | src/pic_agentic/agenda/engine.py:977-1022 | after every run, whatever the signs of costs and estimates, the campaign has started as many jobs as its usage counts, plus one for each leaf whose acknowledgement never came |
| LostJobs.TickLosesExactly | src/pic_agentic/agenda/engine.py:445-594 | from a state in which every job is known, a tick, crashed or not, leaves one unknown if and only if some submission its plan, gates and life let it send starts a job and is not acknowledged or not saved |
| LostJobs.TickStartsExactly | src/pic_agentic/agenda/engine.py:445-594 | a tick starts exactly the jobs of the submissions so sent whose commands the cluster does not know, however they are answered |
| LostJobs.TickRecordsExactly | src/pic_agentic/agenda/engine.py:445-594 | a leaf is recorded as submitted if and only if it is planned for submission, approved or not asked to be, let through by lifecycle and caps while the process lives, and acknowledged |
| JobCap.JobsWithinCapAndOrphans | src/pic_agentic/agenda/budget.py:76-81 | over every run under a cap on jobs usage counts no more than the cap, and the cluster has started at most one more job for each leaf whose acknowledgement never came |
| JobCap.AlwaysToldExactly | src/pic_agentic/agenda/engine.py:445-594 | throughout a run from a fresh campaign every job is known if and only if no tick of it, judged before it begins, loses one |
| JobCap.AnsweredRunsStayWithinCap | src/pic_agentic/agenda/budget.py:76-81 | a run whose ticks have every job acknowledged and cannot die between a submission and its save starts no more jobs than the cap |
| JobCap.ClusterWithinExactly | src/pic_agentic/agenda/engine.py:445-594 | a run starts no more than so many jobs if and only if each tick, judged before it begins, starts no more than are left |
| JobCap.OrphanBreaksCap | src/pic_agentic/agenda/engine.py:596-682 | a run of two ticks that starts two jobs under a cap of one |
| Runs.LedgerConserved | src/pic_agentic/agenda/engine.py:991-1022 | after every run from a fresh campaign usage is the sum over leaves of the actual cost if known and otherwise of what acknowledged leaves ask for, jobs the number of acknowledged leaves |
| Runs.PayloadsStayDistinct | src/pic_agentic/agenda/engine.py:1277-1333 | after every run no two leaves with a simulation of their own share a payload |
| Runs.SelfIsRefused | src/pic_agentic/server/agenda.py:1249-1260 | a leaf called `self` is not added although the name is legal |
| Runs.AddLeafExactly | src/pic_agentic/server/agenda.py:1211-1262 | a leaf is added exactly if its name is free and allowed, its dependencies have allowed names, each once, and its spec and point are acceptable; it is then the last leaf, fresh, and nothing else changes |
| Runs.ApproveSetsExactly | src/pic_agentic/server/agenda.py:535-549 | approval sets the flag of the leaf whose path the text spells and changes nothing else |
| Runs.NothingLaunchedUntilResumed | src/pic_agentic/server/agenda.py:675-719 | after a pause or stop no run launches anything until it resumes, whatever is ticked, approved or added |
| Runs.CallbacksTellHistory | src/pic_agentic/server/agenda.py:786-809 | callbacks taken, then callbacks pending, are exactly the decision points of each leaf's history, none lost or repeated, however often they are drained |
| CampaignService.FindLeaf | src/pic_agentic/agenda/engine.py:1128-1143 | the cursor walk finds the leaf the path text addresses, or none |
| CampaignService.CampaignService.Approve | src/pic_agentic/server/agenda.py:535-549 | approval sets one flag on the addressed leaf, or reports that there is none |
| CampaignService.CampaignService.AddLeaf | src/pic_agentic/server/agenda.py:1211-1262 | a taken name is reported first, nothing is saved on any error, a point that is not finite among them, and otherwise one fresh leaf is appended |
| CampaignService.CampaignService.SetState | src/pic_agentic/server/agenda.py:675-698 | the lifecycle alone changes |
| CampaignService.CampaignService.TakeCallbacks | src/pic_agentic/server/agenda.py:786-809 | the pending callbacks are returned and durably cleared |
| Tokens.StepKeepsChain | src/pic_agentic/auth/mas.py:207-237 | no step but the loss of a grant breaks the chain: one process in the critical section, the cache live unless a grant is being written |
| Tokens.PostIsLiveExactly | src/pic_agentic/auth/mas.py:224-231 | a post is of a consumed token exactly when an existing cache could not be read and the process's own copy is not what it holds |
| Tokens.UnreadableCachePostsConsumed | src/pic_agentic/auth/mas.py:224-231 | a run from the common start in which that happens |
| Tokens.ShortGrantMissesSkew | src/pic_agentic/auth/mas.py:192-205 | a run from the common start after which a process holds a pair that is not good for the skew |
| Tokens.NeverPostsConsumed | src/pic_agentic/auth/mas.py:192-237 | for any number of processes and any interleaving without a lost grant, no process that can read the cache posts a consumed token, and the cache is live whenever the lock is free |
| Tokens.RaceRefreshesOnce | src/pic_agentic/auth/mas.py:192-237 | processes racing on one expired pair refresh once if new tokens outlive the skew, and never while the cached pair is good |
| Tokens.LostGrantExactly | src/pic_agentic/auth/mas.py:232-237 | a grant lost before the cache write loses the chain exactly when the server rotated |
| Tokens.LostChainStaysLost | src/pic_agentic/auth/mas.py:207-237 | after that the server never grants again, whatever the processes do |
| Tokens.MasTokenStore.RefreshLocked | src/pic_agentic/auth/mas.py:207-237 | the critical section is exactly its steps of the protocol, and what it returns is good for the skew if and only if no grant was needed or the grant outlives the skew |
| Tokens.MasTokenStore.AccessToken | src/pic_agentic/auth/mas.py:192-205 | a usable pair is handed out without the lock, otherwise the critical section runs; the token is good for the skew under the same condition |
| Reuse.RecordDirectLoop | src/pic_agentic/agenda/reuse.py:112-153 | the loop accumulates run ids without demoting a done record or repeating an id |
| Reuse.PromoteScan | src/pic_agentic/agenda/reuse.py:155-189 | the scan promotes the first pending record that awaits the run, and only it |
| Reuse.ReplayChangesNothingExactly | src/pic_agentic/agenda/reuse.py:155-189 | a replayed event changes nothing if and only if at most one pending record awaits the run |
| Reuse.LookupExactly | src/pic_agentic/agenda/reuse.py:88-98 | over any history lookup succeeds for exactly the keys some recorded run of which has completed |
| Reuse.LookupTells | src/pic_agentic/agenda/reuse.py:88-98 | what lookup finds names the simulation and run of the engine's last result for the key, else the simulation of its first direct submission and the run that completed first |
| Reuse.NeverDemoted | src/pic_agentic/agenda/reuse.py:112-153 | a done record stays done, and only a newer engine result alters it |
| Reuse.AnyAcceptedRunPromotes | src/pic_agentic/agenda/reuse.py:155-189 | any run accepted while its key is pending can promote it and becomes the run it names |
| Reuse.AgendaService.constructor | src/pic_agentic/server/agenda.py:173-193 | hydration makes the index hold every run that could promote a pending record |
| Reuse.AgendaService.RememberDirect | src/pic_agentic/server/agenda.py:240-257 | a direct submission updates the registry as specified and the index keeps covering it |
| Reuse.AgendaService.PromoteReuse | src/pic_agentic/server/agenda.py:298-324 | with its early return it leaves the registry equal to a full scan on every event |
| Reuse.AgendaService.EngineRecord | src/pic_agentic/server/agenda.py:403-407 | the engine's own record overwrites and the index keeps covering the registry |
| Reuse.AgendaService.DeleteRegistry | src/pic_agentic/server/agenda.py:1154-1167 | deletion leaves the index covering |
| Wire.DecodeKeyInvertsEncodeKey | src/pic_agentic/rcp/envelope.py:69-90 | escaping is undone by unescaping and no escaped key spells the float tag |
| Wire.RoundTrip | src/pic_agentic/rcp/envelope.py:93-147 | decoding inverts encoding on every payload, also one whose keys start with the reserved prefix |
| Wire.EncodingIsInjective | src/pic_agentic/rcp/envelope.py:93-147 | distinct payloads have distinct wire forms |
| Wire.EncodingIsFloatFree | src/pic_agentic/rcp/envelope.py:108-123 | no float is left anywhere |
| Wire.EveryEntryIsCarried | src/pic_agentic/rcp/envelope.py:119-120 | no dictionary entry is lost |
| Wire.CanonicalExactly | src/pic_agentic/rcp/envelope.py:126-147 | a wire value survives decoding and encoding exactly when it is the encoding of something |
| Wire.MalformedExactly | src/pic_agentic/rcp/envelope.py:126-147 | a wire value is malformed exactly when a float tag somewhere in it has a text that is no float |
| Wire.UnescapedKeyDoesNotReturn | src/pic_agentic/rcp/envelope.py:69-90 | a wire value with a reserved key that is not escaped comes back with the key escaped |
| Wire.UnsafeIntegerPasses | src/pic_agentic/rcp/envelope.py:14-39 | the integer 2^53 is encoded as it is and not deliverable |
| Wire.DeliverableExactly | src/pic_agentic/rcp/envelope.py:14-39 | an encoded message is Canonical JSON exactly when its integers are within plus or minus 2^53 - 1 |
| Envelope.ReceivedVerifies | src/pic_agentic/rcp/envelope.py:321-336 | for every message, secret and digest, what is received is what was signed, and it verifies |
| Envelope.SignedIsWhatTravels | src/pic_agentic/rcp/envelope.py:212-236 | the signed bytes are the travelling envelope without its signature |
| Envelope.VerifiesExactlyTheSigned | src/pic_agentic/rcp/envelope.py:248-257 | with a collision-free digest a signature verifies for exactly the messages equal in every signed field |
| Envelope.RcpMessage.Sign | src/pic_agentic/rcp/envelope.py:238-245 | signing in place changes the signature alone, and the message then travels and verifies |
| Envelope.RcpMessage.Verify | src/pic_agentic/rcp/envelope.py:248-257 | the answer is whether the signature is that of the signed fields |
| Follow.SplitLinesConcat | src/pic_agentic/simclient/follow.py:267-293 | reading in whole-line pieces splits the lines as reading at once does |
| Follow.SplitsAtBreak | src/pic_agentic/simclient/follow.py:267-293 | the text before any of Python's line boundaries is a line and what follows is split on its own, a carriage return and newline being one boundary |
| Follow.TailIsScheduleFree | src/pic_agentic/simclient/follow.py:267-316 | over any schedule of reads of a growing file the text consumed is the prefix up to the last newline seen, each line once |
| Follow.FewProgressEvents | src/pic_agentic/simclient/follow.py:318-342 | at most three events report less than completion |
| Follow.CrossesExactly | src/pic_agentic/simclient/follow.py:318-342 | a report is told when it reaches the next quarter or completion |
| Follow.TraceOfAnyRun | src/pic_agentic/simclient/follow.py:176-220 | progress events depend only on the text, there is one running event if the job was seen running, a pending reason is told when it changes, and the trace ends in the terminal group of the first terminal state seen |
| Follow.TerminalGroupExactly | src/pic_agentic/simclient/follow.py:402-460 | results are announced exactly for a clean completion that could be linked, a cancelled job says so, any other end is a failure |
| Follow.NothingAfterEnd | src/pic_agentic/simclient/follow.py:402-460 | nothing follows the terminal group |
| Follow.IntervalBounded | src/pic_agentic/simclient/follow.py:176-220 | the backing-off poll interval stays between its first value and its cap |
| Follow.JobFollower.ReadNewLines | src/pic_agentic/simclient/follow.py:267-293 | only whole lines are consumed, a missing file yields none, a shrunk one is read from the start |
| Follow.JobFollower.TailProgress | src/pic_agentic/simclient/follow.py:318-342 | the loop emits the specified events and leaves the specified bucket |
| Follow.JobFollower.EmitTerminal | src/pic_agentic/simclient/follow.py:402-460 | the terminal group follows state, exit code and the results link |
| Follow.JobFollower.Follow | src/pic_agentic/simclient/follow.py:176-220 | the loop is the fold of its rounds and stops at the terminal group |
| Analysis.IterVarRefs | src/pic_agentic/analysis_program.py:377-391 | the work stack meets every variable node, right operand first |
| Analysis.SelectorRefs | src/pic_agentic/analysis_eval.py:164-189 | the work stack keeps the first reference of each name |
| Analysis.VisitsAreOccurrences | src/pic_agentic/analysis_program.py:377-391 | what the stacks meet is exactly what occurs in the expression |
| Analysis.SelectorCap | src/pic_agentic/analysis_program.py:227-253 | accepted exactly with at most eight selectors and no repeated name |
| Analysis.ContradictsExactly | src/pic_agentic/analysis_program.py:315-334 | a reference contradicts its declaration exactly when both give some attribute, differently |
| Analysis.RejectAttributeConflicts | src/pic_agentic/analysis_program.py:295-355 | accepted exactly when no reference contradicts its declaration and references of one name agree over the whole program |
| Analysis.Measure | src/pic_agentic/analysis_program.py:394-433 | one recursion counts nodes, depth and the largest literal exponent |
| Analysis.Validate | src/pic_agentic/analysis_program.py:255-280 | the early exits accept exactly the programs within every limit |
| AnalysisEval.Typecheck | src/pic_agentic/analysis_eval.py:106-139 | each name is resolved once, in first-seen order, up to the first failure |
| AnalysisEval.CachedIsDirect | src/pic_agentic/analysis_eval.py:106-217 | when references of a name ask for one selector, cached and direct resolution give the same value, fail together, and no variable lacks data |
| AnalysisEval.CombineIsElementwise | src/pic_agentic/analysis_eval.py:262-283 | broadcasting succeeds exactly when shapes agree and every element's operation is defined, and is then that operation elementwise |
| AnalysisEval.DisagreementMisleads | src/pic_agentic/analysis_program.py:336-355 | otherwise some resolver fills the cache although direct resolution fails |
| AnalysisEval.Evaluate | src/pic_agentic/analysis_eval.py:47-78 | result, parallel expression and size cap, in that order |
| AnalysisEval.EvaluatorRefinesDirect | src/pic_agentic/analysis_eval.py:47-78 | every validated program evaluates as if each variable node were resolved on its own |
| AnalysisMeaning.AsksExactly | src/pic_agentic/analysis_eval.py:142-161 | each attribute a node gives wins, a missing one is the declaration's, and without a declaration the node stands alone |
| AnalysisMeaning.MeansExactly | src/pic_agentic/analysis_eval.py:192-356 | an expression has a value exactly when its operands have values whose elements, left before right, give that value elementwise or by the reduction with its own quantile or bins |
| AnalysisMeaning.AnswersExactly | src/pic_agentic/analysis_eval.py:47-78 | the payload of a validated program is exactly that value, no longer than the cap, beside that of its parallel expression |
| AnalysisExponents.ExponentsOkExactly | src/pic_agentic/analysis_eval.py:220-249 | for any standard some number fails, every exponent a program raises to meets it, whatever the data and whatever kernels answer (the real ones among them), if and only if each Pow node evaluation can reach has a literal right operand that meets it or one that is always a sequence |
| AnalysisExponents.ConstantExponentsStayOk | src/pic_agentic/analysis_eval.py:220-249 | for given kernels and any data it suffices that each exponent evaluation can reach holds no variable and evaluates to a number that meets the standard |
| AnalysisExponents.CurbedIsCurbedBy | src/pic_agentic/analysis_eval.py:220-249 | the condition with literals only is a case of it, under all kernels |
| AnalysisExponents.SumPowerIsCurbed | src/pic_agentic/analysis_eval.py:220-249 | a sum of two literals as exponent always comes to its value, though it is no literal |
| AnalysisExponents.ValidExponentsBoundedExactly | src/pic_agentic/analysis_program.py:421-433 | a valid program's exponents stay below 13 in size if and only if each reachable one is a literal |
| AnalysisExponents.PromisedExponentsExactly | src/pic_agentic/analysis_eval.py:220-232 | they stay in the documented [0, 12] if and only if each reachable one is a literal in [0, 12] |
| AnalysisExponents.ValidProgramRaisesToAnything | src/pic_agentic/analysis_program.py:421-433 | a valid program that raises to whatever number its selector holds |
| AnalysisExponents.LiteralPasses | src/pic_agentic/analysis_program.py:421-433 | a literal exponent is valid exactly when its size is below 13, so -12.5 and 12.5 are |
| Patch.LeafTargetExists | src/pic_agentic/server/agenda.py:1445-1480 | the cursor walk succeeds exactly when the path addresses a location, negative indices included |
| Patch.IndicesCountFromTheEnd | src/pic_agentic/server/agenda.py:1445-1480 | "k" addresses element k of a list and "-k" the element k from its end, nothing beyond either end |
| Patch.PatchIsALens | src/pic_agentic/server/agenda.py:1355-1442 | on an existing target the patch never raises, reads back, undoes, overrides, changes no other location and no key set |
| Patch.PatchSucceedsExactly | src/pic_agentic/server/agenda.py:1394-1407 | without the check it succeeds in one more case exactly, a new last key |
| Patch.DuplicateLeaf | src/pic_agentic/server/agenda.py:1483-1511 | the first colliding leaf and the earlier one it collides with, if there are any |
| Patch.PatchedCollideExactly | src/pic_agentic/server/agenda.py:1483-1511 | patched below `sim` two leaves collide exactly when their values are equal, elsewhere always |
| Cfl.AoWeightSum | src/pic_agentic/simulation_build.py:557-573 | the list filled by index sums to the alternating weight sum |
| Cfl.WeightsAlternate | src/pic_agentic/simulation_build.py:566-573 | the weights of every stencil alternate in sign |
| Cfl.WeightSumAtLeastOne | src/pic_agentic/simulation_build.py:551-554 | the weight sum is at least one, one exactly for one neighbor, so the non-positive branch is dead |
| Cfl.WeightSumGrows | src/pic_agentic/simulation_build.py:557-573 | more neighbors give a strictly larger weight sum |
| Cfl.WeightClosedForm | src/pic_agentic/simulation_build.py:567-573 | the recurrence yields the closed form of the finite-difference weights |
| Cfl.KnownWeights | src/pic_agentic/simulation_build.py:557-573 | the weights of the first two stencils |
| Cfl.LimitsAreOrdered | src/pic_agentic/simulation_build.py:525-554 | arbitrary-order limit at most Yee limit at most CKC limit, on every grid |
| Cfl.CkcAcceptsExactly | src/pic_agentic/simulation_build.py:540-546 | the CKC solver takes a time step exactly when light crosses no cell in it, up to the tolerance |
| Cfl.YeeAcceptsExactly | src/pic_agentic/simulation_build.py:496-545 | the Yee solver takes it exactly when the Courant condition on the inverse squares holds, up to the tolerance |
| Cfl.AoAcceptsExactly | src/pic_agentic/simulation_build.py:547-554 | the arbitrary-order solver exactly when it holds of the step enlarged by the weight sum |
| Cfl.NoLimitAcceptsAll | src/pic_agentic/simulation_build.py:540-550 | any other solver, and a neighbor count that is missing, fractional or below one, sets no limit |
| Cfl.AcceptedForTighterAcceptedForLooser | src/pic_agentic/simulation_build.py:496-522 | a time step accepted for a tighter solver is accepted for a looser one |
| Cfl.SpatialCellSizes | src/pic_agentic/simulation_build.py:619-640 | the resolved axes in order, if and only if all are present and positive |
| Shrink.CapSlice | src/pic_agentic/results.py:3044-3072 | it ends with the first power-of-two stride that fits, or with an error when not even one point does |
| Shrink.SliceIsEven | src/pic_agentic/results.py:3062-3068 | the points returned are the first and then every so many, at one distance, none skipped before the last |
| Shrink.SliceSpansExactly | src/pic_agentic/results.py:3044-3072 | they reach to within one distance of the end of the data if and only if at most 4096 points were left before the byte budget was looked at |
| Shrink.LongSliceIsCut | src/pic_agentic/results.py:3065-3066 | whatever is returned of 5000 values is taken from the first 4096 and does not reach the end |
| Shrink.StrideKeepsEnds | src/pic_agentic/results.py:1409-1427 | a strided array is a subsequence with both ends and at most one point over the cap |
| Shrink.EndsExactly | src/pic_agentic/results.py:2647-2655 | the shrinking loop ends exactly when the summary cut to its lists' ends fits or has no two-value list |
| Shrink.CutShrinkableExactly | src/pic_agentic/results.py:2647-2655 | such a list is left exactly if some list of the summary has two different ends |
| Shrink.TwoStringsNeverEnd | src/pic_agentic/results.py:2647-2655 | a summary of two long strings on which the loop never ends, for any size that counts at least their characters |
| Shrink.PairedExactly | src/pic_agentic/results.py:1409-1427 | two lists of one length, thinned with one step, have one length after if and only if both or neither end with the value picked last |
| Shrink.HalvedIs | src/pic_agentic/results.py:2647-2655 | what any number of rounds leaves of a list is one stride of it, and its last value behind that under a condition on single places of the list |
| Shrink.PairedRoundsExactly | src/pic_agentic/results.py:2647-2655 | two lists of one length have one length after any number of rounds if and only if that condition holds of both or neither |
| Shrink.PairedListsDrift | src/pic_agentic/results.py:2647-2655 | two lists of four of which one leaves with three values and the other with two |
| Shrink.FlagExactly | src/pic_agentic/results.py:2645-2646 | a shortened summary says so and holds under every other key what it held |
| Shrink.BoundPlugin | src/pic_agentic/results.py:2633-2656 | what is returned fits and has its lists thinned between unchanged ends, in no more rounds than needed; it gives up exactly when the ends alone are too large and no list has two |
| Refine.SortedPermutes | src/pic_agentic/agenda/refine.py:194-219 | ordering keeps every sample |
| Refine.SortedIsStable | src/pic_agentic/agenda/refine.py:194-219 | samples at one position stay in their order |
| Refine.CompleteExactly | src/pic_agentic/agenda/refine.py:194-219 | the axis is used exactly when something is analysed and every analysed point has a position |
| Refine.Offsets | src/pic_agentic/agenda/refine.py:139-153 | the loop yields the alternating offsets, positive side first |
| Refine.SecondIsSecond | src/pic_agentic/agenda/refine.py:303-310 | the two scores compared for convergence are the greatest two |
| Refine.ConvergedExactly | src/pic_agentic/agenda/refine.py:275-311 | a sweep has converged exactly when its two greatest scores differ by at most the tolerance, relative to the greatest unless that is as good as zero, and its optimum is at no improving edge |
| Refine.EdgeExactly | src/pic_agentic/agenda/refine.py:222-255 | which end is an improving edge, ties included |
| Refine.EdgeStepExactly | src/pic_agentic/agenda/refine.py:258-272 | the step beyond an edge is the fraction of the tested range, of the upper end if that is as good as nothing |
| Refine.InteriorStepExactly | src/pic_agentic/agenda/refine.py:166-191 | the step around an interior optimum is the fraction of the nearest gap, of its own position without one |
| Refine.NearestExactly | src/pic_agentic/agenda/refine.py:183-186 | the nearest gap is that of some other sample and no larger than any |
| Refine.AroundExactly | src/pic_agentic/agenda/refine.py:104-125 | what is suggested is the best point moved by the offset it names, wherever that is positive |
| Refine.EdgeIsSeen | src/pic_agentic/agenda/refine.py:222-255 | a unique strict edge maximum is recognised on its side |
| Refine.EdgeOptimumExtendsRange | src/pic_agentic/agenda/refine.py:73-136 | then the sweep is never converged and every suggestion lies beyond the range, ever further out; there is one exactly when there is a step and some value outward is positive |
| Refine.InteriorStaysBetween | src/pic_agentic/agenda/refine.py:166-191 | around an interior optimum that no other position coincides with, every suggestion is new and closer to it than any other tested position, for every step fraction and number whose furthest offset is less than the whole distance |
| Refine.SummaryExtendsRange | src/pic_agentic/agenda/refine.py:314-345 | the same for the summary of a campaign |
| Refine.EdgeSuggestionsExactly | src/pic_agentic/agenda/refine.py:104-125 | with ties, what the refiner suggests at an improving edge lies beyond the range exactly when it suggests nothing for want of a step or starts less than a step from the edge |
| Refine.NearZeroSuggestsNothing | src/pic_agentic/agenda/refine.py:73-136 | an improving edge near zero whose sweep is not converged and for which nothing is suggested |
| Refine.TieStaysInside | src/pic_agentic/agenda/refine.py:57-70 | three positions for which it does not |

## Left out

* The tree holds names and the leaf records lie in one sequence in flattening order; object sharing and deep copies of the
  source's nested models are not represented.
* Which finished leaves a tick offers to the reuse registry; the registry's own operations are in `Reuse`.
* Created timestamps, recorded analyses, the conclusion, the tick's result lists and the compaction of failure messages.
* Malformed stored campaigns and malformed resource requests, which abort an operation before it changes anything.
* Runs.CallbacksTellHistory: callbacks count as taken once their removal is saved; a crash between that save and the answer
  to the agent loses them.
* Deleting a campaign and creating one with the same name: its command ids would be those of the deleted one.
* Cancelling jobs after a stop: only the durable first half of a stop is an event of a run.
* Approval predicates are a set of paths, clocks count whole seconds, and a timestamp that cannot be parsed is not modelled.
* A group's own dependencies, which reach the workflow export only.
* Sweep expansion and seeding of campaigns beyond the patch and the duplicate check.
* Tokens: transport and HTTP errors are one refused-or-lost outcome; the lock is an atomic step and the cache an atomic cell.
* Reuse: an unreadable registry file, which the source treats as empty.
* Wire: normalisation of Python values before encoding, and lax coercions of the message validator.
* Wire.Decode: the result for two keys that decode to one depends on their order in the source; the model reports it as ambiguous.
* Follow: decoding of bytes (text is read as characters), the derived remaining time, the results manifest and accounting fields.
* Analysis: the numeric kernels (reductions, quantiles, histograms, transforms) are parameters, any of which may yield any number, as are the finiteness and character checks of nodes.
* AnalysisExponents.ExponentsOkExactly: its "only if" half ranges over kernels that may answer anything; with the real ones
  the sine of a sum, say, is bounded whatever the data, which no condition on the form of a program tells.
* AnalysisExponents.ValidExponentsBoundedExactly: the same.
* AnalysisExponents.PromisedExponentsExactly: the same.
* Patch.PatchSpec: models the nested copy and the assignment into it as a new value; the walk that only reads is the imperative one.
* Patch: digits outside ASCII in list indices.
* Cfl: rounding of floats; the square root is given as the positive number whose square is the sum.
* Shrink: values that differ from themselves, and the escaped size, which is a parameter that never grows when values are dropped.
* Refine: the behaviour without coordinates, which has only score spacing to go by, and the text of suggestion labels.
* Matrix transport, subprocesses, SLURM, file-system calls, openPMD readers, image thumbnails, answer prose and the RO-Crate and CWL exports.
