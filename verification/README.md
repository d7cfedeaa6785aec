# Verified model of the scan orchestrator's core

This project models the parts of the backend whose behaviour is hardest to see from one function body and
proves what they promise. Run `dafny verify dfyconfig.toml` to verify everything.

**Security graph** (`SecurityGraph`, `GraphTraversal`, `LocalGraph`, `PathQuery`, `AttackPaths`, `Inventory`,
`Correlation`, `GraphBuilder`, `GraphFacts`, `BuiltGraph`). The recursive queries are modelled as the
working-table iteration PostgreSQL documents for `WITH RECURSIVE` (section 7.8.2 of its manual): rows carry a
node, a hop count, the edge ids walked and the `type:id` strings visited. They are proved against plain
definitions of a ball, a simple path and a distance. The response builder walks each kept row back from edge
ids to nodes. The builder and the correlation rules are classes over the edge and relation tables;
`GraphFacts` writes out what each edge label says, and the last module joins the two halves: on any table the
builder produces over time, both queries are exact.

**Missions and chain runs** (`Conditions`, `StepMachine`, `StepInvariants`, `StepGates`, `Refinement`,
`PlanReading`, `SplitCalls`, `Sweeping`, `Orchestrators`). One call of advance is two transactions with a
crash possible before each commit, after the queue already received the next job or not. Events are advance,
approve, cancel, the end of a job, the loss of a queue entry, the passing of time and the reconciliation
sweep. `Orchestrators` holds the imperative form of each entry point, proved equal to the transition function;
the other modules prove what every run keeps, that every run refines a left-to-right interpreter of the plan,
and what sweeps achieve. `PlanReading` says how runs end with the cap, the gates and the outcomes written out.
`SplitCalls` takes one call apart into its two commits, with the lock released in between, and says exactly
which of these facts survive what.

**Findings** (`Signature`, `Titles`, `Lifecycle`, `Findings`, `FindingHistory`, `ConcurrentUpsert`). The
identity key and the normal form of titles, the upsert with its retry loop, the merge as a fold over
observations, the status history of rows under any mix of upserts and requests, and the concurrent protocol
(row locks, the partial unique index, savepoint and retry under READ COMMITTED, section 13.2.1 of the
PostgreSQL manual) with any number of sessions interleaved statement by statement.

**Derived data** (`Patches`, `DiffEngine`, `Risk`, `RiskInputs`, `RiskCache`, `Staleness`, `RateLimit`). Diffs
as patches that telescope; the risk score over exact reals; the cached risk columns and every synchronisation
that refreshes them, cut off after any commit; the fixed-window limiter.

`Options` and `Text` hold the optional value and string ordering, sorting, numerals and splitting.

## What the code does not do

These came out of the proofs. Each is stated with the exact condition, a concrete witness, or both.

- A self-loop on the seed, and only that, makes the path query list something that is not a simple path;
  self-loops elsewhere do no harm (`PathQuery.PathQueryListsSimplePaths`). The builder never stores one.
- Two sweeps do not always settle a run: they fail to exactly if, before the first, the run waits for a job
  that has lost its queue entry and is too young for the first sweep but not for the second. It then stays
  live with nothing in flight until a third sweep (`Sweeping.TwoSweepsSettle`,
  `Sweeping.TwoSweepsMayNotBeEnough`).
- A run cancelled while a call is between its two commits does not stay as it is: the call overwrites the
  status or queues a job on the cancelled run; if the resolved step was itself cancelled, it writes the end
  time once more, which shows unless the clock has not moved (`SplitCalls.CallKeepsPromisesIff`,
  `SplitCalls.CancelledRunGetsAJob`). A second call in that gap can give a step a second job, contrary to the
  comment on the row lock: it happens exactly if that call has queued the same step
  (`SplitCalls.SecondJobIff`, `SplitCalls.OverlappingCallQueuesTwice`).
- Identity keys of different findings can be equal when a CVE id holds a comma or a protocol holds a vertical
  bar. They are equal exactly if the parts split at the separator into the same pieces
  (`Signature.CveKeysEqualIff`, `Signature.GenericKeysEqualIff`, `Signature.SeparatorsInsidePartsCollide`).
- Whatweb diffs carry the HTTP status only when both sides have one, or neither
  (`DiffEngine.StatusIsCarriedIffKnown`).
- The CISA KEV synchronisation records its success before it recomputes, so a recorded success does not imply
  current scores if the process dies in between, unless the catalogue says nothing new about any finding; the
  EPSS one records it last (`Staleness.KevMarkMeansCurrentIff`, `Staleness.KevMarkIsNotEnough`,
  `Staleness.EpssMarkMeansCurrent`). A catalogue that repeats an id not stored yet violates the key and the
  whole synchronisation fails (`RiskCache.IntelligenceStore.ReplaceCatalogue`).
- A CVSS value reported by a tool leaves a current finding stale exactly if, for one of its CVEs without a
  CVSS, the first reported score exceeds everything known of the finding. The NVD synchronisation never
  revisits such a finding; the next EPSS or KEV synchronisation does (`Staleness.ToolReportKeepsCurrentIff`,
  `Staleness.CvssSyncSkipsSeeded`, `Staleness.EpssSyncCatchesUp`).
- The design note (docs/phase-15-risk-score.md) says that the top score needs high CVSS, EPSS, KEV, a critical
  asset and high confidence together. The code gives 100 exactly from an unrounded product of 0.995 on, which
  a CVSS of 10 alone reaches at high confidence (`Risk.TopScoreIff`, `Risk.CvssAloneReachesTheTop`). Adding a
  CVE can lower a score when it brings a signal that was unknown; `RiskInputs.AddingACveLowersIff` says
  exactly when, for the raw score and for the score (`RiskInputs.AddingACveCanLower`).
- An interval of the rate window's length admits at most `2 * max - 1` requests, and that many can get through
  (`RateLimit.IntervalAdmitsUnderTwiceTheLimit`, `RateLimit.BoundIsReachedIff`). Exactly if Redis fails
  between the increment that opens a window and its expiry, the counter has no end and the client is shut out
  for good once one allowance is used up (`RateLimit.ExpiryIsLostIff`, `RateLimit.LostExpiryNeverRecovers`).

## Assumptions

Outside `SplitCalls`, no other call on a mission or run (advance, cancel, approve, the sweep's nudge) falls
between the two commits of one advance; `SplitCalls` says what follows if one does. A `World` holds one run
and its own jobs. Rows of assets, jobs, findings and edges are not deleted. The end of a job is one atomic
event. Path queries stay below the row cap where a theorem says so. SHA-256 is injective. A session loads a
finding only through the locking select. The KEV and EPSS synchronisations run without concurrent writers.
Case mapping is ASCII, except in `Titles`, which takes any lower-casing that works word by word; whitespace in
titles is Unicode. Arithmetic on scores is exact. A dictionary may be walked in any order.

## Model

| member | source | states |
|---|---|---|
| `SecurityGraph.KeyInjective` | backend/app/graph/queries.py:65-76 | the `type:id` visited string tells two nodes apart because node types hold no colon |
| `SecurityGraph.BidirectionalTwins` | backend/app/graph/queries.py:56-62 | with unique edge ids, two arcs of one edge leave the same node only for a self-loop |
| `SecurityGraph.BallHasSimplePath` | backend/app/graph/queries.py:71-76 | every node of a ball is reached by a simple path no longer than its radius, so a guard against revisits costs no node |
| `SecurityGraph.WalkStaysInBall` | backend/app/graph/queries.py:69-76 | the node a walk reaches after i arcs lies within distance i of the seed |
| `GraphTraversal.RowsAreGuardedWalks` | backend/app/graph/queries.py:63-78 | the fixpoint's rows are exactly the walks from the seed, up to the depth, that never step onto a visited node, with hop, edge ids and visited list as recorded along the walk |
| `LocalGraph.TraversalReturnsTheBallsEdges` | backend/app/graph/queries.py:54-80 | a stored edge is returned iff one endpoint lies within depth - 1 of the seed (a self-loop: iff it sits on the seed) |
| `LocalGraph.ReturnedIdsAreStored` | backend/app/graph/queries.py:78-110 | every id the traversal returns belongs to such a stored edge |
| `LocalGraph.TraversalReturnsTheBall` | backend/app/graph/queries.py:105-126 | the nodes returned are exactly the ball of radius depth: the `visited` guard loses nothing |
| `LocalGraph.QueryIsTheBall` | backend/app/graph/queries.py:91-129 | `local_graph` whole: unknown node type, depth outside 1..3, otherwise the ball and its edges |
| `PathQuery.PathQueryListsSimplePaths` | backend/app/graph/queries.py:136-165 | every simple path of 1..depth edges from the seed occurs exactly once as an edge-id sequence and nothing else occurs, iff the seed has no self-loop |
| `PathQuery.LoopSpoilsListing` | backend/app/graph/queries.py:146-150 | a self-loop on the seed spoils that listing at every depth |
| `PathQuery.RecordedIsShort` | backend/app/graph/queries.py:154-160 | a row has no more hops than the graph has nodes: unvisited nodes are a termination measure |
| `PathQuery.GuardAloneTerminates` | backend/app/graph/queries.py:154-160 | raising the depth beyond the number of nodes changes nothing: the guard ends the recursion without the depth bound |
| `AttackPaths.RankedSorts` | backend/app/graph/queries.py:206 | ranking is a permutation sorted by hops |
| `AttackPaths.RankedStable` | backend/app/graph/queries.py:206 | rows of equal length keep their order |
| `AttackPaths.KeptAreShortest` | backend/app/graph/queries.py:206-208 | kept and dropped rows partition the matches, at most 20 are kept, and no dropped path is shorter than a kept one |
| `AttackPaths.RebuildPath` | backend/app/graph/queries.py:234-250 | stepping to the other endpoint reproduces the row's visited sequence, from the seed to the row's terminal node with hops + 1 entries, and every node on it was collected |
| `AttackPaths.RebuiltPathIsSimple` | backend/app/graph/queries.py:241-249 | a rebuilt path meets no node twice, unless the seed carries a self-loop |
| `AttackPaths.LoadEdges` | backend/app/graph/queries.py:214-217 | the lookup holds exactly the stored edges with a wanted id |
| `AttackPaths.BuildPathsResponse` | backend/app/graph/queries.py:194-263 | truncated iff more than 20 matches; one rebuilt path per kept row, in order; every node looked up was collected |
| `AttackPaths.FirstKeptIsShortest` | backend/app/graph/queries.py:298-318 | below the row cap the first path between two nodes has as many hops as their distance, and there is one iff the target lies in the ball |
| `AttackPaths.FindPathsBetween` | backend/app/graph/queries.py:298-318 | the errors, the empty answer for equal ends, every path rebuilt from its row; below the row cap the first is shortest and, unless truncated, every simple path to the target is listed |
| `AttackPaths.FindPathsToCriticalAssets` | backend/app/graph/queries.py:266-295 | the errors; one path rebuilt from each kept row, in order of hops, each ending at a critical asset other than the seed; truncated iff more than 20 match; below the row cap and unless truncated every such simple path is listed |
| `Correlation.CanonicalPairSymmetric` | backend/app/findings/correlation.py:39-42 | both orders of a pair give one relation, smaller id first |
| `Correlation.RelationTable.CreateIfNew` | backend/app/findings/correlation.py:33-58 | adds the canonical pair unless it is a pair with itself or known, and says whether it did |
| `Correlation.RelationTable.CorrelateOpenPortWithTool` | backend/app/findings/correlation.py:61-88 | adds only justified relations, and one for every pair on the same open port |
| `Correlation.RelationTable.CorrelateSharedTechnology` | backend/app/findings/correlation.py:91-118 | adds only justified relations, and one for every technology named in another finding |
| `Correlation.RelationTable.CorrelateAssetFindings` | backend/app/findings/correlation.py:121-140 | the relations afterwards are those before and exactly the justified ones; canonical order is kept |
| `Correlation.JustifiedMeans` | backend/app/findings/correlation.py:61-140 | a relation is justified iff it names two findings, smaller id first, that one of the three rules, written out, asks for |
| `GraphBuilder.AssetsRelatedSymmetric` | backend/app/graph/builder.py:176-186 | the edge between two assets is the same, with the same shared technologies, from either side |
| `GraphBuilder.AssetEdgeSaysOneThing` | backend/app/graph/builder.py:163-187 | over all rebuilds, the content of an edge between two assets is settled by its key |
| `GraphBuilder.EdgeStore.Upsert` | backend/app/graph/builder.py:34-61 | the edge exists afterwards with the given source and payload; an existing row keeps its id; other rows stay |
| `GraphBuilder.EdgeStore.AddFindings` | backend/app/graph/builder.py:78-121 | the edges of the asset's findings, their services and their CVEs, and no others, are written with their sources and payloads |
| `GraphBuilder.EdgeStore.AddTechnologies` | backend/app/graph/builder.py:126-136 | exactly the asset's technology edges are written |
| `GraphBuilder.EdgeStore.AddRelations` | backend/app/graph/builder.py:140-161 | exactly one edge per correlated pair is written, carrying its rule |
| `GraphBuilder.EdgeStore.AddSiblings` | backend/app/graph/builder.py:168-187 | exactly one edge per sibling sharing a technology is written, carrying the shared ones |
| `GraphBuilder.EdgeStore.BuildForAsset` | backend/app/graph/builder.py:70-187 | the edges afterwards are those before plus the declarative facts; each edge a fact is about says what one of them does; existing ids and all other rows are kept |
| `GraphBuilder.EdgeStore.Rebuild` | backend/app/graph/builder.py:70-187 | building many assets in turn adds the union of their facts |
| `GraphBuilder.EdgeStore.RebuildOverTime` | backend/app/jobs/tasks.py:209-221 | rebuilds after changes of the data add the union of the facts of all moments |
| `GraphBuilder.OrderDoesNotMatter` | backend/app/graph/builder.py:70-74 | rebuilding the same assets over one table in any two orders leaves two tables with the same edges, the same ids for edges that were there before, the same untouched rows and the same content on edges between assets |
| `GraphBuilder.DerivedFactsOriented` | backend/app/graph/builder.py:79-187 | every derived edge has colon-free types and one canonical direction for asset and finding pairs |
| `GraphFacts.DerivedFactsAre` | backend/app/graph/builder.py:70-187 | the facts of an asset are those of the six rules with node types, ids, sources and payloads written out, and no others |
| `GraphFacts.EachRelationIs` | backend/app/graph/builder.py:70-187 | each relation label belongs to one of those rules, RELATED_TO to two told apart by their node type |
| `GraphFacts.RebuiltEdgesAre` | backend/app/graph/builder.py:70-187 | after a rebuild an edge exists iff it did before or one of those rules says so |
| `GraphBuilder.BuiltEdgesAreOriented` | backend/app/graph/builder.py:70-187 | built from empty over any history of the data: no self-loop and no pair stored in both directions |
| `GraphBuilder.BuiltTableIsTraversable` | backend/app/graph/builder.py:70-187 | a table built from empty over any history of the data has unique ids, colon-free types and no self-loop |
| `BuiltGraph.BuiltGraphAnswersAreExact` | backend/app/graph/queries.py:54-165 | on every table the builder can produce, over data that changes between rebuilds, the path query lists each simple path once and the local graph is the ball |
| `Conditions.FindOpenPort` | backend/app/chains/conditions.py:29-37 | true iff some host has an open port among the wanted ones |
| `Conditions.FindSeverity` | backend/app/chains/conditions.py:44-52 | true iff some finding has a known severity at least the known threshold |
| `Conditions.Evaluate` | backend/app/chains/conditions.py:55-74 | the condition's meaning on the previous result; without one, only the condition that always holds |
| `Conditions.SeveritiesInOrder` | backend/app/chains/conditions.py:21 | info, low, medium, high, critical in this order whatever their case; no other text has a rank |
| `Conditions.ConditionsMean` | backend/app/chains/conditions.py:29-74 | each of the four conditions on the previous result, with the port's state and the empty cases written out |
| `StepInvariants.ReachableShape` | backend/app/chains/service.py:93-148 | in every reachable state: SUCCESS*, at most one other step, PENDING*; a job id iff neither pending nor skipped; step i has order i; one job per step; none for a draft; what COMPLETED implies |
| `StepInvariants.ReachableInv` | backend/app/chains/service.py:76-213 | the full invariant (shape, jobs and steps one to one, resolved steps match their jobs, times, status) over all runs |
| `StepInvariants.TerminalIsFrozen` | backend/app/ai/orchestrator.py:104-107 | a terminal run's status, steps and end time survive every event, calls taken as undivided (divided ones: SplitCalls) |
| `StepInvariants.PredecessorsSucceeded` | backend/app/ai/orchestrator.py:122-164 | where a job exists every earlier step succeeded, with a job that ended in SUCCESS |
| `StepInvariants.NewJobIsJustified` | backend/app/ai/orchestrator.py:182-235 | a job appears only in a call that found the target executable and the job preparable, on a run not finished, which is then RUNNING, calls taken as undivided (divided ones: SplitCalls) |
| `StepInvariants.JobsArePermanent` | backend/app/ai/orchestrator.py:203-235 | no event removes a job, gives it to another step or changes one that has ended |
| `StepGates.EveryStepIsExplained` | backend/app/chains/service.py:126-184 | in every reachable state each job's step passed its gate (chain condition on the result before it; mission tool and cap), each skip reason fits plan and run status, a failed run shows why |
| `StepInvariants.AdvanceLowersEffort` | backend/app/chains/service.py:76-213 | an advance changes nothing or strictly lowers 2 * pending + queued + live; a crash-free one also lowers the bound on remaining calls |
| `StepInvariants.AtMostOneCallPerStepAndOne` | backend/app/chains/service.py:76-213 | n steps take at most n + 1 effective crash-free calls over any run |
| `StepInvariants.EffectiveCallsBounded` | backend/app/ai/orchestrator.py:88-235 | over any run, effective calls plus what remains never exceeds what remained at the start |
| `Refinement.StepDenotes` | backend/app/chains/service.py:99-213 | one scripted event, crashes and sweeps included, does not change what the run will end as |
| `Refinement.RunsRefineTheInterpreter` | backend/app/chains/service.py:76-213 | any run that reaches a terminal status has the step statuses and run status of a left-to-right reading of the plan |
| `Refinement.ScriptsCanBePlayed` | backend/app/ai/orchestrator.py:88-235 | every script of outcomes has a run to a terminal status, which is the interpreter's |
| `PlanReading.RunsEndAsThePlanReads` | backend/app/ai/orchestrator.py:138-235 | with the rules written out: a terminal run has a number of succeeded steps, then either the plan or the cap is exhausted or one step stops the run, with that step's status, the rest pending and the run's status as listed |
| `PlanReading.GoodAnswersRunEveryAllowedStep` | backend/app/ai/orchestrator.py:154-166 | on good answers exactly min(steps, max_steps) steps of a mission succeed, every step of a chain run, and the run is COMPLETED unless that number is 0 |
| `PlanReading.MissionsExhaustTheCap` | backend/app/ai/orchestrator.py:138-166 | in every reachable state a COMPLETED mission has run all its steps or its cap, no step at or beyond the cap has a job, and a FAILED one without a failed or skipped step had nothing to run |
| `PlanReading.SkipSaysWhy` | backend/app/ai/orchestrator.py:168-210 | a skipped step names its reason: not executable iff its gate was open and the call was told so, not prepared iff executable and not prepared |
| `PlanReading.NewJobIsFresh` | backend/app/chains/service.py:186-213 | any job an event creates is queued, dated now, without a result, in the queue and linked to its queued step |
| `PlanReading.EndIsDated` | backend/app/chains/service.py:69-73 | a run is finished iff it carries an end time, and that is the clock at the event that finished it |
| `PlanReading.AnchorIs` | backend/app/ai/orchestrator.py:293-318 | a chain run is anchored at its creation for good; a mission's anchor changes only by an approval of a DRAFT, to the time of it |
| `SplitCalls.GapEffect` | backend/app/chains/service.py:112-148 | while a call is between its commits and no other call runs, steps and jobs stay as they are and the status changes iff the run is cancelled |
| `SplitCalls.UndisturbedCallIsAtomic` | backend/app/chains/service.py:112-213 | if run and jobs are as the call remembers them, its second transaction is what one undivided call would do |
| `SplitCalls.CallKeepsPromisesIff` | backend/app/chains/service.py:112-213 | with no other call in the gap, a finished run keeps status, steps and end time and a job appears only on a run not finished, iff no cancellation falls into the gap, or the resolved step was itself cancelled and the clock has not moved since the cancellation |
| `SplitCalls.ResumeOnCancelled` | backend/app/chains/service.py:69-73 | on a run cancelled in the gap the call overwrites the status, or queues a job while the run stays CANCELLED |
| `SplitCalls.CancelledRunGetsAJob` | backend/app/chains/service.py:186-213 | a two-step run, cancelled in the gap, gets a job for its second step |
| `SplitCalls.ResolvedIsReachable` | backend/app/chains/service.py:101-112 | the state that example starts from is reached by one call and the end of its job |
| `SplitCalls.SecondJobIff` | backend/app/ai/orchestrator.py:88-136 | whatever falls into the gap, a step gets a second job iff another call has queued it meanwhile |
| `SplitCalls.OverlappingCallQueuesTwice` | backend/app/ai/orchestrator.py:136-235 | and one complete call in the gap that meets the same answers has |
| `SplitCalls.MoveIsAtomic` | backend/app/chains/service.py:76-213 | each commit, each death of an open call and each whole event does what one atomic event does |
| `SplitCalls.SplitRunsAreAtomicRuns` | backend/app/chains/service.py:76-213 | every run of divided calls without overlap and without a cancellation in a gap is, move by move, a run of the atomic model, so all results about reachable states hold of it |
| `SplitCalls.SplitRunsRefineTheInterpreter` | backend/app/chains/service.py:76-213 | such a run that follows a script and reaches a terminal status ends as a left-to-right reading of the plan does |
| `Sweeping.SweepSparesRunningSteps` | backend/app/jobs/reconciliation.py:113-145 | a run whose queued step has an open job after the job pass is not touched by the sweep |
| `Sweeping.OneSweep` | backend/app/jobs/reconciliation.py:173-193 | a sweep leaves a run settled iff the job pass did or the run counted as stalled |
| `Sweeping.SecondWriteOff` | backend/app/jobs/reconciliation.py:72-110 | what the second sweep would write off was there, too young, before the first |
| `Sweeping.TwoSweepsSettle` | backend/app/jobs/reconciliation.py:148-193 | two sweeps further apart than the threshold settle a run iff it is not, before the first of them, waiting for a job without queue entry that only the second finds old enough |
| `Sweeping.WrittenOffRunNeedsAnotherSweep` | backend/app/jobs/reconciliation.py:72-110 | a run whose job is written off stays live through that sweep and ends FAILED at the next one beyond the threshold |
| `Sweeping.LostIsReachable` | backend/app/jobs/reconciliation.py:93-95 | the state that example starts from is reached by queueing a step and losing its queue entry |
| `Sweeping.TwoSweepsMayNotBeEnough` | backend/app/jobs/reconciliation.py:250-288 | at the default thresholds, two sweep times that leave that run live with nothing in flight |
| `Sweeping.LastProgressIs` | backend/app/jobs/reconciliation.py:113-145 | if some job has ended, the last progress is the end of one job and no job ended later; otherwise it is the anchor |
| `Sweeping.SweepAdvancesIff` | backend/app/jobs/reconciliation.py:173-193 | a sweep advances a run iff it is live, has no queued step with an open job, and every job end (with none, the anchor) lies before the threshold; otherwise it only writes off jobs |
| `Sweeping.JobPassWritesOff` | backend/app/jobs/reconciliation.py:72-110 | the job pass fails, dated now, exactly the open jobs created before the cut-off that have no queue entry |
| `Orchestrators.RunRecord.ForChain` | backend/app/chains/service.py:274-293 | a chain run starts RUNNING, anchored now, with pending steps numbered in order and no job |
| `Orchestrators.RunRecord.ForMission` | backend/app/ai/orchestrator.py:260-288 | a mission starts DRAFT without an anchor, with the first max_steps proposed steps, pending and numbered |
| `Orchestrators.RunRecord.ResolveQueuedStep` | backend/app/chains/service.py:101-112 | nothing while the job is open; else the queued step takes the job's outcome, in a transaction of its own |
| `Orchestrators.RunRecord.AdvanceChainRun` | backend/app/chains/service.py:76-213 | the imperative call equals the transition function on every state and for every crash point |
| `Orchestrators.RunRecord.SettleChainRun` | backend/app/chains/service.py:114-213 | the second transaction: stop, skip or queue, as the transition function says |
| `Orchestrators.RunRecord.AdvanceMission` | backend/app/ai/orchestrator.py:88-235 | the same for missions, with the missing-tool, cap and skip rules |
| `Orchestrators.RunRecord.SettleMission` | backend/app/ai/orchestrator.py:138-235 | the second transaction of a mission |
| `Orchestrators.RunRecord.ApproveMission` | backend/app/ai/orchestrator.py:293-318 | only a DRAFT is approved; its anchor is set and the first advance follows in its own transaction |
| `Orchestrators.RunRecord.CancelRun` | backend/app/ai/orchestrator.py:334-352 | a live run becomes CANCELLED, a terminal one is left alone, no job is touched |
| `Orchestrators.RunRecord.ReconcileStuckJobs` | backend/app/jobs/reconciliation.py:72-110 | exactly the old open jobs without a queue entry become FAILED, dated now, and are reported; all others stay |
| `Orchestrators.RunRecord.LastProgressAt` | backend/app/jobs/reconciliation.py:113-145 | in flight iff a queued step's job is open; else the latest end of a job, or the anchor |
| `Orchestrators.RunRecord.RunSweep` | backend/app/jobs/reconciliation.py:173-193 | the job pass, then one advance if the run has stalled |
| `Signature.CveKeysAgree` | backend/app/findings/signature.py:106-107 | CVE keys agree iff asset and CVE set (case aside) do |
| `Signature.GenericKeysAgree` | backend/app/findings/signature.py:108-109 | generic keys agree iff asset, title, port and protocol do, even when titles hold the separator |
| `Signature.TiersApart` | backend/app/findings/signature.py:106-109 | a CVE key never equals a generic key |
| `Signature.SignatureIsIdentity` | backend/app/findings/signature.py:92-111 | two keys are equal iff they describe the same finding |
| `Signature.CveKeysEqualIff` | backend/app/findings/signature.py:106-107 | for any CVE ids, two CVE keys are equal iff the assets are and the sorted ids split at commas into the same pieces |
| `Signature.GenericKeysEqualIff` | backend/app/findings/signature.py:108-111 | for any titles and protocols, two generic keys are equal iff the assets are and title, port and protocol split at bars into the same pieces |
| `Signature.SeparatorsInsidePartsCollide` | backend/app/findings/signature.py:106-111 | a comma inside a CVE id and a vertical bar inside a protocol each give a collision |
| `Lifecycle.FindingStatus.TransitionStatus` | backend/app/findings/lifecycle.py:53-81 | applies and records a valid transition; an invalid one changes nothing |
| `Lifecycle.FindingStatus.MaybeAutoReopen` | backend/app/findings/lifecycle.py:84-93 | reopens from REMEDIATED and FALSE_POSITIVE only |
| `Lifecycle.TransitionTable` | backend/app/findings/lifecycle.py:24-32 | the ten valid transitions, and no others, each appending one entry |
| `Lifecycle.ReopeningTable` | backend/app/findings/lifecycle.py:84-93 | REMEDIATED and FALSE_POSITIVE become REOPENED with one automatic entry; every other record is unchanged |
| `Lifecycle.HistoryExplainsStatus` | backend/app/findings/lifecycle.py:24-93 | for any mix of re-observations and requests, replaying the history gives the status, every entry is valid, and ACCEPTED_RISK is only left manually |
| `Titles.NormalFormIsTheWords` | backend/app/findings/signature.py:48-54 | for every lower-casing that works word by word, a normalised title is the lower-cased words joined by single blanks |
| `Titles.SameTitleIffSameWords` | backend/app/findings/signature.py:48-54 | for every such lower-casing, two titles normalise alike iff they have the same lower-cased words |
| `Titles.NormalizingTwice` | backend/app/findings/signature.py:48-54 | for every such lower-casing that does nothing the second time, normalising a normalised title changes nothing |
| `Titles.AsciiLowerIsWordWise` | backend/app/findings/signature.py:54 | the ASCII lower-casing the other modules use is one such |
| `Findings.FindingTable.Upsert` | backend/app/findings/service.py:34-89 | one insert or one merge, whatever rows other sessions commit between select and insert; RuntimeError is unreachable; the unique index holds |
| `Findings.FindingRow.MergeObservation` | backend/app/findings/service.py:113-171 | the row updated in place is the merge: bounds widened, count up by one, sources and CVEs united, known texts kept, status reopened if it was closed |
| `Findings.OneRowPerSignature` | backend/app/findings/service.py:59-89 | in any table built by upserts each signature has at most one row, and it is the fold of its observations |
| `Findings.OneRowMeansOneFinding` | backend/app/findings/service.py:43-47 | two observations share a row iff asset and CVEs agree or, without CVEs, asset, title words, port and protocol |
| `Findings.CountsAddUp` | backend/app/findings/service.py:123-126 | the observation counts of all rows add up to the number of upserts |
| `Findings.RowAccumulates` | backend/app/findings/service.py:113-135 | count, earliest and latest time, first-occurrence lists of tools and jobs |
| `Findings.OrderDoesNotMatter` | backend/app/findings/service.py:113-135 | reordering observations changes no count, bound or set |
| `Findings.SameSignatureSameCves` | backend/app/findings/service.py:43-47 | observations with one signature have one CVE list |
| `Findings.CveIdsNeverChange` | backend/app/findings/service.py:137-142 | `cve_ids_changed` is never true in a table built by upserts |
| `Findings.FindingTable.ChangeStatus` | backend/app/api/routes/findings.py:152-167 | a manual status request: refused for an unknown row or an invalid transition, which change nothing |
| `Findings.FoldTexts` | backend/app/findings/service.py:147-159 | description, recommendation and evidence of a row are the latest non-empty ones observed, or empty |
| `Findings.CvesAre` | backend/app/findings/service.py:43 | the CVE list is sorted, without duplicates, and holds exactly the upper-cased non-empty ids observed |
| `FindingHistory.FirstObservationIsNew` | backend/app/findings/service.py:34-111 | in any table built by upserts and status requests, an observation without a row there appends one with status NEW and no history |
| `FindingHistory.ReobservationReopens` | backend/app/findings/service.py:113-171 | in any such table, the row an observation is merged into goes from REMEDIATED or FALSE_POSITIVE to REOPENED with exactly one automatic entry appended; else status and history stay, and so do all other rows |
| `FindingHistory.RequestChangesOneRow` | backend/app/api/routes/findings.py:152-167 | in any such table, a status request changes one row only, and only by a listed transition with one manual entry |
| `FindingHistory.EveryRowIsExplained` | backend/app/findings/lifecycle.py:24-93 | replaying the history of any row of such a table gives its status; every entry is a listed transition and automatic entries only reopen |
| `ConcurrentUpsert.ScheduleInv` | backend/app/findings/service.py:59-89 | for every schedule of statements, commits and aborts: rows are folds of committed observations, uncommitted versions are folds on top, locks are exclusive |
| `ConcurrentUpsert.InterleavingsAreSerial` | backend/app/findings/service.py:59-89 | a committed row is the sequential merge of its committed observations: its count is the number of committed upserts |
| `ConcurrentUpsert.RetryAlwaysSucceeds` | backend/app/findings/service.py:70-89 | no session gives up or starts a third round; one in its second round finds the row |
| `ConcurrentUpsert.CommittedRowsStay` | backend/app/findings/service.py:59-89 | committed rows stay and their counts never fall |
| `Patches.ReplayFaithful` | backend/app/diff/engine.py:21-29 | a diff with one entry per changed key, carrying the new value, replays to the new state |
| `Patches.PatchesTelescope` | backend/app/diff/engine.py:21-29 | replaying a series of faithful diffs over the first state gives the last |
| `DiffEngine.BuildPortMap` | backend/app/diff/engine.py:32-41 | a port is in the map iff some entry with a readable number reports it, and then with the data of the last such entry over all hosts |
| `DiffEngine.LastReportsSettleTheMap` | backend/app/diff/engine.py:32-41 | that rule has exactly one solution |
| `DiffEngine.FieldInjective` | backend/app/diff/engine.py:53 | the `port:n/proto` field identifies the port |
| `DiffEngine.DiffNmap` | backend/app/diff/engine.py:44-104 | from two raw results, exactly the opened, changed and closed ports are reported, at most one event per port, with the described values |
| `DiffEngine.NmapPatch` | backend/app/diff/engine.py:44-104 | the open and close events are a faithful patch on the set of open ports |
| `DiffEngine.NmapDiffsTelescope` | backend/app/diff/engine.py:44-104 | replaying the diffs of any series of raw nmap results over the first open-port set gives the last |
| `DiffEngine.OpenFieldsSameAsPorts` | backend/app/diff/engine.py:53 | the open ports decoded from the fields agree iff the open ports do |
| `DiffEngine.NmapDiffEmptyIffSameView` | backend/app/diff/engine.py:66-73 | no event iff the open ports and their service, product and version are the same |
| `DiffEngine.NmapDiffInverse` | backend/app/diff/engine.py:44-104 | swapping the arguments gives exactly the inverse events |
| `DiffEngine.NmapEventsAre` | backend/app/diff/engine.py:44-104 | the events of an nmap diff, kind by kind: the field naming the port, the values before and after |
| `DiffEngine.DescriptionsAre` | backend/app/diff/engine.py:73-81 | a description joins the known of service, product and version by blanks, and is absent if none is known |
| `DiffEngine.BuildPluginMap` | backend/app/diff/engine.py:107-115 | a plugin is in the map iff some result names it, and then with the summary of the last such result |
| `DiffEngine.LastPagesSettleTheMap` | backend/app/diff/engine.py:107-115 | that rule has exactly one solution |
| `DiffEngine.DiffWhatweb` | backend/app/diff/engine.py:134-167 | exactly the added, changed and removed technologies, one event each, and the changed status |
| `DiffEngine.WhatwebPatch` | backend/app/diff/engine.py:139-158 | the technology events are a faithful patch on the plugin map |
| `DiffEngine.WhatwebDiffsTelescope` | backend/app/diff/engine.py:134-167 | replaying any series of whatweb diffs over the first plugin map gives the last exactly |
| `DiffEngine.StatusIsCarriedIffKnown` | backend/app/diff/engine.py:160-165 | replay carries the HTTP status iff both sides have one or they agree |
| `DiffEngine.WhatwebDiffInverse` | backend/app/diff/engine.py:134-167 | swapping the arguments gives exactly the inverse events |
| `DiffEngine.WhatwebEventsAre` | backend/app/diff/engine.py:134-168 | the events of a whatweb diff, kind by kind: the field, the values before and after, and the status of the first pages |
| `Risk.CalculateRisk` | backend/app/risk/calculator.py:133-186 | score, priority, components and raw score are the functions the results below are about |
| `Risk.RoundIsNearest` | backend/app/risk/calculator.py:172 | rounding goes to the nearest integer, the even one of two |
| `Risk.BandsPartitionScores` | backend/app/risk/calculator.py:85-98 | the bands cut 0..100 into ranges of twenty |
| `Risk.RawIsTheBalancePoint` | backend/app/risk/calculator.py:163-165 | the raw score is the one point where weighted deviations of the known signals cancel, and any other point lies on the side their sum says; unknown signals have no pull |
| `Risk.ScoreInRange` | backend/app/risk/calculator.py:170-172 | the score is in 0..100 before the last clamp, which never acts |
| `Risk.PriorityReadsTheProduct` | backend/app/risk/calculator.py:167-173 | a priority band is reached iff the unrounded product is at least half a point below its threshold |
| `Risk.LowConfidenceIsNeverCritical` | backend/app/risk/calculator.py:78-82 | low confidence caps the score at 78, below the critical band, whatever the signals |
| `Risk.TopScoreIff` | backend/app/risk/calculator.py:170-172 | the score is 100 iff the unrounded product is at least 0.995 |
| `Risk.ScoreBelowIff` | backend/app/risk/calculator.py:163-172 | a score is below k iff the weighted signals pull down measured from the raw score that would just reach k, or balance while k is odd |
| `Risk.CvssAloneReachesTheTop` | backend/app/risk/calculator.py:163-173 | a CVSS of 10 alone reaches 100 at high confidence on any asset not of low criticality |
| `Risk.WorkedExample` | docs/phase-15-risk-score.md:115-126 | the worked example: 72 and HIGH on an asset of low criticality, 100 and CRITICAL on a critical one |
| `Risk.SeverityAloneScores` | backend/app/risk/calculator.py:63-69 | severity alone scores 0, 25, 55, 80 or 95 |
| `Risk.ContextScores` | backend/app/risk/calculator.py:71-82 | the twelve scores a CVSS of 10 alone gets, one for each criticality and confidence |
| `Risk.SignalsAreLimited` | backend/app/risk/calculator.py:137-148 | a CVSS or EPSS outside its range counts as the nearer end |
| `Risk.WorseNeverScoresLower` | backend/app/risk/calculator.py:133-186 | with the same signals known, score and priority are monotone in severity, CVSS, EPSS, KEV, criticality and confidence |
| `Risk.LearningEpssMovesTowardIt` | backend/app/risk/calculator.py:144-154 | learning EPSS moves the raw score strictly between its old value and the learned one, or leaves it if they are equal |
| `Risk.LearningKevMovesTowardIt` | backend/app/risk/calculator.py:156-161 | the same for KEV |
| `Risk.FirstCatalogueSync` | backend/app/risk/calculator.py:156-161 | a first KEV answer never lowers a listed finding's score nor raises an unlisted one's |
| `Risk.LearningEpssLowersIff` | backend/app/risk/calculator.py:144-165 | learning EPSS lowers the raw score iff it is below what the other signals say |
| `RiskInputs.CvssIsTheWorst` | backend/app/risk/service.py:61-64 | the CVSS used is the largest known among the CVEs, unknown iff none is known |
| `RiskInputs.EpssIsTheWorst` | backend/app/risk/service.py:66-69 | the same for EPSS |
| `RiskInputs.InputsRead` | backend/app/risk/service.py:50-102 | where each input comes from: the highest values of the CVEs, the catalogue once synchronised and only with CVEs, the criticality of the job's asset |
| `RiskInputs.RefreshedColumns` | backend/app/risk/service.py:106-122 | a recomputation stores the highest CVSS and EPSS, the listing, the score and its band of twenty, and nothing else |
| `RiskInputs.OrderOfCvesDoesNotMatter` | backend/app/risk/service.py:54-79 | the inputs depend on the set of CVEs only |
| `RiskInputs.AddingACveNeverLowers` | backend/app/risk/service.py:54-79 | adding a CVE never lowers the score if it makes no unknown CVSS or EPSS known |
| `RiskInputs.AddingACveLowersIff` | backend/app/risk/service.py:54-79 | adding a CVE lowers the raw score, and the score, iff the signals afterwards, weighted, pull down measured from the old raw score, or from the raw score that would just keep the score (balance counting for odd scores) |
| `RiskInputs.AddingACveCanLower` | backend/app/risk/service.py:54-79 | otherwise it can: a second, milder CVE that brings the first EPSS value |
| `RiskCache.IntelligenceStore.RecalculateFinding` | backend/app/risk/service.py:106-119 | the finding's columns equal a fresh computation, other findings stay |
| `RiskCache.IntelligenceStore.RecalculateForCve` | backend/app/risk/service.py:130-134 | refreshes exactly the findings that name the CVE |
| `RiskCache.IntelligenceStore.RecalculateAllWithCve` | backend/app/risk/service.py:137-145 | refreshes exactly the findings with a CVE |
| `RiskCache.IntelligenceStore.RecalculateForAsset` | backend/app/risk/service.py:148-155 | refreshes exactly the findings of the asset's jobs |
| `RiskCache.IntelligenceStore.SeedCvss` | backend/app/risk/service.py:23-47 | the first value per CVE wins; reports exactly the CVEs that had none |
| `RiskCache.IntelligenceStore.SyncEpss` | backend/app/intel/sync.py:80-113 | the state after each of its commits, with and without scores and CVEs |
| `RiskCache.IntelligenceStore.ReplaceCatalogue` | backend/app/intel/sync.py:130-149 | the catalogue becomes the entries, or stays as it was iff a new id is repeated |
| `RiskCache.IntelligenceStore.SyncCisaKev` | backend/app/intel/sync.py:119-156 | the state after each of its commits, the success mark before the recomputation |
| `RiskCache.IntelligenceStore.SyncNvdCvss` | backend/app/intel/sync.py:162-210 | asks for known CVEs without CVSS up to the limit, stores answers, refreshes findings naming an answered CVE |
| `RiskCache.IntelligenceStore.ChangeCriticality` | backend/app/api/routes/assets.py:61-77 | the new criticality, then in a second transaction the asset's findings |
| `RiskCache.KnownCvesAreTheFindings` | backend/app/intel/sync.py:41-48 | the known CVEs are exactly those some finding names |
| `Staleness.EventKeepsAccounts` | backend/app/risk/service.py:106-155 | after any event, cut off anywhere, each finding agrees with the tables or owes a refresh for a CVE or asset in the ledger |
| `Staleness.RunKeepsAccounts` | backend/app/risk/service.py:106-155 | the same over every run |
| `Staleness.UninterruptedRunsStayCurrent` | backend/app/risk/service.py:137-155 | synchronisations, failed fetches included, criticality changes and new rows never make a current cache stale |
| `Staleness.EpssSyncCatchesUp` | backend/app/intel/sync.py:96-111 | from any state, an EPSS synchronisation past its recomputation leaves every finding with a CVE current |
| `Staleness.EpssMarkMeansCurrent` | backend/app/intel/sync.py:109-113 | a newly recorded EPSS success implies agreement wherever the call died |
| `Staleness.KevSyncCatchesUp` | backend/app/intel/sync.py:130-156 | from any state, a complete KEV synchronisation leaves every finding with a CVE current |
| `Staleness.EpssValuesReachFindings` | backend/app/intel/sync.py:96-111 | after an EPSS synchronisation a finding shows the largest value among its CVEs, fetched where there is one, else stored |
| `Staleness.KevEntriesReachFindings` | backend/app/intel/sync.py:133-156 | after a complete KEV synchronisation a finding shows whether one of its CVEs is in the fetched catalogue |
| `Staleness.MarkedFindingIsCurrentIff` | backend/app/intel/sync.py:149-156 | when a KEV call dies after recording success, a current finding stays current iff its listing was known and the fetched catalogue says the same |
| `Staleness.KevMarkMeansCurrentIff` | backend/app/intel/sync.py:149-156 | in a current cache, a newly recorded KEV success implies agreement iff the call got past its recomputation or the catalogue says nothing new about any finding |
| `Staleness.KevMarkIsNotEnough` | backend/app/intel/sync.py:151-156 | a concrete state where it does not |
| `Staleness.ToolReportStalesIff` | backend/app/risk/service.py:23-47 | a current finding stays current through a tool report iff its highest CVSS is unchanged |
| `Staleness.ToolReportKeepsCurrentIff` | backend/app/risk/service.py:23-47 | that is, iff for none of its CVEs without a CVSS the report's first score exceeds what is known of the finding |
| `Staleness.CvssSyncSkipsSeeded` | backend/app/intel/sync.py:168-173 | the NVD synchronisation leaves findings alone whose CVEs all have a CVSS |
| `Staleness.KnownCvssIsNeverReplaced` | backend/app/risk/service.py:40-46 | a stored CVSS is never replaced, over any run |
| `Staleness.NvdAnswersAreStored` | backend/app/intel/sync.py:181-201 | past the first commit, each of the first `limit` known CVEs without a CVSS that was answered with one has it; every other CVE's values are unchanged |
| `Staleness.NvdValuesReachFindings` | backend/app/intel/sync.py:190-205 | past the second commit, a finding naming an answered CVE shows the highest of the answered and stored values |
| `Staleness.EpssSuccessIsRecordedIff` | backend/app/intel/sync.py:96-113 | an EPSS success is recorded iff the call ran to its end after a fetch, or there is no CVE to ask for |
| `Staleness.KevSuccessIsRecordedIff` | backend/app/intel/sync.py:149-156 | a KEV success is recorded iff the fetched catalogue was stored and the mark committed |
| `Staleness.NvdSuccessIsRecordedIff` | backend/app/intel/sync.py:173-210 | an NVD success is recorded iff nothing was to be asked for, or some CVE was answered and the call ran to its end |
| `Staleness.CriticalityReachesFindings` | backend/app/api/routes/assets.py:61-77 | a change of criticality stores the level and nothing else; past its second commit exactly the findings of the asset's jobs are scored with it |
| `RateLimit.KeysAreApart` | backend/app/core/rate_limit.py:91 | buckets and clients never share a counter |
| `RateLimit.Limiter.Dependency` | backend/app/core/rate_limit.py:84-120 | a disabled limiter admits and touches no counter; an enabled one answers unavailable, refuses or admits, and leaves its counter, as written out; other keys stay |
| `RateLimit.HitAnswers` | backend/app/core/rate_limit.py:84-120 | unavailable iff Redis went away before the increment or while an expiry or a waiting time was due; refused iff beyond the limit; the counter left in each case |
| `RateLimit.CounterCountsTheWindow` | backend/app/core/rate_limit.py:95-98 | the counter is the number of requests in the current window, and a request is admitted iff it is among its first max |
| `RateLimit.WindowAdmitsUpToTheLimit` | backend/app/core/rate_limit.py:95-111 | each window admits exactly min(requests, max) |
| `RateLimit.IntervalAdmitsUnderTwiceTheLimit` | backend/app/core/rate_limit.py:95-111 | any half-open interval of the window's length admits at most 2 * max - 1 requests |
| `RateLimit.BoundIsReached` | backend/app/core/rate_limit.py:95-111 | and a burst of requests reaches that bound for every window of more than one tick |
| `RateLimit.BoundIsReachedIff` | backend/app/core/rate_limit.py:95-111 | some run reaches it iff the window is longer than one tick, or is one tick and the limit one |
| `RateLimit.RetryAfterIsHonest` | backend/app/core/rate_limit.py:99-112 | a refused client is told when its window ends; it is refused until then and counted anew after |
| `RateLimit.ExpiryIsLostIff` | backend/app/core/rate_limit.py:95-97 | a counter is left without expiry iff Redis goes away after the increment that opens a window |
| `RateLimit.LostExpiryNeverRecovers` | backend/app/core/rate_limit.py:95-97 | without its expiry a counter admits the rest of one allowance and then nothing, ever |

## Left out

- StepInvariants.TerminalIsFrozen: calls are undivided there; `SplitCalls.CallKeepsPromisesIff` says when a divided call keeps it.
- StepInvariants.NewJobIsJustified: calls are undivided there; `SplitCalls.CallKeepsPromisesIff` says when a divided call keeps it.
- Findings.FindingTable.Upsert: sessions that interfere at other statements are the subject of `ConcurrentUpsert`.
- Runs that contain an overlap of calls or a cancellation in a gap, beyond the commit in which they show (backend/app/ai/orchestrator.py:136, backend/app/chains/service.py:112).
- Races inside the execution of a job between refresh and commit, and queue entries without a job row: the end of a job is one event.
- Findings.OneRowMeansOneFinding: titles are lower-cased and CVE ids upper-cased for ASCII letters there; `Titles` holds for Unicode lower-casing.
- Row deletion and its cascades for assets, jobs, findings and edges, including `delete_edges_for_finding`.
- AttackPaths.FindPathsBetween: completeness is stated below the raw row cap only; LIMIT without an order is modelled as a prefix of the rows.
- AttackPaths.FindPathsToCriticalAssets: the ids of critical assets are an input, and completeness is stated below the raw row cap only.
- RiskCache.IntelligenceStore.SyncNvdCvss: request pacing and error texts are not modelled.
- Time stamps of computation and of fetches, CVSS versions and vectors, EPSS percentiles and the catalogue's descriptive columns.
- `extract_port_protocol`, URL parsing and the tools' own regular expressions: their results are inputs.
- Reason, explanation and log texts, event severities and metadata of the diff engine; plugin summaries are inputs.
- The sslscan and gobuster diffs, which are simpler cases of the same patches.
- `technology_tags_for_nuclei` and job options: they do not influence which steps run.
- `create_chain_run` for a missing template or target, which only returns None.
- Floating point: scores are exact reals. Whether a Redis key still exists at the instant of its expiry is a parameter.
- Parsers, the tool registry, authentication, reports, the scheduler, WebSockets, the AI planner and the frontend.
