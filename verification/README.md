# Verified model of the fraud-detection core

A Dafny model of the decision and bookkeeping logic behind a payment-fraud service: the Python
`ml-service` and the Go agent council. It verifies with `dafny verify dfyconfig.toml`.

Code that works by changing state is modelled as classes and methods with loops, and each of those
methods is proved equal to a specification function. What the system promises is then proved about
these functions, for every input and every run, and what each of them computes is stated once more
without it: by rows of the table, calls of the run, positions of a list or the numbers of the rule.

| file | models | main results |
|---|---|---|
| `GraphSchema.dfy` | nodes and edges | |
| `Subgraph.dfy` | the breadth-first point-in-time cut of the relationship graph | the cut is a ball of the given radius, with exactly the right nodes, records and edges; no lookahead |
| `Paths.dfy` | the backtracking search for relationship paths | exactly the simple paths, each once, in lexicographic order; the shared visited set is restored |
| `GraphIndex.dfy` | the time-sorted incidence index, its binary search and the two-hop sampler | no future leakage for any ids; both hops are exactly the known nodes drawn; exact agreement with a linear scan, and exactly when it fails |
| `Windows.dfy` | pruned per-entity lists | the pruned count is the true window count exactly for time-ordered entities |
| `DeviceFeatures.dfy` | device velocity, token linkage, reputation | signals are those of the earlier rows of a time-ordered table; causality; which clips never bite |
| `TemporalFeatures.dfy` | the unpruned card and device features | every column by the earlier rows; agreement of both window engines; causality; what the amount score means |
| `BayesRisk.dfy` | Bayes minimum risk decisions | the scorer's and the gateway's forms agree and are optimal; which amounts can flip |
| `ShadowGateway.dfy` | the shadow pipeline with its two files | exactly what a reload recovers after any failures, one flip per id for ever, every field of a flip and its label by the calls |
| `Escalation.dfy` | the escalation automaton | closed form over the whole window history |
| `OutcomeStore.dfy` | prediction snapshots, delayed outcomes, promotion gates | first snapshot wins, which ids are live, fraud is a disjunction, exactly when matured fraud labels and counted frauds are what they seem |
| `DedupCache.dfy` | the duplicate cache | its exact content after any sequence of new ids |
| `Payloads.dfy` | dynamically typed event payloads and their conversion | conversion and registration raise exactly on these fields; what is stored and registered |
| `Ingestion.dfy` | the deduplicating adapter, the bounded queue and its worker threads | conservation in every interleaving; exactly which events end a thread, and which sets of events never do |
| `ThreadOrder.dfy` | the same threads, started and restarted | events are finished in order exactly while at most one thread lives |
| `Maturation.dfy` | label states and timeouts | maturing composes; flag against timeout; fraud only by confirmation |
| `Calibration.dfy` | three expected calibration errors | what the three return for the same samples; the ECE adds up over bins; bounds; exactly when the reported maximum is one |
| `Concentration.dfy` | the Herfindahl index and the collusion tracker | 1/k to 1, and who counts as concentrated |
| `Council.dfy` | the council vote, the guardrail and the compliance audit | the verdicts are exactly those of the iteration orders, and determinate; guarded verdicts pass the audit |
| `CostPolicy.dfy` | the expected-cost policy on rounded costs | rounding costs at most a cent; exactly which engines never choose backwards |
| `ExpectedLoss.dfy` | the four-action expected loss | concavity; exactly when it is monotone in the amount |
| `Common.dfy` | options, duplicates, look-ups, rounding and real arithmetic | |

Some results deserve attention, because the code does not do what its comments say:

* The escalation rule speaks of consecutive critical windows (`production_telemetry.py:313`). The counter
  is only cleared by two adjacent normal windows, so the five need not be consecutive
  (`Escalation.CriticalsNeedNotBeConsecutive`).
* The duplicate cache of capacity N (`passive_ingestion.py:57-59`) drops one id through the deque's own
  bound when it first overflows. Afterwards it remembers the last N - 1 ids and, for ever, the first; the
  N-th last is forgotten (`DedupCache.CapthLastIsForgotten`).
* `consume_event` is documented never to raise (`passive_ingestion.py:75-82`). It raises on payloads that do
  not convert and on time stamps with and without a zone in turn, and processing raises once more, after the
  event was counted, on a transaction id that is not a text. The worker catches only the empty-queue
  exception, so the thread ends while the engine still counts as running (`Ingestion.ThreadEndsIff`,
  `Ingestion.TextAmountEndsThread`, `Ingestion.NumericIdEndsThread`, `Ingestion.DeadEngineStaysDead`). No run
  over a set of events raises exactly if all of them meet the schema and carry stamps of one kind
  (`Ingestion.NoRunRaisesIff`).
* A matured fraud label need not have a matured fraud outcome behind it (`shadow_evaluator.py:153-163`): a clean
  outcome that contradicts an early fraud renews the date and keeps the flag
  (`OutcomeStore.CleanOutcomeRipensFraud`). Conversely a matured fraud outcome need not leave a matured label
  when an early outcome comes before or after it (`OutcomeStore.EarlyOutcomeDelaysFraud`).
* Stopping and starting the engine while its thread is alive adds a second thread (`shadow_telemetry.py:85-96`),
  and then events can be finished out of order (`ThreadOrder.StartKeepsOrderIff`).
* Choosing on costs rounded to cents can turn a review back into an approval as the probability grows. Whether
  an engine ever does is decided by one comparison at the first whole cent above its break-even cost; the
  default engine never does (`CostPolicy.OneLevelDecides`, `CostPolicy.DefaultsNeverReverse`).
* The reported maximum calibration error is taken over rounded errors and can lie below the mean error
  (`Calibration.MaximumBoundsEceIff`).
* A dispute whose date carries no time zone, or is no date, is indexed and logged before the comparison of
  dates raises (`production_shadow_gateway.py:348-351`); its flip stays unlabelled (`ShadowGateway.DisputeLabelsIff`).
* A drop of the false-positive cost at 250 can lower the expected loss of a larger amount
  (`ExpectedLoss.LossMonotoneIff`).

Other promises that hold only under a condition have it stated as an if-and-only-if: the velocity
column on unsorted rows, the index on repeated edge ids and on ids above the bisection sentinel, the
calibration forms on an empty sample and under rounding, the two decision forms on a non-positive exposure, the count of
frauds on flags other than 0 and 1, the reload after failed writes, and the council's action under ties.

## Conventions

* Floating-point numbers are `real`; timestamps and durations are whole seconds; counters are unbounded.
* A Python dictionary is a `map`, with a separate `seq` of keys where the code depends on insertion order.
  The iteration order of the Go vote map is a parameter that ranges over all orders of its keys.
* The gateway's two files are sequences of records; JSON is the identity, the keyed hash that anonymises
  ids is applied before an id reaches the model, and whether a write or a signature succeeds is an input.
* Random sampling is any function that returns distinct positions; the clock is a parameter. The standard
  deviation is any function, and what is said of the score holds whatever it returns.
* Payload fields are values of the decoded message: null, truth values, integers, floats, texts, lists, records.

## Model

| member | source | states |
|---|---|---|
| `Subgraph.MockRealGraphDataSource.AddNode` | ml-service/graphsage/data_source.py:93-94 | appends the node and leaves the edges alone |
| `Subgraph.MockRealGraphDataSource.AddEdge` | ml-service/graphsage/data_source.py:96-97 | appends the edge and leaves the nodes alone |
| `Subgraph.MockRealGraphDataSource.Nodes` | ml-service/graphsage/data_source.py:111-113 | the loop builds the registry in which the last node stored under an id wins |
| `Subgraph.RegistryExact` | ml-service/graphsage/data_source.py:111-113 | an id is registered exactly when some stored node carries it, and its record is the last such node |
| `Subgraph.MockRealGraphDataSource.GetEdges` | ml-service/graphsage/data_source.py:126 | the stored edges stamped by the instant, in stored order |
| `Subgraph.MockRealGraphDataSource.GetPointInTimeSubgraph` | ml-service/graphsage/data_source.py:119-174 | the nested loops over levels and edges compute the level-by-level search, nodes, edges and their order |
| `Subgraph.AsOfExact` | ml-service/graphsage/data_source.py:126 | the filter keeps exactly the edges stamped by the instant |
| `Subgraph.SweepExact` | ml-service/graphsage/data_source.py:145-167 | one pass reaches exactly the neighbours of the frontier, puts the new ones in the next frontier, collects exactly the edges touching the frontier, none twice, with both ends visited |
| `Subgraph.SweepRecords` | ml-service/graphsage/data_source.py:147-163 | after a pass, as before it, a registered node has its registered record, the center one stamped by the instant if it is unregistered, and any other node one made up from its id and from a stored edge that ends there |
| `Subgraph.SearchRecords` | ml-service/graphsage/data_source.py:132-163 | so has every node that the search visits, after any number of levels |
| `Subgraph.SearchExact` | ml-service/graphsage/data_source.py:142-167 | after k levels the visited ids are the ball of radius k and the frontier its outermost shell |
| `Subgraph.BallIsWithin` | ml-service/graphsage/data_source.py:142-167 | the ball of radius k is the set of ids joined to the center by a walk of at most k edges in either direction |
| `Subgraph.SubgraphNodesExact` | ml-service/graphsage/data_source.py:119-174 | the cut's nodes are exactly those at undirected distance at most depth over edges stamped by the instant; a registered one has the last stored record of its id, any other a record made up as its end of such an edge says |
| `Subgraph.SubgraphEdgesExact` | ml-service/graphsage/data_source.py:156-167 | the cut's edges are exactly the stamped edges with an endpoint at distance below depth, each once by value and with both endpoints in the cut |
| `Subgraph.SearchOrder` | ml-service/graphsage/data_source.py:145-167 | the cut's edges come level by level, and those of a level in stored order |
| `Subgraph.NoLookahead` | ml-service/graphsage/data_source.py:119-174 | inserting any later-stamped edges anywhere in the store leaves the whole cut unchanged |
| `Paths.RelationshipPathExtractor.BuildAdjacency` | ml-service/graphsage/path_extractor.py:27-37 | every node is mapped to its steps along each incident edge in either direction, in edge order, and nothing else |
| `Paths.RelationshipPathExtractor.Dfs` | ml-service/graphsage/path_extractor.py:42-58 | appends exactly the paths found below, in order, and leaves the shared visited set as it found it; terminates by the remaining depth |
| `Paths.RelationshipPathExtractor.Explore` | ml-service/graphsage/path_extractor.py:54-58 | the neighbour loop, with its add and remove around every recursive call, restores the visited set |
| `Paths.RelationshipPathExtractor.FindPaths` | ml-service/graphsage/path_extractor.py:16-61 | returns the first twenty of all paths found |
| `Paths.HopsExact` | ml-service/graphsage/path_extractor.py:29-37 | the adjacency list of a node holds exactly the legal steps from it, none twice except along self-loops |
| `Paths.PathsFromExact` | ml-service/graphsage/path_extractor.py:42-58 | a call finds exactly the wanted continuations of its path through nodes not visited on entry |
| `Paths.PathsFromDistinct` | ml-service/graphsage/path_extractor.py:42-58 | no call lists a sequence of edge occurrences twice |
| `Paths.AllPathsExact` | ml-service/graphsage/path_extractor.py:39-61 | before the cut to twenty, the search lists exactly the simple paths of 1 to max_depth hops to the target, or to any known consumer or account when there is none, each once |
| `Paths.ListedIff` | ml-service/graphsage/path_extractor.py:44-52 | a path is listed exactly when it is simple, has 1 to max_depth hops, and ends at the named target or, with none named, at a known consumer or account |
| `Paths.AllPathsOrdered` | ml-service/graphsage/path_extractor.py:42-61 | the paths come in the lexicographic order of the edges walked, each before its extensions; this fixes which twenty are returned |
| `Paths.InvestigationStaysInCut` | ml-service/graphsage/shadow_telemetry.py:166-182 | run on a point-in-time cut, every path walks only edges stamped by the instant and meets only nodes within the cut's radius |
| `Windows.Visit` | ml-service/data_pipeline/features.py:37-52 | the scan for the window boundary, the slice and the append: what is handed out is the list without its leading old events |
| `Windows.ComputePointInTimeVelocities` | ml-service/data_pipeline/features.py:10-55 | every row gets the length of its entity's pruned list including itself, and 1 where the entity is missing |
| `Windows.PrunedIsSince` | ml-service/data_pipeline/features.py:41-50 | on a time-ordered history, pruning loses nothing a later query of the same window can see |
| `Windows.DropOldExact` | ml-service/data_pipeline/features.py:41-50 | pruning drops exactly the leading run of events older than the cutoff, whatever the order |
| `Windows.VelocityExactWhenSorted` | ml-service/data_pipeline/features.py:16-20 | on time-ordered entities the velocity is the number of the entity's events in [T - window, T] over the whole table up to the row |
| `Windows.VelocityCountsRows` | ml-service/data_pipeline/features.py:16-20 | the same by row positions: on time-ordered entities, the entity's earlier rows stamped in [T - window, T] and the row itself, 1 for a missing entity |
| `Windows.VelocityExactIffSorted` | ml-service/data_pipeline/features.py:16-20 | the velocity is that number for every row and window exactly when every entity's rows come in time order |
| `Windows.VelocityUnsortedCounterexample` | ml-service/data_pipeline/features.py:16-20 | two rows out of order make the second count its own future |
| `DeviceFeatures.MeasureLoop` | ml-service/data_pipeline/features.py:183-216 | the accumulating loop yields the counts and sums of the three windows, and the guarded ratios with their clips |
| `DeviceFeatures.SignalStep` | ml-service/data_pipeline/features.py:150-219 | one row: read the signals from the pruned list, then append; a missing device yields zeros and leaves no trace |
| `DeviceFeatures.ComputeDeviceVelocitySignals` | ml-service/data_pipeline/features.py:126-227 | every row of the columns is the signal of its device's pruned past |
| `DeviceFeatures.DeviceSignalsExact` | ml-service/data_pipeline/features.py:183-216 | on time-ordered devices, counts, sum, acceleration and concentration equal their definitions over the device's whole past |
| `DeviceFeatures.CountSignalsOnTable` | ml-service/data_pipeline/features.py:183-216 | on a table with time-ordered devices both counts of a row are the earlier rows of its device within 300 and 3600 seconds |
| `DeviceFeatures.SumSignalsOnTable` | ml-service/data_pipeline/features.py:183-216 | the daily sum is the amount of the earlier rows within a day, and the concentration the clipped share of five minutes in the hour |
| `DeviceFeatures.AccelerationOnTable` | ml-service/data_pipeline/features.py:202-209 | the acceleration times the hourly rate, plus its guard, is the five-minute rate |
| `DeviceFeatures.NoDeviceNoSignals` | ml-service/data_pipeline/features.py:150-160 | a missing, empty or "nan" device has all signals zero |
| `DeviceFeatures.UpperClipsNeverBite` | ml-service/data_pipeline/features.py:202-216 | with non-negative amounts acceleration stays below 12 and concentration below 1, so both upper clips are inert and the ratios exact, in any row order |
| `DeviceFeatures.LinkStep` | ml-service/data_pipeline/features.py:254-290 | one side of the linkage for one row: distinct partners in the pruned list, then append |
| `DeviceFeatures.ComputeTokenDeviceLinkage` | ml-service/data_pipeline/features.py:229-295 | both columns hold the distinct partners of the row's device and of its token, over their pruned pasts |
| `DeviceFeatures.LinkageExact` | ml-service/data_pipeline/features.py:236 | on time-ordered keys, the number of distinct partners over the whole past hour |
| `DeviceFeatures.TokenLinkageOnTable` | ml-service/data_pipeline/features.py:254-290 | on a table with time-ordered devices, the distinct tokens on the device's earlier rows of the past hour, 0 for a missing, empty or "nan" device |
| `DeviceFeatures.DeviceLinkageOnTable` | ml-service/data_pipeline/features.py:254-290 | and likewise the distinct devices of a token |
| `DeviceFeatures.ScoreDevice` | ml-service/data_pipeline/features.py:338-360 | the score steps and clips, computed as written, give the rated reputation |
| `DeviceFeatures.KnownReputationOnTable` | ml-service/data_pipeline/features.py:338-360 | a known device's rates are the fraction of frauds among its earlier rows; its score is 0.5 less the discounts for clean uses and days since its first row, or with frauds 1 less these plus 0.25 or 0.5 and the rate penalty, cut at 1 |
| `DeviceFeatures.ReputationOnTable` | ml-service/data_pipeline/features.py:314-340 | a missing, empty, "nan" or new device is neutral |
| `DeviceFeatures.ComputeReputationSignals` | ml-service/data_pipeline/features.py:297-372 | every row's score and rates are those of its device's labels before the row |
| `DeviceFeatures.ReputationSeparates` | ml-service/data_pipeline/features.py:338-360 | one past fraud lifts the score to 0.8 or more and its absence keeps it in [0.05, 0.5]; both rates are the exact fraction of past frauds |
| `DeviceFeatures.SignalsCausal` | ml-service/data_pipeline/features.py:134-135 | two runs agreeing before a row, and on its device and time, agree on its signals: later rows and its own amount are invisible |
| `DeviceFeatures.ReputationCausal` | ml-service/data_pipeline/features.py:304 | the same for reputation: a row's own label and the future are invisible |
| `DeviceFeatures.VelocityCausal` | ml-service/data_pipeline/features.py:19 | two tables agreeing up to a row give it the same velocity |
| `DeviceFeatures.LinkageCausal` | ml-service/data_pipeline/features.py:236 | two tables agreeing up to a row give it the same linkage |
| `TemporalFeatures.DeviceStep` | ml-service/data_pipeline/temporal_features.py:74-184 | novelty is having no earlier row with this known device; the cards of its last day are counted before the row is added |
| `TemporalFeatures.CountCards` | ml-service/data_pipeline/temporal_features.py:175-181 | the loop counts the distinct cards since the cutoff |
| `TemporalFeatures.CardFeaturesConsistent` | ml-service/data_pipeline/temporal_features.py:119-153 | windows are nested, devices never exceed payments, and the hourly-to-daily ratio is exact and at most 24, so the clip at 50 never bites |
| `TemporalFeatures.CountsOnTable` | ml-service/data_pipeline/temporal_features.py:119-141 | each of a row's five counts is the number of earlier rows of its card stamped no more than that window earlier |
| `TemporalFeatures.SumsOnTable` | ml-service/data_pipeline/temporal_features.py:119-144 | each sum is the amount of these rows, and the devices are the distinct known ones of a day |
| `TemporalFeatures.RecencyOnTable` | ml-service/data_pipeline/temporal_features.py:89-101 | a card is new exactly when no earlier row carries it, and then has no gap and no age |
| `TemporalFeatures.SincePrevOnTable` | ml-service/data_pipeline/temporal_features.py:104-105 | otherwise the gap is the time since the card's last earlier row, not below 0 |
| `TemporalFeatures.AgeOnTable` | ml-service/data_pipeline/temporal_features.py:104 | and the age the days since its first row, not below 0 |
| `TemporalFeatures.DeviceOnTable` | ml-service/data_pipeline/temporal_features.py:74-184 | a device is new when it is unknown or on no earlier row, and its cards are the distinct ones on earlier rows of the past day |
| `TemporalFeatures.ScoreOnTable` | ml-service/data_pipeline/temporal_features.py:117-164 | the score is taken against the amounts of the card's earlier rows, in order |
| `TemporalFeatures.EnginesAgree` | ml-service/data_pipeline/temporal_features.py:119-141 | on time-ordered cards the pruned velocity equals the unpruned count plus the row itself, for all five windows |
| `BayesRisk.LossGap` | ml-service/serve.py:463-464 | allowing costs more than declining by the exposed share of the probability less the false-positive cost |
| `BayesRisk.LossIsMean` | ml-service/serve.py:463-464 | each expected loss is the mean over the two outcomes: a fraud allowed costs the surcharged amount, a good payment declined the false-positive cost, and nothing else costs |
| `BayesRisk.FormsAgreeIff` | ml-service/serve.py:461-466 | the loss comparison and the hurdle test agree at every probability exactly when the exposure is positive; otherwise the gateway declines above one half |
| `BayesRisk.ShadowNeverStricter` | ml-service/monitoring/production_shadow_gateway.py:207-215 | the shadow policy declines only what production declines; a flip is a probability strictly between hurdle and floor and forgoes a positive, bounded loss |
| `BayesRisk.FlipPossibleIff` | ml-service/monitoring/production_shadow_gateway.py:187-215 | some probability flips at an amount exactly when the false-positive cost is below the floor's share of the exposure |
| `BayesRisk.DefaultFlipThreshold` | ml-service/monitoring/production_shadow_gateway.py:184-215 | with costs 25 and 1.05 and floor 0.040 an amount can flip exactly above 4000/7 |
| `Escalation.ProductionTelemetryCollector.ComputeWindowTelemetry` | ml-service/monitoring/production_telemetry.py:211-323 | classifies the window by its thresholds and steps the three fields; an empty window changes nothing |
| `Escalation.ClassifyIff` | ml-service/monitoring/production_telemetry.py:286-297 | the thresholds that make a window critical, and those under all of which it is normal |
| `Escalation.ClassifyMonotone` | ml-service/monitoring/production_telemetry.py:286-297 | a window that is nowhere better is never put in a better class |
| `Escalation.AutomatonClosedForm` | ml-service/monitoring/production_telemetry.py:299-323 | counter and state are a function of the critical windows since the last two adjacent normal ones and of the last two windows |
| `Escalation.ChangeRequestIffFiveCriticals` | ml-service/monitoring/production_telemetry.py:310-321 | a change request is required exactly with at least five such critical windows; critical exactly with fewer and a critical last one; normal exactly after two normal windows or a single first one |
| `Escalation.ChangeRequestLeftOnlyWhenQuiet` | ml-service/monitoring/production_telemetry.py:302-305 | a required change request ends on a second consecutive normal window and on nothing else |
| `Escalation.CriticalsNeedNotBeConsecutive` | ml-service/monitoring/production_telemetry.py:311-313 | five critical windows with a normal one between each pair still require a change request |
| `OutcomeStore.ShadowEvaluationTelemetryStore.RecordPrediction` | ml-service/evaluation/shadow_evaluator.py:60-110 | refuses a missing id, ignores a repeated one, and otherwise stores the snapshot with its derived provenance |
| `OutcomeStore.ShadowEvaluationTelemetryStore.AttributeOutcome` | ml-service/evaluation/shadow_evaluator.py:112-184 | refuses orphans and outcomes before the transaction, ignores repeats, and resolves conflicts towards fraud |
| `OutcomeStore.RunKeepsInv` | ml-service/evaluation/shadow_evaluator.py:127-178 | in every run labels belong to recorded predictions, are not dated before them, and their maturity flag is the true one |
| `OutcomeStore.SnapshotIsFirst` | ml-service/evaluation/shadow_evaluator.py:60-72 | the stored snapshot is the first one recorded, whatever follows |
| `OutcomeStore.ProvenanceExact` | ml-service/evaluation/shadow_evaluator.py:74-106 | its fields are those of the first call recording the id; it is live, synthetic or replay exactly when that call says so or, saying nothing, carries the marks for it |
| `OutcomeStore.LiveIff` | ml-service/evaluation/shadow_evaluator.py:74-83 | in every run the live predictions are exactly the ids whose first recording names live production, or names nothing and is neither synthetic, test nor replay |
| `OutcomeStore.Unrecorded` | ml-service/evaluation/shadow_evaluator.py:127-128 | an id never recorded has neither snapshot nor label |
| `OutcomeStore.FlagIsDisjunction` | ml-service/evaluation/shadow_evaluator.py:142-178 | with 0/1 outcomes the stored flag is the disjunction of all accepted outcomes, in whatever order |
| `OutcomeStore.TimeIsOfLastDeciding` | ml-service/evaluation/shadow_evaluator.py:145-163 | time and maturity are those of the last outcome that differed from the stored flag, so a fraud reported early stays immature under repetition |
| `OutcomeStore.SourceIsOfLastDeciding` | ml-service/evaluation/shadow_evaluator.py:153-178 | so is the source, marked as an override and a conflict exactly when an outcome had been accepted before |
| `OutcomeStore.PromotesIff` | ml-service/evaluation/shadow_evaluator.py:351-420 | all six statuses are live-validated exactly under these thresholds, including a minimum of 100 labelled outcomes that no gate names and at most three disagreements in twenty live predictions |
| `OutcomeStore.GateStatusIff` | ml-service/evaluation/shadow_evaluator.py:390-404 | the status of a gate from the sample size, its minimum, the test and the source |
| `GraphIndex.TemporalHeteroGraphDataset.AddNode` | ml-service/graphsage/graph_dataset.py:28-29 | the node table maps the id to the node |
| `GraphIndex.TemporalHeteroGraphDataset.FinalizeIndices` | ml-service/graphsage/graph_dataset.py:46-49 | every list becomes time-ordered with the same entries |
| `GraphIndex.TemporalHeteroGraphDataset.GetValidNeighborIds` | ml-service/graphsage/graph_dataset.py:99-107 | the ids of the slice before the bisection point |
| `GraphIndex.TemporalHeteroGraphDataset.Collect` | ml-service/graphsage/graph_dataset.py:76-79 | the hop so far becomes exactly the known ids drawn for it and not met before, in the order first drawn, each once |
| `GraphIndex.SortExact` | ml-service/graphsage/graph_dataset.py:49 | sorting by time only orders the list and keeps its entries |
| `GraphIndex.SortStable` | ml-service/graphsage/graph_dataset.py:49 | entries with equal stamps keep their order |
| `GraphIndex.ScanExact` | ml-service/graphsage/graph_dataset.py:31-44 | the scan of a node holds exactly the added edges at it, each with the other end, stamp and kind |
| `GraphIndex.SentinelExact` | ml-service/graphsage/graph_dataset.py:105-107 | that search is right for all time-sorted lists over an alphabet of entries exactly when no entry of it sorts above the sentinel |
| `GraphIndex.PlainIdsAreBelow` | ml-service/graphsage/graph_dataset.py:106 | every id whose first character is below chr(255) is harmless |
| `GraphIndex.SliceIsScan` | ml-service/graphsage/graph_dataset.py:99-107 | on a finalized dataset with such ids the slice is a permutation of a linear scan of all added edges up to the instant |
| `Calibration.BinIsInterval` | ml-service/calibration/calibrator.py:61-63 | on [0, 1] the digitized and clipped index is b exactly in the b-th half-open interval, the last one closed |
| `Calibration.BinIsFloor` | ml-service/calibration/calibrator.py:61-63 | that is the whole part of the probability times the number of bins, and the last bin at 1 |
| `Calibration.FormsAgreeIff` | ml-service/evaluation/shadow_evaluator.py:26-41 | on probabilities the two mask forms return the calibrator's value rounded to four decimals, so all three agree exactly when there is a sample and rounding leaves the value unchanged |
| `Calibration.BinsPartition` | ml-service/calibration/calibrator.py:68-76 | bin sizes add up to n and signed bin errors to the overall one |
| `Calibration.BinCounts` | ml-service/calibration/calibrator.py:68-71 | a bin holds each of its samples as often as the input does, and no other |
| `Calibration.EceAdds` | ml-service/calibration/calibrator.py:54-55 | split the bins in two: n times the ECE is the sum of the same for the samples of either part |
| `Calibration.EceOfOneBin` | ml-service/calibration/calibrator.py:54-55 | for samples of one bin it is the distance of the summed labels from the summed probabilities; with the additivity this fixes the ECE |
| `Calibration.EceBounds` | ml-service/calibration/calibrator.py:54-55 | overall miscalibration is at most the ECE, and the ECE at most any bound on the bin errors |
| `Calibration.BinErrorsAtMostOne` | ml-service/calibration/calibrator.py:75 | with 0/1 labels and probabilities every bin error is at most 1 |
| `Calibration.EceAtMostReportedMaximum` | ml-service/calibration/calibrator.py:102-105 | the ECE exceeds the reported maximum, taken over rounded errors, by at most half a unit of its fourth decimal |
| `Calibration.EceCanExceedReportedMaximum` | ml-service/calibration/calibrator.py:88 | one sample at 0.00004 makes the ECE exceed it |
| `Calibration.MaximumBoundsEceIff` | ml-service/calibration/calibrator.py:94-105 | the reported maximum is at least the ECE, on the samples of every choice of bins, exactly when no bin's error is rounded down |
| `Maturation.LabelMaturationEngine.RegisterTransaction` | ml-service/graphsage/label_maturation.py:58-67 | a fresh unlabelled record, pending and without case, replaces any earlier one of the id; all others stay |
| `Maturation.LabelMaturationEngine.FlagSuspected` | ml-service/graphsage/label_maturation.py:69-77 | only an unlabelled record becomes suspected, in its state alone; all others stay |
| `Maturation.LabelMaturationEngine.OpenInvestigation` | ml-service/graphsage/label_maturation.py:79-87 | any known record comes under investigation with the case and its opening time; nothing else changes |
| `Maturation.LabelMaturationEngine.ConfirmLabel` | ml-service/graphsage/label_maturation.py:89-113 | sets state, source, both times, collusion and confidence as given, and the case if one is named; an unknown id is registered one window earlier |
| `Maturation.LabelMaturationEngine.AutoMatureCleanTransactions` | ml-service/graphsage/label_maturation.py:115-127 | exactly the unlabelled records whose event is the window of days old become legitimate, dated at the end of their window, and are counted |
| `Maturation.MaturationComposes` | ml-service/graphsage/label_maturation.py:115-127 | maturing at t1 and then t2 leaves the records, and adds up to the count, of maturing at t2 alone |
| `Maturation.MaturationTouchesOnlyRipe` | ml-service/graphsage/label_maturation.py:119-126 | a timeout alters exactly the unlabelled records whose window has passed and never dates a label after the instant it runs for |
| `Maturation.StateFollowsHistory` | ml-service/graphsage/label_maturation.py:58-127 | in every run a state is fixed by the last deciding call, else by the first flag or due timeout after it |
| `Maturation.FlagAgainstTimeout` | ml-service/graphsage/label_maturation.py:69-127 | a record last decided by its registration is suspected exactly when some flag came before every due timeout, and legitimate exactly when some due timeout came before every flag |
| `Maturation.FraudOnlyByConfirmation` | ml-service/graphsage/label_maturation.py:89-105 | a record is confirmed fraud exactly when the last call that registered, opened or confirmed it is a confirmation carrying that state |
| `Maturation.InvestigationIsNotMatured` | ml-service/graphsage/label_maturation.py:79-87 | an open investigation survives every flag and timeout |
| `Concentration.CounterExact` | ml-service/graphsage/relationship_features.py:68-69 | the counter has distinct keys, exactly the listed accounts, and counts adding up to the list |
| `Concentration.EntriesCount` | ml-service/graphsage/relationship_features.py:68-69 | and the count of each is the number of its occurrences in the list |
| `Concentration.HhiBounds` | ml-service/graphsage/relationship_features.py:66-72 | over k distinct accounts the index lies in [1/k, 1], and is 1 exactly for k = 1 |
| `Concentration.CauchySchwarz` | ml-service/graphsage/relationship_features.py:70 | the squared total is at most the number of accounts times the sum of squared counts |
| `Concentration.ConcentratedIff` | ml-service/graphsage/collusion_tracker.py:74-78 | the test over shares is one in whole numbers |
| `Concentration.FewAccountsAreConcentrated` | ml-service/graphsage/collusion_tracker.py:71-79 | three or more accesses confined to at most three accounts always count |
| `Concentration.EvenSpreadConcentratedIff` | ml-service/graphsage/collusion_tracker.py:78 | accesses spread evenly over the accounts count exactly when these are fewer than four |
| `Concentration.CollusionAccumulationTracker.ProcessEdge` | ml-service/graphsage/collusion_tracker.py:44-63 | every field changes by what this edge adds, and stays the accumulation of all edges processed so far |
| `Concentration.CollusionAccumulationTracker.ObserveEmployee` | ml-service/graphsage/collusion_tracker.py:48-49 | the observed employees stay the employee sources of all edges |
| `Concentration.CollusionAccumulationTracker.CountMentions` | ml-service/graphsage/collusion_tracker.py:56-63 | the three counters stay the numbers of edges whose kind names an approval, a device or an address |
| `Concentration.CollusionAccumulationTracker.RecordAccess` | ml-service/graphsage/collusion_tracker.py:51-54 | accesses go to the employee's list, off-hours ones to the counter |
| `Concentration.CollusionAccumulationTracker.CountConcentrated` | ml-service/graphsage/collusion_tracker.py:71-79 | the loop counts exactly the sources whose accesses over the whole log are concentrated |
| `Concentration.CountedAreConcentrated` | ml-service/graphsage/collusion_tracker.py:71-79 | a source is counted exactly when its accesses over the whole log are concentrated |
| `Concentration.MinDelta` | ml-service/graphsage/relationship_features.py:74-85 | the nested loops find the smallest delay from an edge to a later transaction, capped at 999999 |
| `Concentration.ExtractScore` | ml-service/graphsage/relationship_features.py:19-118 | concentration, proximity and score as computed, zeros without edges |
| `Concentration.ScoreBounds` | ml-service/graphsage/relationship_features.py:100-102 | the score lies in [0, 1] and is 1 exactly when all three parts are at their worst |
| `Concentration.ScoreParts` | ml-service/graphsage/relationship_features.py:100-102 | each part weighs 0.40, 0.30 or 0.30; proximity is full up to 100 seconds and falls inversely from there |
| `Concentration.TouchesExact` | ml-service/graphsage/relationship_features.py:52-58 | an account is touched as often as edges name it as their target |
| `Concentration.OffHoursExact` | ml-service/graphsage/relationship_features.py:60-61 | off hours are before 7, from 19 on, and the last two days of the week |
| `Concentration.ExtractedScoreBounds` | ml-service/graphsage/relationship_features.py:100-102 | on any edges the score is in [0, 1], and 1 exactly for a single account, all off hours, with a transaction within 100 seconds |
| `CostPolicy.ChooseIsCheapest` | ml-service/calibration/cost_policy.py:63-67 | the chosen action is available, none available is cheaper, and every milder one is dearer |
| `CostPolicy.ExactCostsAreMeans` | ml-service/calibration/cost_policy.py:45-51 | each exact cost is the mean of what the action costs for a fraud and for a good customer; amounts below 1 count as 1 and scores outside [0, 1] as the nearer end |
| `CostPolicy.ChoiceWithinOneCent` | ml-service/calibration/cost_policy.py:59-68 | choosing on rounded costs loses at most one cent of exact cost against every available action |
| `CostPolicy.ExactChoiceMonotone` | ml-service/calibration/cost_policy.py:49-51 | on exact costs the choice moves only from allow over review to decline as the probability grows |
| `CostPolicy.RoundedChoiceMonotoneExceptNearTies` | ml-service/calibration/cost_policy.py:59-68 | on rounded costs the only step back is from review to allow, and then the two exact costs are within a cent at both probabilities; without review there is none |
| `CostPolicy.NeverReversesIff` | ml-service/calibration/cost_policy.py:41-68 | an engine never steps back, at any amount, exactly when fraud costs nothing or no whole cent n is a level of reversal: review's cost rounds below n where allowing starts to round to n, no more where it stops, and declining can cost n |
| `CostPolicy.OneLevelDecides` | ml-service/calibration/cost_policy.py:41-68 | with a non-negative review cost only the first cent above break-even has to be tested, and with residual rate 1 none |
| `CostPolicy.DefaultsNeverReverse` | ml-service/calibration/cost_policy.py:27-34 | the default engine never steps back |
| `CostPolicy.RateNeverReversesIff` | ml-service/calibration/cost_policy.py:50 | the residual rates at which no engine with a non-negative review cost steps back are 0 and 1 |
| `CostPolicy.RoundedChoiceNotMonotone` | ml-service/calibration/cost_policy.py:54-56 | a concrete engine where a higher probability turns review into allow |
| `ExpectedLoss.LossIsConcave` | ml-service/evaluation/shadow_evaluator.py:271-275 | the four-action loss has at every probability a line that meets it there and is nowhere below it |
| `ExpectedLoss.LossIsLeastMean` | ml-service/evaluation/shadow_evaluator.py:271-277 | the loss is the least of the four mean costs, where a review lets a twentieth of a fraud through and a challenge puts friction on good customers only |
| `ExpectedLoss.FpCostCases` | ml-service/evaluation/shadow_evaluator.py:265-269 | the false-positive cost is twice the amount between its two bounds below 250, and from 250 on the declined share, at least the upper bound |
| `ExpectedLoss.AveragingScoresCosts` | ml-service/evaluation/shadow_evaluator.py:371-372 | for any list of probabilities the total loss is at most the list's size times the loss at the mean |
| `TemporalFeatures.MeasureCard` | ml-service/data_pipeline/temporal_features.py:98-153 | the scan of a card's history yields its age, the gap, the window counts, sums, devices and the acceleration |
| `TemporalFeatures.ScoreAmount` | ml-service/data_pipeline/temporal_features.py:117-164 | the loop collects the past amounts, and the score is the clipped distance from their mean in deviations, 0 with fewer than two or a negligible deviation |
| `TemporalFeatures.CardStep` | ml-service/data_pipeline/temporal_features.py:82-167 | measures and scores against the history before the row, then appends the row |
| `TemporalFeatures.ExtractPointInTimeTemporalFeatures` | ml-service/data_pipeline/temporal_features.py:68-184 | every row holds the features of its card's and device's history before it |
| `TemporalFeatures.ScoreExact` | ml-service/data_pipeline/temporal_features.py:156-162 | the score lies in [-5, 10], meets a clip exactly ten deviations above or five below the mean, and otherwise gives the amount back |
| `TemporalFeatures.ConstantHistoryScoresZero` | ml-service/data_pipeline/temporal_features.py:156-162 | against equal past amounts, whose deviation squared is their variance, every amount scores 0 |
| `TemporalFeatures.FeaturesCausal` | ml-service/data_pipeline/temporal_features.py:68-184 | two tables agreeing before a row, and on its card, device and time, give it the same features, and the same score too if the row's own amount agrees |
| `BayesRisk.EnforcedDecisionIsOptimal` | ml-service/monitoring/production_shadow_gateway.py:184-189 | with any costs and a positive exposure both forms decide alike and minimise expected loss |
| `BayesRisk.DefaultDecisionIsOptimal` | ml-service/monitoring/production_shadow_gateway.py:184-189 | at every non-negative amount the default costs decline exactly when 25 < p (1.05 amount + 25), in both forms, and that minimises expected loss |
| `ShadowGateway.ProductionShadowGatewayPipeline.constructor` | ml-service/monitoring/production_shadow_gateway.py:71-127 | starts from what the two files hold, later lines of an id replacing earlier ones in place |
| `ShadowGateway.ProductionShadowGatewayPipeline.CheckProvenanceAndReplay` | ml-service/monitoring/production_shadow_gateway.py:155-182 | unproved live claims and unknown tiers become untrusted and are counted; a seen id is a duplicate; the live time span and the collector follow fresh proved events only |
| `ShadowGateway.ProductionShadowGatewayPipeline.EvaluateAndRoute` | ml-service/monitoring/production_shadow_gateway.py:129-303 | routes by the production policy alone whatever the shadow does, and records a flip in index and log only when first seen, surviving a failed append |
| `ShadowGateway.ProductionShadowGatewayPipeline.IngestDelayedDispute` | ml-service/monitoring/production_shadow_gateway.py:305-375 | indexes and logs the dispute; labels a matching flip by maturity and verdict and rewrites the file, or raises there when the reported date is no instant |
| `ShadowGateway.ProductionShadowGatewayPipeline.FlushShadowFlipsToDisk` | ml-service/monitoring/production_shadow_gateway.py:377-384 | the file becomes the index in entry order |
| `ShadowGateway.ProductionShadowGatewayPipeline.GetShadowEvidenceSummary` | ml-service/monitoring/production_shadow_gateway.py:386-405 | the three label groups partition a tier's flips; unlabelled ones are never counted as mature |
| `ShadowGateway.TallyCounts` | ml-service/monitoring/production_shadow_gateway.py:386-405 | a group is the number of distinct ids of that tier and label |
| `ShadowGateway.LoadExact` | ml-service/monitoring/production_shadow_gateway.py:105-117 | a file without repeated ids loads line for line |
| `ShadowGateway.LoadKeepsLast` | ml-service/monitoring/production_shadow_gateway.py:105-117 | of any file an id is loaded exactly if it has a line, and as its last line |
| `ShadowGateway.LoadKeepsOrder` | ml-service/monitoring/production_shadow_gateway.py:105-117 | and the entries come in the order of their first lines |
| `ShadowGateway.StepKeepsInv` | ml-service/monitoring/production_shadow_gateway.py:171-177 | no call, restart or write failure breaks one entry per id in memory and on disk, lets a recorded id count as new, or hands an id to the collector twice between restarts |
| `ShadowGateway.Run` | ml-service/monitoring/production_shadow_gateway.py:129-384 | every run from empty stores, with restarts and failures anywhere, keeps that invariant |
| `ShadowGateway.FlipLogExact` | ml-service/monitoring/production_shadow_gateway.py:246-270 | in every run the flip log holds, in entry order, exactly the entries but for those whose append failed since the last rewrite or restart, each with its outcome as last written |
| `ShadowGateway.DisputeLogExact` | ml-service/monitoring/production_shadow_gateway.py:333-340 | the dispute log holds exactly the disputes whose append succeeded |
| `ShadowGateway.DisputesExact` | ml-service/monitoring/production_shadow_gateway.py:331-340 | in every run the dispute index is what the log reads back as, overlaid with the disputes whose append failed and that no later dispute of their id or restart replaced |
| `ShadowGateway.RecoveryExact` | ml-service/monitoring/production_shadow_gateway.py:105-127 | after any run, with any failures, a restart yields exactly the flips not missing, in order, each with its outcome as last written; all ids come back exactly when none is missing; the dispute index lacks exactly the overlay of lost disputes |
| `ShadowGateway.RecoveryComplete` | ml-service/monitoring/production_shadow_gateway.py:105-127 | the reload rebuilds the entry order exactly when no entry is missing, the flip index exactly when moreover every outcome left in the log is that of its entry, and the dispute index exactly when each lost dispute repeats the last logged one of its id |
| `ShadowGateway.LostAppendIsLost` | ml-service/monitoring/production_shadow_gateway.py:265-270 | one failed append and a restart lose exactly that flip |
| `ShadowGateway.RecordedIff` | ml-service/monitoring/production_shadow_gateway.py:171-177 | without write failures the index holds an id exactly when a flipping evaluation met it unseen, and only one ever did |
| `ShadowGateway.LabelsFollowDisputes` | ml-service/monitoring/production_shadow_gateway.py:346-365 | without write failures a flip is unlabelled exactly if no dispute for it, dated by an instant, came after it was recorded, and else carries the label of the last such one, across restarts |
| `ShadowGateway.FlipFieldsExact` | ml-service/monitoring/production_shadow_gateway.py:246-365 | without write failures, restarts anywhere: every field of a flip is that of the one evaluation that recorded it, and every field of its label that of the last dispute dated by an instant; mature fraud exactly when that is a full window after the evaluation and says fraud, mature legitimate when it says otherwise, pending when earlier |
| `ShadowGateway.CountersExact` | ml-service/monitoring/production_shadow_gateway.py:155-182 | in every run, since the last restart: the counters count repeated ids, unproved tiers and failed appends; the collector got the signed live evaluations of unseen ids in order, the live span reaches from the first to the last of them; seen are the ids evaluated and loaded |
| `ShadowGateway.DisputeLabelsIff` | ml-service/monitoring/production_shadow_gateway.py:331-351 | a dispute enters index and log whatever its date, and labels an unlabelled flip exactly when its date is an instant |
| `OutcomeStore.CleanOutcomeRipensFraud` | ml-service/evaluation/shadow_evaluator.py:153-163 | an early fraud outcome and a ripe clean one leave a matured fraud label with no matured fraud outcome |
| `OutcomeStore.RipenedFraudExample` | ml-service/evaluation/shadow_evaluator.py:153-163 | for instance fraud at second 1 and clean at second 100 with a maturation time of 60 |
| `OutcomeStore.EvidencedIffUnmixed` | ml-service/evaluation/shadow_evaluator.py:139-178 | in all runs over a set of outcomes every matured fraud label has a matured fraud outcome exactly when the set does not hold both an early fraud and a ripe clean one |
| `OutcomeStore.EarlyOutcomeDelaysFraud` | ml-service/evaluation/shadow_evaluator.py:144-163 | an early fraud outcome before a ripe one, or an early clean one after it, leaves the label immature |
| `OutcomeStore.MaturesIffUndelayed` | ml-service/evaluation/shadow_evaluator.py:139-178 | in all runs over a set of outcomes every ripe fraud outcome leaves a matured fraud label exactly when the set does not hold both a ripe fraud and an early outcome |
| `OutcomeStore.FraudSumCounts` | ml-service/evaluation/shadow_evaluator.py:319 | for 0/1 flags the sum is the number of distinct fraud predictions |
| `OutcomeStore.FraudSumSplits` | ml-service/evaluation/shadow_evaluator.py:319 | the sum is the number of distinct frauds plus the sum of the flags other than 1 |
| `OutcomeStore.FraudSumCountsIff` | ml-service/evaluation/shadow_evaluator.py:319 | the sum counts distinct frauds, on the labels and every part of them, exactly when all their flags are 0 or 1 |
| `OutcomeStore.PromotionIsEvidenced` | ml-service/evaluation/shadow_evaluator.py:406-420 | promotion with maturity required means 10,000 live predictions and 50 distinct live ones with an accepted fraud outcome and a label dated at least the maturation time after the transaction |
| `OutcomeStore.PromotionOnRipeFrauds` | ml-service/evaluation/shadow_evaluator.py:406-420 | where early frauds and ripe clean outcomes do not both come, the 50 have fraud outcomes attributed at least that late |
| `OutcomeStore.FlagsOtherThanBinaryInflateTheCount` | ml-service/evaluation/shadow_evaluator.py:171-172 | one label carrying 50 counts as fifty frauds |
| `GraphIndex.TemporalHeteroGraphDataset.AddEdge` | ml-service/graphsage/graph_dataset.py:31-44 | replaces the edge in the table and appends one entry at each end, keeping the index a permutation of the scan of all added edges |
| `GraphIndex.TemporalHeteroGraphDataset.Sample` | ml-service/graphsage/graph_dataset.py:68-74 | all neighbours when there are at most size, else those at size distinct positions, which are handed back |
| `GraphIndex.TemporalHeteroGraphDataset.SecondHop` | ml-service/graphsage/graph_dataset.py:81-95 | the second hop is exactly the known ids at the drawn positions of the first-hop nodes, new, in the order first drawn, each once; all positions are drawn for a node with at most s1 neighbours, else s1 distinct ones |
| `GraphIndex.TemporalHeteroGraphDataset.HopComplete` | ml-service/graphsage/graph_dataset.py:61-95 | of a node with at most size neighbours every known one is in the next hop or was met before; with plain ids on a finalized dataset, every known node joined to it by an edge stamped by the instant |
| `GraphIndex.TemporalHeteroGraphDataset.GetPointInTimeNeighbors` | ml-service/graphsage/graph_dataset.py:51-97 | for every sampling and all ids both hops are exactly the known ids drawn and not met before, without duplicates, within s0 and s0*s1; no known neighbour of a node that fits its sample is missing; on a finalized dataset every member is joined to the hop before by an edge stamped by the instant, and with plain ids nothing so joined is missing |
| `GraphIndex.BisectCuts` | ml-service/graphsage/graph_dataset.py:106 | the binary search over triples cuts a list sorted by time alone exactly after its timely entries, when none sorts above the sentinel |
| `GraphIndex.SliceBounds` | ml-service/graphsage/graph_dataset.py:105-107 | whatever the ids, the slice of a time-sorted list holds no entry later than the instant and every entry earlier than it |
| `GraphIndex.SliceIdsAreNeighbours` | ml-service/graphsage/graph_dataset.py:99-107 | whatever the ids, those handed out are joined by an edge stamped by the instant and none joined by an earlier edge is missing; with plain ids they are exactly the joined ones |
| `GraphIndex.IndexMatchesTableIff` | ml-service/graphsage/graph_dataset.py:31-44 | the index agrees with the edges in the dataset's table, taken in any order, exactly when no edge id was added twice |
| `Calibration.ComputeExpectedCalibrationError` | ml-service/calibration/calibrator.py:48-91 | the digitize-and-clip loop computes the weighted mean bin error and one rounded record per bin |
| `Calibration.MakeRecord` | ml-service/calibration/calibrator.py:72-89 | a bin's record: range, size, mean probability, fraud frequency and error, rounded, and the midpoint for an empty bin |
| `Calibration.RecordExact` | ml-service/calibration/calibrator.py:72-89 | a non-empty bin's record: index, range of width one over the number of bins, size, and the rounded mean probability, mean label and distance of the two |
| `Calibration.EmptyRecordExact` | ml-service/calibration/calibrator.py:72-89 | an empty bin reports the middle of its range and no error |
| `Calibration.ComputeCalibrationMetrics` | ml-service/calibration/calibrator.py:94-105 | the error of the first form and the largest recorded error of the non-empty bins |
| `Calibration.ComputeEce` | ml-service/evaluation/shadow_evaluator.py:26-41 | the interval-mask loop computes the weighted mean bin error, rounded to four decimals, and 1 for no samples |
| `Calibration.ComputeGraphEce` | ml-service/graphsage/evaluate.py:21-42 | the proportion-weighted loop computes the same, and fails for no samples |
| `DedupCache.RememberExact` | ml-service/graphsage/passive_ingestion.py:117-122 | taking in a new id keeps set and deque in the closed form of all ids taken in, through growth, the first overflow and ever after |
| `DedupCache.CacheRemembers` | ml-service/graphsage/passive_ingestion.py:57-60 | what is remembered: all while at most N came, then the last N - 1 and the first; at most N ids, at most one of them outside the deque |
| `DedupCache.CapthLastIsForgotten` | ml-service/graphsage/passive_ingestion.py:87-90 | once more than N distinct ids came, the N-th last would be accepted again |
| `Payloads.ConversionFailsIff` | ml-service/graphsage/passive_ingestion.py:131-167 | conversion raises exactly when an audit event naming both ends names one by a non-text or carries an action that cannot be searched, or a transaction's amount is not convertible to a float |
| `Payloads.AccessExact` | ml-service/graphsage/passive_ingestion.py:133-154 | a stored edge leads from the employee's text to the account's, stamped by the event; an approval if the action mentions one, else a review if it mentions one, else an access |
| `Payloads.TransactionExact` | ml-service/graphsage/passive_ingestion.py:155-167 | a stored transaction carries id, account, amount and currency as delivered, 0 and US dollars where absent |
| `Payloads.NothingStoredIff` | ml-service/graphsage/passive_ingestion.py:133-167 | nothing is stored exactly for other topics and where an end or an id is missing or falsy |
| `Payloads.FollowUpRaisesIff` | ml-service/graphsage/shadow_telemetry.py:128-143 | a converted event raises afterwards exactly on a transaction id that is neither empty nor a text |
| `Payloads.FollowUpMatchesItems` | ml-service/graphsage/shadow_telemetry.py:128-143 | the tracker is called exactly for stored accesses, with their ends, and every stored transaction is registered or raises |
| `Payloads.RegisterIff` | ml-service/graphsage/shadow_telemetry.py:140-143 | a registration is of the non-empty text under the transaction id, at the stamp of the event |
| `Payloads.AbcIsNoFloat` | ml-service/graphsage/passive_ingestion.py:158 | the text abc is not convertible |
| `Payloads.DecimalTexts` | ml-service/graphsage/passive_ingestion.py:158 | digits, digits with a point, and either with a signed exponent are convertible |
| `Payloads.FloatNeedsDigit` | ml-service/graphsage/passive_ingestion.py:158 | a convertible text has a digit or is one of three words |
| `Payloads.TextAmountFails` | ml-service/graphsage/passive_ingestion.py:158 | a transaction with the amount abc does not convert |
| `Payloads.NumericIdRaisesLate` | ml-service/graphsage/shadow_telemetry.py:140-143 | a transaction with a numeric id converts, is stored, and raises on registration |
| `Ingestion.PassiveShadowIngestionAdapter.ConsumeEvent` | ml-service/graphsage/passive_ingestion.py:68-129 | the outcomes with every counter, the dead-letter list, the clock, the cache and the graph store as they then stand, exceptions included |
| `Ingestion.ConsumeExact` | ml-service/graphsage/passive_ingestion.py:68-129 | which outcome an event has before its conversion, and for every outcome each field: counters, clock, late count, dead letters, cache and store |
| `Ingestion.PassiveShadowIngestionAdapter.ScreenEvent` | ml-service/graphsage/passive_ingestion.py:98-129 | quarantine before the cache, the cache before the conversion, the count after it |
| `Ingestion.PassiveShadowIngestionAdapter.RecordSeen` | ml-service/graphsage/passive_ingestion.py:117-122 | the set and the bounded deque after the update, failing on an empty deque |
| `Ingestion.PassiveShadowIngestionAdapter.IngestToGraphStore` | ml-service/graphsage/passive_ingestion.py:131-167 | adds the edge or transaction that the payload names, nothing where an id is empty, and fails where the conversion does |
| `Ingestion.PassiveShadowTelemetryEngine.StartEngine` | ml-service/graphsage/shadow_telemetry.py:85-90 | only a stopped engine starts, and with a new thread even while an earlier one lives |
| `Ingestion.PassiveShadowTelemetryEngine.EnqueueEvent` | ml-service/graphsage/shadow_telemetry.py:98-115 | accepts exactly when the queue is not full and otherwise counts a rejection |
| `Ingestion.PassiveShadowTelemetryEngine.AccountFor` | ml-service/graphsage/shadow_telemetry.py:126-143 | counts the event, then makes the call its topic asks for, or raises |
| `Ingestion.PassiveShadowTelemetryEngine.ProcessEventSync` | ml-service/graphsage/shadow_telemetry.py:117-144 | a direct call consumes the event, counts it when ingested and follows it up |
| `Ingestion.PassiveShadowTelemetryEngine.WorkerTest` | ml-service/graphsage/shadow_telemetry.py:148 | a thread at its test goes on while the engine runs and ends otherwise |
| `Ingestion.PassiveShadowTelemetryEngine.WorkerGet` | ml-service/graphsage/shadow_telemetry.py:149-150 | a waiting thread takes the oldest queued event, even just after a stop, or returns to its test when there is none |
| `Ingestion.PassiveShadowTelemetryEngine.WorkerProcess` | ml-service/graphsage/shadow_telemetry.py:151-154 | the taken event is processed, and any exception ends the thread |
| `Ingestion.NextBalances` | ml-service/graphsage/shadow_telemetry.py:98-154 | each step of producers, threads or callers keeps the books balanced |
| `Ingestion.EveryRunConserves` | ml-service/graphsage/shadow_telemetry.py:98-154 | in every interleaving attempts equal finished plus queued plus in hand plus refused; the outcomes partition the consumed events, those raising late being among the sanitized; store and downstream calls are those of the ingested events in order; the threads take a prefix of the accepted events in order |
| `ThreadOrder.OneThreadKeepsOrder` | ml-service/graphsage/shadow_telemetry.py:146-154 | in every run that starts no thread beside a living one, finished, in hand and queued are together the accepted events in their order |
| `ThreadOrder.TwoThreadsOvertake` | ml-service/graphsage/shadow_telemetry.py:146-154 | from any state of a running engine with two live threads whose unfinished events differ, some continuation without a start finishes out of order |
| `ThreadOrder.OrderKeptIff` | ml-service/graphsage/shadow_telemetry.py:146-154 | a running engine that has finished in order, its unfinished events different, does so in every continuation without a second start exactly when at most one thread lives |
| `ThreadOrder.StartKeepsOrderIff` | ml-service/graphsage/shadow_telemetry.py:85-96 | a start of a stopped engine is safe in this sense exactly when no earlier thread is alive |
| `ThreadOrder.SecondThreadOvertakes` | ml-service/graphsage/shadow_telemetry.py:85-96 | one such run: whatever the first two events, a stop and a start while the first is in hand let the second be finished before it |
| `Ingestion.DuplicatesExact` | ml-service/graphsage/passive_ingestion.py:87-90 | in every run with capacity at least 1, an event is dropped as a duplicate exactly when its id is the first or among the last N - 1 taken in, or among all while at most N were |
| `Ingestion.ProcessRaisesIff` | ml-service/graphsage/passive_ingestion.py:75-82 | processing raises exactly on an unseen event with a time stamp of the other kind than the last, or not quarantined and breaking a schema; after the count exactly when only the transaction id is at fault |
| `Ingestion.ThreadEndsIff` | ml-service/graphsage/shadow_telemetry.py:149-154 | a thread ends with the event it holds exactly when that event is fatal at that moment |
| `Ingestion.UnsoundEventEndsThread` | ml-service/graphsage/shadow_telemetry.py:149-154 | any payload breaking a schema ends the only thread of a running engine, counted exactly if it converts |
| `Ingestion.TextAmountEndsThread` | ml-service/graphsage/passive_ingestion.py:158 | the amount abc does so before the count |
| `Ingestion.NumericIdEndsThread` | ml-service/graphsage/shadow_telemetry.py:143 | a numeric transaction id does so after it, stored and sanitized |
| `Ingestion.ClockClashRaises` | ml-service/graphsage/passive_ingestion.py:93 | two events with stamps of different kinds raise, whatever their payloads |
| `Ingestion.HarmoniousRunsStayHealthy` | ml-service/graphsage/shadow_telemetry.py:146-154 | over sound bodies with stamps of one kind nothing raises in any run, and a running engine has a live thread |
| `Ingestion.NoRunRaisesIff` | ml-service/graphsage/passive_ingestion.py:75-82 | no run over a set of bodies raises exactly when every body is sound and all stamps are of one kind |
| `Ingestion.DeadEngineStaysDead` | ml-service/graphsage/shadow_telemetry.py:85-90 | until a stop, no start revives a running engine whose threads have ended, and no queued event is finished |
| `Council.Tally` | backend/internal/agent_council/debate_engine.go:34-51 | the maps hold exactly the votes and confidence sums of every proposed action, and the veto is that of some compliance opinion with a reason |
| `Council.Plurality` | backend/internal/agent_council/debate_engine.go:73-81 | for the order in which the map delivers its keys, the loop ends on the running maximum of that order |
| `Council.BestLeads` | backend/internal/agent_council/debate_engine.go:73-81 | whatever the order, no action outvotes the one the loop ends on |
| `Council.LeadsIffSomeOrder` | backend/internal/agent_council/debate_engine.go:73-81 | an action leads exactly when some order makes the loop end on it |
| `Council.Deliberate` | backend/internal/agent_council/debate_engine.go:21-114 | for each order the decision: empty council, veto, or that action with its mean confidence, supporters, dissenters and consensus |
| `Council.VerdictIffSomeOrder` | backend/internal/agent_council/debate_engine.go:21-114 | the possible verdicts are exactly the decisions of the iteration orders |
| `Council.VerdictExact` | backend/internal/agent_council/debate_engine.go:73-114 | where nobody in compliance objects: no action has more voters; unanimous exactly when every opinion proposes it, human review exactly below three fifths, and the confidence is the mean of the voters |
| `Council.EscalatedVerdict` | backend/internal/agent_council/debate_engine.go:24-70 | where somebody does, and for no opinions, the fixed decision |
| `Council.ListsConcat` | backend/internal/agent_council/debate_engine.go:84-92 | supporters, dissenters and compliance agents are put together opinion by opinion, in order |
| `Council.OneOpinion` | backend/internal/agent_council/debate_engine.go:84-92 | and this is what one opinion adds to each, and to the confidence |
| `Council.VerdictDeterminate` | backend/internal/agent_council/debate_engine.go:73-100 | for all orders of opinions and map the consensus is the same, and unless human review is required so are action and confidence |
| `Council.ActionDeterminedIffOneLeads` | backend/internal/agent_council/debate_engine.go:73-81 | without a veto all orders of the map give the same action exactly when one action alone leads |
| `Council.TieGoesToTheFirst` | backend/internal/agent_council/debate_engine.go:76-80 | with two opinions for different actions the one the map yields first wins |
| `Council.ValidateAgentAction` | backend/internal/agents/agent_guardrails.go:27-42 | passes exactly the listed roles, and containment only with confidence 0.85 and evidence |
| `Council.AuditDecisions` | backend/internal/agent_council/compliance_monitor_agent.go:29-52 | the violations are those of the decisions that violate the rule, in order; compliant exactly when there is none |
| `Council.ViolationsConcat` | backend/internal/agent_council/compliance_monitor_agent.go:33-37 | put together decision by decision: a block-and-freeze below 0.85 adds its incident, nothing else does |
| `Council.GuardedVerdictPasses` | backend/internal/agents/agent_guardrails.go:32-38 | if every block-and-freeze opinion passed the guardrail, no verdict on them violates the audit rule |
| `Council.GuardedVerdictsAuditClean` | backend/internal/agent_council/compliance_monitor_agent.go:33-42 | hence the audit of any list of such verdicts is clean |
| `ExpectedLoss.LossMonotoneInAmount` | ml-service/evaluation/shadow_evaluator.py:263-275 | without a drop at the boundary a larger amount never has a smaller loss, across the 250 boundary too |
| `ExpectedLoss.ShieldedLossMonotone` | ml-service/evaluation/shadow_evaluator.py:263-275 | nor does it where a challenge has no fixed cost and its friction stays below what declining costs from 250 on |
| `ExpectedLoss.LossMonotoneIff` | ml-service/evaluation/shadow_evaluator.py:265-275 | the loss is monotone in the amount exactly in these two cases |
| `Common.HalfEvenIff` | ml-service/calibration/cost_policy.py:54-56 | a number rounds to the integer less than half a unit away, and half-way to the even one |

## Left out

- Rounding and precision of floats, `float32` columns and NaN: a missing key is one missing value; only the rounding of costs to cents and of calibration reports is modelled.
- CostPolicy.ExactChoiceMonotone: like its rounded partner, is for engines whose false-positive cost and fraud multiplier are not negative and whose residual rate lies in [0, 1]; the constructor does not check this.
- ExpectedLoss.LossMonotoneIff: is for review and challenge costs and rates that are not negative; the constructor does not check this.
- CostPolicy.NeverReversesIff: is for the same engines, with a review cost of either sign; other parameters that the constructor accepts are not covered.
- ShadowGateway.RecoveryExact: a failed write is taken to leave its file as it was; a rewrite that fails half-way may truncate the file. The set of seen ids is not durable in the code either, so only recorded flips stay duplicates after a restart.
- ShadowGateway.ProductionShadowGatewayPipeline.GetShadowEvidenceSummary: amounts, dollars and the exact confidence bounds are not modelled.
- ThreadOrder.OrderKeptIff: events are compared by content, so it is for unfinished events that differ from each other; of two equal ones the order cannot be told.
- Ingestion.EveryRunConserves: counter updates are atomic, as are single thread steps; lost updates between threads are not modelled. The tracker and the label engine are represented by the calls they receive.
- Ingestion.PassiveShadowIngestionAdapter.ConsumeEvent: whether the sanitizer quarantines a payload is an abstract property of the event. Event ids, topics and keys are texts, texts are valid Unicode, and time stamps lie in the platform's range.
- Payloads.ConversionFailsIff: a text amount is judged by the ASCII syntax of numbers, without digits and blanks of other scripts; its numeric value is not computed.
- Subgraph.MockRealGraphDataSource.GetEdges: the filter of the cut; the reader with its optional type filter and its transactions and labels is not modelled.
- Paths.RelationshipPathExtractor.FindPaths: paths are sequences of nodes and edge positions; their text rendering is not modelled.
- Escalation.ProductionTelemetryCollector.ComputeWindowTelemetry: latency percentiles, error rates and drift indices are inputs of the classification; the report is not modelled.
- Calibration.ComputeGraphEce: the Brier score beside it is not modelled.
- Maturation.LabelMaturationEngine.ConfirmLabel: records are values, so a caller's later change of a returned record is not modelled; neither are notes and the report.
- Council.Deliberate: rationale text and time are not modelled.
- OutcomeStore.PromotesIff: the loss difference, its bootstrap p-value, the calibration error and the latency percentile of the sample are inputs.
- The novelty and amount-ratio columns (`features.py:57-124`) would only add easy members.
- The remaining features of `relationship_features.py` (bursts, device and address sets) and the rest of the tracker's summary: easy members.
- Model training and inference, calibrator fitting, drift statistics, bootstrap, Clopper-Pearson bounds: numerical libraries.
- Kafka, ClickHouse, HTTP, metrics, files and the frontend; the Go packages `riskengine`, `governance`, `cases` and `rules`; generators, readiness checkers and dashboards.
