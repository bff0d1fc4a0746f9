# T32Perf evidence engine: a verified model

T32Perf captures performance evidence from a debugged target and decides, on the host, whether that
evidence may be believed. This Dafny project models the deciding code: the HIL harness and its
verifiers (`hil/`), and the controller's qualification, journal and listings (`src/`). It proves what
an accepted capture, receipt, document or catalog guarantees, for every input and every run.

`dafny verify dfyconfig.toml` checks everything.

## Components

| Modules | What they model |
|---|---|
| `ProvenanceGraph` | depth-first cycle check over artifact inputs |
| `Timeline`, `ContextSwitches`, `NestedInterrupts`, `TimelineAgreement`, `TimelineEvents` | streaming reconstruction of per-core scheduling and nested interrupts |
| `NativeReference`, `NativeDifferential`, `TimelineShift` | the independently written parser of native rows, the agreement of both, and timelines at any point in time |
| `FunctionTotals` | merging hotspot rows per function |
| `StackProfile`, `StackConservation` | raw stack samples, folded profile, flame-graph boundaries |
| `SamplingBuckets`, `AddressHeatmap`, `HotspotBars`, `SamplingRun` | address ranges, buckets, heatmap, bars, and the closed sampling run |
| `CounterStream`, `ResourceMetrics`, `ResourceUsage` | one-pass counter reconstruction, derived metrics, usage against capacity |
| `CaptureEvidence`, `CaptureMatrix`, `EvidenceV1`, `MatrixAcceptance`, `EvidenceV2` | coverage evidence, its writers and its validators |
| `VerificationReceipt` | the common receipt: builder and validator |
| `RecoverySnapshots`, `RecoveryProtocol` | the fault, recovery and receipt protocol around an untrusted driver |
| `SessionCatalog`, `Qualification`, `CrashSafety`, `DeploymentHistory` | append-only publication, crash-safe provisioning, whole histories of a Session |
| `DriverEvents`, `ControllerJournal`, `ControllerDriver` | event validation with abort plans, the driver journal, the driver's calls on it |
| `Paging` | cursor pagination |
| `Outcomes`, `Prefixes`, `Ordering`, `Counting`, `Sums`, `Division`, `Scalars`, `Texts` | shared vocabulary |

Code that updates dictionaries, stacks, counters or objects in a loop is a method or a class with
loop invariants, proved against a fold or a declarative predicate; code made of expressions is a
function. The main results are lemmas about those folds and predicates. An untrusted driver is a
function from worlds to worlds that nothing is assumed of. A crash is a bound on how many further
publications the process survives.

## Where the code does less than one might expect

Each is proved as an exact condition, with accepted inputs on the failing side, and the code modelled
as it is.

- A timeline with negative timestamps is accepted by the extractor and not by the native parser
  (`NativeDifferential.SwitchesAgreeWithNativeParser`, `NativeDifferential.InterruptsAgreeWithNativeParser`;
  `TimelineShift.AcceptedAtEveryStart` gives an accepted timeline for every start).
- A hotspot row compares only its floored mean with its maximum, so a merged mean can exceed the
  maximum that a native row must respect (`FunctionTotals.MergedMetricIsANativeRowIff`,
  `FunctionTotals.FlooredMeanCounterexample`; `FunctionTotals.TrueMeansMerge` is the guard on rows).
- The usage check compares last values only; an earlier current value may exceed the capacity
  (`ResourceUsage.EarlierUsageIsUnchecked` gives accepted streams, and `ResourceUsage.ExcessCanFollow`
  continues any accepted stream so). It stays within exactly when the events
  say so (`ResourceUsage.CurrentStaysWithinCapacityIff`). Peaks are safe
  (`ResourceMetrics.PeaksStayWithinCapacity`), and a true peak bounds the current usage
  (`ResourceUsage.TruePeakBoundsCurrent`).
- The coverage assertion of the matrix does not reject sparse extra pairs that the v1 validator
  rejects (`MatrixAcceptance.DocumentAcceptedIffCovered`; `MatrixAcceptance.SparseModeKeepsCoverage`
  makes one from any covering matrix).
- The v2 validator does not require canonical order (`EvidenceV2.RebuildCanonicalises`;
  `EvidenceV2.SwappedIsAcceptedNotCanonical` makes one from any accepted document).

The readiness test of the sampling run reads three fields of a target state, and its receipt validator
asks for exactly those three (`SamplingRun.PassDocumentValidates`). A further field can reach the
receipt only through Host answers other than this repository's, whose strict ingest excludes it
(`SamplingRun.StrictHostNeverSpoilsAPass`).

## Model

| member | source | states |
|---|---|---|
| `ProvenanceGraph.CycleCheck.constructor` | hil/harness.py:4049-4050 | The depth-first check starts with no artifact being visited and none visited. |
| `ProvenanceGraph.CycleCheck.Visit` | hil/harness.py:4052-4063 | A returning visit leaves its artifact visited, removes nothing from `visited`, and keeps the invariant that visited artifacts are topologically ordered and `visiting` is the current chain; a raised error carries a real cycle through the artifact it names. It terminates because the artifacts in neither set shrink. |
| `ProvenanceGraph.CheckReferences` | hil/harness.py:4018-4028 | Returns normally exactly when every input exists and no artifact names itself; each fault names a real offender. |
| `ProvenanceGraph.VerifyProvenanceGraph` | hil/harness.py:4015-4066 | Accepts exactly the closed graphs without a cycle whose stages resolve; the order in which visits return is then a topological order of all artifacts, and a cycle error is witnessed by a cycle through the named artifact. |
| `ProvenanceGraph.TopologicalOrderExcludesCycles` | hil/harness.py:4052-4066 | A topological order of every artifact leaves no room for a cycle, whichever graph it is. |
| `ProvenanceGraph.PathGoesBack` | hil/harness.py:4052-4063 | Along any path through a topological order positions strictly decrease. |
| `Timeline.DefineContexts` | hil/harness.py:3006-3039 | The dictionary loop equals the fold over the entries, duplicates and malformed entries included. |
| `Timeline.ExtractTimeline` | hil/harness.py:2986-3231 | The in-place loop over dictionaries, active contexts, stacks and counters computes the fold whose invariants are proved beside it, with the same first fault. |
| `TimelineAgreement.SwitchKeepsInvariant` | hil/harness.py:3075-3121 | One accepted switch keeps the chain of previous contexts, the active map and the task counts exact. |
| `TimelineAgreement.InterruptKeepsInvariant` | hil/harness.py:3158-3207 | One accepted interrupt event keeps depth, parent, stacks and counters exact. |
| `TimelineAgreement.RunKeepsInvariant` | hil/harness.py:2998-3207 | The invariant holds after every accepted prefix of every record stream. |
| `TimelineAgreement.AcceptedTimelineIsWellFormed` | hil/harness.py:2986-3231 | On every core the interrupt rows of an accepted stream are the traversal of a well nested forest with the recorded depths and parents; there are twice as many rows as counted activations; task counts are the switches into tasks; every later switch leaves the context entered before; and nesting, a preempted task, task and idle switches all occur. |
| `TimelineAgreement.PreemptedIsScheduledTask` | hil/harness.py:3139-3191 | Every accepted interrupt event, entering or leaving, finds a schedulable context on its core. An entering one preempts the task that the core's last switch entered, or none when that was idle; a leaving one repeats what the activation on top of the stack preempted. |
| `TimelineAgreement.BracketedCount` | hil/harness.py:3158-3231 | Rows bracketed on every core are half enters and half exits, by removing one core at a time. |
| `TimelineEvents.RowsAreEvents` | hil/harness.py:3042-3207 | From records to rows: after every accepted prefix the switch rows are, in order, the switch events of the records with their core, contexts and timestamp, and the interrupt rows the interrupt events with their direction, core, identities and timestamp. |
| `TimelineEvents.SwitchTimesAreRecorded` | hil/harness.py:3103-3110 | Some switch row has a negative time exactly when some switch record carries a negative timestamp. |
| `TimelineEvents.InterruptTimesAreRecorded` | hil/harness.py:3192-3203 | The same for interrupts. |
| `NestedInterrupts.AcceptedIffBracketed` | hil/harness.py:3158-3191 | The stack discipline accepts a core's rows and leaves nothing open exactly when the rows traverse a well nested forest. |
| `NestedInterrupts.ForestReturns` | hil/harness.py:3158-3191 | Traversing any well nested forest from an open stack returns to that stack. |
| `NestedInterrupts.OpenCount` | hil/harness.py:3158-3191 | Rows plus activations still open are twice the number of enters. |
| `ContextSwitches.ActiveIsLastNext` | hil/harness.py:3118 | A core is scheduled exactly when it has switched, and then to what its last switch entered. |
| `ContextSwitches.ChainedAppend` | hil/harness.py:3487-3491 | The chain rule on a whole sequence is the tracked-previous comparison row by row. |
| `NativeReference.SwitchRoundTrip` | hil/harness.py:3468-3507 | A switch written as a native row reads back unchanged exactly when its timestamp is not negative. |
| `NativeReference.InterruptRoundTrip` | hil/harness.py:3532-3567 | The same for an interrupt row with all its nesting fields. |
| `NativeReference.ParseContextSwitches` | hil/harness.py:3452-3512 | The native parser accepts exactly the bounded, readable, chained sequences with task and idle switches, and returns the rows it read. |
| `NativeReference.ParseInterrupts` | hil/harness.py:3515-3604 | The native parser accepts exactly the bounded, readable sequences that are bracketed on every core, contain nesting and preempt a task, and returns the rows it read. |
| `NativeReference.NothingOpenIffBracketed` | hil/harness.py:3598-3599 | All per-core stacks end empty exactly when every core's rows traverse a well nested forest. |
| `NativeDifferential.CompareSwitches` | hil/harness.py:2604-2638 | Agreement is equal length and row-by-row agreement in every field, with the timestamp within tolerance. |
| `NativeDifferential.CompareInterrupts` | hil/harness.py:2641-2678 | The same for interrupt rows. |
| `NativeDifferential.SwitchesAgreeWithNativeParser` | hil/harness.py:3452-3512 | For every accepted stream, its switches written as native rows are accepted by the other parser exactly when no switch record carries a negative timestamp; they then read back unchanged and compare as equal at every tick length. |
| `NativeDifferential.InterruptsAgreeWithNativeParser` | hil/harness.py:3515-3604 | The same agreement for interrupts, nesting, parents, priorities and preempted tasks included, decided by the timestamps of the interrupt records. |
| `TimelineShift.AcceptedAtEveryStart` | hil/harness.py:2986-3231 | A family of streams that shows the hypothesis of both agreements met and their exceptions reached: a task, two nested interrupts and the return to idle are accepted by the extractor wherever in time they start; the native parser accepts their switches exactly when the start is not negative, and their interrupts, which begin one later, exactly when that is not. |
| `FunctionTotals.MergeFunctions` | hil/harness.py:2812-2866 | The merging loop accepts exactly valid rows, and every function's aggregate has the sums, the least minimum and the greatest maximum of its rows. |
| `FunctionTotals.MergeIgnoresOrder` | hil/harness.py:2852-2866 | Any permutation of the rows gives the same aggregates. |
| `FunctionTotals.MergedMeanBounds` | hil/harness.py:2838-2894 | The merged real mean lies in [min, max + 1), its floor is at most max, and merged self time is at most merged total time. |
| `FunctionTotals.MergedMetricIsANativeRowIff` | hil/harness.py:3403-3411 | The merged metric satisfies the native row rules min <= average <= max exactly when the totals of the function's rows add up to at most the greatest of their maxima times the sum of their counts. |
| `FunctionTotals.TrueMeansMerge` | hil/harness.py:2838-2894 | Rows whose own unfloored mean is at most their maximum always merge into a metric that could be a native row; for a function with a single row this is also necessary. |
| `FunctionTotals.FlooredMeanCounterexample` | hil/harness.py:2838-2851 | One valid hotspot row whose merged mean exceeds its maximum. |
| `StackProfile.CheckRaw` | hil/stack_verification.py:239-296 | Accepts exactly the captures with consistent accounting, consecutive indices, known terminations and frames numbered within the limit. |
| `StackProfile.CountRaw` | hil/stack_verification.py:332-349 | The dictionary of reversed raw stacks represents the multiset of raw samples; the two termination counters are exact. |
| `StackProfile.CountPaths` | hil/stack_verification.py:350-383 | Accepts exactly valid paths, and the dictionary of path counts represents the multiset the paths unfold to. |
| `StackProfile.CheckProfile` | hil/stack_verification.py:315-392 | Comparing the two dictionaries and the four totals accepts exactly the profiles whose paths unfold to the multiset of reversed raw stacks with matching totals. |
| `StackProfile.CountBoundaries` | hil/stack_verification.py:481-486 | The expected boundary counts are the path samples per reason. |
| `StackProfile.CountNodes` | hil/stack_verification.py:433-476 | The drawn boundary counts are the node samples per reason; malformed nodes are rejected. |
| `StackProfile.CheckBoundaries` | hil/stack_verification.py:433-488 | Accepts exactly the drawings whose counts per reason equal those of the profile. |
| `StackConservation.FoldIsPerStackCount` | hil/stack_verification.py:384-392 | The fold check holds exactly when every stack occurs equally often in paths and raw samples. |
| `StackConservation.ProfileConservesSamples` | hil/stack_verification.py:239-247 | No sample is lost from an accepted capture to an accepted profile: path samples = collected = included = terminal + truncated. |
| `StackConservation.FlameGraphConservesSamples` | hil/stack_verification.py:433-488 | Boundary nodes of an accepted drawing count exactly the raw samples per termination reason and together all collected samples; a reason is drawn exactly when a raw sample has it. |
| `StackConservation.PathOrderDoesNotMatter` | hil/stack_verification.py:353-385 | Reordering paths never changes the verdict. |
| `StackConservation.SplittingDoesNotMatter` | hil/stack_verification.py:353-385 | Splitting one path's count over two entries never changes the verdict. |
| `SamplingBuckets.ValidateRequest` | hil/harness.py:4525-4555 | Accepts exactly the valid requests: positive bounded bucket size, 1 to 256 ordered disjoint ranges within the address limit, and at most 256 buckets by ceiling division. |
| `SamplingBuckets.SlicesCount` | hil/harness.py:4547-4555 | One range expands to the ceiling of its width over the bucket size. |
| `SamplingBuckets.BucketsTileTheRequest` | hil/sampling_verification.py:1601-1607 | The expanded buckets are non-empty, at most one bucket size wide, ordered and disjoint, cover exactly the requested addresses, and are as many as the validator's sum. |
| `SamplingBuckets.AcceptedRequestTiles` | hil/sampling_verification.py:1601-1607 | Every accepted request expands to at most 256 buckets and puts every requested address in exactly one of them. |
| `SamplingBuckets.OneBucketPerAddress` | hil/sampling_verification.py:1601-1607 | In a tiling an address lies in at most one bucket. |
| `AddressHeatmap.CheckHistogram` | hil/sampling_verification.py:1633-1650 | Accepts exactly the histograms whose buckets are the expected ones with non-negative hits that sum to the in-scope hits. |
| `AddressHeatmap.DebuggerLocations` | hil/sampling_verification.py:776-922 | Accepts exactly the ordered, bounded, well-formed labels that each name a bucket with the same hits, and returns them. |
| `AddressHeatmap.LabelsUseDistinctBuckets` | hil/sampling_verification.py:776-922 | Accepted labels use pairwise distinct buckets: their hits and the hits of the remaining buckets add up to all hits. |
| `AddressHeatmap.LabelledHitsAreInScope` | hil/sampling_verification.py:776-922 | The labelled hits never exceed the in-scope hits. |
| `AddressHeatmap.AuditHeatmap` | hil/sampling_verification.py:956-1010 | Accepts exactly the heatmaps whose cells mirror buckets and labels and whose totals agree. |
| `AddressHeatmap.CellsCarryInScopeHits` | hil/sampling_verification.py:1005-1009 | The audit's last comparison is implied by the others: fitting cells carry exactly the hits of the buckets. |
| `HotspotBars.SelectionIsComplete` | hil/sampling_verification.py:1139-1149 | Shown and omitted rows are together all cells, and exactly min(25, n) are shown. |
| `HotspotBars.SelectionIsBest` | hil/sampling_verification.py:1139-1147 | No omitted row ranks before a shown one, so none has more hits. |
| `HotspotBars.AuditRows` | hil/sampling_verification.py:1139-1343 | Accepts exactly the drawing whose rows are the selected cells in drawing order with the floored widths and labels, or the empty drawing of an empty heatmap; a zero denominator with cells raises a division error. |
| `HotspotBars.ScaledPartsFit` | hil/sampling_verification.py:1253 | Rounding down row by row never exceeds the scale, for any list of cells. |
| `HotspotBars.DrawingStaysInScale` | hil/sampling_verification.py:1253-1343 | Over any audited histogram with a positive denominator, bar widths total at most 380 and per-mille labels at most 1000. |
| `HotspotBars.BarsFollowHits` | hil/sampling_verification.py:1253-1343 | More hits never draw a shorter bar or a smaller label. |
| `SamplingRun.Runner.Run` | hil/sampling_verification.py:1729-2144 | The capture command is called exactly when the request was prepared, the board is pinned, all readiness checks passed and an allowed method is on offer; every returned receipt satisfies the receipt validator; PASS is returned exactly when the whole evidence suffices and the PASS document validates. |
| `SamplingRun.Runner.AfterCapture` | hil/sampling_verification.py:1940-2032 | After the capture, identity, ingestion and quantitative gates stand before every PASS. |
| `SamplingRun.Runner.AfterReadiness` | hil/sampling_verification.py:2034-2144 | After readiness, PASS is returned exactly when analysis, summary, rendering and audit agree. |
| `SamplingRun.ReadinessMeans` | hil/sampling_verification.py:1800-1850 | A pinned board has seven checks, and they all pass exactly when target, schemas, software, endpoint, probe and CPU are the configured ones on a powered, running, unhalted target. |
| `SamplingRun.ReadyMeetsAuditedPolicy` | hil/sampling_verification.py:1679-1726 | The readiness gate equals the audited heatmap's policy together with settled target states, completed cleanup, a positive sample rate and a snoop count that is not negative. |
| `SamplingRun.PassDocumentValidates` | hil/sampling_verification.py:407-466 | Given sufficient evidence, the PASS document meets every rule of the receipt validator exactly when identifiers, digests and capabilities are in bounds and both target states carry no other field. |
| `SamplingRun.StrictHostNeverSpoilsAPass` | src/sampling.rs:328-347 | With this repository's Host, which ingests only bytes that it reads strictly, sufficient evidence gives a valid PASS document exactly when the configured identifiers and the capabilities are in bounds: no target state is left to spoil it. |
| `SamplingRun.PassMeansPinnedAndQuantitative` | hil/sampling_verification.py:2085-2144 | A PASS pins probe, endpoint and CPU to the configuration, shows a running target before and after, meets its policy, and uses stop-and-go only when the request allows it. |
| `SamplingRun.ReadyNeverFailsThePolicyGate` | hil/sampling_verification.py:2085-2097 | For a capture judged ready, the policy comparison can never be what turns a run into FAIL. |
| `CounterStream.ReadDictionary` | hil/resource_verification.py:913-940 | The dictionary loop equals the fold over its entries, with the same first fault. |
| `CounterStream.ReadStream` | hil/resource_verification.py:888-1014 | The one-pass loop computes the fold over the records. |
| `CounterStream.RunKeepsInvariant` | hil/resource_verification.py:888-1014 | After every accepted prefix: samples strictly increase in time, high-watermarks never fall, capacities never change, identity and counter are in bijection. |
| `CounterStream.SamplesAreObservations` | hil/resource_verification.py:916-1014 | From records to state: after every accepted stream the counters are exactly those the dictionaries declare, and the samples of a counter are exactly the values its events carry, in stream order. |
| `CounterStream.IdentitiesAreUnique` | hil/resource_verification.py:954-958 | No two observations of an accepted stream share an identity, and the index holds exactly them. |
| `ResourceMetrics.CollectRawMetrics` | hil/resource_verification.py:1025-1045 | One metric per defined raw counter, rejected exactly when some counter has no observation. |
| `ResourceMetrics.LatestSynchronized` | hil/resource_verification.py:1080-1091 | Intersecting the two timestamp dictionaries and taking the greatest gives the same pair as walking both lists back from their ends. |
| `ResourceMetrics.LatestCommonIsLatest` | hil/resource_verification.py:1084-1091 | That pair is at the latest timestamp both lists share, and there is none exactly when they share none. |
| `ResourceMetrics.RebuildDynamicMetrics` | hil/resource_verification.py:875-1113 | Accepts exactly the acceptable streams and returns the derived metrics and the observation index. |
| `ResourceMetrics.MetricsFollowCounters` | hil/resource_verification.py:929-945 | Identity and counter are in bijection, and every metric summarises exactly its counter's samples. |
| `ResourceMetrics.HighWatermarkIsMaximum` | hil/resource_verification.py:991-998 | The reported value of a high-watermark is the maximum of all its samples. |
| `ResourceMetrics.PeaksStayWithinCapacity` | hil/resource_verification.py:1249-1273 | Every sample of a stack or trace peak is at most every sample of its capacity, though only last values are compared. |
| `ResourceMetrics.DerivedMetricsInRange` | hil/resource_verification.py:1052-1110 | Allocation rates are not negative and fragmentation lies in [0, 1]. |
| `ResourceMetrics.CheckUsage` | hil/resource_verification.py:1249-1273 | The usage check holds exactly when current values are within peaks and capacities for every subject. |
| `ResourceUsage.CurrentStaysWithinCapacityIff` | hil/resource_verification.py:1249-1273 | For every accepted stream and every stack or trace subject with a capacity: all samples of the current usage, not only the compared last one, are at most the capacity exactly when every event of the current counter carries at most the value of the first event of the capacity counter. |
| `ResourceUsage.TruePeakBoundsCurrent` | hil/resource_verification.py:1249-1273 | A peak counter that no event of the current counter exceeds is enough to keep every current sample within the capacity. |
| `ResourceUsage.EarlierUsageIsUnchecked` | hil/resource_verification.py:1249-1273 | For any source and counter ids within their bounds, any limit, any value above it up to 2^53 and any value up to it, a stream whose fields are all within bounds is accepted, although its current usage is first the higher and then the lower value under that capacity. |
| `ResourceUsage.ExcessCanFollow` | hil/resource_verification.py:948-1014 | From any accepted stream and any stack or trace subject with a capacity: two more readings of the current usage, one above the capacity and one back at the last value, under free identities and later times, give a stream that is accepted again and exceeds the capacity in between; bounded fields stay bounded. |
| `CaptureMatrix.CaptureEvidenceMatrix.constructor` | hil/harness.py:1085-1101 | An empty matrix satisfies the invariant. |
| `CaptureMatrix.CaptureEvidenceMatrix.Add` | hil/harness.py:1107-1145 | Adds the capture exactly when it neither contradicts its board's identity nor repeats a board and Session, and otherwise changes no capture; the two indexes stay exactly what the captures say. |
| `CaptureMatrix.CaptureEvidenceMatrix.AssertCoverage` | hil/harness.py:1147-1211 | Raises for non-positive minima; otherwise passes exactly when boards, modes, families, RTOSes and modes qualified on every board reach their minima. |
| `CaptureMatrix.CaptureEvidenceMatrix.ModeIsQualified` | hil/harness.py:1189-1205 | A mode qualifies exactly when every board has enough captures of it in both target states. |
| `CaptureMatrix.CaptureEvidenceMatrix.ToDocument` | hil/harness.py:1213-1247 | The document lists each set in ascending order, tabulates every pair with its count in ascending order, and holds the captures sorted by key. |
| `CaptureMatrix.Tabulate` | hil/harness.py:1223-1244 | The combination rows are the pairs that occur, in strictly ascending order, each with its number of captures. |
| `CaptureMatrix.ListIsUnique` | hil/harness.py:1230-1238 | A set has exactly one sorted list. |
| `CaptureEvidence.AcceptedEvidenceCounts` | hil/resource_verification.py:2372-2466 | In accepted evidence the combination counts sum to the number of captures, and captures >= 20 * boards >= 40, so the explicit minimum of 40 is implied. |
| `CaptureEvidence.QualifiedModesForceCaptures` | hil/resource_verification.py:2453-2466 | Two qualified modes force twenty captures on every board. |
| `CaptureEvidence.BoardsPartition` | hil/resource_verification.py:2387-2423 | Counting captures board by board counts every capture once. |
| `CaptureEvidence.CountsSumToTabulated` | hil/resource_verification.py:2445-2448 | Ascending combination rows with true counts sum to the captures they tabulate. |
| `EvidenceV1.ReadCombinations` | hil/resource_verification.py:2349-2370 | Accepts exactly bounded, well-formed rows in strictly ascending pair order, and returns the declared count of each pair. |
| `EvidenceV1.ScanRows` | hil/resource_verification.py:2387-2413 | Accepts exactly well-formed rows with distinct board/Session keys and one identity per board. |
| `EvidenceV1.CollectCoverage` | hil/resource_verification.py:2417-2423 | The accumulated sets are the values the captures take. |
| `EvidenceV1.SortedCopyAscends` | hil/resource_verification.py:2346-2347 | A duplicate-free list equals its sorted copy exactly when it strictly ascends. |
| `EvidenceV1.ExactStatesAreRequiredStates` | hil/resource_verification.py:2453-2461 | The validator's test for exactly the two states selects the same modes as the matrix's test for at least them. |
| `EvidenceV1.ValidateV1` | hil/resource_verification.py:2304-2466 | Accepts exactly the documents that are acceptable as stated once, independent of the order of the checks. |
| `MatrixAcceptance.DocumentAcceptedIffCovered` | hil/harness.py:1147-1247 | For any matrix of well-formed captures with distinct Sessions and one identity per board, up to the list bound, its document is accepted by the v1 validator exactly when the default coverage assertion passes and every recorded pair has at least ten captures; all list bounds then follow. |
| `MatrixAcceptance.CoveragePermutation` | hil/harness.py:1213-1221 | Coverage does not depend on the order of captures. |
| `MatrixAcceptance.CombinationsFew` | hil/resource_verification.py:2349 | Ten captures a pair leave at most a tenth as many pairs as captures. |
| `MatrixAcceptance.SparsePairIsRejected` | hil/resource_verification.py:2449-2452 | One recorded pair with fewer than ten captures makes the document unacceptable, whatever the coverage. |
| `MatrixAcceptance.SparseModeKeepsCoverage` | hil/resource_verification.py:2449-2452 | From any covering matrix of well-formed captures, one more capture of a known board in a fresh mode is taken in, keeps the default coverage assertion passing, and makes every document written from then on unacceptable. |
| `EvidenceV2.AssertCoverage` | hil/resource_verification.py:542-742 | Accepts exactly the acceptable v2 documents: accepted v1 part, fixed requirements, matching counts and boards, distinct entries that repeat their passing receipts and bind to captures, and complete coverage of every board. |
| `EvidenceV2.ScanEntries` | hil/resource_verification.py:643-712 | The entry loop accepts exactly fitting, distinct entries and collects boards, kinds and faults per board. |
| `EvidenceV2.BuildV2` | hil/resource_verification.py:443-539 | Builds exactly when source and receipts are acceptable and cover every board, and the document is determined by them. |
| `EvidenceV2.AssembledAcceptable` | hil/resource_verification.py:498-534 | For passing, distinct receipts the builder's final assertion asks for no more than binding and coverage. |
| `EvidenceV2.OrderSeparatesEntries` | hil/resource_verification.py:498-505 | On de-duplicated entries the sort key is a strict total order. |
| `EvidenceV2.KeyDeterminesIdentity` | hil/resource_verification.py:498-505 | Writing a missing scenario as the empty string never makes two identities collide. |
| `EvidenceV2.DocumentIsCanonical` | hil/resource_verification.py:472-539 | Any permutation of the receipts gives the same result, document or rejection. |
| `EvidenceV2.RebuildReturnsTheDocument` | hil/resource_verification.py:449-471 | Rebuilding from the v2 result with the same receipts in any order returns it unchanged. |
| `EvidenceV2.RebuildCanonicalises` | hil/resource_verification.py:542-742 | The v2 validator does not ask for canonical order; rebuilding an accepted document from its own receipts always succeeds, keeps every entry, and changes nothing exactly when entries and boards were in canonical order. |
| `EvidenceV2.AcceptedInAnyOrder` | hil/resource_verification.py:542-742 | The v2 validator accepts every permutation of the entries of an accepted document. |
| `EvidenceV2.SwappedIsAcceptedNotCanonical` | hil/resource_verification.py:542-742 | Every accepted v2 document has entries to swap; swapping any two of them gives an accepted document, and of the two at most one is in canonical order. |
| `EvidenceV2.NineReceiptsPerBoard` | hil/resource_verification.py:709-742 | Accepted v2 evidence holds at least nine passing receipts per board, so at least eighteen, and none of them reports a failed check. |
| `VerificationReceipt.Accumulate` | hil/verification_receipt.py:204-252 | The accumulating loop accepts exactly well-formed checks; counts, kept failures and maximum error are those of the checks. |
| `VerificationReceipt.BuildReceipt` | hil/verification_receipt.py:171-292 | Builds exactly for well-formed checks that leave no required category empty; the receipt summarises the checks, and the validation at its end never rejects it. |
| `VerificationReceipt.ValidateReceipt` | hil/verification_receipt.py:295-479 | Accepts exactly the receipts whose counts, categories, maximum error, failures, truncation flag and verdict are consistent. |
| `VerificationReceipt.ValidateRows` | hil/verification_receipt.py:411-436 | Category rows are accepted exactly when they are the expected categories in order, each adds up, and together they equal the totals. |
| `VerificationReceipt.RowsAddUp` | hil/verification_receipt.py:254-256 | Category counts sum to the totals over all checks. |
| `VerificationReceipt.BuiltReceiptValidates` | hil/verification_receipt.py:257-287 | Every receipt the builder assembles satisfies every rule of the separately written validator. |
| `VerificationReceipt.VerdictMeansAllPassed` | hil/verification_receipt.py:242-245 | PASS means that every check passed; otherwise the listed failures are the first min(128, n) in check order. |
| `VerificationReceipt.MaxErrorIsUnique` | hil/verification_receipt.py:246-252 | The reported maximum error is the lexicographic maximum of (relative, absolute) at its first witness, so it is unique. |
| `RecoverySnapshots.UnchangedMeansEqual` | hil/harness.py:901-918 | An empty difference means equal snapshots of the same root. |
| `RecoverySnapshots.OnlyAddedMeansOneMore` | hil/harness.py:879-899 | The one permitted difference means one new single-link file with the given digest and nothing else. |
| `RecoverySnapshots.CreationOnlyAdds` | hil/harness.py:851-860 | With directories normalised, an honest exclusive creation always shows exactly its own file, however the operating system stamps the directory. |
| `RecoverySnapshots.RawCreationChangesTheDirectory` | hil/harness.py:764-771 | Without the normalisation the same creation changes its directory's entry exactly when the directory's size or time moves. |
| `RecoveryProtocol.Host.RunExpectedFailure` | hil/harness.py:1788-1839 | Succeeds exactly when the evidence path was free, the command failed with a non-zero exit, and both roots are as before; it then holds the snapshots of the world before. |
| `RecoveryProtocol.Host.RunRecovery` | hil/harness.py:1842-1874 | Succeeds exactly when nothing changed since the fault, recovery reported success, the artifact root is unchanged, and the recovery root gained exactly the reserved, valid evidence. |
| `RecoveryProtocol.Host.WriteReceipt` | hil/harness.py:2333-2373 | Succeeds exactly when nothing changed since recovery, the receipt binds the evidence and the receipt path is free; it then adds exactly that one file. |
| `RecoveryProtocol.WholeRunAddsTwoFiles` | hil/harness.py:1788-1874 | For every behaviour of the driver in and between the steps: a run in which all steps succeed ends with the recovery root as before the fault plus exactly the evidence and its receipt, and recovery ends with the artifact root as before the fault. |
| `RecoveryProtocol.WholeRunBindsTheEvidence` | hil/harness.py:2342-2364 | The evidence echoes the reservation, and the receipt binds exactly that evidence. |
| `RecoveryProtocol.HistoryIsPreserved` | hil/harness.py:868-899 | If the digest separates contents, every earlier file keeps content, size, time and links, and every earlier entry its kind, mode and identity. |
| `RecoveryProtocol.HonestRunSucceeds` | hil/harness.py:1788-1874 | The checks are not too strict: every honest run succeeds, however the directory is stamped. |
| `Qualification.SelectionIsUnambiguous` | src/controller_qualification.rs:188-206 | A profile is selected exactly when it is the only compiled profile that fits. |
| `SessionCatalog.FindFinds` | src/controller_qualification.rs:914 | A lookup succeeds exactly when an artifact with the id exists, and then finds one with that id. |
| `SessionCatalog.FindAfterAppend` | src/controller_qualification.rs:911-914 | Publication never changes what a lookup finds except for an id that was absent. |
| `Qualification.Deployment.PublishPlan` | src/controller_qualification.rs:339-418 | The publication calls in order, stopped by the first conflict or crash, leave exactly the catalog of the publication function. |
| `Qualification.Deployment.Provision` | src/controller_qualification.rs:234-422 | An attempt that fails its checks changes nothing; otherwise the catalog is that of the planned publications, and it succeeds exactly when they all stand and the result loads. |
| `CrashSafety.RetryConverges` | src/controller_qualification.rs:339-418 | However often provisioning crashes between publications, retrying with the same arguments extends one fixed list of publications and reaches its end. |
| `CrashSafety.PrepareIsStable` | src/controller_qualification.rs:238-338 | What was already published never changes what an attempt checks before its first publication. |
| `CrashSafety.ProvisioningIsCrashSafe` | src/controller_qualification.rs:339-422 | Every reachable catalog has unique ids and is closed under inputs; nothing published means nothing changed, a non-empty proper part is refused by the reader, and the complete one is admitted. |
| `CrashSafety.CompleteIsAdmitted` | src/controller_qualification.rs:614-814 | Loading the complete catalog reconstructs the qualified profile, the provenance and the policy's scenarios. |
| `CrashSafety.PartialEvidenceIsRefused` | src/controller_qualification.rs:633-660 | Any catalog with some but not all of the four documents is refused. |
| `CrashSafety.PolicyDeterminesThePlan` | crates/t32perf-trace32/src/qualification.rs:600-614 | The policy pins the bytes of both receipts and so the recovery evidence: attempts that agree on the policy digest have the same plan, if digests do not collide. |
| `CrashSafety.NextTry` | src/controller_qualification.rs:911-931 | After the policy is out, an attempt with any arguments continues the same plan or changes nothing. |
| `CrashSafety.FirstPolicyDecides` | src/controller_qualification.rs:339-418 | Whatever arguments the attempts have and wherever they crash, what is published is always a prefix of the plan of one of them. |
| `CrashSafety.AnyAttemptsAreSafe` | src/controller_qualification.rs:339-422 | Over any sequence of attempts with any arguments and crashes: the catalog stays closed under inputs and only grows, and a reader gets the original state, a refusal, or the complete qualified admission of one attempt. |
| `CrashSafety.AdmittedIsPublished` | src/controller_qualification.rs:614-814 | The converse: a reader admits nothing but what an attempt could have published; the documents of an admitted catalog are, byte for byte, the publications of one plan whose checks hold and whose snapshot restates it. |
| `CrashSafety.AdmissionIsFinal` | src/controller_qualification.rs:911-931 | Once a qualified admission loads, no later attempt, whatever its arguments, changes the catalog. |
| `DeploymentHistory.HistoryFollowsOnePlan` | src/controller_qualification.rs:234-422 | Over any history of attempts with any arguments and crashes, among any other publications (captures, firmware, controller artifacts): the catalog only grows, and of the deployment evidence it holds nothing, or byte for byte the first publications of the plan that one attempt had at its moment. |
| `DeploymentHistory.EveryHistoryIsSafe` | src/controller_qualification.rs:614-814 | After any such history a reader gets the candidate while nothing of a plan is there, a refusal while part of it is, and from its last publication on the qualified admission of that one plan. |
| `DeploymentHistory.ControllerFreezesTheEvidence` | src/controller_qualification.rs:252-262 | Once any controller artifact is published, every later attempt is refused and the deployment evidence stays as it was, whatever else happens. |
| `DriverEvents.EventIdIsInjective` | src/controller_journal.rs:73-78 | No two (transaction, kind) pairs share an id, whatever the transaction strings are. |
| `DriverEvents.ValidWhenPlanAppears` | crates/t32perf-trace32/src/controller.rs:2379-2498 | An event valid without an abort plan is valid with every plan; only fault triggers and the two abort events look at the plan, and without one they are never valid. |
| `DriverEvents.ValidEventIsDetermined` | crates/t32perf-trace32/src/controller.rs:2379-2498 | Two valid events of one kind for the same request and plan agree in their abort claim, and are equal unless they are workload events with different claims. |
| `ControllerJournal.JournalStore.EventExistsExact` | src/controller_journal.rs:107-129 | Given the plan found at the moment of the call: true exactly when the stored event is this event and valid, false exactly when it is valid and the id is free, an error otherwise. |
| `ControllerJournal.JournalStore.Record` | src/controller_journal.rs:132-177 | Success leaves exactly this event under its id; failure leaves the catalog alone; a change is one artifact under an id that was free. |
| `ControllerJournal.JournalStore.Project` | src/controller_journal.rs:179-241 | Succeeds exactly when every present event reads back, is valid for the request and the given plan, and has its intent; it then reports exactly the kinds present. |
| `ControllerJournal.EventsAreImmutable` | src/controller_journal.rs:132-177 | Over any sequence of records, with any requests and plans, and other publications the catalog only grows, ids stay unique, and no recorded event changes. |
| `ControllerJournal.RetryAndConflict` | src/controller_journal.rs:107-129 | After a successful record, any number of operations later: the same record made with the plan of that moment succeeds exactly when the event is valid for it, which holds for the same plan and, for an event recorded before there was a plan, for every plan; a different event for the same transaction and kind fails; neither changes the catalog. |
| `ControllerJournal.RunRecordsWhatWasAsked` | src/controller_journal.rs:132-177 | After any run from a journal without events of a transaction, with its abort plan appearing at any moment or never, a kind is present exactly when some call could record it with the plan it was given, and it reads back with the plan. |
| `ControllerJournal.ProjectionReportsTheRun` | src/controller_journal.rs:179-241 | Projecting after any such run: with the plan it succeeds exactly when every completion asked for has its intent; without the plan, exactly when in addition no fault trigger and no abort event was asked for; it reports exactly the kinds asked for. |
| `ControllerDriver.Driver.RecordTransactionEvent` | src/controller.rs:1278-1367 | A call reads request and plan from the catalog, compares or adds its event, and keeps the journal of every transaction sound. |
| `ControllerDriver.Driver.RecordWorkloadEvent` | src/controller.rs:1649-1741 | The same for a workload event, which is checked without the plan. |
| `ControllerDriver.Driver.PlanAbort` | src/controller.rs:2349-2480 | Publishes the plan of a transaction once, accepts only the same reason again, and keeps every journal sound. |
| `ControllerDriver.CallKeepsSound` | src/controller.rs:1278-1367 | Any call of the driver, for any transaction, and any other publication keeps a journal sound: every recorded event is valid for its request and the plan now readable, and no completion stands without its intent. |
| `ControllerDriver.EveryReachableJournalIsSound` | src/controller.rs:1278-1741 | Soundness over every sequence of calls and other publications. |
| `ControllerDriver.EveryReachableJournalProjects` | src/controller.rs:1043-1090 | From a journal without events of a transaction, after any sequence of driver calls and other publications, the projection with the plan of that moment succeeds whenever request and plan can be read. |
| `ControllerDriver.TransactionDecides` | src/controller.rs:1278-1430 | On a sound journal a transaction call succeeds exactly when it is authorised by request and plan and its event is already there, or the transaction is open, the predecessor is recorded and the document fits; it changes the catalog exactly when it succeeds with a new event, and never meets a conflict. |
| `ControllerDriver.TransactionRetrySucceeds` | src/controller.rs:1299-1308 | A transaction event that was accepted is accepted again at every later moment, also after the transaction was closed, and without a trace, unless the Session is refused or the plan became unreadable. |
| `ControllerDriver.NoWorkloadAfterAbort` | src/controller.rs:1711-1741 | Workload events are projected without the plan, so once a fault trigger or an abort event of a transaction is recorded, no workload event of it is ever added. |
| `Paging.ListPage` | src/app.rs:1927-1940 | The page and cursor computed by filter, take and truncate; one row more than the limit tells whether anything is left. |
| `Paging.PageSplits` | src/app.rs:1928-1939 | A page holds rows beyond the cursor in order, and everything else beyond the cursor lies beyond the next cursor. |
| `Paging.TruncatedMeansMore` | src/app.rs:1933 | A page is truncated exactly when something beyond the cursor is not on it. |
| `Paging.FollowingTheCursor` | src/app.rs:1164-1195 | Even while the listing grows between requests, following the cursor returns no id twice and none out of order, and everything listed at the first request is returned by the time it finishes. |
| `Paging.EveryEntryExactlyOnce` | src/app.rs:1928-1939 | Over an unchanged listing the first n requests return exactly its first n * limit entries in order, and they finish exactly when that is everything. |
| `Paging.WholeListing` | src/app.rs:1928-1939 | Without a starting cursor enough requests return the whole listing. |
| `Paging.ZeroLimitHasNoCursor` | src/app.rs:1933-1939 | A limit of zero would give a truncated page without a cursor; the command line does not accept it. |

## Left out

- ProvenanceGraph.VerifyProvenanceGraph: does not model the host language's recursion limit, which a very deep acyclic graph would hit.
- Timeline.ExtractTimeline: does not require timestamps to be ordered, because the code does not; nothing is proved about time order.
- StackProfile.CheckRaw: does not model the envelope fields (schema, identity, method, firmware, target state, request binding), which are compared with fixed or given values one by one.
- AddressHeatmap.DebuggerLocations: takes the source, trust and firmware-status fields of a location row as one flag.
- AddressHeatmap.AuditHeatmap: takes the fixed provenance fields of the heatmap (schema, digests, policy, projection kind) as one flag.
- HotspotBars.AuditRows: does not model SVG element structure, styling, titles and accessibility texts, only row selection, order, widths and labels.
- SamplingRun.Runner.Run: takes every Host and sidecar answer as already parsed, with None for an answer that its own field checks reject; writing the receipt file is not modelled.
- SamplingRun.Runner.AfterCapture: takes the histogram as already validated against its schema and capture request.
- SamplingRun.Runner.AfterReadiness: takes the audit of the Host Session as one answer.
- CaptureMatrix.CaptureEvidenceMatrix.AssertCoverage: fixes the required target states to the default, running and halted.
- EvidenceV2.BuildV2: takes receipts and documents as parsed values and the canonical hash as any function of the right form; byte-size limits of whole documents are not modelled.
- VerificationReceipt.BuildReceipt: does not model artifact bindings, tolerance, fault-adapter and recovery-evidence bindings of a receipt, which are checked field by field and do not affect counts or verdict.
- CaptureMatrix.CaptureEvidenceMatrix.Add: takes the capture evidence as already built from a verified Session; the required target states of the coverage assertion are the default ones.
- VerificationReceipt.ValidateReceipt: leaves out the same artifact, tolerance, fault-adapter and recovery-evidence bindings.
- RecoveryProtocol.Host.RunExpectedFailure: does not model the overlap and path-escape checks of the reservation, for the reason given with RunRecovery.
- RecoveryProtocol.Host.WriteReceipt: builds the receipt path from the reservation, so the check of its parent directory is not a separate step.
- RecoveryProtocol.Host.RunRecovery: models the two roots as separate trees, so the check that reservation and artifact root do not overlap, path resolution and symbolic-link traversal are not part of this model; snapshots are maps, not directory walks, and two captures with nothing between them are one.
- Qualification.Deployment.Provision: reads staged documents and the trusted policy as given bytes; locks, staging files and the session store's own intent recovery are not modelled, so a crash happens only between publications; of the qualification validator the digests that the policy pins are modelled and its other rules are one function.
- ControllerJournal.JournalStore.Record: takes the syntax of bindings, texts and ids as three predicates; the schema field of an event has one value and is left out.
- ControllerDriver.Driver.RecordTransactionEvent: takes the Session and request-context checks as one answer, and the accepted response and the slot ownership as another.
- ControllerDriver.Driver.RecordWorkloadEvent: is given the accepted Start evidence and whether the capture phase still allows a workload event.
- ControllerDriver.Driver.PlanAbort: is given whether a response was accepted, whether the transaction owns its slot, and whether the Session is still open.
- DeploymentHistory.EveryHistoryIsSafe: does not say that other publications have their inputs in the catalog, which the session store does not ask of them.
- Paging.ListPage: models the listing of ids; the other fields of a listed row are not part of this model.
- Among several faults of one input, which is reported first is modelled where a method is equated with its fold (timeline, counters); elsewhere contracts say only whether the input is accepted.
- CrashSafety.AnyAttemptsAreSafe: assumes, like the other results about attempts with different arguments, that no two contents share a digest.
- Floating-point rounding: times and ratios are reals or integers.
- Digests, JSON, TOML and XML text, regular expressions and Unicode normalisation: digests are functions, documents are parsed values, patterns are predicates.
- Subprocesses, pipes, threads, file locks, `lstat`, `fsync` and reparse points: operating-system behaviour.
- `_compare_reference`, clock alignment, static RAM and analysis-summary comparisons of the resource verifier: field comparisons within tolerances.
- `_extract_t32perf_function_activations` and the comparison of function activations: they select derived spans by key in the order of the selection and compare them field by field; no property spans several of them, so they would add easy members only.
- `compiled_profile_for_receipt` shares the selection function of `compiled_profile_for_firmware_in` in the model instead of its own loop; the result is the same.
- Board configuration, capture configuration, command dispatch, logging and rendering: parsing and plumbing without a deep property.
