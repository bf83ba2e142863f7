# SecureOps: a verified model of its pipeline

SecureOps takes scanner reports, turns them into findings that live on across
scans, correlates and scores those findings, plans remediation and decides a
build gate. This project models that pipeline in Dafny and proves what it keeps
over every input, every run and every answer of the parts it depends on.

`dafny verify dfyconfig.toml` checks everything.

## What is modelled

| files | part of the system |
|---|---|
| `Ordering.dfy`, `Text.dfy`, `PathLaws.dfy`, `Model.dfy` | string order and stable sorting, path normalization and the laws that determine it, the finding and its scales |
| `Fingerprint.dfy`, `Dedup.dfy` | identity of a finding, merging one scan's reports |
| `Lifecycle.dfy`, `LifecycleTheorems.dfy`, `Rerecording.dfy`, `Provenance.dfy`, `FindingStore.dfy` | findings, sightings, history and scans as a state machine; what every run keeps, and which step every row, entry and sighting goes back to; the store's transactions as methods of a class that take its steps |
| `Correlation.dfy`, `CorrelationEngine.dfy`, `CorrelationTheorems.dfy`, `LinkTheorems.dfy`, `IssueTheorems.dfy` | what correlation should compute, the bucketed engine that computes it, and what its links and issues say of the findings |
| `Risk.dfy`, `RiskFactors.dfy`, `RiskScale.dfy`, `RiskTheorems.dfy` | scoring, what each circumstance does to a value, how scores read under the default weights, and which weights keep the promises |
| `Pipeline.dfy`, `PipelineLimits.dfy`, `PipelineGate.dfy` | the end-to-end effect of adding or dismissing a finding, exactly when it can mislead, and what it does to the verdict |
| `Remediation.dfy`, `RemediationTheorems.dfy`, `ActionTheorems.dfy` | the plan, its counterfactual ranking, and what one action stands for |
| `Policy.dfy`, `PolicyTheorems.dfy` | the gate |
| `Scans.dfy`, `Worker.dfy`, `Deliveries.dfy`, `Entitlement.dfy`, `Pool.dfy` | scan status, one job as a trace of store calls, repeated deliveries and panics, what entitles a job to resolve findings, the worker's bounded pool |
| `Kube.dfy` | the Kubernetes executor's requests under arbitrary answers |
| `Sessions.dfy` | session tokens |

Code that works on state is a class or a method with loops, proved against a
function or a relation; code that computes a value is a function. A database
transaction is one step that takes full effect or none. Answers of databases,
scanners, clocks and the API server are parameters, so a theorem holds for all
of them. Floating point is `real`; the exponential is a parameter that is
positive, strictly increasing and 1 at 0.

## Where the code and its comments part

The model follows the code. Each difference is stated exactly.

- `unknown` outranks `low` but never escalates, so a finding nobody could grade
  can lower a project's total from 9.2 to 6.5
  (`PipelineLimits.UnknownLowersTotal`), turn a failing build into a passing one
  (`PipelineGate.UnknownTurnsFailIntoPass`), and dismissing it can raise it again.
- A bucket keeps its first 500 members. One more finding, of any severity, that
  sorts before the last of them evicts it, and the total can fall from 7585 to
  7573.9 (`PipelineLimits.EvictionLowersTotal`). These are the only two ways:
  `Pipeline.AddingNeverLowers` for one project, and over all projects
  `PipelineLimits.SafeToAddExactly`.
- `Deduplicate` says input order does not affect the output. It keeps the ranks
  and sources (`Dedup.OrderKeepsRankAndSources`), but order and prose follow the
  first reports, and two arrangements agree exactly when those do
  (`Dedup.OrderMattersThroughHeads`, `Dedup.ExchangedReports`).
- `NormalizeLocation` is not idempotent where the first segment it keeps begins,
  or the last ends, with white space (`Text.NormalizeLocationIdempotent`).
- A scan spares what it reports only through the sightings that come with it
  (`LifecycleTheorems.ReportsSparedExactly`). Every mapper writes both together.
- Recording a website scan again can resolve more, when several equally recent
  reports of a finding disagree about the page
  (`Rerecording.RecordingAgainExactly`; `Rerecording.RecordingAgainCanResolve` is
  such a run).
- `completed` speaks of recorded results. A job timeout between two scanners can
  leave a completed scan with a scanner that never ran
  (`Worker.TimeoutCanComplete`, `Worker.CompletedCoversIfUninterrupted`).
- A scanner whose output could not be normalized still counts as succeeded and
  still entitles the scan to resolve findings; so does one whose mapper dropped
  entries, which are only logged. Such a job can resolve a finding that its own
  scanner's output still holds: `Entitlement.HiddenExactly` says exactly when, on
  what the worker can see before it records, `Entitlement.UnreadScannerResolves`
  and `Entitlement.DroppedEntryResolves` are such jobs, and inventories that
  report no findings never cause it (`Entitlement.ReadJobIsSafe`).
- A panic in a job is recovered and leaves the scan where it was. Once marked
  running it stays running, whatever is delivered later, until a delivery is
  refused before marking (`Worker.ExecuteJob`, `Deliveries.AbandonedStaysRunning`).
  Each scan is enqueued once and nothing enqueues it again.
- A user id with a dot gets a token that never verifies, although the comment
  says a dot cannot shift the split (`Sessions.IssuedVerifies`).
- The check for two policy rules on one metric lets two score rules through
  when their selectors are different amounts of white space
  (`PolicyTheorems.OnlyBlankSelectorsShareAMetric`). The verdict is a maximum,
  so it does not depend on their order.
- A score ceiling above 100 is refused because nothing can exceed it. A ceiling
  of exactly 100 is accepted, and nothing exceeds that either
  (`PolicyTheorems.FullScaleNeverExceeds`).
- Each site of a rule is meant to be an action of its own. Two of them are one
  action when their fingerprints begin with the same twelve characters
  (`ActionTheorems.SitesMergeExactly`).
- `Weights.Validate` asks neither the severity weights to follow rank nor the
  confidence weights to follow confidence. Escalation and corroboration keep
  their promises exactly when they do (`RiskTheorems.EscalationNeedsRank`,
  `RiskTheorems.CorroborationNeedsOrder`); `RiskTheorems.UpsideDownIsValid` and
  `RiskTheorems.UnsureIsValid` are valid weight sets where an escalated and a
  corroborated finding score lower.

## Model

| member | source | states |
|---|---|---|
| `Text.SplitJoin` | internal/normalization/fingerprint.go:77-80 | splitting a joined list of separator-free fields gives the list back |
| `Text.NormalizeLocationIdempotent` | internal/normalization/fingerprint.go:89-104 | a second normalization changes nothing exactly when the first kept segment does not begin, and the last does not end, with white space |
| `Text.NormalizeLocationStable` | internal/normalization/fingerprint.go:89-104 | paths without white space are normalized once and for all |
| `Text.TidyIsStable` | internal/normalization/fingerprint.go:89-104 | so are all paths in which no segment between slashes of either kind begins or ends with white space |
| `Text.SameLocation` | internal/normalization/fingerprint.go:84-104 | two non-blank paths normalize alike exactly when they keep the same segments, and agree on the root if they keep none |
| `Text.BackslashSpelling` | internal/normalization/fingerprint.go:94-96 | a Windows spelling normalizes as its POSIX spelling |
| `Text.TrailingSlashSpelling` | internal/normalization/fingerprint.go:97-97 | a trailing slash does not matter |
| `Text.DotSpelling` | internal/normalization/fingerprint.go:98-101 | a leading `./` does not matter on a relative path |
| `Text.RootedSpelling` | internal/normalization/fingerprint.go:98-102 | a leading `/` does not matter exactly for relative paths that stay inside the target |
| `Text.NormalizeLocationNotIdempotent` | internal/normalization/fingerprint.go:89-104 | `/ x` is normalized twice to two different texts |
| `Text.TrimSpaceExactly` | internal/normalization/fingerprint.go:90-93 | trimming takes white space off both ends, all of it and nothing else |
| `PathLaws.NameBelow` | internal/normalization/fingerprint.go:94-102 | a name below a path is appended to what the path normalizes to, and stands alone below the root or the current directory |
| `PathLaws.DotBelow` | internal/normalization/fingerprint.go:94-102 | a dot below a path changes nothing |
| `PathLaws.ParentUndoes` | internal/normalization/fingerprint.go:94-102 | two dots undo the name before them |
| `PathLaws.NoParentOfRoot` | internal/normalization/fingerprint.go:94-102 | above the root is the root |
| `PathLaws.ParentClimbs` | internal/normalization/fingerprint.go:94-102 | a relative path with nothing left to undo climbs one level with each two dots |
| `PathLaws.NameAlone` | internal/normalization/fingerprint.go:94-102 | a single name is its own normal form |
| `Fingerprint.PreimageIdentity` | internal/normalization/fingerprint.go:55-82 | two accepted inputs are hashed from the same bytes exactly when their five normalized fields agree |
| `Fingerprint.SharedBytesExactly` | internal/normalization/fingerprint.go:55-82 | accepted inputs are hashed from the same bytes exactly when category, rule, path, package and vulnerability agree up to case, padding and spelling |
| `Fingerprint.RefusedExactly` | internal/normalization/fingerprint.go:55-82 | an input is refused exactly when a field holds the separator or nothing but the category is said |
| `Fingerprint.RespelledLocation` | internal/normalization/fingerprint.go:55-104 | padding, other slashes, a trailing slash, a leading `./`, or a leading `/` on a path that stays inside, keep the identity |
| `Dedup.Deduplicate` | internal/normalization/dedup.go:65-97 | one merged finding per identity, in order of first report: the first report's fields, the first severity none outranks, the reporting scanners sorted |
| `Dedup.WorstIsReported` | internal/normalization/dedup.go:80-87 | the merged severity was reported and outranked by no report |
| `Dedup.MergedExactly` | internal/normalization/dedup.go:65-97 | an entry of the output is the first report of its identity with the severity of the gravest, the earliest of several, and the names of exactly the scanners that reported it, sorted |
| `Dedup.SeenExactly` | internal/normalization/dedup.go:65-97 | an identity has an entry exactly if some report is of it |
| `Dedup.OrderOfFirstReports` | internal/normalization/dedup.go:65-97 | entries come in the order of first reports |
| `Dedup.Combine` | internal/normalization/dedup.go:26-42 | all findings merged, every sighting and every dropped entry kept |
| `Dedup.OrderKeepsRankAndSources` | internal/normalization/dedup.go:61-64 | any arrangement of the same reports gives the same identities, severity ranks and sources |
| `Dedup.OrderMattersThroughHeads` | internal/normalization/dedup.go:61-97 | two arrangements give equal output exactly when each identity has the same first report, in the same order, up to severity |
| `Dedup.ExchangedReports` | internal/normalization/dedup.go:61-97 | two reports of different identities, exchanged, give a different output |
| `Dedup.CombinedRecords` | internal/findings/store.go:67-74 | results that pair findings with sightings combine to a scan whose recording never meets an unknown fingerprint |
| `Dedup.CombinedIsNotResolved` | internal/findings/store.go:222-230 | nothing any scanner reported is resolved by the scan that reported it |
| `FindingStore.Store.UpsertFinding` | internal/findings/store.go:87-180 | a new finding is opened, a resolved one reopened, any other status kept, with the history entry of the status before |
| `FindingStore.Store.InsertOccurrence` | internal/findings/store.go:359-373 | a sighting is added unless the unique constraint has it |
| `FindingStore.Store.LatestReport` | internal/findings/store.go:312-322 | the answer is a most recent sighting by another known scan, or there is none |
| `FindingStore.Store.LookedAtBy` | internal/findings/store.go:285-342 | whether the scan is limited to a page, and the candidates whose latest report is of that page |
| `FindingStore.Store.ResolveUnreported` | internal/findings/store.go:208-272 | exactly the resolvable rows are resolved, each once, each with its history entry |
| `FindingStore.Store.RecordScan` | internal/findings/store.go:48-83 | succeeds exactly when every sighting is of a reported finding; then takes one step of the state machine, else leaves the tables as they were |
| `FindingStore.Store.Transition` | internal/findings/transition.go:129-206 | takes the step of a person's change exactly when it is allowed; refuses with the reason the request earns and changes nothing |
| `LifecycleTheorems.UpsertEffect` | internal/findings/store.go:146-149 | what a list of reports does to one finding's scanner and status |
| `LifecycleTheorems.SightingsEffect` | internal/findings/store.go:359-373 | every sighting of a scan is stored or was there, and nothing else changes |
| `LifecycleTheorems.ResolveEffect` | internal/findings/store.go:221-243 | resolving changes the status of exactly the listed findings |
| `LifecycleTheorems.HistoryTellsStatus` | internal/findings/store.go:166-178 | after every run each finding's history starts open, ends in its status, never repeats a status and records the true previous one |
| `LifecycleTheorems.InvKept` | internal/findings/store.go:263-270 | every step keeps that invariant, and every sighting is of a stored finding |
| `LifecycleTheorems.ResolvedOnlyByEntitledScan` | internal/findings/store.go:224-243 | a finding becomes resolved only by a scan of its project in which every reporter completed, that did not see it, and, for a website, whose page the latest other report was of |
| `LifecycleTheorems.ResolvingScanHeardEveryone` | internal/findings/store.go:182-207 | over any run, every scanner that ever saw the finding completed in the scan that resolves it, and that scan did not see it |
| `LifecycleTheorems.SightingsPersist` | internal/findings/store.go:359-373 | a sighting once recorded is there after every later step |
| `LifecycleTheorems.SightedIsNotResolved` | internal/findings/store.go:227-230 | a scan does not resolve what it sighted |
| `LifecycleTheorems.ReportedIsNotResolved` | internal/findings/store.go:48-83 | with sightings for every report, nothing reported is resolved or left resolved |
| `LifecycleTheorems.ReportsSparedExactly` | internal/findings/store.go:221-243 | after no run from the empty tables does recording a scan leave resolved what it reports, exactly when it pairs reports with sightings or has no complete scanner |
| `LifecycleTheorems.StepExists` | internal/findings/store.go:48-83 | a scan all of whose sightings are of reported findings can be recorded in any state, a website scan too |
| `LifecycleTheorems.UnpairedIsResolvedAtOnce` | internal/findings/store.go:221-243 | a report without a sighting is opened and resolved in one step |
| `LifecycleTheorems.JudgementStands` | internal/findings/store.go:143-149 | a status a person set stays through any run in which no person changes it |
| `LifecycleTheorems.MoreCompleteResolvesMore` | internal/findings/store.go:224-243 | on one table state, more complete scanners resolve at least as much |
| `LifecycleTheorems.MoreCompleteStepResolvesMore` | internal/findings/store.go:48-83 | on recording steps: what a scan resolves, the same scan with more complete scanners resolves, exactly unless a website scan's database now picks a report of another page; it cannot where the latest reports agree |
| `Provenance.RecordedSeverity` | internal/findings/store.go:115-117 | recording a scan gives a finding the severity of its last report there |
| `Provenance.RecordedScanner` | internal/findings/store.go:103-115 | a finding stored for the first time names its first reporter; a stored one keeps its own |
| `Provenance.UnreportedKept` | internal/findings/store.go:48-83 | of a finding it does not report a recording changes at most the status, to resolved |
| `Provenance.ReportsAreStored` | internal/findings/store.go:48-83 | what a scan's scanners reported of a finding is what is stored: the gravest severity, and, for a new finding, the scanner that reported it first |
| `Provenance.RecordedStatus` | internal/findings/store.go:143-149 | after a recording a status is resolved if it resolved the finding, open if it stored it, reopened if it reported a resolved one, and otherwise as it was |
| `Provenance.ResolvesExactly` | internal/findings/store.go:224-243 | a recording resolves a finding exactly if it is of the project, was open, reopened or just came back, its first reporter and everyone who ever saw it finished, this scan did not see it, and a website scan looked at it |
| `Provenance.NewestPageDecides` | internal/findings/store.go:285-342 | a finding a website scan missed is resolved exactly if its newest report, by time and then by the creation of its scan, was of the page this scan looked at |
| `Provenance.SeverityIsLastReported` | internal/findings/store.go:115-117 | after any run a finding has the severity the last recording that reported it gave it |
| `Provenance.NeverMentioned` | internal/findings/store.go:48-83 | a run that never reports a finding neither stores it nor changes its reporter or severity |
| `Provenance.ScannerIsFirstReporter` | internal/findings/store.go:103-115 | after any run from the empty tables a finding names the scanner that reported it first |
| `Provenance.StoredExactlyIfReported` | internal/findings/store.go:48-83 | after any run a finding is stored exactly if some recording reported it |
| `Provenance.StepHistory` | internal/findings/store.go:344-357 | a step only appends to the history, and each entry tells the finding, the statuses, the actor, the reason and the scan of what the step did |
| `Provenance.HistoryIsAccountedFor` | internal/findings/store.go:344-357 | after any run every history entry goes back to the event it describes |
| `Provenance.SightingsAreWitnessed` | internal/findings/store.go:359-373 | after any run every sighting goes back to a place some recording reported, with its scanner, file, line and time |
| `Provenance.EveryPlaceOnRecord` | internal/findings/store.go:67-79 | every place a recording reports is on record after it, with its file and line |
| `Provenance.NoSightingTwice` | internal/findings/store.go:359-373 | after any run no sighting at a known file and line is stored twice for one finding, scan and scanner |
| `Provenance.UnplacedIsAlwaysStored` | internal/findings/store.go:359-373 | sightings without a file or a line are stored every time |
| `Provenance.PersonSetsExactly` | internal/findings/transition.go:62-110 | a person can give a stored finding exactly the other statuses among open, acknowledged, in progress, false positive and ignored, for one of five reasons and with a note of at most 2000 characters |
| `Provenance.PersonChanges` | internal/findings/transition.go:146-176 | a person's change gives one finding the status asked for and leaves its reporter, its severity and every other row as they were |
| `Rerecording.RecordingAgainChangesNothing` | internal/findings/store.go:48-83 | with nothing undecided, recording the same scan again changes no status and writes no history |
| `Rerecording.RecordingAgainExactly` | internal/findings/store.go:307-341 | recording again is always without effect exactly when no finding was left undecided: unresolved although one of its equally recent latest reports was of the scanned page |
| `Rerecording.RecordingAgainCanResolve` | internal/findings/store.go:307-341 | after a run in which two scans of two pages report a finding at one time, recording a third scan leaves it open and recording it again resolves it |
| `CorrelationEngine.LinkSet.Add` | internal/correlation/link.go:67-77 | one link per pair; a stronger claim replaces a weaker one |
| `CorrelationEngine.LinkSet.Sorted` | internal/correlation/link.go:110-122 | the collected links in the order of their pairs |
| `CorrelationEngine.KeysOf` | internal/correlation/correlation.go:150-169 | the CVE, component and file keys of a finding, each once |
| `CorrelationEngine.Bucketize` | internal/correlation/correlation.go:129-143 | the buckets hold exactly the carriers of each key, in input order, and the keys come sorted |
| `CorrelationEngine.LinkBucket` | internal/correlation/correlation.go:176-185 | every pair of the bucket is offered, in order |
| `CorrelationEngine.DistinctCategories` | internal/correlation/correlation.go:320-333 | the categories present, sorted, each once |
| `CorrelationEngine.DeriveSeverity` | internal/correlation/issue.go:68-106 | the severity and escalation of a bucket |
| `CorrelationEngine.FormIssue` | internal/correlation/correlation.go:245-283 | the issue of a bucket, or none |
| `CorrelationEngine.CorrelateWith` | internal/correlation/correlation.go:87-121 | the bucketed, capped, deduplicating walk computes the specified issues, links and truncated keys |
| `CorrelationEngine.NewInventory` | internal/correlation/deployment.go:115-133 | an inventory holds the trimmed package URLs that are not blank |
| `CorrelationTheorems.LinksArePairwise` | internal/correlation/correlation.go:176-237 | with nothing truncated, the links are exactly the pairwise definition, in strict order: one for each connected pair, smaller fingerprint first |
| `CorrelationTheorems.PairLinkMeaning` | internal/correlation/correlation.go:187-237 | a pair is linked exactly when connected; high for a shared CVE, else medium for a component, else low for a file |
| `CorrelationTheorems.BestIsPairLink` | internal/correlation/link.go:67-89 | the claim that survives all buckets is the pairwise one |
| `CorrelationTheorems.LinksAreConnected` | internal/correlation/correlation.go:99-108 | with a capped bucket every link still joins two connected findings |
| `CorrelationTheorems.LinkedExactlyWhenKept` | internal/correlation/correlation.go:99-119 | cap or no cap, two findings are linked exactly when both are kept for some key that says something about them |
| `LinkTheorems.LinksSayWhatIsKept` | internal/correlation/correlation.go:187-237 | cap or no cap, a link rests on the CVE if both findings are within the cap of its bucket, else on the component, else on the first such file, and its relationship, confidence and evidence say exactly that |
| `LinkTheorems.DuplicatesExactly` | internal/correlation/correlation.go:201-216 | cap or no cap, a link is a likely duplicate exactly when its findings share a component and no CVE, have one category, and neither names a vulnerability |
| `LinkTheorems.LinksExplainExactly` | internal/correlation/correlation.go:187-237 | with nothing truncated the links are exactly those that say of each connected pair which CVE, component and category, or first file with both categories, joins it |
| `CorrelationTheorems.StoredPathIsKey` | internal/correlation/correlation.go:159-167 | the stored, normalized path of a tidy path is its file key |
| `CorrelationTheorems.OrderIndependent` | internal/correlation/correlation.go:335-340 | issues, links and truncated keys are the same for every order of findings and files, cap and ties included |
| `CorrelationTheorems.IssueMeaning` | internal/correlation/issue.go:68-106 | an issue has two or more members that all carry its key; its severity is the worst member's, raised to the mildest graded severity above it exactly when two categories meet on a severity that can rise |
| `CorrelationTheorems.IssueOfKey` | internal/correlation/correlation.go:245-283 | an issue exists exactly for the keys with two or more kept carriers and, for a file, two categories among them; one per key |
| `IssueTheorems.MembersExactly` | internal/correlation/correlation.go:99-108 | members come in fingerprint order, no more than the cap; every finding with the key is one, unless a full cap cut it off behind all of them |
| `IssueTheorems.CategoriesExactly` | internal/correlation/correlation.go:320-333 | the categories are those of the members, blanks aside, sorted |
| `IssueTheorems.IssuesInOrder` | internal/correlation/key.go:51-55 | issues come with vulnerabilities first, then files, then components, by name within each |
| `IssueTheorems.TruncatedExactly` | internal/correlation/correlation.go:99-108 | a key is reported truncated, by its text, exactly when more findings carry it than the cap allows |
| `CorrelationTheorems.InventoryIsEvidence` | internal/correlation/deployment.go:74-86 | changing the inventory changes no link, truncated key, member, severity or escalation |
| `CorrelationTheorems.NotDeployedNeedsCompleteInventory` | internal/correlation/deployment.go:74-86 | `not_deployed` is said exactly of a component missing from a complete, non-empty inventory, `deployed` exactly of one in the inventory, and either names its scan |
| `Risk.DefaultWeightsAreValid` | internal/risk/weights.go:63-94 | the defaults pass validation and follow rank |
| `Risk.Aggregate` | internal/risk/risk.go:333-359 | one pass gives the maximum plus the weighted rest, and the clamped saturation of it |
| `Risk.Assess` | internal/risk/risk.go:107-132 | refused exactly for invalid weights; else scores, total, score and the counts of live and dismissed findings |
| `Risk.TotalMonotone` | internal/risk/risk.go:333-359 | leaving values out or lowering them never raises the total |
| `Risk.SaturateMonotone` | internal/risk/risk.go:348-358 | a score lies in [0, 100), is 0 at 0 and rises strictly with the total; the clamp never fires |
| `Risk.ScoreMonotone` | internal/risk/risk.go:115-132 | for every valid weight set, in every context it weighs positively (every declared environment and criticality), total and score move with the findings |
| `Risk.ScorePermutation` | internal/risk/risk.go:115-132 | total and score do not depend on the order of the findings |
| `RiskFactors.PercentileScales` | internal/risk/risk.go:206-223 | a percentile multiplies the value by the floor plus itself, against no intelligence |
| `RiskFactors.PercentileRaises` | internal/risk/risk.go:206-223 | a higher percentile means a strictly higher value wherever the finding is worth anything |
| `RiskFactors.InternetScales` | internal/risk/risk.go:225-241 | facing the internet multiplies the value by its weight |
| `RiskFactors.EnvironmentsCompare` | internal/risk/risk.go:225-241 | values in two environments compare as their weights |
| `RiskFactors.UnlistedEnvironment` | internal/risk/risk.go:228-235 | an environment missing from the table weighs one |
| `RiskFactors.CriticalitiesCompare` | internal/risk/risk.go:243-254 | values at two criticalities compare as their weights |
| `RiskFactors.UnlistedCriticality` | internal/risk/risk.go:243-254 | a criticality missing from the table weighs one |
| `RiskFactors.SeveritiesCompare` | internal/risk/risk.go:172-198 | values of one finding at two severities compare as the weights of what it counts as: its own, or its issue's where that is known and worse |
| `RiskFactors.UnlistedSeverity` | internal/risk/risk.go:182-191 | a severity outside the table weighs as `unknown` |
| `RiskFactors.ConfidencesCompare` | internal/risk/risk.go:270-293 | with one reporter values compare as the confidence weights |
| `RiskFactors.CorroborationIsAStep` | internal/risk/risk.go:270-304 | a second reporter with a name counts as one step of confidence, and the surest stays |
| `RiskFactors.UnrecognisedConfidenceIsWeak` | internal/risk/risk.go:271-274 | a confidence nobody recognises counts as the weakest |
| `RiskFactors.PlainValue` | internal/risk/risk.go:135-165 | a finding with nothing special about it is worth the product of its four weights |
| `RiskFactors.ScoresExactly` | internal/risk/risk.go:135-165 | every finding is scored in place; settled ones at zero with their own severity; an escalation is marked exactly when the issue's severity is used |
| `RiskFactors.OneMoreValue` | internal/risk/risk.go:329-345 | a value no worse than the worst adds its tail share to the total; a worse one takes the worst one's place |
| `RiskFactors.NoValues` | internal/risk/risk.go:329-345 | nothing live totals nothing |
| `RiskFactors.SaturationScales` | internal/risk/risk.go:346-358 | the score depends on the total in units of the saturation constant alone, and is 100 less 100 times the exponential |
| `RiskScale.CrowdTotal` | internal/risk/risk.go:329-345 | of findings worth the same the first counts in full and every further one for its tail share |
| `RiskScale.PlainWorth` | internal/risk/weights.go:62-97 | what each severity is worth by default where nothing raises or lowers it |
| `RiskScale.ContextsWeigh` | internal/risk/weights.go:62-97 | what any finding is worth by default in staging and development as a share of production, on the other assets as a share of a medium one, and facing the internet |
| `RiskScale.ConfidencesWeigh` | internal/risk/weights.go:62-97 | what a less certain finding is worth by default as a share of a certain one |
| `RiskScale.NeutralRows` | internal/risk/aggregate_test.go:154-160 | the worked examples of neutral findings: totals 8.0, 126.8, 8.35 and 3.7925 |
| `RiskScale.CriticalRows` | internal/risk/aggregate_test.go:154-160 | the worked examples of criticals: totals 21.0, 335.25 and 787.8375 |
| `RiskScale.CrowdOutranksExactly` | docs/architecture/risk-engine.md:222-230 | a crowd of neutral findings scores at least one worst case exactly from 44695 informational findings on, 2230 lows, 274 mediums |
| `RiskTheorems.EscalationNeedsRank` | internal/risk/risk.go:172-180 | for valid weights, a worse issue severity never lowers a value exactly when the severity weights follow rank |
| `RiskTheorems.UpsideDownIsValid` | internal/risk/weights.go:100-175 | the defaults with `medium` at 0.5 pass validation, and there escalation lowers a value |
| `RiskTheorems.CorroborationNeedsOrder` | internal/risk/risk.go:270-304 | for valid weights, more reporters never lower a value exactly when the confidence weights follow confidence |
| `RiskTheorems.UnsureIsValid` | internal/risk/weights.go:100-175 | the defaults with `likely` at 0.4 pass validation, and there a second reporter lowers a value |
| `RiskTheorems.DefaultsKeepBothPromises` | internal/risk/weights.go:63-94 | both hold of the default weights |
| `Pipeline.LoadedExactly` | internal/findings/risk.go:68-105 | every stored finding is loaded as stored, with its reporters and the severity of an issue that lists it, outranked by no other that does |
| `Pipeline.IssueSeverityFalls` | internal/correlation/issue.go:68-106 | a new member lowers its issue's severity exactly when `unknown` joins a bucket raised from `low` |
| `Pipeline.AddingNeverLowers` | internal/findings/risk.go:92-103 | adding a live finding, recorrelating and rescoring never lowers total or score, when it demotes no issue and evicts no member of a full bucket; buckets may be over the cap |
| `Pipeline.DismissedIsInvisible` | internal/risk/risk.go:115-132 | a dismissed finding changes no value of the recorrelated project |
| `Pipeline.DismissingNeverRaises` | internal/findings/risk.go:92-103 | dismissing a finding that would be harmless to add never raises total or score |
| `PipelineLimits.UnknownLowersTotal` | internal/correlation/issue.go:92-106 | a project whose total falls from 9.2 to 6.5 when an `unknown` finding is added |
| `PipelineLimits.DismissingUnknownRaisesTotal` | internal/correlation/issue.go:92-106 | dismissing that finding raises the total from 6.5 to 9.2 |
| `PipelineLimits.EvictionLowersTotal` | internal/correlation/correlation.go:101-106 | a full bucket: one more finding, of any severity, evicts a member and the total falls from 7585 to 7573.9 |
| `PipelineLimits.SafeToAddExactly` | internal/normalization/severity.go:36-51 | under the default weights, while no bucket exceeds a size, a severity never lowers a total exactly when the size is at most 2, or it is not `unknown` and the size is within the cap |
| `PipelineGate.AddingNeverImprovesRecorrelated` | internal/worker/runner.go:612-620 | with the whole project recorrelated, adding a harmless finding never improves the verdict |
| `PipelineGate.DismissingNeverWorsensRecorrelated` | internal/findings/risk.go:92-103 | with the whole project recorrelated, dismissing a finding that would be harmless to add never worsens the verdict |
| `PipelineGate.FallingTotalCanPass` | internal/policies/evaluate.go:108-153 | whenever a project's total falls, a valid one-rule policy fails it before and passes it after |
| `PipelineGate.UnknownTurnsFailIntoPass` | internal/correlation/issue.go:92-106 | two `low` findings fail a score rule that they pass with an `unknown` finding beside them, which is not harmless to add |
| `Remediation.Build` | internal/remediation/remediation.go:49-107 | the plan: the live findings grouped by action, each action weighed by the score without its members, in rank order |
| `Remediation.Without` | internal/remediation/remediation.go:123-136 | exactly the findings of other members remain, in order |
| `Remediation.Collect` | internal/remediation/group.go:25-67 | one group per key, in order of first appearance, holding its findings |
| `RemediationTheorems.WithholdingNeverRaises` | internal/remediation/remediation.go:80-91 | for every valid weight set, in every context it weighs positively (every declared environment and criticality), the negative clamp never fires and `ScoreAfter` plus `RiskRemoved` is `Score` |
| `RemediationTheorems.ActionsPartitionLive` | internal/remediation/group.go:25-67 | each live finding is a member of one action, the one of its key; every action has members, all live; keys are unique |
| `RemediationTheorems.PlanIsRanked` | internal/remediation/remediation.go:93-103 | an earlier action never removes less risk, on equal risk never closes fewer findings, and on a full tie has the smaller key; no two are equal in rank |
| `RemediationTheorems.PlanIgnoresOrder` | internal/remediation/remediation.go:93-103 | the same findings in another order give the same plan |
| `RemediationTheorems.KeyDecides` | internal/remediation/group.go:75-101 | a key determines the kind and the component |
| `ActionTheorems.WeighedWithout` | internal/remediation/remediation.go:75-91 | an action's score after is that of the project without its findings, and what it removes is the fall, or zero |
| `ActionTheorems.MembersExactly` | internal/remediation/group.go:41-63 | an action lists exactly the live findings of its key, each with its scanner, severity and value, in fingerprint order |
| `ActionTheorems.NamedByItsFindings` | internal/remediation/group.go:30-39 | its kind and component are those of every finding it closes |
| `ActionTheorems.KindExactly` | internal/remediation/action.go:115-135 | the kind of work by category, and for packages by whether a fixed version is known |
| `ActionTheorems.SharedActionExactly` | internal/remediation/group.go:75-101 | one action closes two findings exactly when they are of one package with equal fix availability, of one licensed package, one secret, or one rule at fingerprints that begin alike; for fingerprints without `@` |
| `ActionTheorems.SitesMergeExactly` | internal/remediation/group.go:92-99 | two sites of one rule are one action exactly when their fingerprints begin with the same twelve characters |
| `ActionTheorems.SecretsStandAlone` | internal/remediation/group.go:87-91 | an action for a secret closes nothing else |
| `Policy.InputFrom` | internal/policies/evaluate.go:37-53 | the counts are those of the live findings by severity and category, and each table sums to their number |
| `Policy.Validate` | internal/policies/policy.go:127-191 | accepts exactly the policies with usable rules and no two of one key |
| `Policy.Evaluate` | internal/policies/evaluate.go:108-153 | the worst of all breached levels and the incomplete-scan level; every rule reported once, in order; downgraded exactly when coverage changed the verdict |
| `Policy.OneVerdict` | internal/policies/evaluate.go:108-153 | every policy gives every input exactly one such verdict |
| `PolicyTheorems.PassExactly` | internal/policies/evaluate.go:108-149 | on the findings: a pass exactly when the scan is complete, no severity and no category has more live findings than its rule allows, and the score is within its ceiling |
| `PolicyTheorems.VerdictExactly` | internal/policies/evaluate.go:108-149 | on the findings: a failure exactly when a fail-level rule is exceeded or the scan is incomplete and that is to fail; a pass exactly when nothing is exceeded and the scan is complete |
| `PolicyTheorems.ConditionsMeasure` | internal/policies/evaluate.go:120-135 | every rule is reported with the number of live findings of its severity or category, or the score, and breached exactly when that exceeds its ceiling |
| `PolicyTheorems.ConditionsInOrder` | internal/policies/policy.go:195-204 | conditions are listed by kind, and strictly by selector within a kind |
| `PolicyTheorems.DowngradedExactly` | internal/policies/evaluate.go:137-149 | downgraded exactly when the scan is incomplete and the rules alone ask for less |
| `PolicyTheorems.SpelledOnce` | internal/policies/evaluate.go:156-160 | a selector names exactly the severity it spells |
| `PolicyTheorems.UsableExactly` | internal/policies/policy.go:150-190 | a rule is usable exactly if it warns or fails above a ceiling of at least zero and measures one of six severities, one of seven categories, or, with a blank selector, the score up to 100 |
| `PolicyTheorems.FullScaleNeverExceeds` | internal/policies/policy.go:162-171 | a score ceiling of 100 or more is never exceeded; exactly 100 is accepted all the same |
| `PolicyTheorems.RuleOrderIsIrrelevant` | internal/policies/policy.go:195-204 | rearranging the rules changes neither verdict nor conditions |
| `PolicyTheorems.OnlyBlankSelectorsShareAMetric` | internal/policies/policy.go:133-143 | two rules of a valid policy measure one thing exactly when both are score rules with different blank selectors |
| `PolicyTheorems.BlankSelectorsPass` | internal/policies/policy.go:162-165 | such a policy is accepted |
| `PolicyTheorems.AddingNeverImproves` | internal/policies/evaluate.go:37-53 | at fixed issue severities one more finding never improves the verdict |
| `PolicyTheorems.DismissingNeverWorsens` | internal/policies/evaluate.go:55-62 | at fixed issue severities dismissing a finding never worsens the verdict |
| `PolicyTheorems.GateCountsLive` | internal/policies/evaluate.go:37-53 | tables that count the live findings by severity and by category each sum to their number |
| `PolicyTheorems.LiveSetsAgree` | internal/findings/correlation.go:19-19 | the findings correlation reads are those the score counts, those some action closes and those the gate's tables count |
| `Scans.WholeExactly` | internal/scanexec/inprocess.go:153-236 | a result is whole exactly when the binary was there, the run had no error and nothing degraded it |
| `Scans.SpelledOut` | internal/scans/scan.go:18-28 | a known status is what its stored text says |
| `Scans.ClassifyExactly` | internal/scanexec/inprocess.go:153-236 | skipped exactly without a binary, broken exactly by another error, succeeded otherwise; degradations as reported, unless the output was cut short or the scan never began |
| `Scans.LastReportIsKept` | internal/scans/scan.go:234-242 | one entry per scanner is kept: its last report |
| `Scans.Scan.Transition` | internal/scans/scan.go:145-163 | moves exactly along the allowed edges and stamps the time; otherwise changes nothing |
| `Scans.Scan.TerminalStatus` | internal/scans/scan.go:177-199 | failed when no result is whole, completed when there are some and all are, else partial |
| `Scans.Scan.HasCompleteCoverage` | internal/scans/scan.go:209-219 | coverage is complete exactly when the terminal status is completed |
| `Scans.Scan.Complete` | internal/scans/scan.go:202-204 | a running scan ends in the status its results imply; a queued one can only fail |
| `Scans.Scan.RecordResult` | internal/scans/scan.go:234-242 | the scanner's earlier entry is replaced, or the result appended |
| `Scans.TerminalIsFinal` | internal/scans/scan.go:35-43 | no sequence of moves leaves a terminal status |
| `Scans.ResultsNeedRunning` | internal/scans/scan.go:35-43 | a queued scan ends completed or partial only through running |
| `Scans.LivesExactly` | internal/scans/scan.go:35-66 | whatever moves are requested, a scan goes through exactly one of: nothing, started, refused or cancelled before starting, started and ended in one of four ways; each is possible |
| `Worker.Consume` | internal/worker/runner.go:356-371 | each outcome is ingested, recorded on the scan and stored, in order |
| `Worker.PersistFindings` | internal/worker/runner.go:573-711 | record, correlate, score, both later steps only after the recording worked; recorded with exactly the scanners whose results are whole; correlation and assessment saved are those of the findings as loaded; what was done when one of the three panics |
| `Worker.Gate` | internal/worker/runner.go:746-787 | a verdict is saved exactly on scored findings and a usable policy: the policy's whole answer, judged with the given status |
| `Worker.ExecuteJob` | internal/worker/runner.go:278-423 | for every answer, panics included: one Finalize, last, with the terminal status and reason, unless marking running fails or a callee the job reaches panics; every recording, correlation, assessment and verdict saved is that of the job's own answers, verdicts judged with that status; the exact calls made and the exact status the scan is left in |
| `Worker.ComputeCorrelation` | internal/worker/runner.go:632-664 | the correlation replaced is that of the live findings as loaded, with the default cap and the artifact's inventory, empty if there is none |
| `Worker.StoredScoreIsJudged` | internal/worker/runner.go:694-787 | the score a job stores is the one every verdict it saves was judged on |
| `Worker.EndStatusExactly` | internal/worker/runner.go:373-412 | cancelled, completed, failed or partial, each exactly on its answers |
| `Worker.EndReasonExactly` | internal/worker/runner.go:285-412 | the first thing that went wrong is the reason; without one only a failure has any |
| `Worker.IngestExactly` | internal/worker/runner.go:435-489 | an outcome keeps its scanner and status; an inventory of a known scanner may degrade it; only the output of a known, normalizing scanner that succeeded is read |
| `Worker.NormalizedInTurn` | internal/worker/runner.go:366-378 | what was read is collected in the order the outcomes came, and an outcome that was not read adds nothing |
| `Worker.PassMeansWhole` | internal/worker/runner.go:746-787 | a saved pass means completed, not cancelled, something recorded and every recorded result whole |
| `Worker.PassCoversSelection` | internal/worker/runner.go:304-371 | a saved pass, with the context not ended before the last selected scanner ran, means a whole recorded result for every selected scanner |
| `Worker.Dispatch` | internal/scanexec/inprocess.go:84-92 | scanners in order, none after the context has ended |
| `Worker.CompletedCoversIfUninterrupted` | internal/scanexec/inprocess.go:84-92 | a completed scan has a whole result from every selected scanner exactly when the context did not end before the last one ran |
| `Worker.TimeoutCanComplete` | internal/worker/runner.go:397-401 | a timeout after the first of two scanners leaves the scan completed |
| `Worker.ResolvingReportersRanWhole` | internal/worker/runner.go:595-604 | when a job's recording resolves a finding, every scanner that ever reported it ran whole in that job |
| `Deliveries.AbandonedStaysRunning` | internal/scans/store/store.go:266-284 | a scan whose first delivery marked it and then panicked or could not finalize stays running through all further deliveries, until one is refused before marking; then it has failed |
| `Deliveries.EndedExactly` | internal/scans/store/store.go:358-380 | however often its job is delivered, a scan has ended exactly when some delivery was refused or marked it, did not panic and could finalize |
| `Deliveries.EndIsFinal` | internal/scans/store/store.go:366-380 | an ended scan keeps its status through all further deliveries |
| `Deliveries.StoredExactly` | internal/worker/runner.go:573-606 | the findings are stored exactly when the executor ended without error, something was normalized, the store took it, and nothing panicked before |
| `Entitlement.CompleteIsEntitled` | internal/worker/runner.go:595-600 | the scanners recorded as complete are those whose last run came to a whole result, read or not |
| `Entitlement.SightersReport` | internal/findings/store.go:359-373 | when every recorded sighting carries the name of an adapter that reports findings, so does every stored one, after every run |
| `Entitlement.OwnSightings` | internal/scanners/gitleaks/mapper.go:66-73 | a job's own recording carries only such sightings |
| `Entitlement.FalselyFixesExactly` | internal/worker/runner.go:573-604 | after some run the job resolves a finding that one of its scanners reported before and whose output still holds it, exactly when it records findings, its scan can resolve at all, and the output of some entitling run holds a finding nobody in the job was heard to report |
| `Entitlement.HiddenExactly` | internal/worker/runner.go:435-489 | on what the worker can see: that can happen for some content of the outputs exactly when the job records findings, its scan can resolve at all, and some entitling run of an adapter that reports findings has output that was not read, or of which the mapper dropped an entry nobody else reported |
| `Entitlement.ReadJobIsSafe` | internal/worker/runner.go:474-489 | it cannot when every such run was read with nothing dropped, whatever inventories ran beside |
| `Entitlement.ResolvedWasLookedFor` | internal/worker/runner.go:595-604 | when no run hides anything, the last run of each scanner that ever reported a resolved finding was whole, was read if it had output, and does not hold the finding |
| `Entitlement.UnreadScannerResolves` | internal/worker/runner.go:477-486 | two scanners succeed, the first unreadable and the second empty: findings of the first get resolved |
| `Entitlement.DroppedEntryResolves` | internal/scanners/gitleaks/mapper.go:26-30 | a scanner succeeds and its mapper drops one entry: the finding of that entry gets resolved |
| `Pool.PoolIsSafe` | internal/worker/runner.go:219-275 | in every interleaving at most the allowed number of jobs execute, each dequeued job starts once or is the one dropped by shutdown, and Run returns only when none is left |
| `Pool.NoDeadlock` | internal/worker/runner.go:243-268 | until it has returned the pool can always take a step |
| `Pool.OneStartAfterShutdown` | internal/worker/runner.go:226-249 | once shutdown has begun at most one more job starts |
| `Kube.PlanFor` | internal/scanexec/kube/plan.go:49-74 | a repository is fetched first, with egress, and scanned without; any other scan has egress exactly if an adapter needs it |
| `Kube.Wait` | internal/scanexec/kube/executor.go:176-217 | reads in turn up to the first answer that decides or the end of the context, and no further; succeeds exactly when the Job is read complete before anything goes wrong; a failed fetch is told apart from every other failure |
| `Kube.RunPhase` | internal/scanexec/kube/executor.go:149-173 | policy, then Job unless it was refused, then the readings unless either was |
| `Kube.CleanUp` | internal/scanexec/kube/executor.go:250-273 | the three deletes, then the close |
| `Kube.Execute` | internal/scanexec/kube/executor.go:108-142 | for every sequence of answers: the volume right after the session, requests only where allowed, success exactly when every planned Job was seen complete, the failure told by what was refused or read, cleanup then close on every return after the session opened |
| `Kube.PolicyBeforeJob` | internal/scanexec/kube/executor.go:144-164 | a Job is created only after a policy for its phase was asked for with the same egress and not refused |
| `Kube.VolumeFirst` | internal/scanexec/kube/executor.go:131-141 | no policy and no Job is asked for before the volume was asked for and not refused |
| `Kube.RepositoryScanIsIsolated` | internal/scanexec/kube/plan.go:49-60 | nothing of a repository's scan phase is asked for before the fetch Job was seen complete, and never with egress |
| `Kube.ReadAfterCreate` | internal/scanexec/kube/executor.go:162-173 | a Job is read only after it was created |
| `Sessions.FormatParses` | internal/users/session.go:70-73 | printing and parsing are inverse for every 64-bit integer, and print no dot |
| `Sessions.IssuedVerifies` | internal/users/session.go:89-119 | an issued token names its user exactly when the id is not blank, has no dot and the whole-second expiry has not come; otherwise it is invalid or expired |
| `Sessions.ExpiryIsWithinASecond` | internal/users/session.go:70-73 | the expiry lies within the last second of eight hours: a token verifies until that second and never after eight hours |
| `Sessions.AcceptedWasSigned` | internal/users/session.go:89-119 | whatever is accepted is a signed user and expiry, the expiry still to come |
| `Sessions.AcceptanceEndsOnce` | internal/users/session.go:114-117 | accepted now means accepted at every earlier instant; expired stays expired |
| `Sessions.TokensIdentify` | internal/users/session.go:70-73 | equal tokens have one user and one expiry |

## Left out

- SQL text, connection pools, isolation levels and foreign keys: a transaction is one step that takes full effect or none.
- HTTP handlers, middleware, the command line, the web application, configuration and logging.
- Subprocesses, git, scanner arguments and provisioning: a scanner's outcome is any value.
- SHA-256, HMAC and letter case tables: parameters with only the stated facts.
- Rounding, number formatting and the inside of the exponential.
- Prose: explanations, evidence, titles, summaries.
- URL parsing: a scan row carries the escaped path of its URL when it has a usable one.
- Worker.ExecuteJob: a store call that panics counts as not made; one that panics after its effect is not modelled.
- Dedup.Combine: the texts of the errors are prose; a dropped entry is modelled by the identity it would have had, and one for which no identity can be computed is of no stored finding.
- Failures to store a scanner result, a checkout or raw output are logged by the code and change nothing else; only calls that steer the job or end it have answers in the model.
- The Kubernetes manifests, the intake that receives results, and delete failures during cleanup, which the code logs and passes over.
- Kube.Execute: runs whose polls never end have no return; a finite list of polls ends with the context.
- LifecycleTheorems.MoreCompleteResolvesMore: for a website scan it asks that a finding's equally recent latest reports agree about the page, since the database may pick any; MoreCompleteStepResolvesMore says what happens otherwise.
- FindingStore.Store.Transition: the note and the audit record written in the same transaction carry no status and are not modelled.
- FindingStore.Store.UpsertFinding: the last-seen time and the refreshed prose, intelligence and fix columns are not modelled.
- Remediation.Build: an action's fixed versions, references and statements are not modelled; nor are they in Remediation.Collect.
- Kube.PolicyBeforeJob: when the answer is that the policy already existed, its egress and the attempt it belongs to are not known to the executor; the same holds for Kube.RepositoryScanIsIsolated.
- Last-administrator protection, passwords and accounts: their guarantee depends on database isolation.
- Target validation and the address guard: mostly DNS and URL library behaviour.
