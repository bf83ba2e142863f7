/**
 Worker: one scan job from arrival to its terminal status (internal/worker/runner.go),
 as the sequence of store calls it makes for every answer the stores, the executor
 and the scanners may give.
 */
module Worker {
  import opened Ordering
  import Life = Lifecycle
  import LifecycleTheorems
  import Dedup
  import Text
  import Corr = Correlation
  import CorrelationEngine
  import Risk
  import opened Policy
  import PolicyTheorems
  import opened Scans

  datatype Job = Job(project: string, scan: string, attempt: nat, requested: seq<string>)

  datatype Reason =
    | NoReason | MaxAttemptsExceeded | TargetInvalid | NoScannerAvailable | ScannerNotRegistered
    | AllScannersDegraded | Reported(text: string)

  /**
   One scanner's outcome as the executor hands it over, and what the adapter
   makes of its output. An adapter that only takes inventories does not normalize.
   */
  datatype Execution = Execution(
    result: ScannerResult, known: bool, normalizes: bool, hasOutput: bool, inventory: seq<string>,
    normalized: Option<Dedup.Result>)

  /** What the executor did: the outcomes it emitted, and its error if it failed. */
  datatype ExecutorRun = ExecutorRun(executions: seq<Execution>, error: Option<Reason>)

  /**
   Where a job may panic. The validator stands for the scanner registry too; the
   executor for the scanners, their mappers and inventories, after so many
   outcomes were handled. A store call that panics counts as not made.
   */
  datatype Callee = Validator | Marker | Executor(handled: nat) | Recorder | Correlator | Scorer | Judge | Finalizer

  /** The components of the image scanned last, if a store knows one. */
  datatype Artifact = Artifact(scan: string, purls: seq<string>, complete: bool)

  /** The configured number of attempts, and every answer the worker gets while it handles one job. */
  datatype World = World(
    maxAttempts: nat, targetValid: bool, selected: Option<seq<string>>, marked: bool,
    run: ExecutorRun, cancelled: bool, now: int,
    hasFindings: bool, findingsRecorded: bool,
    liveFindings: Option<seq<Corr.Subject>>, artifact: Option<Artifact>, correlationSaved: bool,
    riskInputs: Option<(seq<Risk.Subject>, Risk.Context)>, scoreSaved: bool,
    hasPolicies: bool, policy: Option<Policy>, verdictSaved: bool,
    finalized: bool, panic: Option<Callee>)

  datatype Call =
    | MarkRunning(marked: bool)
    | RecordScannerResult(result: ScannerResult)
    | RecordFindings(scan: Life.Scan, recorded: bool)
    | ReplaceCorrelation(issues: Corr.Result, replaced: bool)
    | SaveRiskScore(assessment: Risk.Assessment, saved: bool)
    | SaveVerdict(judged: ScanStatus, verdict: Result, stored: bool)
    | Finalize(status: ScanStatus, reason: Reason, settled: bool)

  // ---- What a job amounts to --------------------------------------------

  /**
   ingest: only a scanner that succeeded is parsed; its inventory may degrade it
   after the fact, a failure to normalize does not.
   */
  function Ingest(x: Execution): (ScannerResult, Option<Dedup.Result>) {
    if !x.result.status.Succeeded? || !x.known then (x.result, None)
    else
      (x.result.(degradations := x.result.degradations + x.inventory),
       if x.normalizes && x.hasOutput then x.normalized else None)
  }

  function Ingested(xs: seq<Execution>): seq<ScannerResult> {
    seq(|xs|, i requires 0 <= i < |xs| => Ingest(xs[i]).0)
  }

  function Normalized(xs: seq<Execution>): seq<Dedup.Result> {
    if xs == [] then [] else
      var n := Ingest(xs[|xs| - 1]).1;
      Normalized(xs[..|xs| - 1]) + if n.Some? then [n.value] else []
  }

  /** The results a job ends up with. */
  function Results(w: World): seq<ScannerResult> { RecordAll(Ingested(w.run.executions)) }

  /** The scanners entitled to resolve what they did not report. */
  function CompleteScanners(results: seq<ScannerResult>): set<string> { set r | r in results && r.Whole() :: r.scanner }

  /** The job gets as far as marking its scan running. */
  predicate Starts(job: Job, w: World) { job.attempt <= w.maxAttempts && w.targetValid && w.selected.Some? }

  /** The status the scan ends with. */
  function FinalStatus(job: Job, w: World): ScanStatus {
    if !Starts(job, w) || w.run.error.Some? then Failed
    else if w.cancelled then Cancelled
    else StatusFor(Results(w))
  }

  /** Why it failed; a partial or cancelled scan explains itself. */
  function FinalReason(job: Job, w: World): Reason {
    if job.attempt > w.maxAttempts then MaxAttemptsExceeded
    else if !w.targetValid then TargetInvalid
    else if w.selected.None? then if job.requested != [] then ScannerNotRegistered else NoScannerAvailable
    else if w.run.error.Some? then w.run.error.value
    else if FinalStatus(job, w).Failed? then AllScannersDegraded else NoReason
  }

  datatype Step = Marking | Result | Recording | Correlation | Scoring | Verdict | End

  function StepOf(c: Call): Step {
    match c
    case MarkRunning(_) => Marking
    case RecordScannerResult(_) => Step.Result
    case RecordFindings(_, _) => Recording
    case ReplaceCorrelation(_, _) => Step.Correlation
    case SaveRiskScore(_, _) => Scoring
    case SaveVerdict(_, _, _) => Step.Verdict
    case Finalize(_, _, _) => End
  }

  function StepsOf(calls: seq<Call>): seq<Step> { seq(|calls|, i requires 0 <= i < |calls| => StepOf(calls[i])) }

  lemma StepsAppend(a: seq<Call>, b: seq<Call>)
    ensures StepsOf(a + b) == StepsOf(a) + StepsOf(b)
  {
  }

  /** The executor came to an end without an error. */
  predicate Executed(job: Job, w: World) { Starts(job, w) && w.marked && w.run.error.None? }

  /** There are findings to write, and somewhere to write them. */
  predicate Persists(w: World) { w.hasFindings && Normalized(w.run.executions) != [] }

  /** The findings recorded, and correlated if they could be loaded for it. */
  function CorrelatedSteps(w: World): seq<Step> {
    [Recording] + if w.liveFindings.Some? then [Step.Correlation] else []
  }

  /** Scoring follows correlation, which follows recording; both need the recording to have worked. */
  function PersistSteps(w: World): seq<Step> {
    if !Persists(w) then []
    else if !w.findingsRecorded then [Recording]
    else CorrelatedSteps(w) + if w.riskInputs.Some? then [Scoring] else []
  }

  predicate IsScored(w: World) { Persists(w) && w.findingsRecorded && w.riskInputs.Some? && w.scoreSaved }

  ghost function GateSteps(w: World): seq<Step> {
    if IsScored(w) && w.hasPolicies && w.policy.Some? && ValidPolicy(w.policy.value) then [Step.Verdict] else []
  }

  /** The scan marked running and so many results stored. */
  function Handled(n: nat): seq<Step> { [Marking] + seq(n, _ => Step.Result) }

  /** All the steps of a job in which nothing panics, in order. */
  ghost function AllSteps(job: Job, w: World): seq<Step> {
    if !Starts(job, w) then [End]
    else if !w.marked then [Marking]
    else Handled(|w.run.executions|) + (if w.run.error.Some? then [] else PersistSteps(w) + GateSteps(w)) + [End]
  }

  // ---- Panics -----------------------------------------------------------

  /** The job comes to call it. */
  predicate Reached(job: Job, w: World, callee: Callee) {
    match callee
    case Validator => job.attempt <= w.maxAttempts
    case Marker => Starts(job, w)
    case Executor(n) => Starts(job, w) && w.marked && n <= |w.run.executions|
    case Recorder => Executed(job, w) && Persists(w)
    case Correlator | Scorer => Executed(job, w) && Persists(w) && w.findingsRecorded
    case Judge => Executed(job, w) && IsScored(w) && w.hasPolicies
    case Finalizer => Starts(job, w) ==> w.marked
  }

  predicate Panics(job: Job, w: World) { w.panic.Some? && Reached(job, w, w.panic.value) }

  /** The steps already taken when the callee panics. */
  ghost function StepsBefore(job: Job, w: World, callee: Callee): seq<Step> {
    match callee
    case Validator | Marker => []
    case Executor(n) => Handled(n)
    case Recorder => Handled(|w.run.executions|)
    case Correlator => Handled(|w.run.executions|) + [Recording]
    case Scorer => Handled(|w.run.executions|) + CorrelatedSteps(w)
    case Judge => Handled(|w.run.executions|) + PersistSteps(w)
    case Finalizer => AllSteps(job, w)[..|AllSteps(job, w)| - 1]
  }

  ghost function StepsTaken(job: Job, w: World): seq<Step> {
    if Panics(job, w) then StepsBefore(job, w, w.panic.value) else AllSteps(job, w)
  }

  predicate ExecutorPanics(w: World) {
    w.panic.Some? && w.panic.value.Executor? && w.panic.value.handled <= |w.run.executions|
  }

  predicate PersistPanics(w: World) {
    && Persists(w) && w.panic.Some?
    && (w.panic.value.Recorder? || (w.findingsRecorded && (w.panic.value.Correlator? || w.panic.value.Scorer?)))
  }

  predicate GatePanics(w: World) { IsScored(w) && w.hasPolicies && w.panic == Some(Judge) }

  /** What persisting and judging add to the steps, when something after the executor panics. */
  ghost function ConcludedBefore(w: World): seq<Step>
    requires w.panic.Some?
  {
    if w.panic.value.Recorder? then [] else if w.panic.value.Correlator? then [Recording]
    else if w.panic.value.Scorer? then CorrelatedSteps(w)
    else PersistSteps(w) + if GatePanics(w) then [] else GateSteps(w)
  }

  /** The scan was marked running. */
  predicate Begun(job: Job, w: World) {
    Starts(job, w) && w.marked && w.panic != Some(Validator) && w.panic != Some(Marker)
  }

  /** The findings were recorded. */
  predicate Records(job: Job, w: World) {
    && Begun(job, w) && w.run.error.None? && Persists(w) && w.findingsRecorded
    && !(Panics(job, w) && (w.panic.value.Executor? || w.panic.value.Recorder?))
  }

  /** The stored status after some calls: refused ones change nothing. */
  function StoredAfter(s: ScanStatus, calls: seq<Call>): ScanStatus {
    if calls == [] then s else
      match calls[|calls| - 1]
      case MarkRunning(true) => Running
      case Finalize(status, _, true) => status
      case _ => StoredAfter(s, calls[..|calls| - 1])
  }

  /** The status a job leaves a scan in: running, if it panics or cannot finalize after marking it so. */
  function LeftIn(s: ScanStatus, job: Job, w: World): ScanStatus {
    if Starts(job, w) && !Begun(job, w) then s
    else if !Panics(job, w) && w.finalized then FinalStatus(job, w)
    else if Begun(job, w) then Running else s
  }

  lemma {:induction false} StaysRunning(s: ScanStatus, calls: seq<Call>)
    requires NoFinalize(calls) && calls != [] && calls[0] == MarkRunning(true)
    ensures StoredAfter(s, calls) == Running
  {
    if |calls| > 1 { StaysRunning(s, calls[..|calls| - 1]); }
  }

  lemma EndStores(s: ScanStatus, calls: seq<Call>, status: ScanStatus, reason: Reason, settled: bool)
    requires EndsOnce(calls, status, reason, settled)
    requires |calls| > 1 ==> calls[0] == MarkRunning(true)
    ensures StoredAfter(s, calls) == if settled then status else if |calls| > 1 then Running else s
  {
    if |calls| > 1 { StaysRunning(s, calls[..|calls| - 1]); }
  }

  predicate NoFinalize(calls: seq<Call>) { forall c | c in calls :: !c.Finalize? }

  /** Exactly one Finalize, as the last call, with this status and reason. */
  predicate EndsOnce(calls: seq<Call>, status: ScanStatus, reason: Reason, settled: bool) {
    && calls != [] && calls[|calls| - 1] == Finalize(status, reason, settled)
    && NoFinalize(calls[..|calls| - 1])
  }

  /**
   A verdict saved is the whole answer of a usable policy on the scored findings,
   judged with this status.
   */
  ghost predicate SoundVerdict(c: Call, w: World, status: ScanStatus, exp: real -> real) {
    c.SaveVerdict? ==>
      && c.judged == status && c.stored == w.verdictSaved
      && w.riskInputs.Some? && w.policy.Some? && ValidPolicy(w.policy.value)
      && exists input :: Gated(input, w, status, exp) && Judged(w.policy.value, input, c.verdict)
  }

  /** The gate's input: the scored findings, their score, and the status the scan is about to get. */
  ghost predicate Gated(input: Input, w: World, status: ScanStatus, exp: real -> real)
    requires w.riskInputs.Some?
  {
    && input.scanComplete == status.Completed? && input.scanStatus == status.Text()
    && Counts(input, w.riskInputs.value.0)
    && input.riskScore == Risk.ProjectScore(Risk.DEFAULT_WEIGHTS, w.riskInputs.value.0, w.riskInputs.value.1, exp)
  }

  /** A score saved is the assessment of the findings as loaded, with the default weights. */
  ghost predicate SoundScore(c: Call, w: World, exp: real -> real) {
    c.SaveRiskScore? ==>
      && c.saved == w.scoreSaved && w.riskInputs.Some?
      && Risk.Assessed(c.assessment, Risk.DEFAULT_WEIGHTS, w.riskInputs.value.0, w.riskInputs.value.1, exp)
  }

  /** What correlation compares packages with: nothing, if no artifact is known. */
  function ArtifactOf(w: World): Corr.Inventory {
    if w.artifact.None? then Corr.Inventory({}, false, "")
    else
      var purls := w.artifact.value.purls;
      Corr.Inventory(set p | p in purls && Text.TrimSpace(p) != "" :: Text.TrimSpace(p), w.artifact.value.complete,
        w.artifact.value.scan)
  }

  /** Correlation saved is that of the live findings as loaded, with the default cap. */
  ghost predicate SoundCorrelation(c: Call, w: World) {
    c.ReplaceCorrelation? ==>
      && c.replaced == w.correlationSaved && w.liveFindings.Some?
      && c.issues == Corr.Correlate(w.liveFindings.value, 0, ArtifactOf(w))
  }

  /** The scan a job records: merged findings, their sightings, and the scanners whose recorded results are whole. */
  ghost function RecordedScan(job: Job, w: World): Life.Scan {
    var normalized := Normalized(w.run.executions);
    Dedup.ScanOf(job.project, job.scan, Dedup.Deduplicated(Dedup.AllFindings(normalized)),
      Dedup.AllPlaces(normalized), CompleteScanners(Results(w)), w.now)
  }

  ghost predicate SoundRecording(c: Call, job: Job, w: World) {
    c.RecordFindings? ==> w.run.error.None? && c.scan == RecordedScan(job, w) && c.recorded == w.findingsRecorded
  }

  /** What was derived from the stored findings is what they give. */
  ghost predicate SoundFigures(c: Call, w: World, exp: real -> real) { SoundCorrelation(c, w) && SoundScore(c, w, exp) }

  /** Only what is derived from the stored findings. */
  ghost predicate Figures(calls: seq<Call>, w: World, exp: real -> real) {
    forall c | c in calls :: (c.ReplaceCorrelation? || c.SaveRiskScore?) && SoundFigures(c, w, exp)
  }

  /** Only recordings and what is derived from them. */
  ghost predicate Persisted(calls: seq<Call>, job: Job, w: World, exp: real -> real) {
    forall c | c in calls ::
      (c.RecordFindings? || c.ReplaceCorrelation? || c.SaveRiskScore?) && SoundRecording(c, job, w)
      && SoundFigures(c, w, exp)
  }

  /** Whatever is recorded, derived or judged, is so on the job's own answers and with the status it ends with. */
  ghost predicate Sound(calls: seq<Call>, job: Job, w: World, exp: real -> real) {
    forall c | c in calls ::
      SoundRecording(c, job, w) && SoundFigures(c, w, exp) && SoundVerdict(c, w, FinalStatus(job, w), exp)
  }

  lemma SoundAppend(a: seq<Call>, b: seq<Call>, job: Job, w: World, exp: real -> real)
    requires Sound(a, job, w, exp) && Sound(b, job, w, exp)
    ensures Sound(a + b, job, w, exp)
  {
  }

  // ---- The job ----------------------------------------------------------

  lemma IngestStep(xs: seq<Execution>, i: nat)
    requires i < |xs|
    ensures RecordAll(Ingested(xs[..i + 1])) == Record(RecordAll(Ingested(xs[..i])), Ingest(xs[i]).0)
    ensures var n := Ingest(xs[i]).1;
      Normalized(xs[..i + 1]) == Normalized(xs[..i]) + if n.Some? then [n.value] else []
  {
    assert xs[..i + 1][..i] == xs[..i];
    assert Ingested(xs[..i + 1])[..i] == Ingested(xs[..i]);
  }

  lemma RecordsEachStep(calls: seq<Call>, xs: seq<Execution>, i: nat)
    requires i < |xs| && RecordsEach(calls, xs[..i])
    ensures RecordsEach(calls + [RecordScannerResult(Ingest(xs[i]).0)], xs[..i + 1])
  {
  }

  /** The executor's callbacks: each outcome is ingested, recorded on the scan and in the store. */
  method Consume(xs: seq<Execution>, scan: Scan) returns (calls: seq<Call>, normalized: seq<Dedup.Result>)
    requires scan.results == []
    modifies scan`results
    ensures scan.results == RecordAll(Ingested(xs)) && normalized == Normalized(xs)
    ensures RecordsEach(calls, xs)
  {
    calls, normalized := [], [];
    for i := 0 to |xs|
      invariant scan.results == RecordAll(Ingested(xs[..i])) && normalized == Normalized(xs[..i])
      invariant RecordsEach(calls, xs[..i])
    {
      var ingested := Ingest(xs[i]);
      IngestStep(xs, i);
      RecordsEachStep(calls, xs, i);
      scan.RecordResult(ingested.0);
      calls := calls + [RecordScannerResult(ingested.0)];
      if ingested.1.Some? {
        normalized := normalized + [ingested.1.value];
      }
    }
    assert xs[..|xs|] == xs;
  }

  method ListComplete(results: seq<ScannerResult>) returns (complete: set<string>)
    ensures complete == CompleteScanners(results)
  {
    complete := {};
    for i := 0 to |results|
      invariant complete == CompleteScanners(results[..i])
    {
      assert results[..i + 1] == results[..i] + [results[i]];
      if results[i].Whole() {
        complete := complete + {results[i].scanner};
      }
    }
    assert results[..|results|] == results;
  }

  datatype Scored = Scored(subjects: seq<Risk.Subject>, score: real)

  /** The score of the findings as loaded, with the default weights. */
  ghost predicate ScoredAs(scored: Scored, w: World, exp: real -> real) {
    && w.riskInputs.Some? && scored.subjects == w.riskInputs.value.0
    && scored.score == Risk.ProjectScore(Risk.DEFAULT_WEIGHTS, w.riskInputs.value.0, w.riskInputs.value.1, exp)
  }

  /** score: the project as stored, with the default weights. */
  method ComputeScore(w: World, exp: real -> real) returns (calls: seq<Call>, scored: Option<Scored>)
    ensures StepsOf(calls) == if w.riskInputs.Some? then [Scoring] else []
    ensures Figures(calls, w, exp)
    ensures scored.Some? <==> w.riskInputs.Some? && w.scoreSaved
    ensures scored.Some? ==> ScoredAs(scored.value, w, exp)
  {
    if w.riskInputs.None? {
      return [], None;
    }
    var scoring, known := AssessLoaded(w, exp);
    calls := [scoring];
    scored := if w.scoreSaved then Some(known) else None;
  }

  method AssessLoaded(w: World, exp: real -> real) returns (scoring: Call, known: Scored)
    requires w.riskInputs.Some?
    ensures scoring.SaveRiskScore? && SoundFigures(scoring, w, exp) && ScoredAs(known, w, exp)
  {
    var (subjects, ctx) := w.riskInputs.value;
    Risk.DefaultWeightsAreValid(ctx);
    var assessed := Risk.Assess(Risk.DEFAULT_WEIGHTS, subjects, ctx, exp);
    scoring, known := SaveRiskScore(assessed.value, w.scoreSaved), Scored(subjects, assessed.value.score);
  }

  /** The inventory of the artifact, empty when there is none to read. */
  method ReadArtifact(w: World) returns (inv: Corr.Inventory)
    ensures inv == ArtifactOf(w)
  {
    inv := Corr.Inventory({}, false, "");
    if w.artifact.Some? {
      inv := CorrelationEngine.NewInventory(w.artifact.value.scan, w.artifact.value.purls, w.artifact.value.complete);
      assert inv.purls == ArtifactOf(w).purls;
    }
  }

  /** correlate: the live findings of the whole project, if they can be loaded. */
  method ComputeCorrelation(w: World, exp: real -> real) returns (calls: seq<Call>)
    ensures StepsOf(calls) == if w.liveFindings.Some? then [Step.Correlation] else []
    ensures Figures(calls, w, exp)
  {
    if w.liveFindings.None? {
      return [];
    }
    var artifact := ReadArtifact(w);
    var result := CorrelationEngine.CorrelateWith(w.liveFindings.value, 0, artifact);
    calls := [ReplaceCorrelation(result, w.correlationSaved)];
  }

  method RecordMerged(job: Job, w: World, results: seq<ScannerResult>, normalized: seq<Dedup.Result>) returns (c: Call)
    requires w.run.error.None? && results == Results(w) && normalized == Normalized(w.run.executions)
    ensures c.RecordFindings? && SoundRecording(c, job, w)
  {
    var found, places, _ := Dedup.Combine(normalized);
    var complete := ListComplete(results);
    c := RecordFindings(Dedup.ScanOf(job.project, job.scan, found, places, complete, w.now), w.findingsRecorded);
  }

  /** persistFindings: record, then correlate, then score; each later step only if the earlier ones worked. */
  method PersistFindings(
    job: Job, w: World, results: seq<ScannerResult>, normalized: seq<Dedup.Result>, exp: real -> real)
    returns (calls: seq<Call>, scored: Option<Scored>, panicked: bool)
    requires w.run.error.None? && results == Results(w) && normalized == Normalized(w.run.executions)
    ensures panicked <==> PersistPanics(w)
    ensures !panicked ==> StepsOf(calls) == PersistSteps(w)
    ensures panicked ==> StepsOf(calls) == ConcludedBefore(w)
    ensures !panicked ==> (scored.Some? <==> IsScored(w))
    ensures Persisted(calls, job, w, exp)
    ensures scored.Some? ==> ScoredAs(scored.value, w, exp)
  {
    if !w.hasFindings || normalized == [] {
      return [], None, false;
    }
    if w.panic == Some(Recorder) {
      return [], None, true;
    }
    calls, scored, panicked := RecordAndDerive(job, w, results, normalized, exp);
  }

  /** The findings are recorded, and what the project derives from them follows once they are. */
  method RecordAndDerive(
    job: Job, w: World, results: seq<ScannerResult>, normalized: seq<Dedup.Result>, exp: real -> real)
    returns (calls: seq<Call>, scored: Option<Scored>, panicked: bool)
    requires w.run.error.None? && results == Results(w) && normalized == Normalized(w.run.executions)
    requires Persists(w) && w.panic != Some(Recorder)
    ensures panicked <==> PersistPanics(w)
    ensures StepsOf(calls) == if panicked then ConcludedBefore(w) else PersistSteps(w)
    ensures !panicked ==> (scored.Some? <==> IsScored(w))
    ensures Persisted(calls, job, w, exp)
    ensures scored.Some? ==> ScoredAs(scored.value, w, exp)
  {
    var recording := RecordMerged(job, w, results, normalized);
    if !w.findingsRecorded {
      RecordedAlone(recording, job, w, exp);
      return [recording], None, false;
    }
    calls, scored, panicked := DeriveFigures(w, exp);
    RecordedFirst(recording, calls, job, w, exp);
    calls := [recording] + calls;
  }

  lemma RecordedAlone(recording: Call, job: Job, w: World, exp: real -> real)
    requires Persists(w) && !w.findingsRecorded && w.panic != Some(Recorder)
    requires recording.RecordFindings? && SoundRecording(recording, job, w)
    ensures !PersistPanics(w) && StepsOf([recording]) == PersistSteps(w)
    ensures Persisted([recording], job, w, exp)
  {
  }

  lemma RecordedFirst(recording: Call, calls: seq<Call>, job: Job, w: World, exp: real -> real)
    requires Persists(w) && w.findingsRecorded && w.panic != Some(Recorder)
    requires recording.RecordFindings? && SoundRecording(recording, job, w)
    requires StepsOf(calls) == FigureSteps(w) && Figures(calls, w, exp)
    ensures PersistPanics(w) <==> w.panic == Some(Correlator) || w.panic == Some(Scorer)
    ensures StepsOf([recording] + calls) == if PersistPanics(w) then ConcludedBefore(w) else PersistSteps(w)
    ensures Persisted([recording] + calls, job, w, exp)
  {
    RecordedSteps(w);
    StepsAppend([recording], calls);
    PersistedFrom(recording, calls, job, w, exp);
  }

  lemma PersistedFrom(recording: Call, calls: seq<Call>, job: Job, w: World, exp: real -> real)
    requires recording.RecordFindings? && SoundRecording(recording, job, w) && Figures(calls, w, exp)
    ensures Persisted([recording] + calls, job, w, exp)
  {
  }

  /** What is derived before the job ends or panics. */
  function FigureSteps(w: World): seq<Step> {
    if w.panic == Some(Correlator) then [] else
      (if w.liveFindings.Some? then [Step.Correlation] else [])
      + (if w.panic == Some(Scorer) || w.riskInputs.None? then [] else [Scoring])
  }

  lemma RecordedSteps(w: World)
    requires Persists(w) && w.findingsRecorded && w.panic != Some(Recorder)
    ensures PersistPanics(w) <==> w.panic == Some(Correlator) || w.panic == Some(Scorer)
    ensures [Recording] + FigureSteps(w) == if PersistPanics(w) then ConcludedBefore(w) else PersistSteps(w)
  {
  }

  /** Correlation, then the score, of the findings just recorded. */
  method DeriveFigures(w: World, exp: real -> real) returns (calls: seq<Call>, scored: Option<Scored>, panicked: bool)
    ensures panicked <==> w.panic == Some(Correlator) || w.panic == Some(Scorer)
    ensures StepsOf(calls) == FigureSteps(w)
    ensures Figures(calls, w, exp)
    ensures !panicked ==> (scored.Some? <==> w.riskInputs.Some? && w.scoreSaved)
    ensures scored.Some? ==> ScoredAs(scored.value, w, exp)
  {
    if w.panic == Some(Correlator) {
      return [], None, true;
    }
    var correlating := ComputeCorrelation(w, exp);
    if w.panic == Some(Scorer) {
      return correlating, None, true;
    }
    var scoring;
    scoring, scored := ComputeScore(w, exp);
    calls, panicked := correlating + scoring, false;
    StepsAppend(correlating, scoring);
  }

  /** gate: judged only on scored findings, with the status the scan is about to get. */
  method Gate(w: World, scored: Option<Scored>, status: ScanStatus, exp: real -> real)
    returns (calls: seq<Call>, panicked: bool)
    requires scored.Some? <==> IsScored(w)
    requires scored.Some? ==> ScoredAs(scored.value, w, exp)
    ensures panicked <==> GatePanics(w)
    ensures StepsOf(calls) == if panicked then [] else GateSteps(w)
    ensures NoFinalize(calls) && forall c | c in calls :: c.SaveVerdict? && SoundVerdict(c, w, status, exp)
  {
    calls, panicked := [], false;
    if !w.hasPolicies || scored.None? {
      return;
    }
    if w.panic == Some(Judge) {
      return [], true;
    }
    if w.policy.None? {
      return;
    }
    var c := JudgeScored(w, scored.value, status, exp);
    if c.Some? {
      calls := [c.value];
    }
  }

  /** The policy applied to the scored findings; none when it cannot be used. */
  method JudgeScored(w: World, scored: Scored, status: ScanStatus, exp: real -> real) returns (c: Option<Call>)
    requires w.policy.Some? && ScoredAs(scored, w, exp)
    ensures c.Some? <==> ValidPolicy(w.policy.value)
    ensures c.Some? ==> c.value.SaveVerdict? && SoundVerdict(c.value, w, status, exp)
  {
    var input := InputFrom(scored.subjects, scored.score, status.Text(), status.Completed?);
    var result := Evaluate(w.policy.value, input);
    if result.None? {
      return None;
    }
    assert Gated(input, w, status, exp) && Judged(w.policy.value, input, result.value);
    c := Some(SaveVerdict(status, result.value, w.verdictSaved));
  }

  /** Only marks and results. */
  predicate Preliminary(calls: seq<Call>) { forall c | c in calls :: c.MarkRunning? || c.RecordScannerResult? }

  /** finalize, unless it panics. */
  method Finish(w: World, earlier: seq<Call>, status: ScanStatus, reason: Reason)
    returns (calls: seq<Call>, panicked: bool)
    requires NoFinalize(earlier)
    ensures panicked <==> w.panic == Some(Finalizer)
    ensures panicked ==> calls == earlier
    ensures !panicked ==> calls == earlier + [Finalize(status, reason, w.finalized)]
    ensures !panicked ==> EndsOnce(calls, status, reason, w.finalized)
  {
    if w.panic == Some(Finalizer) {
      return earlier, true;
    }
    calls, panicked := earlier + [Finalize(status, reason, w.finalized)], false;
    assert calls[..|calls| - 1] == earlier;
  }

  lemma SoundSoFar(earlier: seq<Call>, persisted: seq<Call>, job: Job, w: World, exp: real -> real)
    requires Preliminary(earlier) && Persisted(persisted, job, w, exp)
    ensures Sound(earlier + persisted, job, w, exp) && NoFinalize(earlier + persisted)
  {
    SoundAppend(earlier, persisted, job, w, exp);
  }

  /** The end of a job whose executor succeeded: persist, settle the status, judge with it, finalize. */
  method Conclude(job: Job, w: World, scan: Scan, normalized: seq<Dedup.Result>, earlier: seq<Call>, exp: real -> real)
    returns (calls: seq<Call>, panicked: bool)
    requires Starts(job, w) && w.run.error.None? && Preliminary(earlier)
    requires scan.results == Results(w) && normalized == Normalized(w.run.executions)
    ensures panicked <==> PersistPanics(w) || GatePanics(w) || w.panic == Some(Finalizer)
    ensures earlier <= calls
    ensures panicked ==> NoFinalize(calls) && StepsOf(calls) == StepsOf(earlier) + ConcludedBefore(w)
    ensures !panicked ==> StepsOf(calls) == StepsOf(earlier) + PersistSteps(w) + GateSteps(w) + [End]
    ensures !panicked ==> EndsOnce(calls, FinalStatus(job, w), FinalReason(job, w), w.finalized)
    ensures Sound(calls, job, w, exp)
  {
    var persisted, scored;
    persisted, scored, panicked := PersistFindings(job, w, scan.results, normalized, exp);
    StepsAppend(earlier, persisted);
    SoundSoFar(earlier, persisted, job, w, exp);
    if panicked {
      return earlier + persisted, true;
    }
    calls, panicked := Settle(job, w, scan, scored, earlier + persisted, exp);
  }

  /** The status the scan's results imply, unless the worker was cancelled; only a failure has a reason. */
  method StatusOf(job: Job, w: World, scan: Scan) returns (status: ScanStatus, reason: Reason)
    requires Starts(job, w) && w.run.error.None? && scan.results == Results(w)
    ensures status == FinalStatus(job, w) && reason == FinalReason(job, w)
  {
    status := scan.TerminalStatus();
    if w.cancelled {
      status := Cancelled;
    }
    reason := if status.Failed? then AllScannersDegraded else NoReason;
  }

  /** The status is settled, the gate judges with it, the scan is finalized. */
  method Settle(job: Job, w: World, scan: Scan, scored: Option<Scored>, earlier: seq<Call>, exp: real -> real)
    returns (calls: seq<Call>, panicked: bool)
    requires Starts(job, w) && w.run.error.None? && scan.results == Results(w)
    requires (scored.Some? <==> IsScored(w)) && (scored.Some? ==> ScoredAs(scored.value, w, exp))
    requires NoFinalize(earlier) && Sound(earlier, job, w, exp)
    ensures panicked <==> GatePanics(w) || w.panic == Some(Finalizer)
    ensures earlier <= calls
    ensures panicked ==> NoFinalize(calls)
    ensures StepsOf(calls) ==
      StepsOf(earlier) + (if GatePanics(w) then [] else GateSteps(w)) + (if panicked then [] else [End])
    ensures !panicked ==> EndsOnce(calls, FinalStatus(job, w), FinalReason(job, w), w.finalized)
    ensures Sound(calls, job, w, exp)
  {
    var status, reason := StatusOf(job, w, scan);
    var judged;
    judged, panicked := Gate(w, scored, status, exp);
    StepsAppend(earlier, judged);
    SoundAppend(earlier, judged, job, w, exp);
    if panicked {
      return earlier + judged, true;
    }
    EndAppended(earlier + judged, status, reason, job, w, exp);
    calls, panicked := Finish(w, earlier + judged, status, reason);
  }

  lemma EndAppended(calls: seq<Call>, status: ScanStatus, reason: Reason, job: Job, w: World, exp: real -> real)
    requires Sound(calls, job, w, exp)
    ensures var last := Finalize(status, reason, w.finalized);
      StepsOf(calls + [last]) == StepsOf(calls) + [End] && Sound(calls + [last], job, w, exp)
  {
    var last := Finalize(status, reason, w.finalized);
    StepsAppend(calls, [last]);
    SoundAppend(calls, [last], job, w, exp);
  }

  /** After the mark, one call for each of the first `n` outcomes, with the result as ingested. */
  predicate StoresResults(calls: seq<Call>, w: World, n: nat)
    requires n <= |w.run.executions|
  {
    && |calls| > n && calls[0] == MarkRunning(true)
    && forall i | 0 <= i < n :: calls[i + 1] == RecordScannerResult(Ingest(w.run.executions[i]).0)
  }

  /** How many outcomes are handled. */
  function HandledCount(w: World): (n: nat)
    ensures n <= |w.run.executions|
  {
    if ExecutorPanics(w) then w.panic.value.handled else |w.run.executions|
  }

  /** One call for each outcome. */
  predicate RecordsEach(recorded: seq<Call>, xs: seq<Execution>) {
    |recorded| == |xs| && forall i | 0 <= i < |xs| :: recorded[i] == RecordScannerResult(Ingest(xs[i]).0)
  }

  lemma ResultSteps(recorded: seq<Call>, xs: seq<Execution>)
    requires RecordsEach(recorded, xs)
    ensures StepsOf([MarkRunning(true)] + recorded) == Handled(|xs|)
    ensures Preliminary([MarkRunning(true)] + recorded)
  {
  }

  lemma StoredSoFar(recorded: seq<Call>, xs: seq<Execution>, w: World)
    requires RecordsEach(recorded, xs) && xs <= w.run.executions
    ensures StoresResults([MarkRunning(true)] + recorded, w, |xs|)
  {
  }

  /** The executor runs: the scan is marked and outcomes are consumed until it ends or panics. */
  method RunExecutor(w: World, scan: Scan) returns (calls: seq<Call>, normalized: seq<Dedup.Result>, panicked: bool)
    requires scan.results == []
    modifies scan`results
    ensures panicked <==> ExecutorPanics(w)
    ensures !panicked ==> scan.results == Results(w) && normalized == Normalized(w.run.executions)
    ensures StepsOf(calls) == Handled(HandledCount(w)) && Preliminary(calls)
    ensures StoresResults(calls, w, HandledCount(w))
  {
    panicked := ExecutorPanics(w);
    var xs := if panicked then w.run.executions[..w.panic.value.handled] else w.run.executions;
    var recorded;
    recorded, normalized := Consume(xs, scan);
    calls := [MarkRunning(true)] + recorded;
    ResultSteps(recorded, xs);
    StoredSoFar(recorded, xs, w);
  }

  lemma StoredFirst(earlier: seq<Call>, calls: seq<Call>, w: World, n: nat)
    requires n <= |w.run.executions| && StoresResults(earlier, w, n) && earlier <= calls
    ensures StoresResults(calls, w, n)
  {
  }

  /** Once marked, a job panics in the executor, while concluding, or at its very end. */
  lemma PanicsWhere(job: Job, w: World)
    requires Begun(job, w)
    ensures ExecutorPanics(w) ==> Panics(job, w) && StepsTaken(job, w) == Handled(HandledCount(w))
    ensures !ExecutorPanics(w) && w.run.error.Some? ==>
      && (Panics(job, w) <==> w.panic == Some(Finalizer))
      && StepsTaken(job, w) == Handled(HandledCount(w)) + if Panics(job, w) then [] else [End]
    ensures !ExecutorPanics(w) && w.run.error.None? ==>
      && (Panics(job, w) <==> PersistPanics(w) || GatePanics(w) || w.panic == Some(Finalizer))
      && StepsTaken(job, w) == Handled(HandledCount(w)) +
        if Panics(job, w) then ConcludedBefore(w) else PersistSteps(w) + GateSteps(w) + [End]
  {
  }

  /** The job from the moment its scan is to be marked running. */
  method RunScan(job: Job, w: World, exp: real -> real) returns (calls: seq<Call>, panicked: bool)
    requires Begun(job, w)
    ensures panicked <==> Panics(job, w)
    ensures StepsOf(calls) == StepsTaken(job, w)
    ensures panicked ==> NoFinalize(calls)
    ensures !panicked ==> EndsOnce(calls, FinalStatus(job, w), FinalReason(job, w), w.finalized)
    ensures Sound(calls, job, w, exp)
    ensures StoresResults(calls, w, HandledCount(w))
  {
    var scan := new Scan(Running);
    var earlier, normalized;
    earlier, normalized, panicked := RunExecutor(w, scan);
    if panicked {
      PanicsWhere(job, w);
      return earlier, true;
    }
    calls, panicked := EndScan(job, w, scan, normalized, earlier, exp);
    StoredFirst(earlier, calls, w, HandledCount(w));
  }

  /** The scan failed with the executor. */
  method FailScan(job: Job, w: World, earlier: seq<Call>, exp: real -> real) returns (calls: seq<Call>, panicked: bool)
    requires Begun(job, w) && !ExecutorPanics(w) && Preliminary(earlier) && w.run.error.Some?
    requires StepsOf(earlier) == Handled(HandledCount(w))
    ensures panicked <==> Panics(job, w)
    ensures StepsOf(calls) == StepsTaken(job, w)
    ensures earlier <= calls
    ensures panicked ==> NoFinalize(calls)
    ensures !panicked ==> EndsOnce(calls, FinalStatus(job, w), FinalReason(job, w), w.finalized)
    ensures Sound(calls, job, w, exp)
  {
    PanicsWhere(job, w);
    calls, panicked := Finish(w, earlier, Failed, w.run.error.value);
    StepsAppend(earlier, [Finalize(Failed, w.run.error.value, w.finalized)]);
  }

  /** What follows once the executor has returned, with or without an error. */
  method EndScan(job: Job, w: World, scan: Scan, normalized: seq<Dedup.Result>, earlier: seq<Call>, exp: real -> real)
    returns (calls: seq<Call>, panicked: bool)
    requires Begun(job, w) && !ExecutorPanics(w) && Preliminary(earlier)
    requires StepsOf(earlier) == Handled(HandledCount(w))
    requires scan.results == Results(w) && normalized == Normalized(w.run.executions)
    ensures panicked <==> Panics(job, w)
    ensures StepsOf(calls) == StepsTaken(job, w)
    ensures earlier <= calls
    ensures panicked ==> NoFinalize(calls)
    ensures !panicked ==> EndsOnce(calls, FinalStatus(job, w), FinalReason(job, w), w.finalized)
    ensures Sound(calls, job, w, exp)
  {
    if w.run.error.Some? {
      calls, panicked := FailScan(job, w, earlier, exp);
    } else {
      PanicsWhere(job, w);
      calls, panicked := Conclude(job, w, scan, normalized, earlier, exp);
    }
  }

  /** A job that is refused before its scan is marked: failed at once, unless even that panics. */
  method Refuse(job: Job, w: World) returns (calls: seq<Call>, panicked: bool)
    requires !Starts(job, w) && !(job.attempt <= w.maxAttempts && w.panic == Some(Validator))
    ensures panicked <==> Panics(job, w)
    ensures StepsOf(calls) == StepsTaken(job, w)
    ensures panicked ==> calls == []
    ensures !panicked ==> calls == [Finalize(Failed, FinalReason(job, w), w.finalized)]
  {
    var reason :=
      if job.attempt > w.maxAttempts then MaxAttemptsExceeded
      else if !w.targetValid then TargetInvalid
      else if job.requested != [] then ScannerNotRegistered else NoScannerAvailable;
    calls, panicked := Finish(w, [], Failed, reason);
  }

  /** The status such calls leave the scan in. */
  lemma LeftByRun(s: ScanStatus, calls: seq<Call>, job: Job, w: World)
    requires Begun(job, w) && StoresResults(calls, w, HandledCount(w))
    requires Panics(job, w) ==> NoFinalize(calls)
    requires !Panics(job, w) ==> EndsOnce(calls, FinalStatus(job, w), FinalReason(job, w), w.finalized)
    ensures StoredAfter(s, calls) == LeftIn(s, job, w)
  {
    if Panics(job, w) {
      StaysRunning(s, calls);
    } else {
      EndStores(s, calls, FinalStatus(job, w), FinalReason(job, w), w.finalized);
    }
  }

  /**
   executeJob. The scan is finalized exactly once, last, with a terminal status,
   unless marking it running fails or a callee the job reaches panics; any
   verdict was judged with that status, and findings were recorded only with
   scanners whose results are whole. The steps taken, and the status the scan is
   left in, are exact in every case.
   */
  method ExecuteJob(job: Job, w: World, exp: real -> real) returns (calls: seq<Call>, panicked: bool)
    ensures panicked <==> Panics(job, w)
    ensures StepsOf(calls) == StepsTaken(job, w)
    ensures panicked || (Starts(job, w) && !w.marked) ==> NoFinalize(calls)
    ensures !panicked && (Starts(job, w) ==> w.marked) ==>
      EndsOnce(calls, FinalStatus(job, w), FinalReason(job, w), w.finalized) && FinalStatus(job, w).Terminal()
    ensures Sound(calls, job, w, exp)
    ensures Begun(job, w) ==> StoresResults(calls, w, HandledCount(w))
    ensures forall s :: StoredAfter(s, calls) == LeftIn(s, job, w)
  {
    if job.attempt <= w.maxAttempts && w.panic == Some(Validator) {
      return [], true;
    }
    if job.attempt > w.maxAttempts || !w.targetValid || w.selected.None? {
      calls, panicked := Refuse(job, w);
      return;
    }
    if w.panic == Some(Marker) {
      return [], true;
    }
    if !w.marked {
      return [MarkRunning(false)], false;
    }
    calls, panicked := RunScan(job, w, exp);
    forall s ensures StoredAfter(s, calls) == LeftIn(s, job, w) { LeftByRun(s, calls, job, w); }
  }

  // ---- How a job ends ---------------------------------------------------

  /** The four ends of a job, on its answers. */
  lemma EndStatusExactly(job: Job, w: World)
    ensures FinalStatus(job, w) == Cancelled <==> Starts(job, w) && w.run.error.None? && w.cancelled
    ensures FinalStatus(job, w) == Completed <==>
      && Starts(job, w) && w.run.error.None? && !w.cancelled
      && Results(w) != [] && forall r | r in Results(w) :: r.Whole()
    ensures FinalStatus(job, w) == Failed <==>
      || !Starts(job, w) || w.run.error.Some?
      || (!w.cancelled && forall r | r in Results(w) :: !r.Whole())
    ensures FinalStatus(job, w) == Partial <==>
      && Starts(job, w) && w.run.error.None? && !w.cancelled
      && (exists r :: r in Results(w) && r.Whole()) && (exists r :: r in Results(w) && !r.Whole())
  {
    var rs := Results(w);
    if AllWhole(rs) { assert rs[0] in rs; }
    if exists r :: r in rs && !r.Whole() { assert !AllWhole(rs); }
    if exists r :: r in rs && r.Whole() { assert !NoneWhole(rs); }
  }

  /** The first thing that went wrong is the reason; without one only a failure has any. */
  lemma EndReasonExactly(job: Job, w: World)
    ensures job.attempt > w.maxAttempts ==> FinalReason(job, w) == MaxAttemptsExceeded
    ensures job.attempt <= w.maxAttempts && !w.targetValid ==> FinalReason(job, w) == TargetInvalid
    ensures job.attempt <= w.maxAttempts && w.targetValid && w.selected.None? ==>
      FinalReason(job, w) == if job.requested == [] then NoScannerAvailable else ScannerNotRegistered
    ensures Starts(job, w) && w.run.error.Some? ==> FinalReason(job, w) == w.run.error.value
    ensures Starts(job, w) && w.run.error.None? ==>
      FinalReason(job, w) == if FinalStatus(job, w) == Failed then AllScannersDegraded else NoReason
  {
  }

  /** What ingesting makes of one outcome: the inventory may degrade it, and only a known mapper's output is read. */
  lemma IngestExactly(x: Execution)
    ensures Ingest(x).0.scanner == x.result.scanner && Ingest(x).0.status == x.result.status
    ensures Ingest(x).0.Whole() <==> x.result.Whole() && (x.known ==> x.inventory == [])
    ensures Ingest(x).1 ==
      if x.result.status == Succeeded && x.known && x.normalizes && x.hasOutput then x.normalized else None
  {
  }

  // ---- What a pass means ------------------------------------------------

  lemma {:induction false} NormalizedAppend(xs: seq<Execution>, ys: seq<Execution>)
    ensures Normalized(xs + ys) == Normalized(xs) + Normalized(ys)
    decreases |ys|
  {
    if ys == [] {
      assert xs + ys == xs;
    } else {
      var rest, n := ys[..|ys| - 1], Ingest(ys[|ys| - 1]).1;
      NormalizedAppend(xs, rest);
      assert (xs + ys)[..|xs + ys| - 1] == xs + rest;
      assert Normalized(xs + ys) == Normalized(xs + rest) + if n.Some? then [n.value] else [];
    }
  }

  lemma NormalizedOne(x: Execution)
    ensures Normalized([x]) == if Ingest(x).1.Some? then [Ingest(x).1.value] else []
  {
    assert [x][..0] == [];
  }

  /** What was read is collected in the order the outcomes came; an outcome that was not read adds nothing. */
  lemma NormalizedInTurn(xs: seq<Execution>, ys: seq<Execution>, x: Execution)
    ensures Normalized(xs + ys) == Normalized(xs) + Normalized(ys)
    ensures Normalized([x]) ==
      if x.result.status.Succeeded? && x.known && x.normalizes && x.hasOutput && x.normalized.Some?
      then [x.normalized.value] else []
  {
    NormalizedAppend(xs, ys);
    NormalizedOne(x);
  }

  /** A saved pass: the scan is finalized completed, something was recorded, and every recorded result is whole. */
  lemma PassMeansWhole(job: Job, w: World, exp: real -> real, c: Call)
    requires Starts(job, w) && c.SaveVerdict? && SoundVerdict(c, w, FinalStatus(job, w), exp)
    requires c.verdict.verdict == Pass
    ensures FinalStatus(job, w).Completed? && !w.cancelled && w.run.error.None?
    ensures AllWhole(Results(w))
  {
    var input :| Gated(input, w, FinalStatus(job, w), exp) && Judged(w.policy.value, input, c.verdict);
    PolicyTheorems.PassExactly(w.policy.value, w.riskInputs.value.0, input, Pass);
  }

  /** The score a job stores is the one its verdicts are judged on. */
  lemma StoredScoreIsJudged(job: Job, w: World, exp: real -> real, calls: seq<Call>, score: Call, verdict: Call)
    returns (input: Input)
    requires Sound(calls, job, w, exp) && score in calls && verdict in calls
    requires score.SaveRiskScore? && verdict.SaveVerdict?
    ensures input.riskScore == score.assessment.score && input.scanComplete == FinalStatus(job, w).Completed?
    ensures Counts(input, w.riskInputs.value.0) && Judged(w.policy.value, input, verdict.verdict)
  {
    assert SoundFigures(score, w, exp) && SoundVerdict(verdict, w, FinalStatus(job, w), exp);
    input :| Gated(input, w, FinalStatus(job, w), exp) && Judged(w.policy.value, input, verdict.verdict);
  }

  /** A scanner the executor is about to run, with everything its run will come to. */
  datatype ScannerRun = ScannerRun(
    name: string, outcome: Outcome, known: bool, normalizes: bool, hasOutput: bool, inventory: seq<string>,
    normalized: Option<Dedup.Result>, contextEnded: bool)

  function ExecutionOf(r: ScannerRun): Execution {
    Execution(Classify(r.name, r.outcome), r.known, r.normalizes, r.hasOutput, r.inventory, r.normalized)
  }

  /** The dispatch loop: scanners in order, none after the job's context has ended. */
  method Dispatch(runs: seq<ScannerRun>) returns (xs: seq<Execution>)
    ensures Dispatched(xs, runs)
  {
    xs := [];
    for i := 0 to |runs|
      invariant |xs| == i && forall k | 0 <= k < i :: xs[k] == ExecutionOf(runs[k]) && !runs[k].contextEnded
    {
      xs := xs + [ExecutionOf(runs[i])];
      if runs[i].contextEnded {
        break;
      }
    }
  }

  function RunNames(runs: seq<ScannerRun>): seq<string> {
    seq(|runs|, i requires 0 <= i < |runs| => runs[i].name)
  }

  /** The outcomes of the scanners up to the first during which the context ended. */
  ghost predicate Dispatched(xs: seq<Execution>, runs: seq<ScannerRun>) {
    && |xs| <= |runs| && (forall i | 0 <= i < |xs| :: xs[i] == ExecutionOf(runs[i]))
    && (forall i | 0 <= i < |xs| - 1 :: !runs[i].contextEnded)
    && (|xs| < |runs| ==> xs != [] && runs[|xs| - 1].contextEnded)
  }

  /** The job's context did not end before the last scanner ran. */
  predicate Uninterrupted(runs: seq<ScannerRun>) { forall i | 0 <= i < |runs| - 1 :: !runs[i].contextEnded }

  lemma DispatchesAll(xs: seq<Execution>, runs: seq<ScannerRun>)
    requires Dispatched(xs, runs)
    ensures |xs| == |runs| <==> Uninterrupted(runs)
  {
  }

  lemma {:induction false} RecordedNames(rs: seq<ScannerResult>, name: string)
    ensures Find(RecordAll(rs), name).Some? <==> exists i :: 0 <= i < |rs| && rs[i].scanner == name
  {
    LastReportIsKept(rs, name);
    if rs != [] {
      RecordedNames(rs[..|rs| - 1], name);
      LastReportIsKept(rs[..|rs| - 1], name);
      if rs[|rs| - 1].scanner != name && Find(RecordAll(rs), name).Some? {
        var i :| 0 <= i < |rs| - 1 && rs[..|rs| - 1][i].scanner == name;
        assert rs[i].scanner == name;
      }
    }
  }

  /** A scanner has a recorded result exactly when the loop reached it. */
  lemma RecordedIfReached(xs: seq<Execution>, runs: seq<ScannerRun>, k: nat)
    requires Dispatched(xs, runs) && NoDup(RunNames(runs)) && k < |runs|
    ensures Find(RecordAll(Ingested(xs)), runs[k].name).Some? <==> k < |xs|
  {
    RecordedNames(Ingested(xs), runs[k].name);
    if k < |xs| { IngestedName(xs, runs, k); }
    if i :| 0 <= i < |xs| && Ingested(xs)[i].scanner == runs[k].name {
      IngestedName(xs, runs, i);
      assert RunNames(runs)[i] == RunNames(runs)[k];
    }
  }

  lemma IngestedName(xs: seq<Execution>, runs: seq<ScannerRun>, k: nat)
    requires Dispatched(xs, runs) && k < |xs|
    ensures Ingested(xs)[k].scanner == runs[k].name
  {
    assert xs[k] == ExecutionOf(runs[k]);
  }

  /** Every selected scanner has a whole recorded result. */
  ghost predicate Covers(results: seq<ScannerResult>, names: seq<string>) {
    forall name | name in names :: Find(results, name).Some? && Find(results, name).value.Whole()
  }

  lemma WholeIfReached(xs: seq<Execution>, runs: seq<ScannerRun>, k: nat)
    requires Dispatched(xs, runs) && k < |xs| && AllWhole(RecordAll(Ingested(xs)))
    ensures var r := Find(RecordAll(Ingested(xs)), runs[k].name); r.Some? && r.value.Whole()
  {
    RecordedNames(Ingested(xs), runs[k].name);
    assert Ingested(xs)[k].scanner == runs[k].name;
    assert Find(RecordAll(Ingested(xs)), runs[k].name).value in RecordAll(Ingested(xs));
  }

  lemma UninterruptedCovers(xs: seq<Execution>, runs: seq<ScannerRun>)
    requires Dispatched(xs, runs) && Uninterrupted(runs) && AllWhole(RecordAll(Ingested(xs)))
    ensures Covers(RecordAll(Ingested(xs)), RunNames(runs))
  {
    DispatchesAll(xs, runs);
    forall name | name in RunNames(runs)
      ensures var r := Find(RecordAll(Ingested(xs)), name); r.Some? && r.value.Whole()
    {
      var k: nat :| k < |runs| && RunNames(runs)[k] == name;
      WholeIfReached(xs, runs, k);
    }
  }

  /**
   A completed scan has a whole result from every selected scanner exactly when
   the context did not end before the last one ran: completed alone speaks of
   what was recorded.
   */
  lemma CompletedCoversIfUninterrupted(xs: seq<Execution>, runs: seq<ScannerRun>)
    requires Dispatched(xs, runs) && NoDup(RunNames(runs))
    requires StatusFor(RecordAll(Ingested(xs))) == Completed
    ensures Covers(RecordAll(Ingested(xs)), RunNames(runs)) <==> Uninterrupted(runs)
  {
    if Uninterrupted(runs) {
      UninterruptedCovers(xs, runs);
    } else {
      DispatchesAll(xs, runs);
      RecordedIfReached(xs, runs, |xs|);
      assert RunNames(runs)[|xs|] in RunNames(runs);
    }
  }

  /** A saved pass, with the selection dispatched to the end: every selected scanner has a whole recorded result. */
  lemma PassCoversSelection(job: Job, w: World, exp: real -> real, c: Call, runs: seq<ScannerRun>)
    requires Starts(job, w) && Dispatched(w.run.executions, runs) && RunNames(runs) == w.selected.value
    requires Uninterrupted(runs)
    requires c.SaveVerdict? && SoundVerdict(c, w, FinalStatus(job, w), exp) && c.verdict.verdict == Pass
    ensures w.selected.value != [] && Covers(Results(w), w.selected.value)
  {
    PassMeansWhole(job, w, exp, c);
    UninterruptedCovers(w.run.executions, runs);
    DispatchesAll(w.run.executions, runs);
  }

  /** A job timeout right after the first of two scanners leaves the scan completed, the second never run. */
  lemma TimeoutCanComplete(first: string, second: string)
    requires first != second
    ensures var fine := Outcome(false, NoError, []);
      var runs := [ScannerRun(first, fine, true, true, false, [], None, true),
                   ScannerRun(second, fine, true, true, false, [], None, false)];
      var xs := [ExecutionOf(runs[0])];
      && Dispatched(xs, runs) && NoDup(RunNames(runs)) && runs[|xs| - 1].contextEnded
      && StatusFor(RecordAll(Ingested(xs))) == Completed
      && Find(RecordAll(Ingested(xs)), second).None?
  {
    var fine := Outcome(false, NoError, []);
    var x := ExecutionOf(ScannerRun(first, fine, true, true, false, [], None, true));
    var r := ScannerResult(first, Succeeded, []);
    var none: seq<string> := [];
    assert none + none == none && Ingest(x).0 == r;
    assert Ingested([x]) == [r] && [r][..0] == [];
    assert RecordAll([r]) == [r];
    assert RunNames([ScannerRun(first, fine, true, true, false, [], None, true),
      ScannerRun(second, fine, true, true, false, [], None, false)]) == [first, second];
    assert r in [r] && r.Whole() && AllWhole([r]) && !NoneWhole([r]);
    IndexUnique([r], second, 1);
  }

  lemma CompleteIsWhole(results: seq<ScannerResult>, name: string)
    requires NoDup(Names(results)) && name in CompleteScanners(results)
    ensures Find(results, name).Some? && Find(results, name).value.Whole()
  {
    var r :| r in results && r.Whole() && r.scanner == name;
    var i :| 0 <= i < |results| && results[i] == r;
    var k := IndexOf(results, name);
    assert k <= i && Names(results)[k] == Names(results)[i] == name;
  }

  /**
   When a job's recording resolves a finding, every scanner that ever reported
   it ran whole in that job, as its last recorded result says.
   */
  lemma ResolvingReportersRanWhole(
    job: Job, w: World, c: Call, t: Life.Tables, e: Life.Event, id: Life.Id, s: Life.Sighting)
    requires c.RecordFindings? && SoundRecording(c, job, w)
    requires e.Recorded? && e.sc == c.scan && Life.Enabled(t, e) && LifecycleTheorems.BecomesResolved(t, e, id)
    requires s in t.sightings && s.finding == id
    ensures var r := LastOf(Ingested(w.run.executions), s.scanner); r.Some? && r.value.Whole()
  {
    LifecycleTheorems.ResolvedOnlyByEntitledScan(t, e, id);
    LifecycleTheorems.NextKeepsSightings(t, e);
    assert s in Life.Next(t, e).sightings;
    LastReportIsKept(Ingested(w.run.executions), s.scanner);
    CompleteIsWhole(Results(w), s.scanner);
  }
}
