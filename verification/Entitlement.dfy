/**
 Entitlement: which scanners entitle a job to resolve findings, and whether what
 they found was heard (ingest and persistFindings in internal/worker/runner.go).
 A scanner whose output could not be normalized, or whose adapter is unknown,
 still counts as succeeded; so does one whose mapper dropped entries
 (internal/scanners/gitleaks/mapper.go, internal/scanners/grype/mapper.go).
 */
module Entitlement {
  import opened Ordering
  import opened Scans
  import opened Worker
  import Life = Lifecycle
  import LT = LifecycleTheorems
  import Dedup

  /** The last run of its scanner in the job. */
  predicate LastRun(xs: seq<Execution>, i: int) {
    0 <= i < |xs| && forall j | i < j < |xs| :: xs[j].result.scanner != xs[i].result.scanner
  }

  /** A run whose recorded result is whole: its scanner entitles the scan to resolve. */
  predicate Entitles(xs: seq<Execution>, i: int) { LastRun(xs, i) && Ingest(xs[i]).0.Whole() }

  lemma {:induction false} LastOfIs(rs: seq<ScannerResult>, i: nat)
    requires i < |rs| && forall j | i < j < |rs| :: rs[j].scanner != rs[i].scanner
    ensures LastOf(rs, rs[i].scanner) == Some(rs[i])
  {
    if i < |rs| - 1 { LastOfIs(rs[..|rs| - 1], i); }
  }

  lemma {:induction false} LastOfWhere(rs: seq<ScannerResult>, name: string) returns (i: nat)
    requires LastOf(rs, name).Some?
    ensures i < |rs| && LastOf(rs, name) == Some(rs[i]) && rs[i].scanner == name
    ensures forall j | i < j < |rs| :: rs[j].scanner != name
  {
    if rs[|rs| - 1].scanner == name { i := |rs| - 1; } else { i := LastOfWhere(rs[..|rs| - 1], name); }
  }

  lemma FindIsThere(results: seq<ScannerResult>, name: string)
    requires Find(results, name).Some? && Find(results, name).value.Whole()
    ensures name in CompleteScanners(results)
  {
    assert Find(results, name).value in results;
  }

  /** The scanners a job records as complete are those whose last run came to a whole result. */
  lemma CompleteIsEntitled(xs: seq<Execution>, name: string)
    ensures name in CompleteScanners(RecordAll(Ingested(xs))) <==>
      exists i :: Entitles(xs, i) && xs[i].result.scanner == name
  {
    var rs := Ingested(xs);
    LastReportIsKept(rs, name);
    if name in CompleteScanners(RecordAll(rs)) {
      CompleteIsWhole(RecordAll(rs), name);
      var i := LastOfWhere(rs, name);
      assert forall j | i < j < |xs| :: rs[j].scanner == xs[j].result.scanner;
      assert Entitles(xs, i);
    }
    if i :| Entitles(xs, i) && xs[i].result.scanner == name {
      assert forall j | i <= j < |xs| :: rs[j].scanner == xs[j].result.scanner;
      LastOfIs(rs, i);
      FindIsThere(RecordAll(rs), name);
    }
  }

  // ---- What was read ----------------------------------------------------

  /** The adapter was known, reports findings, could read the output, and dropped none of it. */
  predicate WasRead(x: Execution) { Ingest(x).1.Some? && Ingest(x).1.value.dropped == [] }

  /** A mapper pairs findings with sightings, under its own scanner's name. */
  predicate WellMapped(x: Execution) {
    x.normalized.Some? ==>
      && Dedup.PairedResult(x.normalized.value)
      && forall p | p in x.normalized.value.places :: p.scanner == x.result.scanner
  }

  /** The runs are of registered adapters, of which `reporters` are those that report findings. */
  ghost predicate Genuine(xs: seq<Execution>, reporters: set<string>) {
    forall i | 0 <= i < |xs| :: WellMapped(xs[i]) && (xs[i].normalizes <==> xs[i].result.scanner in reporters)
  }

  /** What an output may hold: nothing if there is none; when it was read, what was kept and what was dropped. */
  predicate MayHold(x: Execution, held: set<string>) {
    && (!x.hasOutput ==> held == {})
    && (Ingest(x).1.Some? ==> held == KeptOrDropped(Ingest(x).1.value))
  }

  function KeptOrDropped(r: Dedup.Result): set<string> {
    Dedup.Identities(r.findings) + set fp | fp in r.dropped
  }

  ghost predicate Truthful(xs: seq<Execution>, held: seq<set<string>>) {
    |held| == |xs| && forall i | 0 <= i < |xs| :: MayHold(xs[i], held[i])
  }

  /** What the job records as sighted. */
  function Heard(xs: seq<Execution>): set<string> { Life.SightedFingerprints(Dedup.AllPlaces(Normalized(xs))) }

  lemma {:induction false} ReadIsNormalized(xs: seq<Execution>, i: nat)
    requires i < |xs| && Ingest(xs[i]).1.Some?
    ensures Ingest(xs[i]).1.value in Normalized(xs)
  {
    if i < |xs| - 1 { ReadIsNormalized(xs[..|xs| - 1], i); }
  }

  lemma {:induction false} NormalizedWasRead(xs: seq<Execution>, r: Dedup.Result) returns (i: nat)
    requires r in Normalized(xs)
    ensures i < |xs| && Ingest(xs[i]).1 == Some(r)
  {
    var rest := xs[..|xs| - 1];
    if r in Normalized(rest) { i := NormalizedWasRead(rest, r); } else { i := |rest|; }
  }

  lemma {:induction false} ResultPlaces(rs: seq<Dedup.Result>, r: Dedup.Result)
    requires r in rs
    ensures Life.SightedFingerprints(r.places) <= Life.SightedFingerprints(Dedup.AllPlaces(rs))
  {
    var rest := rs[..|rs| - 1];
    assert rs == rest + [rs[|rs| - 1]];
    if r in rest { ResultPlaces(rest, r); }
  }

  lemma {:induction false} PlaceOfResult(rs: seq<Dedup.Result>, p: Life.Place) returns (r: Dedup.Result)
    requires p in Dedup.AllPlaces(rs)
    ensures r in rs && p in r.places
  {
    var rest := rs[..|rs| - 1];
    if p in Dedup.AllPlaces(rest) { r := PlaceOfResult(rest, p); } else { r := rs[|rest|]; }
  }

  /** What a read run kept is heard. */
  lemma KeptIsHeard(xs: seq<Execution>, reporters: set<string>, i: nat)
    requires Genuine(xs, reporters) && i < |xs| && Ingest(xs[i]).1.Some?
    ensures Dedup.Identities(Ingest(xs[i]).1.value.findings) <= Heard(xs)
  {
    ReadIsNormalized(xs, i);
    ResultPlaces(Normalized(xs), Ingest(xs[i]).1.value);
    assert WellMapped(xs[i]);
  }

  lemma NormalizedArePaired(xs: seq<Execution>, reporters: set<string>)
    requires Genuine(xs, reporters)
    ensures forall r | r in Normalized(xs) :: Dedup.PairedResult(r)
  {
    forall r | r in Normalized(xs) ensures Dedup.PairedResult(r) {
      var i := NormalizedWasRead(xs, r);
      assert WellMapped(xs[i]);
    }
  }

  // ---- Who sighted what -------------------------------------------------

  predicate SightedBy(places: seq<Life.Place>, reporters: set<string>) {
    forall p | p in places :: p.scanner in reporters
  }

  /** Every recording of the run carries sightings by adapters that report findings. */
  ghost predicate Authentic(es: seq<Life.Event>, reporters: set<string>) {
    forall n | 0 <= n < |es| && es[n].Recorded? :: SightedBy(es[n].sc.places, reporters)
  }

  /** The job's own recording is such a recording. */
  lemma OwnSightings(job: Job, w: World, reporters: set<string>)
    requires Genuine(w.run.executions, reporters)
    ensures SightedBy(RecordedScan(job, w).places, reporters)
  {
    var xs := w.run.executions;
    forall p | p in RecordedScan(job, w).places ensures p.scanner in reporters {
      var r := PlaceOfResult(Normalized(xs), p);
      var i := NormalizedWasRead(xs, r);
      assert WellMapped(xs[i]);
    }
  }

  ghost predicate ReportersOnly(t: Life.Tables, reporters: set<string>) {
    forall s | s in t.sightings :: s.scanner in reporters
  }

  lemma ReportersOnlyKept(t: Life.Tables, e: Life.Event, reporters: set<string>)
    requires ReportersOnly(t, reporters) && Life.Enabled(t, e) && (e.Recorded? ==> SightedBy(e.sc.places, reporters))
    ensures ReportersOnly(Life.Next(t, e), reporters)
  {
    if e.Recorded? {
      LT.NextKeepsSightings(t, e);
      var u, m := Life.UpsertAll(t, e.sc, e.sc.reports), Life.Stored(t, e.sc);
      LT.UpsertEffect(t, e.sc, e.sc.reports, Life.Id("", ""));
      LT.SightingsEffect(u, e.sc, e.sc.places);
      forall i | 0 <= i < |m.sightings| ensures m.sightings[i].scanner in reporters {
        if i < |t.sightings| {
          assert m.sightings[i] == t.sightings[i];
        } else {
          var j :| 0 <= j < |e.sc.places| && m.sightings[i] == Life.SightingOf(e.sc, e.sc.places[j]);
          assert e.sc.places[j] in e.sc.places;
        }
      }
    }
  }

  /** In every such run, no stored sighting carries the name of an adapter that reports no findings. */
  lemma {:induction false} SightersReport(es: seq<Life.Event>, reporters: set<string>)
    requires Life.Run(Life.EMPTY, es) && Authentic(es, reporters)
    ensures ReportersOnly(Life.After(Life.EMPTY, es), reporters)
    decreases |es|
  {
    if es != [] {
      var rest := es[..|es| - 1];
      SightersReport(rest, reporters);
      ReportersOnlyKept(Life.After(Life.EMPTY, rest), es[|es| - 1], reporters);
    }
  }

  // ---- What entitles is what was recorded -------------------------------

  lemma ReporterIsComplete(t: Life.Tables, e: Life.Event, id: Life.Id, s: Life.Sighting)
    requires e.Recorded? && Life.Enabled(t, e) && LT.BecomesResolved(t, e, id) && s in t.sightings && s.finding == id
    ensures s.scanner in e.sc.complete && id.project == e.sc.project
  {
    LT.ResolvedOnlyByEntitledScan(t, e, id);
    LT.NextKeepsSightings(t, e);
    assert s in Life.Next(t, e).sightings;
  }

  lemma ResolvedIsUnseen(t: Life.Tables, e: Life.Event, id: Life.Id)
    requires e.Recorded? && Life.Enabled(t, e) && LT.BecomesResolved(t, e, id)
    ensures id.fingerprint !in Life.SightedFingerprints(e.sc.places)
  {
    LT.ResolvedIsListed(t, e, id);
    if id.fingerprint in Life.SightedFingerprints(e.sc.places) {
      var p :| p in e.sc.places && p.fingerprint == id.fingerprint;
      var j :| 0 <= j < |e.sc.places| && e.sc.places[j] == p;
      LT.SightedIsNotResolved(t, e, j);
      assert false;
    }
  }

  lemma LastRunIsOne(xs: seq<Execution>, i: int, j: int)
    requires LastRun(xs, i) && LastRun(xs, j) && xs[i].result.scanner == xs[j].result.scanner
    ensures i == j
  {
  }

  /** The job resolves a finding one of its sighters of old has a last run for: that run entitled it. */
  lemma SighterEntitles(job: Job, w: World, t: Life.Tables, e: Life.Event, id: Life.Id, s: Life.Sighting)
    returns (i: int)
    requires e.Recorded? && e.sc == RecordedScan(job, w) && Life.Enabled(t, e) && LT.BecomesResolved(t, e, id)
    requires s in t.sightings && s.finding == id
    ensures Entitles(w.run.executions, i) && w.run.executions[i].result.scanner == s.scanner
    ensures id.fingerprint !in Heard(w.run.executions)
  {
    ReporterIsComplete(t, e, id, s);
    CompleteIsEntitled(w.run.executions, s.scanner);
    i :| Entitles(w.run.executions, i) && w.run.executions[i].result.scanner == s.scanner;
    ResolvedIsUnseen(t, e, id);
  }

  // ---- Falsely fixed ----------------------------------------------------

  /**
   After the run `es`, the job's recording `e` resolves a finding that a scanner
   reported before and that the output of that scanner's last run in this very
   job holds. `row` is what the scans table says of the job's scan.
   */
  ghost predicate ResolvesHeld(
    job: Job, w: World, row: Life.ScanRow, reporters: set<string>, held: seq<set<string>>,
    es: seq<Life.Event>, e: Life.Event, fp: string, i: int)
  {
    var xs, id := w.run.executions, Life.Id(job.project, fp);
    && Records(job, w) && LastRun(xs, i) && i < |held| && fp in held[i]
    && Life.Run(Life.EMPTY, es) && Authentic(es, reporters)
    && var t := Life.After(Life.EMPTY, es);
    && job.scan in t.scans && t.scans[job.scan] == row
    && LT.HasSighting(t, id, xs[i].result.scanner)
    && e.Recorded? && e.sc == RecordedScan(job, w) && Life.Enabled(t, e) && LT.BecomesResolved(t, e, id)
  }

  ghost predicate FalselyFixes(
    job: Job, w: World, row: Life.ScanRow, reporters: set<string>, held: seq<set<string>>)
  {
    exists es, e, fp, i :: ResolvesHeld(job, w, row, reporters, held, es, e, fp, i)
  }

  /** A website scan without a usable URL resolves nothing. */
  predicate CanLook(row: Life.ScanRow) { row.website ==> row.urlPath.Some? }

  /** A finding in the output of an entitling run that nobody in the job was heard to report. */
  ghost predicate Lost(xs: seq<Execution>, held: seq<set<string>>, i: int, fp: string) {
    Entitles(xs, i) && i < |held| && xs[i].normalizes && fp in held[i] && fp !in Heard(xs)
  }

  lemma FixedIsLost(
    job: Job, w: World, row: Life.ScanRow, reporters: set<string>, held: seq<set<string>>,
    es: seq<Life.Event>, e: Life.Event, fp: string, i: int)
    requires Genuine(w.run.executions, reporters)
    requires ResolvesHeld(job, w, row, reporters, held, es, e, fp, i)
    ensures Records(job, w) && CanLook(row) && Lost(w.run.executions, held, i, fp)
  {
    var xs, id, t := w.run.executions, Life.Id(job.project, fp), Life.After(Life.EMPTY, es);
    var k :| 0 <= k < |t.sightings| && t.sightings[k].finding == id && t.sightings[k].scanner == xs[i].result.scanner;
    var j := SighterEntitles(job, w, t, e, id, t.sightings[k]);
    LastRunIsOne(xs, i, j);
    SightersReport(es, reporters);
    assert t.sightings[k] in t.sightings;
    LT.ResolvedOnlyByEntitledScan(t, e, id);
  }

  lemma PastIsAuthentic(id: Life.Id, first: string, scanner: string, scan: string, row: Life.ScanRow, rs: set<string>)
    requires scanner in rs
    ensures Authentic(LT.Past(id, first, scanner, scan, row), rs)
  {
  }

  /** A project whose past holds one open finding of the scanner, which the job then resolves. */
  lemma LostIsFixed(
    job: Job, w: World, row: Life.ScanRow, reporters: set<string>, held: seq<set<string>>, fp: string, i: int)
    requires Genuine(w.run.executions, reporters)
    requires Records(job, w) && CanLook(row) && Lost(w.run.executions, held, i, fp)
    ensures FalselyFixes(job, w, row, reporters, held)
  {
    var xs, sc, id := w.run.executions, RecordedScan(job, w), Life.Id(job.project, fp);
    var scanner, first := xs[i].result.scanner, job.scan + "'";
    assert |first| != |job.scan|;
    CompleteIsEntitled(xs, scanner);
    NormalizedArePaired(xs, reporters);
    Dedup.CombinedRecords(Normalized(xs), job.project, job.scan, CompleteScanners(Results(w)), w.now);
    var es := LT.Past(id, first, scanner, job.scan, row);
    LT.PastIsRun(id, first, scanner, job.scan, row);
    PastIsAuthentic(id, first, scanner, job.scan, row, reporters);
    var e := LT.PastIsResolved(id, first, scanner, row, sc);
    var t := Life.After(Life.EMPTY, es);
    assert t.sightings[0].finding == id && t.sightings[0].scanner == scanner;
    assert ResolvesHeld(job, w, row, reporters, held, es, e, fp, i);
  }

  /**
   A job can resolve a finding that its own scanner still reports exactly when it
   records findings, its scan can resolve at all, and the output of some
   entitling run holds a finding that nobody in the job was heard to report.
   */
  lemma FalselyFixesExactly(
    job: Job, w: World, row: Life.ScanRow, reporters: set<string>, held: seq<set<string>>)
    requires Genuine(w.run.executions, reporters)
    ensures FalselyFixes(job, w, row, reporters, held) <==>
      Records(job, w) && CanLook(row) && exists i, fp :: Lost(w.run.executions, held, i, fp)
  {
    if es, e, fp, i :| ResolvesHeld(job, w, row, reporters, held, es, e, fp, i) {
      FixedIsLost(job, w, row, reporters, held, es, e, fp, i);
    }
    if Records(job, w) && CanLook(row) {
      if i, fp :| Lost(w.run.executions, held, i, fp) { LostIsFixed(job, w, row, reporters, held, fp, i); }
    }
  }

  // ---- What can be checked before recording -----------------------------

  /** The run was read, and what its mapper dropped somebody in the job was heard to report. */
  predicate Accounted(xs: seq<Execution>, x: Execution) {
    Ingest(x).1.Some? && forall fp | fp in Ingest(x).1.value.dropped :: fp in Heard(xs)
  }

  /** An entitling run of an adapter that reports findings has output that is not accounted for. */
  predicate Hides(xs: seq<Execution>, i: int) {
    Entitles(xs, i) && xs[i].normalizes && xs[i].hasOutput && !Accounted(xs, xs[i])
  }

  predicate HidesSome(xs: seq<Execution>) { exists i | 0 <= i < |xs| :: Hides(xs, i) }

  lemma LostIsHidden(xs: seq<Execution>, reporters: set<string>, held: seq<set<string>>, i: int, fp: string)
    requires Genuine(xs, reporters) && Truthful(xs, held) && Lost(xs, held, i, fp)
    ensures Hides(xs, i)
  {
    assert MayHold(xs[i], held[i]);
    if Ingest(xs[i]).1.Some? { KeptIsHeard(xs, reporters, i); }
  }

  lemma {:induction false} LengthBound(ss: set<string>) returns (n: nat)
    ensures forall s | s in ss :: |s| < n
  {
    n := 0;
    if ss != {} {
      var s :| s in ss;
      n := LengthBound(ss - {s});
      n := if |s| < n then n else |s| + 1;
    }
  }

  lemma FreshFingerprint(ss: set<string>) returns (fp: string)
    ensures fp !in ss
  {
    var n := LengthBound(ss);
    fp := seq(n, _ => 'x');
  }

  /** The output holds what was read of it, or this if it was not read. */
  function HeldIf(x: Execution, fp: string): set<string> {
    if Ingest(x).1.Some? then KeptOrDropped(Ingest(x).1.value) else if x.hasOutput then {fp} else {}
  }

  function AllHeldIf(xs: seq<Execution>, fp: string): seq<set<string>> {
    seq(|xs|, i requires 0 <= i < |xs| => HeldIf(xs[i], fp))
  }

  lemma HiddenCanBeLost(xs: seq<Execution>, i: int) returns (held: seq<set<string>>, fp: string)
    requires Hides(xs, i)
    ensures Truthful(xs, held) && Lost(xs, held, i, fp)
  {
    if Ingest(xs[i]).1.Some? {
      fp :| fp in Ingest(xs[i]).1.value.dropped && fp !in Heard(xs);
    } else {
      fp := FreshFingerprint(Heard(xs));
    }
    held := AllHeldIf(xs, fp);
    assert held[i] == HeldIf(xs[i], fp);
  }

  /**
   On what the worker itself can see: some content of the outputs makes a job
   resolve a finding its own scanner still reports exactly when the job records
   findings, its scan can resolve at all, and some entitling run of an adapter
   that reports findings has output that was not read, or of which the mapper
   dropped an entry that nobody else reported.
   */
  lemma HiddenExactly(job: Job, w: World, row: Life.ScanRow, reporters: set<string>)
    requires Genuine(w.run.executions, reporters)
    ensures (exists held :: Truthful(w.run.executions, held) && FalselyFixes(job, w, row, reporters, held)) <==>
      Records(job, w) && CanLook(row) && HidesSome(w.run.executions)
  {
    var xs := w.run.executions;
    if held :| Truthful(xs, held) && FalselyFixes(job, w, row, reporters, held) {
      FalselyFixesExactly(job, w, row, reporters, held);
      var i, fp :| Lost(xs, held, i, fp);
      LostIsHidden(xs, reporters, held, i, fp);
    }
    if Records(job, w) && CanLook(row) && HidesSome(xs) {
      var i :| 0 <= i < |xs| && Hides(xs, i);
      var held, fp := HiddenCanBeLost(xs, i);
      LostIsFixed(job, w, row, reporters, held, fp, i);
    }
  }

  /**
   With every such run read and nothing dropped, no finding is falsely fixed,
   whatever inventories ran beside: an adapter that reports no findings hides none.
   */
  lemma ReadJobIsSafe(job: Job, w: World, row: Life.ScanRow, reporters: set<string>, held: seq<set<string>>)
    requires Genuine(w.run.executions, reporters) && Truthful(w.run.executions, held)
    requires forall i | Entitles(w.run.executions, i) ::
      var x := w.run.executions[i]; x.normalizes && x.hasOutput ==> WasRead(x)
    ensures !FalselyFixes(job, w, row, reporters, held)
  {
    HiddenExactly(job, w, row, reporters);
  }

  /**
   When no run hides anything, a finding the job resolves was looked for: the
   last run of each scanner that ever reported it came to a whole result, was
   read if it had any output, and does not hold it.
   */
  lemma ResolvedWasLookedFor(
    job: Job, w: World, reporters: set<string>, held: seq<set<string>>, es: seq<Life.Event>, e: Life.Event,
    id: Life.Id, s: Life.Sighting)
    returns (i: int)
    requires Genuine(w.run.executions, reporters) && Truthful(w.run.executions, held) && !HidesSome(w.run.executions)
    requires Life.Run(Life.EMPTY, es) && Authentic(es, reporters)
    requires e.Recorded? && e.sc == RecordedScan(job, w) && Life.Enabled(Life.After(Life.EMPTY, es), e)
    requires LT.BecomesResolved(Life.After(Life.EMPTY, es), e, id)
    requires s in Life.After(Life.EMPTY, es).sightings && s.finding == id
    ensures Entitles(w.run.executions, i) && w.run.executions[i].result.scanner == s.scanner
    ensures w.run.executions[i].hasOutput ==> Ingest(w.run.executions[i]).1.Some?
    ensures id.fingerprint !in held[i]
  {
    i := SighterEntitles(job, w, Life.After(Life.EMPTY, es), e, id, s);
    SightersReport(es, reporters);
    assert !Hides(w.run.executions, i);
    if id.fingerprint in held[i] { LostIsHidden(w.run.executions, reporters, held, i, id.fingerprint); }
  }

  // ---- Two such jobs ----------------------------------------------------

  function Whole(scanner: string, normalized: Option<Dedup.Result>): Execution {
    Execution(ScannerResult(scanner, Succeeded, []), true, true, true, [], normalized)
  }

  lemma WholeEntitles(xs: seq<Execution>, i: int, normalized: Option<Dedup.Result>)
    requires LastRun(xs, i) && xs[i] == Whole(xs[i].result.scanner, normalized)
    ensures Entitles(xs, i) && Ingest(xs[i]).1 == normalized
  {
    var none: seq<string> := [];
    assert none + none == none;
  }

  /** Two scanners succeed; the output of the first cannot be read, the second reports nothing. */
  lemma UnreadScannerResolves(
    job: Job, w: World, row: Life.ScanRow, reporters: set<string>, first: string, second: string)
    requires first != second && first in reporters && second in reporters
    requires w.run == ExecutorRun([Whole(first, None), Whole(second, Some(Dedup.Result([], [], [])))], None)
    requires Records(job, w) && CanLook(row)
    ensures exists held :: Truthful(w.run.executions, held) && FalselyFixes(job, w, row, reporters, held)
  {
    var xs := w.run.executions;
    assert LastRun(xs, 0);
    WholeEntitles(xs, 0, None);
    assert Hides(xs, 0);
    HiddenExactly(job, w, row, reporters);
  }

  /** One scanner succeeds and its mapper drops one entry: the finding of that entry gets resolved. */
  lemma DroppedEntryResolves(
    job: Job, w: World, row: Life.ScanRow, reporters: set<string>, scanner: string, fp: string)
    requires scanner in reporters
    requires w.run == ExecutorRun([Whole(scanner, Some(Dedup.Result([], [], [fp])))], None)
    requires Records(job, w) && CanLook(row)
    ensures Truthful(w.run.executions, [{fp}]) && FalselyFixes(job, w, row, reporters, [{fp}])
  {
    var xs := w.run.executions;
    OneDropped(scanner, fp);
    assert MayHold(xs[0], {fp}) && Lost(xs, [{fp}], 0, fp);
    LostIsFixed(job, w, row, reporters, [{fp}], fp, 0);
  }

  lemma OneDropped(scanner: string, fp: string)
    ensures var x := Whole(scanner, Some(Dedup.Result([], [], [fp])));
      Entitles([x], 0) && Heard([x]) == {} && MayHold(x, {fp})
  {
    var r := Dedup.Result([], [], [fp]);
    var x := Whole(scanner, Some(r));
    assert LastRun([x], 0);
    WholeEntitles([x], 0, Some(r));
    assert Dedup.Identities([]) == {} && KeptOrDropped(r) == {fp};
    OneNormalized(x, r);
    assert [r][..0] == [] && Dedup.AllPlaces([]) == [] && Dedup.AllPlaces([r]) == [] + r.places;
  }

  lemma OneNormalized(x: Execution, r: Dedup.Result)
    requires Ingest(x).1 == Some(r)
    ensures Normalized([x]) == [r]
  {
    assert [x][..0] == [] && Normalized([]) == [];
  }
}
