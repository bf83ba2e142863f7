/**
 Provenance: where the contents of the findings tables come from. After any run,
 every row, history entry and sighting goes back to the step that wrote it, and
 says what that step was given (internal/findings/store.go, transition.go).
 */
module Provenance {
  import opened Ordering
  import opened Text
  import opened Model
  import opened Lifecycle
  import opened LifecycleTheorems
  import Dedup

  // ---- Reports of one finding -------------------------------------------

  predicate About(sc: Scan, r: Report, id: Id) { id.project == sc.project && id.fingerprint == r.fingerprint }

  /** No report of the scan is of the finding. */
  predicate Silent(sc: Scan, rs: seq<Report>, id: Id) { forall j | 0 <= j < |rs| :: !About(sc, rs[j], id) }

  predicate LastReport(sc: Scan, rs: seq<Report>, i: nat, id: Id) {
    i < |rs| && About(sc, rs[i], id) && forall j | i < j < |rs| :: !About(sc, rs[j], id)
  }

  predicate FirstReport(sc: Scan, rs: seq<Report>, i: nat, id: Id) {
    i < |rs| && About(sc, rs[i], id) && forall j | 0 <= j < i :: !About(sc, rs[j], id)
  }

  lemma SilentExactly(sc: Scan, rs: seq<Report>, id: Id)
    ensures Silent(sc, rs, id) <==> !Reports(rs, sc, id)
  {
    if Reports(rs, sc, id) {
      var r :| r in rs && r.fingerprint == id.fingerprint;
      var j :| 0 <= j < |rs| && rs[j] == r;
      assert About(sc, rs[j], id);
    }
    if j :| 0 <= j < |rs| && About(sc, rs[j], id) { assert rs[j] in rs; }
  }

  lemma LastOfMore(sc: Scan, rs: seq<Report>, i: nat, id: Id)
    requires rs != [] && LastReport(sc, rs, i, id)
    ensures i < |rs| - 1 ==> LastReport(sc, rs[..|rs| - 1], i, id) && !About(sc, rs[|rs| - 1], id)
  {
  }

  lemma FirstOfMore(sc: Scan, rs: seq<Report>, i: nat, id: Id)
    requires rs != [] && FirstReport(sc, rs, i, id)
    ensures i < |rs| - 1 ==> FirstReport(sc, rs[..|rs| - 1], i, id)
    ensures i == |rs| - 1 ==> Silent(sc, rs[..|rs| - 1], id)
  {
  }

  lemma {:induction false} UnreportedRow(t: Tables, sc: Scan, rs: seq<Report>, id: Id)
    requires Silent(sc, rs, id)
    ensures var t' := UpsertAll(t, sc, rs);
      (id in t'.findings <==> id in t.findings) && (id in t.findings ==> t'.findings[id] == t.findings[id])
  {
    if rs != [] {
      var rest := rs[..|rs| - 1];
      forall j | 0 <= j < |rest| ensures !About(sc, rest[j], id) { assert rest[j] == rs[j]; }
      assert !About(sc, rs[|rs| - 1], id);
      UnreportedRow(t, sc, rest, id);
    }
  }

  lemma {:induction false} ReportedSeverity(t: Tables, sc: Scan, rs: seq<Report>, i: nat, id: Id)
    requires LastReport(sc, rs, i, id)
    ensures id in UpsertAll(t, sc, rs).findings && UpsertAll(t, sc, rs).findings[id].severity == rs[i].severity
    decreases |rs|
  {
    LastOfMore(sc, rs, i, id);
    if i < |rs| - 1 { ReportedSeverity(t, sc, rs[..|rs| - 1], i, id); }
  }

  lemma {:induction false} ReportedScanner(t: Tables, sc: Scan, rs: seq<Report>, i: nat, id: Id)
    requires FirstReport(sc, rs, i, id) && id !in t.findings
    ensures id in UpsertAll(t, sc, rs).findings && UpsertAll(t, sc, rs).findings[id].scanner == rs[i].scanner
    decreases |rs|
  {
    FirstOfMore(sc, rs, i, id);
    if i < |rs| - 1 {
      ReportedScanner(t, sc, rs[..|rs| - 1], i, id);
    } else {
      UnreportedRow(t, sc, rs[..|rs| - 1], id);
    }
  }

  lemma NextFindings(t: Tables, e: Event, id: Id)
    requires e.Recorded? && Enabled(t, e)
    ensures var t', u := Next(t, e), UpsertAll(t, e.sc, e.sc.reports);
      && (id in t'.findings <==> id in u.findings)
      && (id in u.findings ==>
            t'.findings[id] == if id in e.order then u.findings[id].(status := Resolved) else u.findings[id])
  {
    SightingsEffect(UpsertAll(t, e.sc, e.sc.reports), e.sc, e.sc.places);
    assert forall k | k in e.order :: k in ResolvedBy(Stored(t, e.sc), e.sc, e.looked);
    ResolveEffect(Stored(t, e.sc), e.sc, e.order, id);
  }

  // ---- One recording ----------------------------------------------------

  /** A recording gives a finding the severity of its last report there. */
  lemma RecordedSeverity(t: Tables, e: Event, i: nat, id: Id)
    requires e.Recorded? && Enabled(t, e) && LastReport(e.sc, e.sc.reports, i, id)
    ensures id in Next(t, e).findings && Next(t, e).findings[id].severity == e.sc.reports[i].severity
  {
    NextFindings(t, e, id);
    ReportedSeverity(t, e.sc, e.sc.reports, i, id);
  }

  /** A finding stored for the first time names its first reporter; a stored one keeps its own. */
  lemma RecordedScanner(t: Tables, e: Event, i: nat, id: Id)
    requires e.Recorded? && Enabled(t, e) && FirstReport(e.sc, e.sc.reports, i, id)
    ensures id in Next(t, e).findings
    ensures Next(t, e).findings[id].scanner ==
      if id in t.findings then t.findings[id].scanner else e.sc.reports[i].scanner
  {
    NextFindings(t, e, id);
    UpsertEffect(t, e.sc, e.sc.reports, id);
    SilentExactly(e.sc, e.sc.reports, id);
    if id !in t.findings { ReportedScanner(t, e.sc, e.sc.reports, i, id); }
  }

  /** Of a finding it does not report a recording changes at most the status. */
  lemma UnreportedKept(t: Tables, e: Event, id: Id)
    requires e.Recorded? && Enabled(t, e) && Silent(e.sc, e.sc.reports, id)
    ensures id in Next(t, e).findings <==> id in t.findings
    ensures id in t.findings ==>
      Next(t, e).findings[id] == if id in e.order then t.findings[id].(status := Resolved) else t.findings[id]
  {
    NextFindings(t, e, id);
    UnreportedRow(t, e.sc, e.sc.reports, id);
  }

  /** The report a scan makes of an identity its scanners reported. */
  lemma OneReport(sc: Scan, fs: seq<Finding>, fp: string) returns (k: nat, first: nat, gravest: nat)
    requires sc == Dedup.ScanOf(sc.project, sc.scan, Dedup.Deduplicated(fs), sc.places, sc.complete, sc.now)
    requires exists i :: 0 <= i < |fs| && fs[i].fingerprint == fp
    ensures LastReport(sc, sc.reports, k, Id(sc.project, fp)) && FirstReport(sc, sc.reports, k, Id(sc.project, fp))
    ensures Dedup.FirstAt(fs, first, fp) && Dedup.GravestAt(fs, gravest, fp)
    ensures sc.reports[k] == Report(fp, fs[first].scanner, fs[gravest].severity)
  {
    Dedup.SeenExactly(fs, fp);
    Dedup.FirstSeenIsReported(fs);
    k :| k < |Dedup.FirstSeen(fs)| && Dedup.FirstSeen(fs)[k] == fp;
    Dedup.HeadFingerprint(fs, k);
    forall j: nat | j < |sc.reports| ensures sc.reports[j].fingerprint == Dedup.FirstSeen(fs)[j] {
      Dedup.HeadFingerprint(fs, j);
    }
    first, gravest := Dedup.MergedExactly(fs, k);
  }

  /** What the scanners reported of a finding is what is stored: the gravest severity, and who reported it first. */
  lemma ReportsAreStored(t: Tables, e: Event, fs: seq<Finding>, fp: string) returns (first: nat, gravest: nat)
    requires e.Recorded? && Enabled(t, e)
    requires e.sc ==
      Dedup.ScanOf(e.sc.project, e.sc.scan, Dedup.Deduplicated(fs), e.sc.places, e.sc.complete, e.sc.now)
    requires exists i :: 0 <= i < |fs| && fs[i].fingerprint == fp
    ensures Dedup.FirstAt(fs, first, fp) && Dedup.GravestAt(fs, gravest, fp)
    ensures var t', id := Next(t, e), Id(e.sc.project, fp);
      && id in t'.findings && t'.findings[id].severity == fs[gravest].severity
      && t'.findings[id].scanner == if id in t.findings then t.findings[id].scanner else fs[first].scanner
  {
    var k;
    k, first, gravest := OneReport(e.sc, fs, fp);
    RecordedSeverity(t, e, k, Id(e.sc.project, fp));
    RecordedScanner(t, e, k, Id(e.sc.project, fp));
  }

  /** Every status a recording leaves: resolved by it, opened, reopened, or as it was. */
  lemma RecordedStatus(t: Tables, e: Event, id: Id)
    requires e.Recorded? && Enabled(t, e) && id in Next(t, e).findings
    ensures Next(t, e).findings[id].status ==
      if id in e.order then Resolved
      else if id !in t.findings then Open
      else if t.findings[id].status == Resolved && !Silent(e.sc, e.sc.reports, id) then Reopened
      else t.findings[id].status
  {
    NextFindings(t, e, id);
    UpsertEffect(t, e.sc, e.sc.reports, id);
    SilentExactly(e.sc, e.sc.reports, id);
  }

  /**
   A recording resolves a finding exactly if the finding is of its project, was
   open, reopened or just came back, its first reporter finished, this scan did
   not see it, everyone who ever saw it finished, and, for a website, the scan
   looked at it.
   */
  lemma ResolvesExactly(t: Tables, e: Event, id: Id)
    requires e.Recorded? && Enabled(t, e)
    ensures id in e.order <==>
      && id in Next(t, e).findings && id.project == e.sc.project
      && Next(t, e).findings[id].scanner in e.sc.complete
      && (id in t.findings ==>
            || t.findings[id].status in {Open, Reopened}
            || (t.findings[id].status == Resolved && !Silent(e.sc, e.sc.reports, id)))
      && (forall s | s in Next(t, e).sightings && s.finding == id ::
            s.scan != e.sc.scan && s.scanner in e.sc.complete)
      && (Limited(t, e.sc) ==> id in e.looked)
  {
    var m := Stored(t, e.sc);
    NextFindings(t, e, id);
    NextKeepsSightings(t, e);
    SightingsEffect(UpsertAll(t, e.sc, e.sc.reports), e.sc, e.sc.places);
    StoredFacts(t, e.sc, id);
    SilentExactly(e.sc, e.sc.reports, id);
    assert id in e.order <==> id in ResolvedBy(m, e.sc, e.looked);
    assert forall s | s in m.sightings :: exists i :: 0 <= i < |m.sightings| && m.sightings[i] == s;
  }

  /** `o` is the older report: seen earlier, or at the same time by a scan created earlier. */
  predicate Older(t: Tables, o: Sighting, s: Sighting)
    requires o.scan in t.scans && s.scan in t.scans
  {
    o.seenAt < s.seenAt || (o.seenAt == s.seenAt && t.scans[o.scan].createdAt < t.scans[s.scan].createdAt)
  }

  ghost predicate Newest(t: Tables, id: Id, s: Sighting) {
    && s in t.sightings && s.finding == id && s.scan in t.scans
    && forall o | o in t.sightings && o.finding == id && o.scan in t.scans && o != s :: Older(t, o, s)
  }

  /** A website scan that was everyone's chance to see a finding again, and did not report it. */
  ghost predicate Missed(t: Tables, sc: Scan, id: Id) {
    && Silent(sc, sc.reports, id) && id in t.findings && id.project == sc.project
    && t.findings[id].scanner in sc.complete && t.findings[id].status in {Open, Reopened}
    && forall o | o in t.sightings && o.finding == id :: o.scan != sc.scan && o.scanner in sc.complete
  }

  lemma MissedIsUnsighted(t: Tables, sc: Scan, id: Id)
    requires Coherent(sc) && Missed(t, sc, id)
    ensures forall o: Sighting | o.finding == id :: o in Stored(t, sc).sightings <==> o in t.sightings
  {
    StoredFacts(t, sc, id);
    SilentExactly(sc, sc.reports, id);
    UpsertEffect(t, sc, sc.reports, id);
    SightingsEffect(UpsertAll(t, sc, sc.reports), sc, sc.places);
    var m := Stored(t, sc).sightings;
    forall o | o in m && o.finding == id ensures o in t.sightings {
      var i :| 0 <= i < |m| && m[i] == o;
      if i < |t.sightings| { assert m[i] == t.sightings[i]; }
    }
  }

  lemma NewestIsLatest(t: Tables, sc: Scan, id: Id, s: Sighting)
    requires Coherent(sc) && Missed(t, sc, id) && Newest(t, id, s)
    ensures forall x :: Latest(Stored(t, sc), sc, id, x) <==> x == s
  {
    StoredFacts(t, sc, id);
    MissedIsUnsighted(t, sc, id);
  }

  /** A finding a website scan missed is resolved exactly if its newest report was of the page the scan looked at. */
  lemma NewestPageDecides(t: Tables, e: Event, id: Id, s: Sighting)
    requires e.Recorded? && Enabled(t, e) && Limited(t, e.sc) && Missed(t, e.sc, id) && Newest(t, id, s)
    ensures id in e.order <==>
      && t.scans[e.sc.scan].urlPath.Some? && t.scans[s.scan].urlPath.Some?
      && NormalizeLocation(t.scans[s.scan].urlPath.value) == NormalizeLocation(t.scans[e.sc.scan].urlPath.value)
  {
    var m := Stored(t, e.sc);
    StoredFacts(t, e.sc, id);
    NewestIsLatest(t, e.sc, id, s);
    MissedIsUnsighted(t, e.sc, id);
    SilentExactly(e.sc, e.sc.reports, id);
    assert Candidate(m, e.sc, id) && Latest(m, e.sc, id, s);
    assert id in e.looked <==> SamePage(m, e.sc, s);
    assert forall i | 0 <= i < |m.sightings| && m.sightings[i].finding == id :: m.sightings[i] in m.sightings;
    assert id in e.order <==> id in ResolvedBy(m, e.sc, e.looked);
  }

  // ---- Rows over whole runs ---------------------------------------------

  /** The event records a scan that reports the finding. */
  ghost predicate Mentions(e: Event, id: Id) { e.Recorded? && !Silent(e.sc, e.sc.reports, id) }

  ghost predicate LastWord(es: seq<Event>, n: nat, i: nat, id: Id) {
    && n < |es| && es[n].Recorded? && LastReport(es[n].sc, es[n].sc.reports, i, id)
    && forall m | n < m < |es| :: !Mentions(es[m], id)
  }

  ghost predicate FirstWord(es: seq<Event>, n: nat, i: nat, id: Id) {
    && n < |es| && es[n].Recorded? && FirstReport(es[n].sc, es[n].sc.reports, i, id)
    && forall m | 0 <= m < n :: !Mentions(es[m], id)
  }

  /** A step that does not mention a finding leaves its reporter and severity alone. */
  lemma UnmentionedKept(t: Tables, e: Event, id: Id)
    requires Enabled(t, e) && !Mentions(e, id)
    ensures id in Next(t, e).findings <==> id in t.findings
    ensures id in t.findings ==>
      && Next(t, e).findings[id].severity == t.findings[id].severity
      && Next(t, e).findings[id].scanner == t.findings[id].scanner
  {
    if e.Recorded? { UnreportedKept(t, e, id); }
  }

  /** After any run a finding has the severity the last recording that reported it gave it. */
  lemma {:induction false} SeverityIsLastReported(t: Tables, es: seq<Event>, n: nat, i: nat, id: Id)
    requires Run(t, es) && LastWord(es, n, i, id)
    ensures id in After(t, es).findings && After(t, es).findings[id].severity == es[n].sc.reports[i].severity
    decreases |es|
  {
    var rest, last := es[..|es| - 1], es[|es| - 1];
    if n == |es| - 1 {
      RecordedSeverity(After(t, rest), last, i, id);
    } else {
      assert forall m | n < m < |rest| :: rest[m] == es[m];
      SeverityIsLastReported(t, rest, n, i, id);
      UnmentionedKept(After(t, rest), last, id);
    }
  }

  /** A run that never mentions a finding neither stores it nor changes its reporter or severity. */
  lemma {:induction false} NeverMentioned(t: Tables, es: seq<Event>, id: Id)
    requires Run(t, es) && forall m | 0 <= m < |es| :: !Mentions(es[m], id)
    ensures id in After(t, es).findings <==> id in t.findings
    ensures id in t.findings ==>
      && After(t, es).findings[id].severity == t.findings[id].severity
      && After(t, es).findings[id].scanner == t.findings[id].scanner
    decreases |es|
  {
    if es != [] {
      var rest := es[..|es| - 1];
      assert forall m | 0 <= m < |rest| :: rest[m] == es[m];
      NeverMentioned(t, rest, id);
      UnmentionedKept(After(t, rest), es[|es| - 1], id);
    }
  }

  lemma ReporterKept(t: Tables, e: Event, id: Id)
    requires Enabled(t, e) && id in t.findings
    ensures id in Next(t, e).findings && Next(t, e).findings[id].scanner == t.findings[id].scanner
  {
    if e.Recorded? {
      NextFindings(t, e, id);
      UpsertEffect(t, e.sc, e.sc.reports, id);
    }
  }

  /** After any run from the empty tables a finding names the scanner that reported it first. */
  lemma {:induction false} ScannerIsFirstReporter(es: seq<Event>, n: nat, i: nat, id: Id)
    requires Run(EMPTY, es) && FirstWord(es, n, i, id)
    ensures id in After(EMPTY, es).findings && After(EMPTY, es).findings[id].scanner == es[n].sc.reports[i].scanner
    decreases |es|
  {
    var rest, last := es[..|es| - 1], es[|es| - 1];
    if n == |es| - 1 {
      assert forall m | 0 <= m < |rest| :: rest[m] == es[m];
      NeverMentioned(EMPTY, rest, id);
      RecordedScanner(After(EMPTY, rest), last, i, id);
    } else {
      assert forall m | 0 <= m < n :: rest[m] == es[m];
      ScannerIsFirstReporter(rest, n, i, id);
      ReporterKept(After(EMPTY, rest), last, id);
    }
  }

  lemma SomeLastReport(sc: Scan, rs: seq<Report>, id: Id) returns (i: nat)
    requires !Silent(sc, rs, id)
    ensures LastReport(sc, rs, i, id)
  {
    if About(sc, rs[|rs| - 1], id) {
      i := |rs| - 1;
    } else {
      var j :| 0 <= j < |rs| && About(sc, rs[j], id);
      assert rs[..|rs| - 1][j] == rs[j];
      i := SomeLastReport(sc, rs[..|rs| - 1], id);
    }
  }

  lemma {:induction false} SomeLastWord(es: seq<Event>, id: Id, k: nat) returns (n: nat, i: nat)
    requires k < |es| && Mentions(es[k], id)
    ensures LastWord(es, n, i, id)
  {
    var rest, last := es[..|es| - 1], es[|es| - 1];
    if Mentions(last, id) {
      n := |es| - 1;
      i := SomeLastReport(last.sc, last.sc.reports, id);
    } else {
      assert Mentions(rest[k], id);
      n, i := SomeLastWord(rest, id, k);
      assert forall m | n < m < |es| :: m < |rest| ==> rest[m] == es[m];
    }
  }

  /** A finding is stored exactly when some recording of the run reported it. */
  lemma StoredExactlyIfReported(es: seq<Event>, id: Id)
    requires Run(EMPTY, es)
    ensures id in After(EMPTY, es).findings <==> exists n :: 0 <= n < |es| && Mentions(es[n], id)
  {
    if k :| 0 <= k < |es| && Mentions(es[k], id) {
      var n, i := SomeLastWord(es, id, k);
      SeverityIsLastReported(EMPTY, es, n, i, id);
    } else {
      NeverMentioned(EMPTY, es, id);
    }
  }

  // ---- History ----------------------------------------------------------

  /** The entry says what the event did, to which finding, on whose behalf. */
  ghost predicate Tracks(x: Entry, e: Event) {
    match x.reason
    case FirstSeen =>
      && Mentions(e, x.finding) && x.from == None && x.to == Open && x.actor == SYSTEM && x.scan == e.sc.scan
    case CameBack =>
      && Mentions(e, x.finding) && x.from == Some(Resolved) && x.to == Reopened && x.actor == SYSTEM
      && x.scan == e.sc.scan
    case NotReported =>
      && e.Recorded? && x.finding in e.order && x.from == None && x.to == Resolved && x.actor == SYSTEM
      && x.scan == e.sc.scan
    case Judged(reason) =>
      && e.Changed? && x.finding == e.id && x.from.Some? && x.to == e.request.to && x.actor == e.actor
      && reason == e.request.reason && x.scan == ""
  }

  /** `h` continues `g` with entries the event accounts for. */
  ghost predicate Continues(g: seq<Entry>, h: seq<Entry>, e: Event) {
    g <= h && forall k | |g| <= k < |h| :: Tracks(h[k], e)
  }

  lemma {:induction false} UpsertHistory(t: Tables, e: Event, rs: seq<Report>)
    requires e.Recorded? && rs <= e.sc.reports
    ensures Continues(t.history, UpsertAll(t, e.sc, rs).history, e)
    decreases |rs|
  {
    if rs != [] {
      var r, id := rs[|rs| - 1], Id(e.sc.project, rs[|rs| - 1].fingerprint);
      UpsertHistory(t, e, rs[..|rs| - 1]);
      assert About(e.sc, e.sc.reports[|rs| - 1], id) && Mentions(e, id);
    }
  }

  lemma {:induction false} ResolveHistory(t: Tables, e: Event, ids: seq<Id>)
    requires e.Recorded? && ids <= e.order && forall id | id in ids :: id in t.findings
    ensures Continues(t.history, ResolveAll(t, e.sc, ids).history, e)
    decreases |ids|
  {
    if ids != [] {
      assert e.order[|ids| - 1] in e.order;
      ResolveHistory(t, e, ids[..|ids| - 1]);
    }
  }

  /** A step appends to the history, and what it appends tells what the step did. */
  lemma StepHistory(t: Tables, e: Event)
    requires Enabled(t, e)
    ensures Continues(t.history, Next(t, e).history, e)
  {
    if e.Recorded? {
      UpsertHistory(t, e, e.sc.reports);
      SightingsEffect(UpsertAll(t, e.sc, e.sc.reports), e.sc, e.sc.places);
      assert forall id | id in e.order :: id in ResolvedBy(Stored(t, e.sc), e.sc, e.looked);
      ResolveHistory(Stored(t, e.sc), e, e.order);
    }
  }

  ghost predicate Accounted(x: Entry, es: seq<Event>) { exists n :: 0 <= n < |es| && Tracks(x, es[n]) }

  /** Every entry of the history goes back to an event of the run and says what that event did. */
  lemma {:induction false} HistoryIsAccountedFor(es: seq<Event>, k: nat)
    requires Run(EMPTY, es) && k < |After(EMPTY, es).history|
    ensures Accounted(After(EMPTY, es).history[k], es)
    decreases |es|
  {
    var rest, last := es[..|es| - 1], es[|es| - 1];
    var m := After(EMPTY, rest);
    StepHistory(m, last);
    if k < |m.history| {
      HistoryIsAccountedFor(rest, k);
      var n :| 0 <= n < |rest| && Tracks(m.history[k], rest[n]);
      assert Tracks(After(EMPTY, es).history[k], es[n]);
    } else {
      assert Tracks(After(EMPTY, es).history[k], es[|es| - 1]);
    }
  }

  // ---- Sightings --------------------------------------------------------

  /** The sighting is this place as the scan reported it, at the scan's time. */
  predicate Stores(s: Sighting, sc: Scan, p: Place) {
    && s.finding == Id(sc.project, p.fingerprint) && s.scan == sc.scan && s.scanner == p.scanner
    && s.file == p.file && s.startLine == p.startLine && s.seenAt == sc.now
  }

  ghost predicate StoresSome(s: Sighting, e: Event) {
    e.Recorded? && exists j :: 0 <= j < |e.sc.places| && Stores(s, e.sc, e.sc.places[j])
  }

  lemma StepSightings(t: Tables, e: Event, k: nat)
    requires Enabled(t, e) && |t.sightings| <= k < |Next(t, e).sightings|
    ensures StoresSome(Next(t, e).sightings[k], e)
  {
    NextKeepsSightings(t, e);
    var u := UpsertAll(t, e.sc, e.sc.reports);
    UpsertEffect(t, e.sc, e.sc.reports, Id("", ""));
    SightingsEffect(u, e.sc, e.sc.places);
    var j :| 0 <= j < |e.sc.places| && Next(t, e).sightings[k] == SightingOf(e.sc, e.sc.places[j]);
    assert Stores(Next(t, e).sightings[k], e.sc, e.sc.places[j]);
  }

  ghost predicate Witnessed(s: Sighting, es: seq<Event>) { exists n :: 0 <= n < |es| && StoresSome(s, es[n]) }

  /** Every sighting goes back to a place some recording of the run reported, as it reported it. */
  lemma {:induction false} SightingsAreWitnessed(es: seq<Event>, k: nat)
    requires Run(EMPTY, es) && k < |After(EMPTY, es).sightings|
    ensures Witnessed(After(EMPTY, es).sightings[k], es)
    decreases |es|
  {
    var rest, last := es[..|es| - 1], es[|es| - 1];
    var m := After(EMPTY, rest);
    NextKeepsSightings(m, last);
    if k < |m.sightings| {
      SightingsAreWitnessed(rest, k);
      var n :| 0 <= n < |rest| && StoresSome(m.sightings[k], rest[n]);
      assert StoresSome(After(EMPTY, es).sightings[k], es[n]);
    } else {
      StepSightings(m, last, k);
      assert StoresSome(After(EMPTY, es).sightings[k], es[|es| - 1]);
    }
  }

  /** The same finding by the same scanner in the same scan at the same place, whenever stored. */
  predicate SamePlace(s: Sighting, sc: Scan, p: Place) { Stores(s.(seenAt := sc.now), sc, p) }

  ghost predicate OnRecord(ss: seq<Sighting>, sc: Scan, p: Place) {
    exists i :: 0 <= i < |ss| && SamePlace(ss[i], sc, p)
  }

  lemma {:induction false} PlaceOnRecord(t: Tables, sc: Scan, ps: seq<Place>, j: nat)
    requires j < |ps|
    ensures OnRecord(AddSightings(t, sc, ps).sightings, sc, ps[j])
  {
    var rest := ps[..|ps| - 1];
    var m, t' := AddSightings(t, sc, rest), AddSightings(t, sc, ps);
    if j < |rest| {
      PlaceOnRecord(t, sc, rest, j);
      var i :| 0 <= i < |m.sightings| && SamePlace(m.sightings[i], sc, rest[j]);
      assert SamePlace(t'.sightings[i], sc, ps[j]);
    } else if i :| 0 <= i < |m.sightings| && Conflicts(m.sightings[i], SightingOf(sc, ps[j])) {
      assert SamePlace(t'.sightings[i], sc, ps[j]);
    } else {
      assert SamePlace(t'.sightings[|m.sightings|], sc, ps[j]);
    }
  }

  /** Every place a recording reports is on record after it, with its file and line. */
  lemma EveryPlaceOnRecord(t: Tables, e: Event, j: nat)
    requires e.Recorded? && Enabled(t, e) && j < |e.sc.places|
    ensures OnRecord(Next(t, e).sightings, e.sc, e.sc.places[j])
  {
    NextKeepsSightings(t, e);
    PlaceOnRecord(UpsertAll(t, e.sc, e.sc.reports), e.sc, e.sc.places, j);
  }

  /** Two sightings of one finding by one scanner in one scan at one known place. */
  predicate Repeats(a: Sighting, b: Sighting) {
    && a.(seenAt := b.seenAt) == b && a.file != "" && a.startLine > 0
  }

  ghost predicate NoRepeats(ss: seq<Sighting>) { forall i, j | 0 <= i < j < |ss| :: !Repeats(ss[i], ss[j]) }

  lemma {:induction false} AddedWithoutRepeats(t: Tables, sc: Scan, ps: seq<Place>)
    requires NoRepeats(t.sightings)
    ensures NoRepeats(AddSightings(t, sc, ps).sightings)
  {
    if ps != [] {
      var m, s := AddSightings(t, sc, ps[..|ps| - 1]), SightingOf(sc, ps[|ps| - 1]);
      AddedWithoutRepeats(t, sc, ps[..|ps| - 1]);
      assert forall i | 0 <= i < |m.sightings| :: Repeats(m.sightings[i], s) ==> Conflicts(m.sightings[i], s);
    }
  }

  /** After any run no sighting at a known place is stored twice. */
  lemma {:induction false} NoSightingTwice(es: seq<Event>)
    requires Run(EMPTY, es)
    ensures NoRepeats(After(EMPTY, es).sightings)
    decreases |es|
  {
    if es != [] {
      var m, e := After(EMPTY, es[..|es| - 1]), es[|es| - 1];
      NoSightingTwice(es[..|es| - 1]);
      if e.Recorded? {
        NextKeepsSightings(m, e);
        UpsertEffect(m, e.sc, e.sc.reports, Id("", ""));
        AddedWithoutRepeats(UpsertAll(m, e.sc, e.sc.reports), e.sc, e.sc.places);
      }
    }
  }

  predicate Unplaced(p: Place) { p.file == "" || p.startLine == 0 }

  lemma {:induction false} UnplacedAdded(t: Tables, sc: Scan, ps: seq<Place>)
    requires forall j | 0 <= j < |ps| :: Unplaced(ps[j])
    ensures |AddSightings(t, sc, ps).sightings| == |t.sightings| + |ps|
  {
    if ps != [] {
      assert forall j | 0 <= j < |ps| - 1 :: ps[..|ps| - 1][j] == ps[j];
      assert Unplaced(ps[|ps| - 1]);
      UnplacedAdded(t, sc, ps[..|ps| - 1]);
    }
  }

  /** A sighting without a file or a line is stored every time. */
  lemma UnplacedIsAlwaysStored(t: Tables, e: Event)
    requires e.Recorded? && Enabled(t, e) && forall j | 0 <= j < |e.sc.places| :: Unplaced(e.sc.places[j])
    ensures |Next(t, e).sightings| == |t.sightings| + |e.sc.places|
  {
    NextKeepsSightings(t, e);
    UpsertEffect(t, e.sc, e.sc.reports, Id("", ""));
    UnplacedAdded(UpsertAll(t, e.sc, e.sc.reports), e.sc, e.sc.places);
  }

  // ---- What people and scans can do -------------------------------------

  ghost predicate PersonCanSet(t: Tables, id: Id, to: Status) {
    exists r: Request, actor: string :: r.to == to && Enabled(t, Changed(id, r, actor))
  }

  /** A person can give a stored finding exactly the other statuses that are judgements, or open it. */
  lemma PersonSetsExactly(t: Tables, id: Id, to: Status)
    ensures PersonCanSet(t, id, to) <==>
      && id in t.findings && t.findings[id].status != to
      && to in {Open, Acknowledged, InProgress, FalsePositive, Ignored}
    ensures forall r: Request, actor | r.to == to :: Enabled(t, Changed(id, r, actor)) <==>
      && PersonCanSet(t, id, to) && |r.note| <= 2000
      && (r.reason == "false_positive" || r.reason == "accepted_risk" || r.reason == "triaged"
          || r.reason == "work_started" || r.reason == "reinstated")
  {
    var r := Request(to, "triaged", "");
    if Enabled(t, Changed(id, r, "")) { assert PersonCanSet(t, id, to); }
  }

  /** A person's change sets the status of one finding, and nothing else of any row. */
  lemma PersonChanges(t: Tables, id: Id, r: Request, actor: string, other: Id)
    requires Enabled(t, Changed(id, r, actor)) && other in t.findings
    ensures other in Next(t, Changed(id, r, actor)).findings
    ensures Next(t, Changed(id, r, actor)).findings[other] ==
      if other == id then t.findings[id].(status := r.to) else t.findings[other]
  {
  }
}
