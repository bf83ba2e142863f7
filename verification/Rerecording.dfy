/**
 Rerecording: what recording the same scan a second time does. It changes
 nothing, except that for a website scan the database may pick another of
 several equally recent reports; exactly then it can resolve more.
 */
module Rerecording {
  import opened Ordering
  import opened Model
  import Text
  import opened Lifecycle
  import opened LifecycleTheorems

  /** The tables after the scan's reports and sightings were stored a second time. */
  ghost function StoredTwice(t: Tables, e: Event, now: int): Tables
    requires Enabled(t, e) && e.Recorded?
  {
    Stored(Next(t, e), e.sc.(now := now))
  }

  lemma {:induction false} NoNewHistory(t: Tables, sc: Scan, rs: seq<Report>)
    requires forall i | 0 <= i < |rs| :: KnownOpen(t, Id(sc.project, rs[i].fingerprint))
    ensures UpsertAll(t, sc, rs).history == t.history
  {
    if rs != [] {
      NoNewHistory(t, sc, rs[..|rs| - 1]);
      assert KnownOpen(t, Id(sc.project, rs[|rs| - 1].fingerprint));
      UpsertEffect(t, sc, rs[..|rs| - 1], Id(sc.project, rs[|rs| - 1].fingerprint));
    }
  }

  predicate KnownOpen(t: Tables, id: Id) { id in t.findings && !t.findings[id].status.Resolved? }

  lemma StatusTwice(t: Tables, e: Event, now: int, id: Id)
    requires e.Recorded? && Enabled(t, e) && Paired(e.sc)
    ensures id in StoredTwice(t, e, now).findings <==> id in Next(t, e).findings
    ensures id in Next(t, e).findings ==>
      && StoredTwice(t, e, now).findings[id].status == Next(t, e).findings[id].status
      && StoredTwice(t, e, now).findings[id].scanner == Next(t, e).findings[id].scanner
  {
    StoredFacts(Next(t, e), e.sc.(now := now), id);
    if Reports(e.sc.reports, e.sc, id) { ReportedIsNotResolved(t, e, id); }
  }

  /** The second time adds sightings of this scan only. */
  lemma SightingsTwice(t: Tables, e: Event, now: int)
    requires e.Recorded? && Enabled(t, e)
    ensures var m, m' := Stored(t, e.sc), StoredTwice(t, e, now);
      && m.scans == t.scans == m'.scans == Next(t, e).scans && m.sightings <= m'.sightings
      && forall i | |m.sightings| <= i < |m'.sightings| :: FromPlace(m'.sightings[i], e.sc.(now := now), e.sc.places)
  {
    var m, u, sc' := Stored(t, e.sc), Next(t, e), e.sc.(now := now);
    var none := Id("", "");
    StoredFacts(t, e.sc, none);
    NextKeepsSightings(t, e);
    assert forall k | k in e.order :: k in ResolvedBy(m, e.sc, e.looked);
    ResolveEffect(m, e.sc, e.order, none);
    UpsertEffect(u, sc', sc'.reports, none);
    SightingsEffect(UpsertAll(u, sc', sc'.reports), sc', sc'.places);
  }

  /** Appending sightings of one scan leaves those of the others as they were. */
  lemma OtherSightings(a: seq<Sighting>, b: seq<Sighting>, scan: string)
    requires a <= b && forall i | |a| <= i < |b| :: b[i].scan == scan
    ensures forall s: Sighting | s.scan != scan :: s in a <==> s in b
  {
    forall s: Sighting | s.scan != scan ensures s in a <==> s in b {
      if s in a { var i :| 0 <= i < |a| && a[i] == s; assert b[i] == s; }
      if s in b { var i :| 0 <= i < |b| && b[i] == s; assert a[i] == s; }
    }
  }

  lemma LatestTwice(t: Tables, e: Event, now: int, id: Id, s: Sighting)
    requires e.Recorded? && Enabled(t, e)
    ensures var m, m', sc' := Stored(t, e.sc), StoredTwice(t, e, now), e.sc.(now := now);
      && (Latest(m', sc', id, s) <==> Latest(m, e.sc, id, s))
      && (SamePage(m', sc', s) <==> SamePage(m, e.sc, s))
  {
    SightingsTwice(t, e, now);
    OtherSightings(Stored(t, e.sc).sightings, StoredTwice(t, e, now).sightings, e.sc.scan);
  }

  /** A finding of whose latest reports one is of the scan's page, although the database picked another. */
  ghost predicate Undecided(m: Tables, sc: Scan, looked: set<Id>, id: Id) {
    && Limited(m, sc) && id !in looked && Resolvable(m, sc, looked + {id}, id)
    && exists s :: Latest(m, sc, id, s) && SamePage(m, sc, s)
  }

  /** A candidate of the second recording was one of the first, and stayed. */
  lemma CandidateTwice(t: Tables, e: Event, now: int, id: Id)
    requires e.Recorded? && Enabled(t, e) && Paired(e.sc)
    ensures Candidate(StoredTwice(t, e, now), e.sc.(now := now), id) <==>
      Candidate(Stored(t, e.sc), e.sc, id) && id !in e.order
  {
    var m := Stored(t, e.sc);
    StatusTwice(t, e, now, id);
    assert forall k | k in e.order :: k in ResolvedBy(m, e.sc, e.looked);
    ResolveEffect(m, e.sc, e.order, id);
  }

  lemma UnreportedTwice(t: Tables, e: Event, now: int, id: Id)
    requires e.Recorded? && Enabled(t, e)
    ensures Unreported(StoredTwice(t, e, now), e.sc, id) <==> Unreported(Stored(t, e.sc), e.sc, id)
  {
    var m, m' := Stored(t, e.sc), StoredTwice(t, e, now);
    SightingsTwice(t, e, now);
    if Unreported(m, e.sc, id) {
      forall i | 0 <= i < |m'.sightings| && m'.sightings[i].finding == id ensures Foreign(m'.sightings[i], e.sc) {
        if i < |m.sightings| {
          assert m'.sightings[i] == m.sightings[i] && Foreign(m.sightings[i], e.sc);
        } else {
          OwnSighting(t, e, now, id, i);
          assert false;
        }
      }
    }
    if Unreported(m', e.sc, id) {
      forall i | 0 <= i < |m.sightings| && m.sightings[i].finding == id ensures Foreign(m.sightings[i], e.sc) {
        assert m.sightings[i] == m'.sightings[i] && Foreign(m'.sightings[i], e.sc);
      }
    }
  }

  predicate Foreign(s: Sighting, sc: Scan) { s.scan != sc.scan && s.scanner in sc.complete }

  /** Every sighting of the finding is by another scan and a complete scanner. */
  ghost predicate Unreported(m: Tables, sc: Scan, id: Id) {
    forall i | 0 <= i < |m.sightings| && m.sightings[i].finding == id :: Foreign(m.sightings[i], sc)
  }

  /** What the second recording adds, the first one had a sighting of. */
  lemma OwnSighting(t: Tables, e: Event, now: int, id: Id, i: nat)
    requires e.Recorded? && Enabled(t, e)
    requires |Stored(t, e.sc).sightings| <= i < |StoredTwice(t, e, now).sightings|
    requires StoredTwice(t, e, now).sightings[i].finding == id
    ensures !Unreported(Stored(t, e.sc), e.sc, id)
  {
    var m, m' := Stored(t, e.sc), StoredTwice(t, e, now);
    SightingsTwice(t, e, now);
    assert FromPlace(m'.sightings[i], e.sc.(now := now), e.sc.places);
    var j: nat :| j < |e.sc.places| && m'.sightings[i] == SightingOf(e.sc.(now := now), e.sc.places[j]);
    PlaceStored(t, e.sc, j);
    var k :| 0 <= k < |m.sightings| && m.sightings[k].finding == id && m.sightings[k].scan == e.sc.scan;
    assert !Foreign(m.sightings[k], e.sc);
  }

  lemma ResolvableParts(m: Tables, sc: Scan, looked: set<Id>, id: Id)
    ensures Resolvable(m, sc, looked, id) <==>
      Candidate(m, sc, id) && Unreported(m, sc, id) && (Limited(m, sc) ==> id in looked)
  {
  }

  lemma UnreportedIgnoresTime(m: Tables, sc: Scan, now: int, id: Id)
    ensures Unreported(m, sc.(now := now), id) <==> Unreported(m, sc, id)
  {
    assert forall s: Sighting :: Foreign(s, sc.(now := now)) == Foreign(s, sc);
  }

  /** The second recording can resolve a finding exactly when the first left it undecided and it is looked at now. */
  lemma ResolvableTwice(t: Tables, e: Event, now: int, looked: set<Id>, id: Id)
    requires e.Recorded? && Enabled(t, e) && Paired(e.sc)
    requires Limited(t, e.sc) ==> LookedAt(StoredTwice(t, e, now), e.sc.(now := now), looked)
    ensures Resolvable(StoredTwice(t, e, now), e.sc.(now := now), looked, id) <==>
      Undecided(Stored(t, e.sc), e.sc, e.looked, id) && id in looked
  {
    var m, m', sc' := Stored(t, e.sc), StoredTwice(t, e, now), e.sc.(now := now);
    SightingsTwice(t, e, now);
    CandidateTwice(t, e, now, id);
    UnreportedTwice(t, e, now, id);
    UnreportedIgnoresTime(m', e.sc, now, id);
    ResolvableParts(m', sc', looked, id);
    ResolvableParts(m, e.sc, e.looked, id);
    ResolvableParts(m, e.sc, e.looked + {id}, id);
    assert id in e.order <==> id in ResolvedBy(m, e.sc, e.looked);
    if Resolvable(m', sc', looked, id) && Limited(m, e.sc) {
      var s :| Latest(m', sc', id, s) && SamePage(m', sc', s);
      LatestTwice(t, e, now, id, s);
    }
  }

  /** The event that records the same scan once more. */
  ghost predicate Again(e: Event, e': Event) {
    e.Recorded? && e'.Recorded? && e'.sc == e.sc.(now := e'.sc.now)
  }

  /** No status changed and no history written. */
  ghost predicate Unchanged(t: Tables, e: Event, e': Event)
    requires Enabled(t, e) && Enabled(Next(t, e), e')
  {
    var u, v := Next(t, e), Next(Next(t, e), e');
    && v.history == u.history && v.findings.Keys == u.findings.Keys
    && forall id | id in u.findings :: v.findings[id].status == u.findings[id].status
  }

  lemma HistoryTwice(t: Tables, e: Event, now: int)
    requires e.Recorded? && Enabled(t, e) && Paired(e.sc)
    ensures StoredTwice(t, e, now).history == Next(t, e).history
  {
    var u, sc' := Next(t, e), e.sc.(now := now);
    forall i | 0 <= i < |sc'.reports| ensures KnownOpen(u, Id(sc'.project, sc'.reports[i].fingerprint)) {
      assert e.sc.reports[i] in e.sc.reports;
      ReportedIsNotResolved(t, e, Id(e.sc.project, e.sc.reports[i].fingerprint));
    }
    NoNewHistory(u, sc', sc'.reports);
    SightingsEffect(UpsertAll(u, sc', sc'.reports), sc', sc'.places);
  }

  lemma NothingToResolve(t: Tables, e: Event, e': Event)
    requires Again(e, e') && Enabled(t, e) && Enabled(Next(t, e), e') && Paired(e.sc)
    requires forall id :: !Undecided(Stored(t, e.sc), e.sc, e.looked, id)
    ensures e'.order == []
  {
    SightingsTwice(t, e, e'.sc.now);
    if e'.order != [] {
      var id := e'.order[0];
      assert id in e'.order && id in ResolvedBy(StoredTwice(t, e, e'.sc.now), e'.sc, e'.looked);
      ResolvableTwice(t, e, e'.sc.now, e'.looked, id);
      assert false;
    }
  }

  /** With nothing undecided, recording the same scan again changes no status and adds no history. */
  lemma RecordingAgainChangesNothing(t: Tables, e: Event, e': Event)
    requires Again(e, e') && Enabled(t, e) && Enabled(Next(t, e), e') && Paired(e.sc)
    requires forall id :: !Undecided(Stored(t, e.sc), e.sc, e.looked, id)
    ensures Unchanged(t, e, e')
  {
    var now := e'.sc.now;
    SightingsTwice(t, e, now);
    HistoryTwice(t, e, now);
    NothingToResolve(t, e, e');
    forall id ensures id in Next(Next(t, e), e').findings <==> id in Next(t, e).findings { StatusTwice(t, e, now, id); }
    forall id | id in Next(t, e).findings
      ensures Next(Next(t, e), e').findings[id].status == Next(t, e).findings[id].status
    {
      StatusTwice(t, e, now, id);
    }
  }

  /** The database may now pick the report of the scan's page for one undecided finding. */
  lemma LookedAgain(t: Tables, e: Event, now: int, id: Id)
    requires e.Recorded? && Enabled(t, e) && Paired(e.sc) && Limited(t, e.sc)
    requires Undecided(Stored(t, e.sc), e.sc, e.looked, id)
    ensures LookedAt(StoredTwice(t, e, now), e.sc.(now := now), e.looked + {id})
  {
    var m, m', sc' := Stored(t, e.sc), StoredTwice(t, e, now), e.sc.(now := now);
    forall k | k in e.looked + {id} ensures exists s :: Latest(m', sc', k, s) && SamePage(m', sc', s) {
      var s :| Latest(m, e.sc, k, s) && SamePage(m, e.sc, s);
      LatestTwice(t, e, now, k, s);
    }
    forall k | Candidate(m', sc', k) && k !in e.looked + {id} && exists s :: Latest(m', sc', k, s)
      ensures exists s :: Latest(m', sc', k, s) && !SamePage(m', sc', s)
    {
      var r :| Latest(m', sc', k, r);
      LatestTwice(t, e, now, k, r);
      CandidateTwice(t, e, now, k);
      var s :| Latest(m, e.sc, k, s) && !SamePage(m, e.sc, s);
      LatestTwice(t, e, now, k, s);
    }
  }

  lemma UndecidedCanBeResolved(t: Tables, e: Event, now: int, id: Id) returns (e': Event)
    requires e.Recorded? && Enabled(t, e) && Paired(e.sc)
    requires Undecided(Stored(t, e.sc), e.sc, e.looked, id)
    ensures Again(e, e') && Enabled(Next(t, e), e') && !Unchanged(t, e, e')
    ensures id in Next(t, e).findings && BecomesResolved(Next(t, e), e', id)
  {
    var sc', looked := e.sc.(now := now), e.looked + {id};
    SightingsTwice(t, e, now);
    LookedAgain(t, e, now, id);
    var order := Listing(ResolvedBy(StoredTwice(t, e, now), sc', looked));
    e' := Recorded(sc', looked, order);
    ResolvableTwice(t, e, now, looked, id);
    StepResolves(Next(t, e), e', id);
    CandidateTwice(t, e, now, id);
    StatusTwice(t, e, now, id);
  }

  /** Recording again is always without effect exactly when no finding was left undecided. */
  lemma RecordingAgainExactly(t: Tables, e: Event)
    requires e.Recorded? && Enabled(t, e) && Paired(e.sc)
    ensures (forall e' | Again(e, e') && Enabled(Next(t, e), e') :: Unchanged(t, e, e')) <==>
      forall id :: !Undecided(Stored(t, e.sc), e.sc, e.looked, id)
  {
    if id :| Undecided(Stored(t, e.sc), e.sc, e.looked, id) {
      var e' := UndecidedCanBeResolved(t, e, e.sc.now, id);
    } else {
      forall e' | Again(e, e') && Enabled(Next(t, e), e') ensures Unchanged(t, e, e') {
        RecordingAgainChangesNothing(t, e, e');
      }
    }
  }

  // ---- Such a run -------------------------------------------------------

  /** The website's root page, and another page. */
  const ROOT_PAGE: ScanRow := ScanRow(true, Some(""), 0)
  const OTHER_PAGE: ScanRow := ScanRow(true, Some(" x"), 0)

  /** Scan `a` of the root page and scan `b` of the other report one finding at one time; `c` is of the root page. */
  function TwoPages(id: Id, scanner: string, a: string, b: string, c: string): seq<Event> {
    Past(id, a, scanner, c, ROOT_PAGE) + [Registered(b, OTHER_PAGE)] + [Recorded(PastScan(id, b, scanner), {}, [])]
  }

  function SeenOnTwoPages(id: Id, scanner: string, a: string, b: string, c: string): Tables {
    Tables(map[id := Row(scanner, High, Open)],
      [Sighting(id, a, scanner, "", 0, 0), Sighting(id, b, scanner, "", 0, 0)],
      [Entry(id, None, Open, SYSTEM, FirstSeen, a)], map[a := ROOT_PAGE, c := ROOT_PAGE, b := OTHER_PAGE])
  }

  /** The second report finds the finding open and adds its sighting. */
  lemma SecondReport(id: Id, scanner: string, a: string, b: string, c: string)
    requires a != b && a != c && b != c
    ensures var t := OneOpen(id, a, scanner, c, ROOT_PAGE);
      var e := Recorded(PastScan(id, b, scanner), {}, []);
      var t' := t.(scans := t.scans[b := OTHER_PAGE]);
      Enabled(t', e) && Next(t', e) == SeenOnTwoPages(id, scanner, a, b, c)
  {
    var t := OneOpen(id, a, scanner, c, ROOT_PAGE).(scans := map[a := ROOT_PAGE, c := ROOT_PAGE, b := OTHER_PAGE]);
    var sc, m := PastScan(id, b, scanner), SeenOnTwoPages(id, scanner, a, b, c);
    assert sc.reports[..0] == [] && sc.places[..0] == [];
    assert UpsertAll(t, sc, []) == t && UpsertAll(t, sc, sc.reports) == Upsert(t, sc, sc.reports[0]);
    assert t.findings[id := t.findings[id].(severity := High)] == t.findings;
    assert Upsert(t, sc, sc.reports[0]) == t && AddSightings(t, sc, []) == t;
    assert t.sightings + [SightingOf(sc, sc.places[0])] == m.sightings;
    assert Stored(t, sc) == AddSighting(t, SightingOf(sc, sc.places[0])) == m;
    assert sc.places[0] in sc.places && sc.reports[0] in sc.reports;
    assert ResolvedBy(m, sc, {}) == {};
  }

  lemma TwoPagesIsRun(id: Id, scanner: string, a: string, b: string, c: string)
    requires a != b && a != c && b != c
    ensures Run(EMPTY, TwoPages(id, scanner, a, b, c))
    ensures After(EMPTY, TwoPages(id, scanner, a, b, c)) == SeenOnTwoPages(id, scanner, a, b, c)
  {
    var es := Past(id, a, scanner, c, ROOT_PAGE);
    PastIsRun(id, a, scanner, c, ROOT_PAGE);
    RunStep(EMPTY, es, Registered(b, OTHER_PAGE));
    SecondReport(id, scanner, a, b, c);
    RunStep(EMPTY, es + [Registered(b, OTHER_PAGE)], Recorded(PastScan(id, b, scanner), {}, []));
  }

  /** Both reports are latest, and they disagree about the page. */
  lemma PagesDisagree(id: Id, scanner: string, a: string, b: string, c: string, sc: Scan)
    requires a != b && a != c && b != c && sc.scan == c
    ensures var t := SeenOnTwoPages(id, scanner, a, b, c);
      && Latest(t, sc, id, t.sightings[0]) && SamePage(t, sc, t.sightings[0])
      && Latest(t, sc, id, t.sightings[1]) && !SamePage(t, sc, t.sightings[1])
  {
    var t := SeenOnTwoPages(id, scanner, a, b, c);
    Text.NormalizeSpace();
    assert Text.NormalizeLocation("") == "";
    assert PathOf(t, c) == Some("") && PathOf(t, b) == Some("x") && |""| != |"x"|;
    assert t.sightings[0] in t.sightings && t.sightings[1] in t.sightings;
  }

  /** The scan of the root page with the scanner complete and nothing found; the database picked the other report. */
  function Overlooked(id: Id, scanner: string, c: string): Event {
    Recorded(Scan(id.project, c, [], [], {scanner}, 0), {}, [])
  }

  lemma OverlookedStep(id: Id, scanner: string, a: string, b: string, c: string)
    requires a != b && a != c && b != c
    ensures var t, e := SeenOnTwoPages(id, scanner, a, b, c), Overlooked(id, scanner, c);
      Enabled(t, e) && Paired(e.sc) && Undecided(Stored(t, e.sc), e.sc, e.looked, id)
  {
    var t, e := SeenOnTwoPages(id, scanner, a, b, c), Overlooked(id, scanner, c);
    PagesDisagree(id, scanner, a, b, c, e.sc);
    assert Stored(t, e.sc) == t && Limited(t, e.sc);
    assert LookedAt(t, e.sc, {});
    assert ResolvedBy(t, e.sc, {}) == {};
    assert Resolvable(t, e.sc, {id}, id) && {} + {id} == {id};
  }

  /** A run after which recording one scan twice resolves a finding the first recording left open. */
  lemma RecordingAgainCanResolve(id: Id, scanner: string, a: string, b: string, c: string) returns (e': Event)
    requires a != b && a != c && b != c
    ensures var es, e := TwoPages(id, scanner, a, b, c), Overlooked(id, scanner, c);
      && Run(EMPTY, es) && Enabled(After(EMPTY, es), e) && Paired(e.sc) && Again(e, e')
      && var u := Next(After(EMPTY, es), e);
      && Enabled(u, e') && id in u.findings && u.findings[id].status.Open?
      && Next(u, e').findings[id].status.Resolved?
  {
    var t, e := SeenOnTwoPages(id, scanner, a, b, c), Overlooked(id, scanner, c);
    TwoPagesIsRun(id, scanner, a, b, c);
    OverlookedStep(id, scanner, a, b, c);
    assert Next(t, e) == t;
    e' := UndecidedCanBeResolved(t, e, 0, id);
  }
}
