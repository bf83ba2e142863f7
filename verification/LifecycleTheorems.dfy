/**
 LifecycleTheorems: what every run of the findings store keeps.
 */
module LifecycleTheorems {
  import opened Ordering
  import opened Model
  import opened Lifecycle

  // ---- What the parts of a step do to one finding -----------------------

  predicate Reports(rs: seq<Report>, sc: Scan, id: Id) {
    id.project == sc.project && id.fingerprint in ReportedFingerprints(rs)
  }

  lemma ReportedAppend(rs: seq<Report>, r: Report)
    ensures ReportedFingerprints(rs + [r]) == ReportedFingerprints(rs) + {r.fingerprint}
  {
    assert r in rs + [r];
    assert forall q | q in rs :: q in rs + [r];
  }

  /** A report opens a new finding, reopens a resolved one and leaves any other status alone. */
  lemma {:induction false} UpsertEffect(t: Tables, sc: Scan, rs: seq<Report>, id: Id)
    ensures var t' := UpsertAll(t, sc, rs);
      && t'.sightings == t.sightings && t'.scans == t.scans
      && (id in t'.findings <==> id in t.findings || Reports(rs, sc, id))
      && (id in t.findings ==>
            && t'.findings[id].scanner == t.findings[id].scanner
            && t'.findings[id].status ==
                 if t.findings[id].status.Resolved? && Reports(rs, sc, id) then Reopened else t.findings[id].status)
      && (id !in t.findings && id in t'.findings ==> t'.findings[id].status == Open)
  {
    if rs != [] {
      var rest, r := rs[..|rs| - 1], rs[|rs| - 1];
      UpsertEffect(t, sc, rest, id);
      assert rs == rest + [r];
      ReportedAppend(rest, r);
    }
  }

  /** The sightings of the scan are stored, or were there already; nothing else changes. */
  lemma SightingsEffect(t: Tables, sc: Scan, ps: seq<Place>)
    ensures var t' := AddSightings(t, sc, ps);
      && t'.findings == t.findings && t'.history == t.history && t'.scans == t.scans
      && t.sightings <= t'.sightings
      && (forall i | |t.sightings| <= i < |t'.sightings| :: FromPlace(t'.sightings[i], sc, ps))
      && (forall j | 0 <= j < |ps| :: Sighted(t'.sightings, SightingOf(sc, ps[j])))
  {
    SightingsAppend(t, sc, ps);
    forall j | 0 <= j < |ps| ensures Sighted(AddSightings(t, sc, ps).sightings, SightingOf(sc, ps[j])) {
      PlaceSighted(t, sc, ps, j);
    }
  }

  ghost predicate FromPlace(s: Sighting, sc: Scan, ps: seq<Place>) {
    && s.scan == sc.scan && s.finding.project == sc.project
    && exists j :: 0 <= j < |ps| && s == SightingOf(sc, ps[j])
  }

  lemma {:induction false} SightingsAppend(t: Tables, sc: Scan, ps: seq<Place>)
    ensures var t' := AddSightings(t, sc, ps);
      && t'.findings == t.findings && t'.history == t.history && t'.scans == t.scans
      && t.sightings <= t'.sightings
      && (forall i | |t.sightings| <= i < |t'.sightings| :: FromPlace(t'.sightings[i], sc, ps))
  {
    if ps != [] {
      var rest, p := ps[..|ps| - 1], ps[|ps| - 1];
      SightingsAppend(t, sc, rest);
      var m, t' := AddSightings(t, sc, rest), AddSightings(t, sc, ps);
      forall i | |t.sightings| <= i < |t'.sightings| ensures FromPlace(t'.sightings[i], sc, ps) {
        if i < |m.sightings| {
          var j :| 0 <= j < |rest| && m.sightings[i] == SightingOf(sc, rest[j]);
          assert t'.sightings[i] == SightingOf(sc, ps[j]);
        } else {
          assert t'.sightings[i] == SightingOf(sc, ps[|rest|]);
        }
      }
    }
  }

  lemma {:induction false} PlaceSighted(t: Tables, sc: Scan, ps: seq<Place>, j: nat)
    requires j < |ps|
    ensures Sighted(AddSightings(t, sc, ps).sightings, SightingOf(sc, ps[j]))
  {
    var rest := ps[..|ps| - 1];
    var m := AddSightings(t, sc, rest);
    if j < |rest| {
      PlaceSighted(t, sc, rest, j);
      SightedKept(m.sightings, AddSightings(t, sc, ps).sightings, SightingOf(sc, ps[j]));
    } else {
      StoredOrThere(m, SightingOf(sc, ps[j]));
    }
  }

  /** A sighting of the same finding by the same scanner in the same scan is stored. */
  ghost predicate Sighted(ss: seq<Sighting>, s: Sighting) {
    exists i :: 0 <= i < |ss| && ss[i].finding == s.finding && ss[i].scan == s.scan && ss[i].scanner == s.scanner
  }

  lemma SightedKept(ss: seq<Sighting>, tt: seq<Sighting>, s: Sighting)
    requires ss <= tt && Sighted(ss, s)
    ensures Sighted(tt, s)
  {
    var i :| 0 <= i < |ss| && ss[i].finding == s.finding && ss[i].scan == s.scan && ss[i].scanner == s.scanner;
    assert tt[i] == ss[i];
  }

  lemma StoredOrThere(t: Tables, s: Sighting)
    ensures Sighted(AddSighting(t, s).sightings, s)
  {
    var t' := AddSighting(t, s);
    if i :| 0 <= i < |t.sightings| && Conflicts(t.sightings[i], s) {
      assert t'.sightings[i].finding == s.finding;
    } else {
      assert t'.sightings[|t.sightings|] == s;
    }
  }

  /** Resolving changes the status of exactly the listed findings. */
  lemma {:induction false} ResolveEffect(t: Tables, sc: Scan, ids: seq<Id>, id: Id)
    requires forall i | i in ids :: i in t.findings
    ensures var t' := ResolveAll(t, sc, ids);
      && t'.sightings == t.sightings && t'.scans == t.scans
      && t'.findings.Keys == t.findings.Keys
      && (id in t.findings ==>
        t'.findings[id] == if id in ids then t.findings[id].(status := Resolved) else t.findings[id])
  {
    if ids != [] {
      var rest := ids[..|ids| - 1];
      assert ids == rest + [ids[|ids| - 1]];
      ResolveEffect(t, sc, rest, id);
    }
  }

  // ---- History ----------------------------------------------------------

  /** The entries of one finding, oldest first. */
  function Chain(h: seq<Entry>, id: Id): seq<Entry> {
    if h == [] then [] else Chain(h[..|h| - 1], id) + if h[|h| - 1].finding == id then [h[|h| - 1]] else []
  }

  /** A history that tells the story of a finding now in `status`. */
  ghost predicate Tells(c: seq<Entry>, status: Status) {
    && c != []
    && c[0].from == None && c[0].to == Open
    && c[|c| - 1].to == status
    && forall i | 0 < i < |c| :: c[i].to != c[i - 1].to && (c[i].from.Some? ==> c[i].from.value == c[i - 1].to)
  }

  /** Every stored finding has a history that tells its status, and no other finding has any. */
  ghost predicate Told(t: Tables, id: Id) {
    if id in t.findings then Tells(Chain(t.history, id), t.findings[id].status) else Chain(t.history, id) == []
  }

  ghost predicate Inv(t: Tables) {
    && (forall id :: Told(t, id))
    && (forall i | 0 <= i < |t.sightings| :: t.sightings[i].finding in t.findings)
  }

  lemma ChainAppend(h: seq<Entry>, e: Entry, id: Id)
    ensures Chain(h + [e], id) == Chain(h, id) + if e.finding == id then [e] else []
  {
    assert (h + [e])[..|h|] == h;
  }

  /** The one kind of change every operation makes: a status and the entry that records it. */
  lemma ChangeTold(t: Tables, t': Tables, id: Id, e: Entry)
    requires Told(t, id) && t'.history == t.history + [e] && e.finding == id
    requires id in t'.findings && e.to == t'.findings[id].status
    requires if id in t.findings then e.to != t.findings[id].status
      && (e.from.Some? ==> e.from.value == t.findings[id].status)
             else e.from == None && e.to == Open
    ensures Told(t', id)
  {
    ChainAppend(t.history, e, id);
  }

  lemma OtherTold(t: Tables, t': Tables, id: Id, e: Entry)
    requires Told(t, id) && t'.history == t.history + [e] && e.finding != id
    requires id in t.findings <==> id in t'.findings
    requires id in t.findings ==> t.findings[id] == t'.findings[id]
    ensures Told(t', id)
  {
    ChainAppend(t.history, e, id);
  }

  lemma UpsertTold(t: Tables, sc: Scan, r: Report, id: Id)
    requires Told(t, id)
    ensures Told(Upsert(t, sc, r), id)
  {
    var t', key := Upsert(t, sc, r), Id(sc.project, r.fingerprint);
    if t'.history != t.history {
      var e := t'.history[|t.history|];
      assert t'.history == t.history + [e];
      if id == key { ChangeTold(t, t', id, e); } else { OtherTold(t, t', id, e); }
    }
  }

  lemma {:induction false} UpsertAllTold(t: Tables, sc: Scan, rs: seq<Report>, id: Id)
    requires Told(t, id)
    ensures Told(UpsertAll(t, sc, rs), id)
  {
    if rs != [] {
      UpsertAllTold(t, sc, rs[..|rs| - 1], id);
      UpsertTold(UpsertAll(t, sc, rs[..|rs| - 1]), sc, rs[|rs| - 1], id);
    }
  }

  lemma {:induction false} ResolveAllTold(t: Tables, sc: Scan, ids: seq<Id>, id: Id)
    requires forall i | i in ids :: i in t.findings && !t.findings[i].status.Resolved?
    requires NoDup(ids) && Told(t, id)
    ensures Told(ResolveAll(t, sc, ids), id)
  {
    if ids != [] {
      var rest, last := ids[..|ids| - 1], ids[|ids| - 1];
      var m, t' := ResolveAll(t, sc, rest), ResolveAll(t, sc, ids);
      assert forall i | i in rest :: i in ids;
      ResolveAllTold(t, sc, rest, id);
      ResolveEffect(t, sc, rest, last);
      assert last !in rest && last in ids;
      var e := Entry(last, None, Resolved, SYSTEM, NotReported, sc.scan);
      assert t'.history == m.history + [e];
      if id == last { ChangeTold(m, t', id, e); } else { OtherTold(m, t', id, e); }
    }
  }

  lemma StoredFacts(t: Tables, sc: Scan, id: Id)
    ensures Stored(t, sc).scans == t.scans && t.sightings <= Stored(t, sc).sightings
    ensures id in Stored(t, sc).findings <==> id in t.findings || Reports(sc.reports, sc, id)
    ensures id in t.findings ==>
      && Stored(t, sc).findings[id].scanner == t.findings[id].scanner
      && Stored(t, sc).findings[id].status ==
           if t.findings[id].status.Resolved? && Reports(sc.reports, sc, id) then Reopened else t.findings[id].status
    ensures id !in t.findings && id in Stored(t, sc).findings ==> Stored(t, sc).findings[id].status == Open
  {
    UpsertEffect(t, sc, sc.reports, id);
    SightingsEffect(UpsertAll(t, sc, sc.reports), sc, sc.places);
  }

  lemma StoredTold(t: Tables, sc: Scan, id: Id)
    requires Told(t, id)
    ensures Told(Stored(t, sc), id)
  {
    UpsertAllTold(t, sc, sc.reports, id);
    SightingsEffect(UpsertAll(t, sc, sc.reports), sc, sc.places);
  }

  lemma StoredSightings(t: Tables, sc: Scan)
    requires Coherent(sc) && forall i | 0 <= i < |t.sightings| :: t.sightings[i].finding in t.findings
    ensures forall i | 0 <= i < |Stored(t, sc).sightings| ::
      Stored(t, sc).sightings[i].finding in Stored(t, sc).findings
  {
    var u, m := UpsertAll(t, sc, sc.reports), Stored(t, sc);
    SightingsEffect(u, sc, sc.places);
    forall i | 0 <= i < |m.sightings| ensures m.sightings[i].finding in m.findings {
      UpsertEffect(t, sc, sc.reports, m.sightings[i].finding);
      if i < |u.sightings| {
        assert m.sightings[i] == t.sightings[i];
      } else {
        var j :| 0 <= j < |sc.places| && m.sightings[i] == SightingOf(sc, sc.places[j]);
        assert sc.places[j] in sc.places && sc.places[j].fingerprint in SightedFingerprints(sc.places);
      }
    }
  }

  lemma JudgeTold(t: Tables, key: Id, r: Request, actor: string, id: Id)
    requires Allowed(t, key, r) && Told(t, id)
    ensures Told(Judge(t, key, r, actor), id)
  {
    var t' := Judge(t, key, r, actor);
    var e := t'.history[|t.history|];
    if id == key { ChangeTold(t, t', id, e); } else { OtherTold(t, t', id, e); }
  }

  lemma NextTold(t: Tables, e: Event, id: Id)
    requires Enabled(t, e) && Told(t, id)
    ensures Told(Next(t, e), id)
  {
    match e
    case Recorded(sc, looked, order) =>
      StoredTold(t, sc, id);
      assert forall i | i in order :: i in ResolvedBy(Stored(t, sc), sc, looked);
      ResolveAllTold(Stored(t, sc), sc, order, id);
    case Changed(key, r, actor) => JudgeTold(t, key, r, actor, id);
    case Registered(scan, row) =>
  }

  lemma NextSightings(t: Tables, e: Event)
    requires Enabled(t, e) && Inv(t)
    ensures t.sightings <= Next(t, e).sightings
    ensures forall i | 0 <= i < |Next(t, e).sightings| :: Next(t, e).sightings[i].finding in Next(t, e).findings
  {
    match e
    case Recorded(sc, looked, order) =>
      StoredSightings(t, sc);
      UpsertEffect(t, sc, sc.reports, Id("", ""));
      SightingsEffect(UpsertAll(t, sc, sc.reports), sc, sc.places);
      ResolveEffect(Stored(t, sc), sc, order, Id("", ""));
    case Changed(key, r, actor) =>
    case Registered(scan, row) =>
  }

  /** Every step keeps the invariant. */
  lemma InvKept(t: Tables, e: Event)
    requires Enabled(t, e) && Inv(t)
    ensures Inv(Next(t, e))
  {
    forall id ensures Told(Next(t, e), id) { NextTold(t, e, id); }
    NextSightings(t, e);
  }

  /**
   In every reachable state each finding's status is where its history ends, each
   recorded previous status is the one before, and no entry repeats a status.
   */
  lemma {:induction false} HistoryTellsStatus(es: seq<Event>)
    requires Run(EMPTY, es)
    ensures Inv(After(EMPTY, es))
    decreases |es|
  {
    if es != [] {
      HistoryTellsStatus(es[..|es| - 1]);
      InvKept(After(EMPTY, es[..|es| - 1]), es[|es| - 1]);
    }
  }

  // ---- Who may resolve --------------------------------------------------

  /** `id` is resolved by this step and was not before. */
  ghost predicate BecomesResolved(t: Tables, e: Event, id: Id)
    requires Enabled(t, e)
  {
    && id in Next(t, e).findings && Next(t, e).findings[id].status.Resolved?
    && !(id in t.findings && t.findings[id].status.Resolved?)
  }

  /** The statement's conditions, seen from outside: what entitles a scan to resolve a finding. */
  ghost predicate Entitled(t: Tables, e: Event, id: Id)
    requires Enabled(t, e)
  {
    && e.Recorded? && id.project == e.sc.project
    && (id in t.findings ==>
          && (t.findings[id].status.Open? || t.findings[id].status.Reopened?)
          && t.findings[id].scanner in e.sc.complete)
    && (id !in t.findings ==> Reports(e.sc.reports, e.sc, id))
    && (forall s | s in Next(t, e).sightings && s.finding == id :: s.scanner in e.sc.complete && s.scan != e.sc.scan)
    && (Limited(t, e.sc) ==> exists s :: Latest(t, e.sc, id, s) && SamePage(t, e.sc, s))
  }

  lemma LatestBefore(t: Tables, sc: Scan, id: Id, s: Sighting)
    requires Latest(Stored(t, sc), sc, id, s)
    requires forall o | o in Stored(t, sc).sightings && o.finding == id :: o.scan != sc.scan
    ensures Latest(t, sc, id, s)
  {
    var u, m := UpsertAll(t, sc, sc.reports), Stored(t, sc);
    UpsertEffect(t, sc, sc.reports, id);
    SightingsEffect(u, sc, sc.places);
    forall o | o in m.sightings && o.finding == id ensures o in t.sightings {
      var i :| 0 <= i < |m.sightings| && m.sightings[i] == o;
      assert m.sightings[i] in m.sightings;
      assert i < |t.sightings|;
      assert m.sightings[i] == t.sightings[i];
    }
    assert forall o | o in t.sightings :: o in m.sightings;
  }

  lemma ResolvedIsListed(t: Tables, e: Event, id: Id)
    requires Enabled(t, e) && BecomesResolved(t, e, id)
    ensures e.Recorded? && id in e.order && Resolvable(Stored(t, e.sc), e.sc, e.looked, id)
  {
    if e.Recorded? {
      StoredFacts(t, e.sc, id);
      assert forall i | i in e.order :: i in ResolvedBy(Stored(t, e.sc), e.sc, e.looked);
      ResolveEffect(Stored(t, e.sc), e.sc, e.order, id);
    }
  }

  /** A finding becomes resolved only by a scan entitled to say so; no person can. */
  lemma ResolvedOnlyByEntitledScan(t: Tables, e: Event, id: Id)
    requires Enabled(t, e) && BecomesResolved(t, e, id)
    ensures Entitled(t, e, id)
  {
    ResolvedIsListed(t, e, id);
    StoredFacts(t, e.sc, id);
    NextKeepsSightings(t, e);
    var m := Stored(t, e.sc);
    forall s | s in m.sightings && s.finding == id ensures s.scanner in e.sc.complete && s.scan != e.sc.scan {
      var i :| 0 <= i < |m.sightings| && m.sightings[i] == s;
    }
    if Limited(t, e.sc) {
      var s :| Latest(m, e.sc, id, s) && SamePage(m, e.sc, s);
      LatestBefore(t, e.sc, id, s);
      assert Latest(t, e.sc, id, s) && SamePage(t, e.sc, s);
    }
  }

  lemma PlaceStored(t: Tables, sc: Scan, j: nat)
    requires j < |sc.places|
    ensures Sighted(Stored(t, sc).sightings, SightingOf(sc, sc.places[j]))
  {
    SightingsEffect(UpsertAll(t, sc, sc.reports), sc, sc.places);
  }

  /** A finding sighted by a scan is not resolved by that scan. */
  lemma SightedIsNotResolved(t: Tables, e: Event, j: nat)
    requires e.Recorded? && Enabled(t, e) && j < |e.sc.places|
    ensures Id(e.sc.project, e.sc.places[j].fingerprint) !in e.order
  {
    var m, id := Stored(t, e.sc), Id(e.sc.project, e.sc.places[j].fingerprint);
    PlaceStored(t, e.sc, j);
    var i :| 0 <= i < |m.sightings| && m.sightings[i].finding == id && m.sightings[i].scan == e.sc.scan
      && m.sightings[i].scanner == SightingOf(e.sc, e.sc.places[j]).scanner;
    assert !Resolvable(m, e.sc, e.looked, id);
  }

  /** With paired results, no finding a scan reports is resolved by it. */
  lemma ReportedIsNotResolved(t: Tables, e: Event, id: Id)
    requires e.Recorded? && Enabled(t, e) && Paired(e.sc) && Reports(e.sc.reports, e.sc, id)
    ensures id !in e.order
    ensures id in Next(t, e).findings && !Next(t, e).findings[id].status.Resolved?
  {
    var p :| p in e.sc.places && p.fingerprint == id.fingerprint;
    var j :| 0 <= j < |e.sc.places| && e.sc.places[j] == p;
    SightedIsNotResolved(t, e, j);
    StoredFacts(t, e.sc, id);
    assert forall k | k in e.order :: k in ResolvedBy(Stored(t, e.sc), e.sc, e.looked);
    ResolveEffect(Stored(t, e.sc), e.sc, e.order, id);
  }

  /** Pairing is needed: a report without a sighting is opened and resolved in one step. */
  lemma UnpairedIsResolvedAtOnce(project: string, scan: string, fp: string, scanner: string)
    ensures var sc := Scan(project, scan, [Report(fp, scanner, High)], [], {scanner}, 0);
      var e := Recorded(sc, {}, [Id(project, fp)]);
      Enabled(EMPTY, e) && Next(EMPTY, e).findings[Id(project, fp)].status == Resolved
  {
    var sc := Scan(project, scan, [Report(fp, scanner, High)], [], {scanner}, 0);
    var id := Id(project, fp);
    var m := Stored(EMPTY, sc);
    assert sc.reports[..0] == [];
    assert UpsertAll(EMPTY, sc, []) == EMPTY;
    assert m == Upsert(EMPTY, sc, sc.reports[0]);
    assert m.findings.Keys == {id};
    assert ResolvedBy(m, sc, {}) == {id};
    assert [id][..0] == [];
    assert ResolveAll(m, sc, []) == m;
    assert ResolveAll(m, sc, [id]) == Resolve(m, sc, id);
  }

  // ---- Over whole runs --------------------------------------------------

  /** The scan's results hold a sighting of the finding. */
  ghost predicate Sees(sc: Scan, id: Id) {
    id.project == sc.project && id.fingerprint in SightedFingerprints(sc.places)
  }

  predicate Spots(p: Place, id: Id, scanner: string) { p.fingerprint == id.fingerprint && p.scanner == scanner }

  /** Event `n` of the run stored, or found stored, a sighting of `id` by `scanner`. */
  ghost predicate SawIt(es: seq<Event>, n: nat, id: Id, scanner: string) {
    n < |es| && es[n].Recorded? && id.project == es[n].sc.project
    && exists j :: 0 <= j < |es[n].sc.places| && Spots(es[n].sc.places[j], id, scanner)
  }

  ghost predicate HasSighting(t: Tables, id: Id, scanner: string) {
    exists i :: 0 <= i < |t.sightings| && t.sightings[i].finding == id && t.sightings[i].scanner == scanner
  }

  lemma NextKeepsSightings(t: Tables, e: Event)
    requires Enabled(t, e)
    ensures t.sightings <= Next(t, e).sightings
    ensures e.Recorded? ==> Next(t, e).sightings == Stored(t, e.sc).sightings
  {
    if e.Recorded? {
      StoredFacts(t, e.sc, Id("", ""));
      ResolveEffect(Stored(t, e.sc), e.sc, e.order, Id("", ""));
    }
  }

  lemma RecordedSighting(t: Tables, e: Event, id: Id, scanner: string)
    requires Enabled(t, e) && SawIt([e], 0, id, scanner)
    ensures HasSighting(Next(t, e), id, scanner)
  {
    var j :| 0 <= j < |e.sc.places| && Spots(e.sc.places[j], id, scanner);
    PlaceStored(t, e.sc, j);
    NextKeepsSightings(t, e);
    var i :| 0 <= i < |Stored(t, e.sc).sightings| && Stored(t, e.sc).sightings[i].finding == id
      && Stored(t, e.sc).sightings[i].scan == e.sc.scan && Stored(t, e.sc).sightings[i].scanner == scanner;
  }

  /** What any scan of the run saw is still on record at its end. */
  lemma {:induction false} SightingsPersist(t: Tables, es: seq<Event>, n: nat, id: Id, scanner: string)
    requires Run(t, es) && SawIt(es, n, id, scanner)
    ensures HasSighting(After(t, es), id, scanner)
    decreases |es|
  {
    var rest, last := es[..|es| - 1], es[|es| - 1];
    var m := After(t, rest);
    NextKeepsSightings(m, last);
    if n < |rest| {
      assert SawIt(rest, n, id, scanner);
      SightingsPersist(t, rest, n, id, scanner);
      var i :| 0 <= i < |m.sightings| && m.sightings[i].finding == id && m.sightings[i].scanner == scanner;
      assert Next(m, last).sightings[i] == m.sightings[i];
    } else {
      assert SawIt([last], 0, id, scanner);
      RecordedSighting(m, last, id, scanner);
    }
  }

  /**
   Over every run: when the last step resolves a finding, that step is a scan of
   its project, every scanner that ever saw the finding completed in it, and the
   scan itself did not see it.
   */
  lemma ResolvingScanHeardEveryone(t: Tables, es: seq<Event>, id: Id)
    requires Run(t, es) && es != []
    requires BecomesResolved(After(t, es[..|es| - 1]), es[|es| - 1], id)
    ensures es[|es| - 1].Recorded? && es[|es| - 1].sc.project == id.project
    ensures forall n: nat, scanner | SawIt(es, n, id, scanner) :: scanner in es[|es| - 1].sc.complete
    ensures !Sees(es[|es| - 1].sc, id)
  {
    var last, m := es[|es| - 1], After(t, es[..|es| - 1]);
    ResolvedOnlyByEntitledScan(m, last, id);
    forall n: nat, scanner | SawIt(es, n, id, scanner) ensures scanner in last.sc.complete {
      SightingsPersist(t, es, n, id, scanner);
      var ss := After(t, es).sightings;
      var i :| 0 <= i < |ss| && ss[i].finding == id && ss[i].scanner == scanner;
      assert ss[i] in Next(m, last).sightings;
    }
    ResolvedIsListed(m, last, id);
    if Sees(last.sc, id) {
      var p :| p in last.sc.places && p.fingerprint == id.fingerprint;
      var j :| 0 <= j < |last.sc.places| && last.sc.places[j] == p;
      SightedIsNotResolved(m, last, j);
      assert false;
    }
  }

  // ---- Human judgement --------------------------------------------------

  /** A status only a person sets. */
  predicate Judgement(s: Status) { s.Acknowledged? || s.InProgress? || s.FalsePositive? || s.Ignored? }

  lemma JudgementKept(t: Tables, e: Event, id: Id)
    requires Enabled(t, e) && !(e.Changed? && e.id == id)
    requires id in t.findings && Judgement(t.findings[id].status)
    ensures id in Next(t, e).findings && Next(t, e).findings[id].status == t.findings[id].status
  {
    if e.Recorded? {
      StoredFacts(t, e.sc, id);
      assert forall k | k in e.order :: k in ResolvedBy(Stored(t, e.sc), e.sc, e.looked);
      ResolveEffect(Stored(t, e.sc), e.sc, e.order, id);
    }
  }

  /** A judgement stands through any run in which nobody changes it. */
  lemma {:induction false} JudgementStands(t: Tables, es: seq<Event>, id: Id)
    requires Run(t, es) && forall n | 0 <= n < |es| :: !(es[n].Changed? && es[n].id == id)
    requires id in t.findings && Judgement(t.findings[id].status)
    ensures id in After(t, es).findings && After(t, es).findings[id].status == t.findings[id].status
    decreases |es|
  {
    if es != [] {
      JudgementStands(t, es[..|es| - 1], id);
      JudgementKept(After(t, es[..|es| - 1]), es[|es| - 1], id);
    }
  }

  // ---- Completeness is monotone -----------------------------------------

  /** The latest reports of a finding by other scans do not disagree about the page. */
  ghost predicate Unambiguous(t: Tables, sc: Scan) {
    forall id, r, s | Latest(t, sc, id, r) && Latest(t, sc, id, s) :: SamePage(t, sc, r) == SamePage(t, sc, s)
  }

  /**
   A scan with more complete scanners resolves at least as much; for a website
   scan, whichever latest report the database picks when they agree on the page.
   */
  lemma MoreCompleteResolvesMore(t: Tables, sc: Scan, complete: set<string>, looked: set<Id>, looked': set<Id>)
    requires sc.complete <= complete
    requires Limited(t, sc) ==>
      Unambiguous(t, sc) && LookedAt(t, sc, looked) && LookedAt(t, sc.(complete := complete), looked')
    ensures ResolvedBy(t, sc, looked) <= ResolvedBy(t, sc.(complete := complete), looked')
  {
    var more := sc.(complete := complete);
    forall id | id in ResolvedBy(t, sc, looked) ensures id in ResolvedBy(t, more, looked') {
      assert Candidate(t, more, id);
      if Limited(t, sc) { StillLookedAt(t, sc, complete, looked, looked', id); }
      assert Resolvable(t, more, looked', id);
    }
  }

  lemma StillLookedAt(t: Tables, sc: Scan, complete: set<string>, looked: set<Id>, looked': set<Id>, id: Id)
    requires Unambiguous(t, sc) && LookedAt(t, sc, looked) && LookedAt(t, sc.(complete := complete), looked')
    requires id in looked && Candidate(t, sc.(complete := complete), id)
    ensures id in looked'
  {
    var more := sc.(complete := complete);
    var s :| Latest(t, sc, id, s) && SamePage(t, sc, s);
    assert Latest(t, more, id, s);
    if id !in looked' {
      var r :| Latest(t, more, id, r) && !SamePage(t, more, r);
      LatestIgnoresComplete(t, sc, complete, id, r);
      assert false;
    }
  }

  lemma LatestIgnoresComplete(t: Tables, sc: Scan, complete: set<string>, id: Id, s: Sighting)
    ensures Latest(t, sc, id, s) <==> Latest(t, sc.(complete := complete), id, s)
    ensures SamePage(t, sc, s) <==> SamePage(t, sc.(complete := complete), s)
  {
  }

  lemma {:induction false} UpsertIgnoresComplete(t: Tables, sc: Scan, complete: set<string>, rs: seq<Report>)
    ensures UpsertAll(t, sc.(complete := complete), rs) == UpsertAll(t, sc, rs)
  {
    if rs != [] { UpsertIgnoresComplete(t, sc, complete, rs[..|rs| - 1]); }
  }

  lemma {:induction false} SightingsIgnoreComplete(t: Tables, sc: Scan, complete: set<string>, ps: seq<Place>)
    ensures AddSightings(t, sc.(complete := complete), ps) == AddSightings(t, sc, ps)
  {
    if ps != [] { SightingsIgnoreComplete(t, sc, complete, ps[..|ps| - 1]); }
  }

  lemma StoredIgnoresComplete(t: Tables, sc: Scan, complete: set<string>)
    ensures Stored(t, sc.(complete := complete)) == Stored(t, sc)
  {
    UpsertIgnoresComplete(t, sc, complete, sc.reports);
    SightingsIgnoreComplete(UpsertAll(t, sc, sc.reports), sc, complete, sc.places);
  }

  /**
   On steps: what a scan resolves, the same scan with more complete scanners
   resolves too, exactly unless it is of a website and the database now picks
   another of several equally recent reports.
   */
  lemma MoreCompleteStepResolvesMore(t: Tables, e: Event, e': Event, id: Id)
    requires e.Recorded? && e'.Recorded? && Enabled(t, e) && Enabled(t, e')
    requires e'.sc == e.sc.(complete := e'.sc.complete) && e.sc.complete <= e'.sc.complete
    requires BecomesResolved(t, e, id)
    ensures BecomesResolved(t, e', id) <==> (Limited(t, e.sc) ==> id in e'.looked)
    ensures Limited(t, e.sc) && Unambiguous(Stored(t, e.sc), e.sc) ==> id in e'.looked
  {
    var m := Stored(t, e.sc);
    StoredIgnoresComplete(t, e.sc, e'.sc.complete);
    ResolvedIsListed(t, e, id);
    StoredFacts(t, e.sc, id);
    assert Candidate(m, e'.sc, id);
    if Limited(t, e.sc) && Unambiguous(m, e.sc) {
      StillLookedAt(m, e.sc, e'.sc.complete, e.looked, e'.looked, id);
    }
    if Limited(t, e.sc) ==> id in e'.looked {
      StepResolves(t, e', id);
    } else if BecomesResolved(t, e', id) {
      ResolvedIsListed(t, e', id);
    }
  }

  // ---- What a step can be made to do ------------------------------------

  lemma {:induction false} Listing<T>(s: set<T>) returns (q: seq<T>)
    ensures NoDup(q) && forall x :: x in q <==> x in s
  {
    if s == {} {
      q := [];
    } else {
      var x :| x in s;
      q := Listing(s - {x});
      NoDupAppend(q, x);
      q := q + [x];
    }
  }

  /** One of the latest reports of the finding by other scans is of the page this scan looked at. */
  ghost predicate MayBeOfPage(t: Tables, sc: Scan, id: Id) {
    exists s :: Latest(t, sc, id, s) && SamePage(t, sc, s)
  }

  /** A coherent scan can always be recorded, with everything looked at that may be. */
  lemma StepExists(t: Tables, sc: Scan) returns (e: Event)
    requires Coherent(sc)
    ensures e.Recorded? && e.sc == sc && Enabled(t, e)
    ensures forall id | id in Stored(t, sc).findings && MayBeOfPage(Stored(t, sc), sc, id) :: id in e.looked
  {
    var m := Stored(t, sc);
    var looked := set id | id in m.findings && MayBeOfPage(m, sc, id);
    forall id | Candidate(m, sc, id) && id !in looked && exists s :: Latest(m, sc, id, s)
      ensures exists s :: Latest(m, sc, id, s) && !SamePage(m, sc, s)
    {
      var s :| Latest(m, sc, id, s);
    }
    assert LookedAt(m, sc, looked);
    var order := Listing(ResolvedBy(m, sc, looked));
    e := Recorded(sc, looked, order);
  }

  lemma StepResolves(t: Tables, e: Event, id: Id)
    requires e.Recorded? && Enabled(t, e) && Resolvable(Stored(t, e.sc), e.sc, e.looked, id)
    ensures id in Next(t, e).findings && Next(t, e).findings[id].status.Resolved?
  {
    assert forall k | k in e.order :: k in ResolvedBy(Stored(t, e.sc), e.sc, e.looked);
    assert id in ResolvedBy(Stored(t, e.sc), e.sc, e.looked) && id in e.order;
    ResolveEffect(Stored(t, e.sc), e.sc, e.order, id);
  }

  /** The sightings a scan adds are of what it sees. */
  lemma OtherSightingsKept(t: Tables, sc: Scan, id: Id)
    requires !Sees(sc, id)
    ensures forall s | s in Stored(t, sc).sightings && s.finding == id :: s in t.sightings
  {
    var u, m := UpsertAll(t, sc, sc.reports), Stored(t, sc);
    UpsertEffect(t, sc, sc.reports, id);
    SightingsEffect(u, sc, sc.places);
    forall i | 0 <= i < |m.sightings| && m.sightings[i].finding == id ensures m.sightings[i] in t.sightings {
      if i < |t.sightings| {
        assert m.sightings[i] == t.sightings[i];
      } else {
        PlaceIsSeen(sc, m.sightings[i]);
        assert false;
      }
    }
  }

  lemma PlaceIsSeen(sc: Scan, s: Sighting)
    requires FromPlace(s, sc, sc.places)
    ensures Sees(sc, s.finding)
  {
    var j :| 0 <= j < |sc.places| && s == SightingOf(sc, sc.places[j]);
    assert sc.places[j] in sc.places;
  }

  // ---- A project with a past --------------------------------------------

  /** An earlier scan that reported and sighted one finding, with nobody complete. */
  function PastScan(id: Id, first: string, scanner: string): Scan {
    Scan(id.project, first, [Report(id.fingerprint, scanner, High)], [Place(id.fingerprint, scanner, "", 0)], {}, 0)
  }

  /** Scan `first` reports one finding of `scanner`; then `scan`, a scan of the same target, is created. */
  function Past(id: Id, first: string, scanner: string, scan: string, row: ScanRow): seq<Event> {
    [Registered(first, row), Recorded(PastScan(id, first, scanner), {}, []), Registered(scan, row)]
  }

  /** What that past leaves in the tables: one open finding, sighted once. */
  function OneOpen(id: Id, first: string, scanner: string, scan: string, row: ScanRow): Tables {
    Tables(map[id := Row(scanner, High, Open)], [Sighting(id, first, scanner, "", 0, 0)],
      [Entry(id, None, Open, SYSTEM, FirstSeen, first)], map[first := row, scan := row])
  }

  lemma PastStep(id: Id, first: string, scanner: string, row: ScanRow)
    ensures var t, e := EMPTY.(scans := map[first := row]), Recorded(PastScan(id, first, scanner), {}, []);
      && Enabled(t, e)
      && Next(t, e) == OneOpen(id, first, scanner, first, row)
  {
    var t, sc := EMPTY.(scans := map[first := row]), PastScan(id, first, scanner);
    var m := OneOpen(id, first, scanner, first, row);
    var none: seq<Entry> := [];
    var unseen: seq<Sighting> := [];
    assert sc.reports[..0] == [] && sc.places[..0] == [];
    assert none + m.history == m.history && unseen + m.sightings == m.sightings;
    var u := Upsert(t, sc, sc.reports[0]);
    assert UpsertAll(t, sc, []) == t && UpsertAll(t, sc, sc.reports) == u;
    assert u == m.(sightings := []);
    assert AddSightings(u, sc, []) == u;
    assert Stored(t, sc) == AddSighting(u, SightingOf(sc, sc.places[0])) == m;
    assert sc.places[0] in sc.places && sc.reports[0] in sc.reports;
    assert ResolvedBy(m, sc, {}) == {};
  }

  lemma RunStep(t: Tables, es: seq<Event>, e: Event)
    requires Run(t, es) && Enabled(After(t, es), e)
    ensures Run(t, es + [e]) && After(t, es + [e]) == Next(After(t, es), e)
  {
    assert (es + [e])[..|es|] == es;
  }

  /** That past is a run from the empty tables, and leaves those tables. */
  lemma PastIsRun(id: Id, first: string, scanner: string, scan: string, row: ScanRow)
    requires first != scan
    ensures Run(EMPTY, Past(id, first, scanner, scan, row))
    ensures After(EMPTY, Past(id, first, scanner, scan, row)) == OneOpen(id, first, scanner, scan, row)
  {
    var es := Past(id, first, scanner, scan, row);
    PastStep(id, first, scanner, row);
    RunStep(EMPTY, [], es[0]);
    RunStep(EMPTY, [es[0]], es[1]);
    RunStep(EMPTY, [es[0], es[1]], es[2]);
    assert [] + [es[0]] == [es[0]] && [es[0]] + [es[1]] == [es[0], es[1]] && [es[0], es[1]] + [es[2]] == es;
    assert After(EMPTY, [es[0]]) == EMPTY.(scans := map[first := row]);
    assert OneOpen(id, first, scanner, first, row).scans == map[first := row];
  }

  /** After that past, a scan in which the reporter completed and that does not see the finding resolves it. */
  lemma PastIsResolved(id: Id, first: string, scanner: string, row: ScanRow, sc: Scan) returns (e: Event)
    requires first != sc.scan && (row.website ==> row.urlPath.Some?)
    requires Coherent(sc) && id.project == sc.project && scanner in sc.complete && !Sees(sc, id)
    ensures var t := OneOpen(id, first, scanner, sc.scan, row);
      e.Recorded? && e.sc == sc && Enabled(t, e) && BecomesResolved(t, e, id)
  {
    var t := OneOpen(id, first, scanner, sc.scan, row);
    e := StepExists(t, sc);
    var m := Stored(t, sc);
    StoredFacts(t, sc, id);
    OtherSightingsKept(t, sc, id);
    assert t.sightings[0] in m.sightings;
    if Limited(t, sc) {
      assert Latest(m, sc, id, t.sightings[0]) && SamePage(m, sc, t.sightings[0]);
      assert MayBeOfPage(m, sc, id);
    }
    forall i | 0 <= i < |m.sightings| && m.sightings[i].finding == id
      ensures m.sightings[i].scan != sc.scan && m.sightings[i].scanner in sc.complete
    {
      assert m.sightings[i] in t.sightings;
    }
    StepResolves(t, e, id);
  }

  /** No run from the empty tables comes to where recording this scan leaves a finding it reports resolved. */
  ghost predicate SparesReports(sc: Scan) {
    forall es, e: Event, id | Run(EMPTY, es) && e.Recorded? && e.sc == sc && Enabled(After(EMPTY, es), e)
      && Reports(sc.reports, sc, id) :: !Leaves(After(EMPTY, es), e, id)
  }

  ghost predicate Leaves(t: Tables, e: Event, id: Id)
    requires Enabled(t, e)
  {
    id in Next(t, e).findings && Next(t, e).findings[id].status.Resolved?
  }

  lemma NobodyCompleteSpares(t: Tables, e: Event, id: Id)
    requires e.Recorded? && Enabled(t, e) && e.sc.complete == {} && Reports(e.sc.reports, e.sc, id)
    ensures !Leaves(t, e, id)
  {
    StoredFacts(t, e.sc, id);
    assert id !in ResolvedBy(Stored(t, e.sc), e.sc, e.looked);
    ResolveEffect(Stored(t, e.sc), e.sc, e.order, id);
  }

  /** A recordable scan spares what it reports exactly when it pairs reports with sightings, or may resolve nothing. */
  lemma ReportsSparedExactly(sc: Scan)
    requires Coherent(sc)
    ensures SparesReports(sc) <==> Paired(sc) || sc.complete == {}
  {
    if Paired(sc) || sc.complete == {} {
      forall es, e: Event, id | Run(EMPTY, es) && e.Recorded? && e.sc == sc && Enabled(After(EMPTY, es), e)
        && Reports(sc.reports, sc, id)
        ensures !Leaves(After(EMPTY, es), e, id)
      {
        var t := After(EMPTY, es);
        if Paired(sc) { ReportedIsNotResolved(t, e, id); } else { NobodyCompleteSpares(t, e, id); }
      }
    } else {
      var fp :| fp in ReportedFingerprints(sc.reports) && fp !in SightedFingerprints(sc.places);
      var scanner :| scanner in sc.complete;
      var id, first, row := Id(sc.project, fp), sc.scan + "'", ScanRow(false, None, 0);
      assert |first| != |sc.scan|;
      PastIsRun(id, first, scanner, sc.scan, row);
      var e := PastIsResolved(id, first, scanner, row, sc);
      assert Reports(sc.reports, sc, id) && Leaves(After(EMPTY, Past(id, first, scanner, sc.scan, row)), e, id);
    }
  }
}
