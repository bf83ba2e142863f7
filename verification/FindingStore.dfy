/**
 FindingStore: the store's operations on its tables (internal/findings/store.go,
 transition.go), each a transaction that takes full effect or none. Their
 contracts say which step of the Lifecycle state machine they take.
 */
module FindingStore {
  import opened Ordering
  import opened Model
  import opened Lifecycle
  import opened LifecycleTheorems

  datatype Refusal = InvalidTransition | NotAllowed | NotFound

  class Store {
    var findings: map<Id, Row>
    var sightings: seq<Sighting>
    var history: seq<Entry>
    var scans: map<string, ScanRow>

    function Contents(): Tables
      reads this
    {
      Tables(findings, sightings, history, scans)
    }

    constructor ()
      ensures Contents() == EMPTY
    {
      findings, sightings, history, scans := map[], [], [], map[];
    }

    method RegisterScan(scan: string, row: ScanRow) returns (ok: bool)
      modifies this
      ensures ok <==> Enabled(old(Contents()), Registered(scan, row))
      ensures Contents() == if ok then Next(old(Contents()), Registered(scan, row)) else old(Contents())
    {
      ok := scan !in scans;
      if ok {
        scans := scans[scan := row];
      }
    }

    method RecordTransition(id: Id, from: Option<Status>, to: Status, actor: string, reason: Reason, scan: string)
      modifies this`history
      ensures history == old(history) + [Entry(id, from, to, actor, reason, scan)]
    {
      history := history + [Entry(id, from, to, actor, reason, scan)];
    }

    /** upsertFinding: the history tells the status before the row was written. */
    method UpsertFinding(sc: Scan, r: Report) returns (id: Id)
      modifies this
      ensures id == Id(sc.project, r.fingerprint)
      ensures Contents() == Upsert(old(Contents()), sc, r)
    {
      id := Id(sc.project, r.fingerprint);
      var previous := if id in findings then Some(findings[id].status) else None;
      if id in findings {
        var row := findings[id];
        findings := findings[id := Row(row.scanner, r.severity, if row.status.Resolved? then Reopened else row.status)];
      } else {
        findings := findings[id := Row(r.scanner, r.severity, Open)];
      }
      if previous.None? {
        RecordTransition(id, None, Open, SYSTEM, FirstSeen, sc.scan);
      } else if previous.value.Resolved? {
        RecordTransition(id, Some(Resolved), Reopened, SYSTEM, CameBack, sc.scan);
      }
    }

    /** insertOccurrence: a row that breaks the unique constraint is not inserted. */
    method InsertOccurrence(s: Sighting)
      modifies this`sightings
      ensures Contents() == AddSighting(old(Contents()), s)
    {
      var i, clash := 0, false;
      while i < |sightings| && !clash
        invariant 0 <= i <= |sightings| && sightings == old(sightings)
        invariant clash <==> exists k :: 0 <= k < i && Conflicts(sightings[k], s)
      {
        clash := Conflicts(sightings[i], s);
        i := i + 1;
      }
      if !clash {
        sightings := sightings + [s];
      }
    }

    /** The most recent sighting of a finding by another scan, if any. */
    method LatestReport(sc: Scan, id: Id) returns (latest: Option<Sighting>)
      ensures latest.Some? ==> Latest(Contents(), sc, id, latest.value)
      ensures latest.None? ==> forall s :: !Latest(Contents(), sc, id, s)
    {
      latest := None;
      for i := 0 to |sightings|
        invariant latest.Some? ==> latest.value in sightings[..i] && Elsewhere(sc, id, latest.value)
        invariant forall k | 0 <= k < i && Elsewhere(sc, id, sightings[k]) ::
          latest.Some? && !Newer(sightings[k], latest.value)
      {
        var o := sightings[i];
        if Elsewhere(sc, id, o) && (latest.None? || Newer(o, latest.value)) {
          latest := Some(o);
        }
      }
      assert sightings[..|sightings|] == sightings;
    }

    predicate Elsewhere(sc: Scan, id: Id, s: Sighting)
      reads this
    {
      s.finding == id && s.scan != sc.scan && s.scan in scans
    }

    predicate Newer(a: Sighting, b: Sighting)
      requires a.scan in scans && b.scan in scans
      reads this
    {
      a.seenAt > b.seenAt || (a.seenAt == b.seenAt && scans[a.scan].createdAt > scans[b.scan].createdAt)
    }

    /** There is no latest report, or one of another page. */
    static ghost predicate NeedNotBeOfPage(t: Tables, sc: Scan, id: Id) {
      (exists s :: Latest(t, sc, id, s)) ==> exists s :: Latest(t, sc, id, s) && !SamePage(t, sc, s)
    }

    /** The picked latest report, or that there is none, decides. */
    static lemma PickDecides(t: Tables, sc: Scan, id: Id, latest: Option<Sighting>)
      requires latest.Some? ==> Latest(t, sc, id, latest.value)
      requires latest.None? ==> forall s :: !Latest(t, sc, id, s)
      ensures latest.Some? && SamePage(t, sc, latest.value) ==> MayBeOfPage(t, sc, id)
      ensures !(latest.Some? && SamePage(t, sc, latest.value)) ==> NeedNotBeOfPage(t, sc, id)
    {
    }

    /** findingsThisScanLookedAt: which findings a website scan is entitled to resolve. */
    method LookedAtBy(sc: Scan) returns (limited: bool, eligible: set<Id>)
      ensures limited == Limited(Contents(), sc)
      ensures limited ==> LookedAt(Contents(), sc, eligible)
    {
      limited, eligible := sc.scan in scans && scans[sc.scan].website, {};
      if !limited {
        return;
      }
      var current := PathOf(Contents(), sc.scan);
      if current.None? {
        return;
      }
      var todo := set id | id in findings && Candidate(Contents(), sc, id);
      ghost var all := todo;
      while todo != {}
        invariant todo <= all && eligible <= all
        invariant forall id | id in eligible :: MayBeOfPage(Contents(), sc, id)
        invariant forall id | id in all && id !in todo && id !in eligible :: NeedNotBeOfPage(Contents(), sc, id)
      {
        var id :| id in todo;
        todo := todo - {id};
        var latest := LatestReport(sc, id);
        PickDecides(Contents(), sc, id, latest);
        if latest.Some? && PathOf(Contents(), latest.value.scan) == current {
          eligible := eligible + {id};
        }
      }
    }

    /** resolveUnreported: the selected rows change at once, their history is written one by one. */
    method ResolveUnreported(sc: Scan) returns (ghost looked: set<Id>, ghost order: seq<Id>)
      modifies this
      ensures Limited(old(Contents()), sc) ==> LookedAt(old(Contents()), sc, looked)
      ensures NoDup(order) && forall id :: id in order <==> id in ResolvedBy(old(Contents()), sc, looked)
      ensures Contents() == ResolveAll(old(Contents()), sc, order)
    {
      looked, order := {}, [];
      if sc.complete == {} {
        return;
      }
      var limited, eligible := LookedAtBy(sc);
      looked := eligible;
      if limited && eligible == {} {
        return;
      }
      var todo := set id | id in findings && Resolvable(Contents(), sc, eligible, id);
      ghost var before, all := Contents(), todo;
      while todo != {}
        invariant todo <= all == ResolvedBy(before, sc, looked)
        invariant NoDup(order) && forall id :: id in order <==> id in all - todo
        invariant Contents() == ResolveAll(before, sc, order)
      {
        var id :| id in todo;
        todo := todo - {id};
        NoDupAppend(order, id);
        findings := findings[id := findings[id].(status := Resolved)];
        RecordTransition(id, None, Resolved, SYSTEM, NotReported, sc.scan);
        assert (order + [id])[..|order|] == order;
        order := order + [id];
      }
    }

    /** The sightings of a scan, each checked against the findings stored with it. */
    method StoreSightings(sc: Scan, known: set<string>) returns (ok: bool)
      modifies this
      ensures ok <==> SightedFingerprints(sc.places) <= known
      ensures ok ==> Contents() == AddSightings(old(Contents()), sc, sc.places)
    {
      for j := 0 to |sc.places|
        invariant SightedFingerprints(sc.places[..j]) <= known
        invariant Contents() == AddSightings(old(Contents()), sc, sc.places[..j])
      {
        var p := sc.places[j];
        if p.fingerprint !in known {
          assert p.fingerprint in SightedFingerprints(sc.places);
          return false;
        }
        InsertOccurrence(SightingOf(sc, p));
        assert sc.places[..j + 1] == sc.places[..j] + [p];
      }
      assert sc.places[..|sc.places|] == sc.places;
      ok := true;
    }

    method StoreFindings(sc: Scan) returns (known: set<string>)
      modifies this
      ensures known == ReportedFingerprints(sc.reports)
      ensures Contents() == UpsertAll(old(Contents()), sc, sc.reports)
    {
      known := {};
      for i := 0 to |sc.reports|
        invariant known == ReportedFingerprints(sc.reports[..i])
        invariant Contents() == UpsertAll(old(Contents()), sc, sc.reports[..i])
      {
        var id := UpsertFinding(sc, sc.reports[i]);
        known := known + {sc.reports[i].fingerprint};
        assert sc.reports[..i + 1] == sc.reports[..i] + [sc.reports[i]];
      }
      assert sc.reports[..|sc.reports|] == sc.reports;
    }

    /**
     RecordScan: one step of the state machine, or nothing when a sighting names
     a finding the scan did not report.
     */
    method RecordScan(sc: Scan) returns (ok: bool, ghost looked: set<Id>, ghost order: seq<Id>)
      modifies this
      ensures ok <==> Coherent(sc)
      ensures ok ==> Enabled(old(Contents()), Recorded(sc, looked, order))
      ensures ok ==> Contents() == Next(old(Contents()), Recorded(sc, looked, order))
      ensures !ok ==> Contents() == old(Contents())
    {
      var saved := Contents();
      looked, order := {}, [];
      var known := StoreFindings(sc);
      ok := StoreSightings(sc, known);
      if !ok {
        findings, sightings, history, scans := saved.findings, saved.sightings, saved.history, saved.scans;
        return;
      }
      assert Contents() == Stored(saved, sc);
      StoredFacts(saved, sc, Id(sc.project, ""));
      looked, order := ResolveUnreported(sc);
    }

    /** Transition: a person's change, or the reason it is refused. */
    method Transition(id: Id, request: Request, actor: string) returns (refusal: Option<Refusal>)
      modifies this
      ensures refusal.None? <==> Enabled(old(Contents()), Changed(id, request, actor))
      ensures refusal.None? ==> Contents() == Next(old(Contents()), Changed(id, request, actor))
      ensures refusal.Some? ==> Contents() == old(Contents())
      ensures refusal == Some(NotAllowed) <==> request.to.Resolved? || request.to.Reopened?
      ensures refusal == Some(NotFound) <==> ValidRequest(request) && id !in old(findings)
    {
      if !request.to.Valid() {
        return Some(InvalidTransition);
      }
      if !HumanSettable(request.to) {
        return Some(NotAllowed);
      }
      if !ValidRequest(request) {
        return Some(InvalidTransition);
      }
      if id !in findings {
        return Some(NotFound);
      }
      var from := findings[id].status;
      if from == request.to {
        return Some(InvalidTransition);
      }
      findings := findings[id := findings[id].(status := request.to)];
      RecordTransition(id, Some(from), request.to, actor, Judged(request.reason), "");
      refusal := None;
    }
  }
}
