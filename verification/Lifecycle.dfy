/**
 Lifecycle: the findings tables as a state machine (internal/findings/store.go,
 transition.go). A transaction is one step. Scans create, reopen and resolve
 findings; people acknowledge or dismiss them.
 */
module Lifecycle {
  import opened Ordering
  import opened Text
  import opened Model

  /** One finding of one project: the unique key of the findings table. */
  datatype Id = Id(project: string, fingerprint: string)

  /** `scanner` is the first reporter; it never changes. */
  datatype Row = Row(scanner: string, severity: Severity, status: Status)

  /** A sighting. `seenAt` is the time of the transaction that stored it. */
  datatype Sighting = Sighting(finding: Id, scan: string, scanner: string, file: string, startLine: nat, seenAt: int)

  datatype Reason = FirstSeen | CameBack | NotReported | Judged(reason: string)

  /** A status change; scans that resolve leave `from` unset. */
  datatype Entry = Entry(finding: Id, from: Option<Status>, to: Status, actor: string, reason: Reason, scan: string)

  /** What the scans table says: whether it is a website scan, and the escaped path of its URL when usable. */
  datatype ScanRow = ScanRow(website: bool, urlPath: Option<string>, createdAt: int)

  datatype Tables = Tables(
    findings: map<Id, Row>, sightings: seq<Sighting>, history: seq<Entry>, scans: map<string, ScanRow>)

  /** A merged finding and a sighting, as one scan reports them. */
  datatype Report = Report(fingerprint: string, scanner: string, severity: Severity)

  datatype Place = Place(fingerprint: string, scanner: string, file: string, startLine: nat)

  /** The arguments of RecordScan, with the clock. */
  datatype Scan = Scan(
    project: string, scan: string, reports: seq<Report>, places: seq<Place>, complete: set<string>, now: int)

  datatype Request = Request(to: Status, reason: string, note: string)

  const SYSTEM: string := "system"

  // ---- RecordScan -------------------------------------------------------

  /** upsertFinding: new rows are open, resolved ones come back, others keep their status. */
  function Upsert(t: Tables, sc: Scan, r: Report): Tables {
    var id := Id(sc.project, r.fingerprint);
    if id !in t.findings then
      t.(findings := t.findings[id := Row(r.scanner, r.severity, Open)],
         history := t.history + [Entry(id, None, Open, SYSTEM, FirstSeen, sc.scan)])
    else if t.findings[id].status.Resolved? then
      t.(findings := t.findings[id := t.findings[id].(severity := r.severity, status := Reopened)],
         history := t.history + [Entry(id, Some(Resolved), Reopened, SYSTEM, CameBack, sc.scan)])
    else
      t.(findings := t.findings[id := t.findings[id].(severity := r.severity)])
  }

  function UpsertAll(t: Tables, sc: Scan, rs: seq<Report>): Tables {
    if rs == [] then t else Upsert(UpsertAll(t, sc, rs[..|rs| - 1]), sc, rs[|rs| - 1])
  }

  function SightingOf(sc: Scan, p: Place): Sighting {
    Sighting(Id(sc.project, p.fingerprint), sc.scan, p.scanner, p.file, p.startLine, sc.now)
  }

  /** The unique constraint on sightings; unset files and lines never conflict. */
  predicate Conflicts(a: Sighting, b: Sighting) {
    && a.finding == b.finding && a.scan == b.scan && a.scanner == b.scanner
    && a.file == b.file && a.file != "" && a.startLine == b.startLine && a.startLine != 0
  }

  /** insertOccurrence: a conflicting sighting is dropped. */
  function AddSighting(t: Tables, s: Sighting): Tables {
    if exists i | 0 <= i < |t.sightings| :: Conflicts(t.sightings[i], s) then t
    else t.(sightings := t.sightings + [s])
  }

  function AddSightings(t: Tables, sc: Scan, ps: seq<Place>): Tables {
    if ps == [] then t else AddSighting(AddSightings(t, sc, ps[..|ps| - 1]), SightingOf(sc, ps[|ps| - 1]))
  }

  function ReportedFingerprints(rs: seq<Report>): set<string> { set r | r in rs :: r.fingerprint }

  function SightedFingerprints(ps: seq<Place>): set<string> { set p | p in ps :: p.fingerprint }

  /** Every sighting is of a finding this scan reported. */
  predicate Coherent(sc: Scan) { SightedFingerprints(sc.places) <= ReportedFingerprints(sc.reports) }

  /** Every reported finding comes with a sighting, as the adapters' results do. */
  predicate Paired(sc: Scan) { ReportedFingerprints(sc.reports) <= SightedFingerprints(sc.places) }

  /** The website condition applies: the scan is of a website. */
  predicate Limited(t: Tables, sc: Scan) {
    sc.scan in t.scans && t.scans[sc.scan].website
  }

  function PathOf(t: Tables, scan: string): Option<string> {
    if scan !in t.scans || t.scans[scan].urlPath.None? then None
    else Some(NormalizeLocation(t.scans[scan].urlPath.value))
  }

  /** A latest sighting of a finding by another known scan; the database may pick any of several. */
  ghost predicate Latest(t: Tables, sc: Scan, id: Id, s: Sighting) {
    && s in t.sightings && s.finding == id && s.scan != sc.scan && s.scan in t.scans
    && forall o | o in t.sightings && o.finding == id && o.scan != sc.scan && o.scan in t.scans ::
         o.seenAt < s.seenAt || (o.seenAt == s.seenAt && t.scans[o.scan].createdAt <= t.scans[s.scan].createdAt)
  }

  /** The latest report the database picked is of the page this scan looked at. */
  ghost predicate SamePage(t: Tables, sc: Scan, s: Sighting) {
    PathOf(t, sc.scan).Some? && PathOf(t, s.scan) == PathOf(t, sc.scan)
  }

  /** An unsettled finding of the project whose first reporter finished. */
  predicate Candidate(t: Tables, sc: Scan, id: Id) {
    && id in t.findings && id.project == sc.project
    && t.findings[id].scanner in sc.complete
    && (t.findings[id].status.Open? || t.findings[id].status.Reopened?)
  }

  /** `looked` is a possible answer to "which findings did this website scan look at". */
  ghost predicate LookedAt(t: Tables, sc: Scan, looked: set<Id>) {
    && (forall id | id in looked :: exists s :: Latest(t, sc, id, s) && SamePage(t, sc, s))
    && (forall id | Candidate(t, sc, id) && id !in looked && exists s :: Latest(t, sc, id, s) ::
          exists s :: Latest(t, sc, id, s) && !SamePage(t, sc, s))
  }

  /** The rows the resolving statement selects. */
  predicate Resolvable(t: Tables, sc: Scan, looked: set<Id>, id: Id) {
    && Candidate(t, sc, id)
    && (forall i | 0 <= i < |t.sightings| && t.sightings[i].finding == id ::
          t.sightings[i].scan != sc.scan && t.sightings[i].scanner in sc.complete)
    && (Limited(t, sc) ==> id in looked)
  }

  function ResolvedBy(t: Tables, sc: Scan, looked: set<Id>): set<Id> {
    set id | id in t.findings && Resolvable(t, sc, looked, id)
  }

  function Resolve(t: Tables, sc: Scan, id: Id): Tables
    requires id in t.findings
  {
    t.(findings := t.findings[id := t.findings[id].(status := Resolved)],
       history := t.history + [Entry(id, None, Resolved, SYSTEM, NotReported, sc.scan)])
  }

  /** The rows in `ids` resolved, one after another. */
  function ResolveAll(t: Tables, sc: Scan, ids: seq<Id>): Tables
    requires forall id | id in ids :: id in t.findings
    ensures ResolveAll(t, sc, ids).findings.Keys == t.findings.Keys
  {
    if ids == [] then t else
      assert forall id | id in ids[..|ids| - 1] :: id in ids;
      Resolve(ResolveAll(t, sc, ids[..|ids| - 1]), sc, ids[|ids| - 1])
  }

  /** The state after the reports and sightings, before anything is resolved. */
  function Stored(t: Tables, sc: Scan): Tables { AddSightings(UpsertAll(t, sc, sc.reports), sc, sc.places) }

  // ---- Transition -------------------------------------------------------

  predicate HumanSettable(s: Status) {
    s.Acknowledged? || s.InProgress? || s.FalsePositive? || s.Ignored? || s.Open?
  }

  const MAX_NOTE_LENGTH: nat := 2000

  predicate ValidRequest(r: Request) {
    && r.to.Valid() && HumanSettable(r.to)
    && r.reason in {"false_positive", "accepted_risk", "triaged", "work_started", "reinstated"}
    && |r.note| <= MAX_NOTE_LENGTH
  }

  predicate Allowed(t: Tables, id: Id, r: Request) {
    ValidRequest(r) && id in t.findings && t.findings[id].status != r.to
  }

  function Judge(t: Tables, id: Id, r: Request, actor: string): Tables
    requires id in t.findings
  {
    t.(findings := t.findings[id := t.findings[id].(status := r.to)],
       history := t.history + [Entry(id, Some(t.findings[id].status), r.to, actor, Judged(r.reason), "")])
  }

  // ---- Runs -------------------------------------------------------------

  /** A committed transaction; one that fails leaves no trace and is no event. */
  datatype Event =
    | Recorded(sc: Scan, looked: set<Id>, order: seq<Id>)
    | Changed(id: Id, request: Request, actor: string)
    | Registered(scan: string, row: ScanRow)

  /** `order` lists the resolved rows as the database returned them. */
  ghost predicate Enabled(t: Tables, e: Event) {
    match e
    case Recorded(sc, looked, order) =>
      && Coherent(sc)
      && (Limited(t, sc) ==> LookedAt(Stored(t, sc), sc, looked))
      && NoDup(order) && (forall id :: id in order <==> id in ResolvedBy(Stored(t, sc), sc, looked))
    case Changed(id, r, actor) => Allowed(t, id, r)
    case Registered(scan, row) => scan !in t.scans
  }

  ghost function Next(t: Tables, e: Event): Tables
    requires Enabled(t, e)
  {
    match e
    case Recorded(sc, looked, order) => ResolveAll(Stored(t, sc), sc, order)
    case Changed(id, r, actor) => Judge(t, id, r, actor)
    case Registered(scan, row) => t.(scans := t.scans[scan := row])
  }

  const EMPTY: Tables := Tables(map[], [], [], map[])

  /** A run is a sequence of events each enabled where it happens. */
  ghost predicate Run(t: Tables, es: seq<Event>)
    decreases |es|, 0
  {
    es == [] || (Run(t, es[..|es| - 1]) && Enabled(After(t, es[..|es| - 1]), es[|es| - 1]))
  }

  ghost function After(t: Tables, es: seq<Event>): Tables
    requires Run(t, es)
    decreases |es|, 1
  {
    if es == [] then t else Next(After(t, es[..|es| - 1]), es[|es| - 1])
  }
}
