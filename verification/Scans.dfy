/**
 Scans: the scan's state machine and the status its scanners' outcomes imply
 (internal/scans/scan.go), with the classification of one scanner's run
 (internal/scanexec/inprocess.go).
 */
module Scans {
  import opened Ordering

  datatype ScanStatus = Queued | Running | Partial | Completed | Failed | Cancelled | UnknownScanStatus(text: string)
  {
    predicate Valid() { !UnknownScanStatus? }

    function Text(): string {
      match this
      case Queued => "queued"
      case Running => "running"
      case Partial => "partial"
      case Completed => "completed"
      case Failed => "failed"
      case Cancelled => "cancelled"
      case UnknownScanStatus(text) => text
    }

    predicate Terminal() { Partial? || Completed? || Failed? || Cancelled? }

    predicate CanTransitionTo(next: ScanStatus) {
      match this
      case Queued => next.Running? || next.Cancelled? || next.Failed?
      case Running => next.Terminal()
      case _ => false
    }
  }

  /** A known status is what its text says. */
  lemma SpelledOut(s: ScanStatus)
    requires s.Valid()
    ensures s == Queued <==> s.Text() == "queued"
    ensures s == Running <==> s.Text() == "running"
    ensures s == Partial <==> s.Text() == "partial"
    ensures s == Completed <==> s.Text() == "completed"
    ensures s == Failed <==> s.Text() == "failed"
    ensures s == Cancelled <==> s.Text() == "cancelled"
  {
    assert |"queued"| == 6 && |"running"| == 7 && |"partial"| == 7 && |"completed"| == 9 && |"failed"| == 6
      && |"cancelled"| == 9;
    assert "queued"[0] != "failed"[0] && "running"[0] != "partial"[0] && "completed"[1] != "cancelled"[1];
  }

  datatype ScannerStatus = Pending | InProgress | Succeeded | Broken | Skipped

  datatype ScannerResult = ScannerResult(scanner: string, status: ScannerStatus, degradations: seq<string>)
  {
    /** Whole output: the scanner ran and nothing degraded its coverage. */
    predicate Whole() { status.Succeeded? && degradations == [] }
  }

  // ---- One scanner's run ------------------------------------------------

  datatype RunError = NoError | BinaryMissing | Timeout | OutputTooLarge | RunCancelled | OtherError

  /** What running one scanner came to: its version check, then its scan. */
  datatype Outcome = Outcome(versionMissing: bool, error: RunError, degradations: seq<string>)

  const OUTPUT_TRUNCATED: string := "output_truncated"

  function Classify(scanner: string, o: Outcome): ScannerResult {
    if o.versionMissing then ScannerResult(scanner, Skipped, [])
    else match o.error
      case NoError => ScannerResult(scanner, Succeeded, o.degradations)
      case BinaryMissing => ScannerResult(scanner, Skipped, o.degradations)
      case OutputTooLarge => ScannerResult(scanner, Broken, [OUTPUT_TRUNCATED])
      case Timeout | RunCancelled | OtherError => ScannerResult(scanner, Broken, o.degradations)
  }

  /** A result is whole exactly when the binary was there, the run had no error and nothing degraded it. */
  lemma WholeExactly(scanner: string, o: Outcome)
    ensures Classify(scanner, o).scanner == scanner
    ensures Classify(scanner, o).Whole() <==> !o.versionMissing && o.error.NoError? && o.degradations == []
  {
  }

  /**
   What a result says of the run: skipped without a binary, broken by any other
   error, succeeded without one; degradations as reported, unless the output was
   cut short or the scanner never got as far as its scan.
   */
  lemma ClassifyExactly(scanner: string, o: Outcome)
    ensures var r := Classify(scanner, o);
      && (r.status == Skipped <==> o.versionMissing || o.error == BinaryMissing)
      && (r.status == Succeeded <==> !o.versionMissing && o.error == NoError)
      && (r.status == Broken <==> !o.versionMissing && o.error !in {NoError, BinaryMissing})
      && (o.versionMissing ==> r.degradations == [])
      && (!o.versionMissing && o.error == OutputTooLarge ==> r.degradations == ["output_truncated"])
      && (!o.versionMissing && o.error != OutputTooLarge ==> r.degradations == o.degradations)
  {
  }

  // ---- Recorded results -------------------------------------------------

  function Names(results: seq<ScannerResult>): seq<string> {
    seq(|results|, i requires 0 <= i < |results| => results[i].scanner)
  }

  function IndexOf(results: seq<ScannerResult>, name: string): (i: nat)
    ensures i <= |results|
    ensures i < |results| ==> results[i].scanner == name
    ensures forall k | 0 <= k < i :: results[k].scanner != name
  {
    if results == [] || results[0].scanner == name then 0 else 1 + IndexOf(results[1..], name)
  }

  function Find(results: seq<ScannerResult>, name: string): Option<ScannerResult> {
    if IndexOf(results, name) < |results| then Some(results[IndexOf(results, name)]) else None
  }

  /** A retry supersedes the earlier entry of the same scanner. */
  function Record(results: seq<ScannerResult>, r: ScannerResult): seq<ScannerResult> {
    var i := IndexOf(results, r.scanner);
    if i < |results| then results[i := r] else results + [r]
  }

  function RecordAll(rs: seq<ScannerResult>): seq<ScannerResult> {
    if rs == [] then [] else Record(RecordAll(rs[..|rs| - 1]), rs[|rs| - 1])
  }

  /** The last report of a scanner. */
  function LastOf(rs: seq<ScannerResult>, name: string): Option<ScannerResult> {
    if rs == [] then None
    else if rs[|rs| - 1].scanner == name then Some(rs[|rs| - 1])
    else LastOf(rs[..|rs| - 1], name)
  }

  lemma IndexUnique(results: seq<ScannerResult>, name: string, i: nat)
    requires i <= |results| && (i < |results| ==> results[i].scanner == name)
    requires forall k | 0 <= k < i :: results[k].scanner != name
    ensures IndexOf(results, name) == i
  {
  }

  lemma RecordFinds(results: seq<ScannerResult>, r: ScannerResult, name: string)
    ensures Find(Record(results, r), name) == if name == r.scanner then Some(r) else Find(results, name)
  {
    var after, i := Record(results, r), IndexOf(results, name);
    if name == r.scanner {
      IndexUnique(after, name, i);
    } else if i < |results| {
      IndexUnique(after, name, i);
    } else {
      IndexUnique(after, name, |after|);
    }
  }

  lemma RecordOnce(results: seq<ScannerResult>, r: ScannerResult)
    requires NoDup(Names(results))
    ensures NoDup(Names(Record(results, r)))
  {
    var i := IndexOf(results, r.scanner);
    if i < |results| {
      assert Names(Record(results, r)) == Names(results);
    } else {
      assert r.scanner !in Names(results);
      assert Names(Record(results, r)) == Names(results) + [r.scanner];
      NoDupAppend(Names(results), r.scanner);
    }
  }

  /** Whatever was reported in whatever order, one entry per scanner is kept: its last report. */
  lemma {:induction false} LastReportIsKept(rs: seq<ScannerResult>, name: string)
    ensures NoDup(Names(RecordAll(rs)))
    ensures Find(RecordAll(rs), name) == LastOf(rs, name)
  {
    if rs != [] {
      LastReportIsKept(rs[..|rs| - 1], name);
      RecordOnce(RecordAll(rs[..|rs| - 1]), rs[|rs| - 1]);
      RecordFinds(RecordAll(rs[..|rs| - 1]), rs[|rs| - 1], name);
    }
  }

  predicate AllWhole(results: seq<ScannerResult>) { results != [] && forall r | r in results :: r.Whole() }

  predicate NoneWhole(results: seq<ScannerResult>) { forall r | r in results :: !r.Whole() }

  /** completed when everything is whole, failed when nothing is, partial between. */
  function StatusFor(results: seq<ScannerResult>): (s: ScanStatus)
    ensures s.Terminal()
  {
    if NoneWhole(results) then Failed else if AllWhole(results) then Completed else Partial
  }

  class Scan {
    var status: ScanStatus
    var results: seq<ScannerResult>
    var startedAt: Option<int>
    var completedAt: Option<int>

    constructor (status: ScanStatus)
      ensures this.status == status && results == [] && startedAt == None && completedAt == None
    {
      this.status, results, startedAt, completedAt := status, [], None, None;
    }

    /** A legal move stamps the time it starts or ends; an illegal one changes nothing. */
    method Transition(next: ScanStatus, at: int) returns (ok: bool)
      modifies this
      ensures ok <==> old(status).CanTransitionTo(next)
      ensures status == if ok then next else old(status)
      ensures startedAt == if ok && next.Running? then Some(at) else old(startedAt)
      ensures completedAt == if ok && next.Terminal() then Some(at) else old(completedAt)
      ensures results == old(results)
      ensures old(status).Terminal() ==> !ok
    {
      if !next.Valid() || !status.CanTransitionTo(next) {
        return false;
      }
      status := next;
      if next.Running? {
        startedAt := Some(at);
      } else if next.Terminal() {
        completedAt := Some(at);
      }
      ok := true;
    }

    method TerminalStatus() returns (s: ScanStatus)
      ensures s == StatusFor(results)
    {
      if results == [] {
        return Failed;
      }
      var whole, degraded := 0, 0;
      for i := 0 to |results|
        invariant whole + degraded == i
        invariant whole == 0 <==> forall k | 0 <= k < i :: !results[k].Whole()
        invariant degraded == 0 <==> forall k | 0 <= k < i :: results[k].Whole()
      {
        if results[i].Whole() {
          whole := whole + 1;
        } else {
          degraded := degraded + 1;
        }
      }
      if whole == 0 {
        assert NoneWhole(results);
        return Failed;
      }
      assert exists k :: 0 <= k < |results| && results[k].Whole();
      assert !NoneWhole(results);
      if degraded > 0 {
        var k :| 0 <= k < |results| && !results[k].Whole();
        assert results[k] in results;
        return Partial;
      }
      return Completed;
    }

    method HasCompleteCoverage() returns (c: bool)
      ensures c <==> StatusFor(results) == Completed
    {
      if results == [] {
        return false;
      }
      for i := 0 to |results|
        invariant forall k | 0 <= k < i :: results[k].Whole()
      {
        if !results[i].Whole() {
          assert results[i] in results;
          return false;
        }
      }
      assert results[0] in results;
      c := true;
    }

    /** Complete: a running scan ends in the status its results imply. */
    method Complete(at: int) returns (ok: bool)
      modifies this
      ensures ok <==> old(status).Running? || (old(status).Queued? && NoneWhole(results))
      ensures ok ==> status == StatusFor(results) && completedAt == Some(at)
      ensures !ok ==> status == old(status) && completedAt == old(completedAt)
      ensures results == old(results)
    {
      var next := TerminalStatus();
      ok := Transition(next, at);
    }

    method RecordResult(r: ScannerResult)
      modifies this`results
      ensures results == Record(old(results), r)
    {
      var i := 0;
      while i < |results|
        invariant 0 <= i <= |results| && results == old(results)
        invariant forall k | 0 <= k < i :: results[k].scanner != r.scanner
      {
        if results[i].scanner == r.scanner {
          IndexUnique(results, r.scanner, i);
          results := results[i := r];
          return;
        }
        i := i + 1;
      }
      IndexUnique(results, r.scanner, i);
      results := results + [r];
    }
  }

  // ---- Runs of the state machine ----------------------------------------

  /** The status after a sequence of requested moves, the illegal ones refused. */
  function AfterMoves(s: ScanStatus, moves: seq<ScanStatus>): ScanStatus {
    if moves == [] then s else
      var before := AfterMoves(s, moves[..|moves| - 1]);
      if before.CanTransitionTo(moves[|moves| - 1]) then moves[|moves| - 1] else before
  }

  /** A terminal status is final, and a queued scan only gets results by running. */
  lemma {:induction false} TerminalIsFinal(s: ScanStatus, moves: seq<ScanStatus>, later: seq<ScanStatus>)
    requires AfterMoves(s, moves).Terminal()
    ensures AfterMoves(s, moves + later) == AfterMoves(s, moves)
  {
    if later == [] {
      assert moves + later == moves;
    } else {
      TerminalIsFinal(s, moves, later[..|later| - 1]);
      assert (moves + later)[..|moves + later| - 1] == moves + later[..|later| - 1];
    }
  }

  lemma {:induction false} ResultsNeedRunning(moves: seq<ScanStatus>)
    requires var end := AfterMoves(Queued, moves); end.Completed? || end.Partial?
    ensures exists n :: 0 <= n < |moves| && AfterMoves(Queued, moves[..n]).Running?
  {
    var rest := moves[..|moves| - 1];
    var before := AfterMoves(Queued, rest);
    if before.Completed? || before.Partial? {
      ResultsNeedRunning(rest);
      var n :| 0 <= n < |rest| && AfterMoves(Queued, rest[..n]).Running?;
      assert rest[..n] == moves[..n];
    } else {
      assert AfterMoves(Queued, moves[..|rest|]).Running?;
    }
  }

  /** The statuses a scan goes through when moves are requested of it. */
  function Visited(s: ScanStatus, moves: seq<ScanStatus>): seq<ScanStatus> {
    if moves == [] then [] else
      var rest, next := moves[..|moves| - 1], moves[|moves| - 1];
      Visited(s, rest) + if AfterMoves(s, rest).CanTransitionTo(next) then [next] else []
  }

  /** Where a scan that went through `p` stands. */
  function At(p: seq<ScanStatus>): ScanStatus { if p == [] then Queued else p[|p| - 1] }

  /** A life: nothing yet, started, refused or cancelled before it started, or started and ended. */
  predicate Life(p: seq<ScanStatus>) {
    || p == []
    || (|p| == 1 && p[0] in [Running, Cancelled, Failed])
    || (|p| == 2 && p[0] == Running && p[1] in [Partial, Completed, Failed, Cancelled])
  }

  lemma {:induction false} VisitedIsLife(moves: seq<ScanStatus>)
    ensures Life(Visited(Queued, moves)) && AfterMoves(Queued, moves) == At(Visited(Queued, moves))
  {
    if moves != [] { VisitedIsLife(moves[..|moves| - 1]); }
  }

  lemma LifeIsVisited(p: seq<ScanStatus>)
    requires Life(p)
    ensures Visited(Queued, p) == p
  {
    if |p| == 1 {
      assert p[..0] == [] && Visited(Queued, []) == [];
    } else if |p| == 2 {
      assert p[..1] == [Running] && [Running][..0] == [];
      assert Visited(Queued, [Running]) == [Running] && AfterMoves(Queued, [Running]) == Running;
    }
  }

  /** Whatever moves are requested, a scan lives exactly one of these lives; each of them can be lived. */
  lemma LivesExactly(p: seq<ScanStatus>)
    ensures (exists moves :: Visited(Queued, moves) == p) <==> Life(p)
  {
    if moves :| Visited(Queued, moves) == p { VisitedIsLife(moves); }
    if Life(p) { LifeIsVisited(p); }
  }
}
