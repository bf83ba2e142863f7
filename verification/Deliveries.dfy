/**
 Deliveries: what becomes of a scan's stored status over any number of
 deliveries of its job (internal/worker/runner.go with MarkRunning and Finalize
 in internal/scans/store/store.go), panics and failing stores included.
 */
module Deliveries {
  import opened Scans
  import opened Worker

  datatype Delivery = Delivery(job: Job, w: World)

  /** The store's guards: only a queued scan is marked running, only an unfinished one is finalized. */
  predicate Possible(s: ScanStatus, d: Delivery) {
    if Starts(d.job, d.w) then d.w.marked ==> s.Queued? else d.w.finalized ==> s.Queued? || s.Running?
  }

  /** The stored status after some deliveries. */
  function Delivered(s: ScanStatus, ds: seq<Delivery>): ScanStatus {
    if ds == [] then s else LeftIn(Delivered(s, ds[..|ds| - 1]), ds[|ds| - 1].job, ds[|ds| - 1].w)
  }

  predicate History(s: ScanStatus, ds: seq<Delivery>) {
    ds == [] || (History(s, ds[..|ds| - 1]) && Possible(Delivered(s, ds[..|ds| - 1]), ds[|ds| - 1]))
  }

  /** The delivery marks the scan running and does not end it: a panic, or a store that cannot finalize. */
  predicate Abandons(d: Delivery) { Begun(d.job, d.w) && (Panics(d.job, d.w) || !d.w.finalized) }

  /** The delivery is refused before marking, and the scan failed for it. */
  predicate Refuses(d: Delivery) { !Starts(d.job, d.w) && !Panics(d.job, d.w) && d.w.finalized }

  /** Some delivery after the first is refused. */
  ghost predicate RefusedLater(ds: seq<Delivery>) { exists k :: 1 <= k < |ds| && Refuses(ds[k]) }

  lemma RefusedLaterStep(ds: seq<Delivery>)
    requires |ds| > 1
    ensures RefusedLater(ds) <==> RefusedLater(ds[..|ds| - 1]) || Refuses(ds[|ds| - 1])
  {
    var rest := ds[..|ds| - 1];
    if k :| 1 <= k < |ds| && Refuses(ds[k]) {
      assert k < |rest| ==> Refuses(rest[k]);
    }
    if k :| 1 <= k < |rest| && Refuses(rest[k]) {
      assert Refuses(ds[k]);
    }
  }

  /**
   A scan its first delivery abandons stays running through every further
   delivery, whatever happens in it, until one is refused before marking; then
   it has failed, for good.
   */
  lemma {:induction false} AbandonedStaysRunning(ds: seq<Delivery>)
    requires ds != [] && History(Queued, ds) && Abandons(ds[0])
    ensures Delivered(Queued, ds) == if RefusedLater(ds) then Failed else Running
  {
    if |ds| > 1 {
      AbandonedStaysRunning(ds[..|ds| - 1]);
      RefusedLaterStep(ds);
    } else {
      assert Delivered(Queued, ds[..0]) == Queued;
    }
  }

  /** An ended scan keeps its status, whatever is delivered later. */
  lemma {:induction false} EndIsFinal(s: ScanStatus, ds: seq<Delivery>)
    requires s.Terminal() && History(s, ds)
    ensures Delivered(s, ds) == s
  {
    if ds != [] { EndIsFinal(s, ds[..|ds| - 1]); }
  }

  /** The delivery ends the scan: refused or marked, with no panic and a store that finalizes. */
  predicate Ends(d: Delivery) {
    !Panics(d.job, d.w) && d.w.finalized && (Starts(d.job, d.w) ==> d.w.marked)
  }

  ghost predicate SomeEnds(ds: seq<Delivery>) { exists k :: 0 <= k < |ds| && Ends(ds[k]) }

  lemma SomeEndsStep(ds: seq<Delivery>)
    requires ds != []
    ensures SomeEnds(ds) <==> SomeEnds(ds[..|ds| - 1]) || Ends(ds[|ds| - 1])
  {
    var rest := ds[..|ds| - 1];
    if k :| 0 <= k < |ds| && Ends(ds[k]) {
      assert k < |rest| ==> Ends(rest[k]);
    }
    if k :| 0 <= k < |rest| && Ends(rest[k]) {
      assert Ends(ds[k]);
    }
  }

  /** However often its job is delivered, a scan has ended exactly when one of the deliveries ended it. */
  lemma {:induction false} EndedExactly(ds: seq<Delivery>)
    requires History(Queued, ds)
    ensures Delivered(Queued, ds).Terminal() <==> SomeEnds(ds)
    ensures !SomeEnds(ds) ==> Delivered(Queued, ds).Queued? || Delivered(Queued, ds).Running?
  {
    if ds != [] {
      EndedExactly(ds[..|ds| - 1]);
      SomeEndsStep(ds);
    }
  }

  // ---- What is stored ---------------------------------------------------

  /** The findings of a job are stored exactly when its calls say so. */
  lemma StoredExactly(job: Job, w: World, calls: seq<Call>, exp: real -> real)
    requires StepsOf(calls) == StepsTaken(job, w) && Sound(calls, job, w, exp)
    ensures (exists c :: c in calls && c.RecordFindings? && c.recorded) <==> Records(job, w)
  {
    RecordingTaken(job, w);
    RecordingCalled(calls);
    assert forall c | c in calls :: SoundRecording(c, job, w);
  }

  lemma RecordingCalled(calls: seq<Call>)
    ensures Recording in StepsOf(calls) <==> exists c :: c in calls && c.RecordFindings?
  {
    if c :| c in calls && c.RecordFindings? {
      var i :| 0 <= i < |calls| && calls[i] == c;
      assert StepsOf(calls)[i] == Recording;
    }
    if Recording in StepsOf(calls) {
      var i :| 0 <= i < |calls| && StepsOf(calls)[i] == Recording;
      assert calls[i] in calls && calls[i].RecordFindings?;
    }
  }

  lemma NoRecordingHandled(n: nat)
    ensures Recording !in Handled(n)
  {
  }

  lemma RecordingTaken(job: Job, w: World)
    ensures w.findingsRecorded ==> (Recording in StepsTaken(job, w) <==> Records(job, w))
  {
    NoRecordingHandled(HandledCount(w));
    if Begun(job, w) { PanicsWhere(job, w); }
  }
}
