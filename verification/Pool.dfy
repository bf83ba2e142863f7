/**
 Pool: the worker's consume loop and its bounded pool (Run in
 internal/worker/runner.go) as a state machine over every interleaving of the
 loop, the job goroutines and shutdown.
 */
module Pool {
  import opened Ordering

  /** Where the consume loop stands. A job between dequeue and start is held by the loop alone. */
  datatype Loop = Checking | Polling | Acquiring(job: nat) | Starting(job: nat) | Draining | Returned

  /** Where one job goroutine stands: executing, then having given its slot back, then done. */
  datatype Phase = Executing | Released

  /**
   `slots` is the fill of the semaphore channel, `waiting` the wait group's
   counter. The histories list every job ever dequeued, started and dropped.
   */
  datatype State = State(
    loop: Loop, cancelled: bool, slots: nat, waiting: nat, goroutines: map<nat, Phase>,
    dequeued: nat, started: seq<nat>, dropped: seq<nat>)

  datatype Event =
    | Cancel
    | CheckContext
    | DequeueNothing
    | Dequeue
    | DequeueCancelled
    | LeaveLoop
    | Acquire
    | GiveUp
    | Spawn
    | Release(goroutine: nat)
    | Done(goroutine: nat)
    | Return

  const INITIAL: State := State(Checking, false, 0, 0, map[], 0, [], [])

  /** When a step is possible, with room for `concurrency` jobs. Jobs are numbered as they are dequeued. */
  predicate Enabled(s: State, e: Event, concurrency: nat) {
    match e
    case Cancel => !s.cancelled
    case CheckContext => s.loop.Checking? && !s.cancelled
    case LeaveLoop => s.loop.Checking? && s.cancelled
    // Cancellation may arrive during a poll, and the poll may still deliver a job.
    case DequeueNothing => s.loop.Polling?
    case Dequeue => s.loop.Polling?
    case DequeueCancelled => s.loop.Polling? && s.cancelled
    case Acquire => s.loop.Acquiring? && s.slots < concurrency
    case GiveUp => s.loop.Acquiring? && s.cancelled
    case Spawn => s.loop.Starting?
    // A goroutine may finish or panic; either way its deferred calls run, slot first.
    case Release(g) => g in s.goroutines && s.goroutines[g].Executing? && s.slots > 0
    case Done(g) => g in s.goroutines && s.goroutines[g].Released? && s.waiting > 0
    case Return => s.loop.Draining? && s.waiting == 0
  }

  function Next(s: State, e: Event, concurrency: nat): State
    requires Enabled(s, e, concurrency)
  {
    match e
    case Cancel => s.(cancelled := true)
    case CheckContext => s.(loop := Polling)
    case DequeueNothing => s.(loop := Checking)
    case Dequeue => s.(loop := Acquiring(s.dequeued), dequeued := s.dequeued + 1)
    case DequeueCancelled => s.(loop := Draining)
    case LeaveLoop => s.(loop := Draining)
    case Acquire => s.(loop := Starting(s.loop.job), slots := s.slots + 1)
    case GiveUp => s.(loop := Draining, dropped := s.dropped + [s.loop.job])
    case Spawn => s.(loop := Checking, waiting := s.waiting + 1, goroutines := s.goroutines[s.loop.job := Executing],
                     started := s.started + [s.loop.job])
    case Release(g) => s.(slots := s.slots - 1, goroutines := s.goroutines[g := Released])
    case Done(g) => s.(waiting := s.waiting - 1, goroutines := s.goroutines - {g})
    case Return => s.(loop := Returned)
  }

  predicate Run(es: seq<Event>, concurrency: nat)
    decreases |es|, 0
  {
    es == [] || (Run(es[..|es| - 1], concurrency)
      && Enabled(After(es[..|es| - 1], concurrency), es[|es| - 1], concurrency))
  }

  function After(es: seq<Event>, concurrency: nat): State
    requires Run(es, concurrency)
    decreases |es|, 1
  {
    if es == [] then INITIAL else Next(After(es[..|es| - 1], concurrency), es[|es| - 1], concurrency)
  }

  /** The goroutines executing a job right now. */
  function Busy(s: State): set<nat> { set g | g in s.goroutines && s.goroutines[g].Executing? }

  predicate Holds(loop: Loop, job: nat) { (loop.Acquiring? || loop.Starting?) && loop.job == job }

  /** The semaphore and the wait group agree with the goroutines there are. */
  ghost predicate Counted(s: State, concurrency: nat) {
    && s.slots == |Busy(s)| + (if s.loop.Starting? then 1 else 0)
    && s.slots <= concurrency
    && s.waiting == |s.goroutines|
  }

  /** Every job dequeued is in one place: started, dropped, or in the loop's hands. */
  ghost predicate Placed(s: State) {
    && NoDup(s.started) && |s.dropped| <= 1
    && (forall job: nat :: job < s.dequeued <==> job in s.started || job in s.dropped || Holds(s.loop, job))
    && (forall job: nat | job in s.started :: job !in s.dropped && !Holds(s.loop, job))
    && (forall g | g in s.goroutines :: g in s.started)
  }

  ghost predicate ShutDown(s: State) {
    && (s.dropped != [] ==> s.loop.Draining? || s.loop.Returned?)
    && (s.loop.Draining? || s.loop.Returned? ==> s.cancelled)
    && (s.loop.Returned? ==> s.goroutines == map[])
  }

  ghost predicate Inv(s: State, concurrency: nat) { Counted(s, concurrency) && Placed(s) && ShutDown(s) }

  // ---- Every step keeps the invariant -----------------------------------

  lemma SpawnBusy(s: State, g: nat)
    requires g !in s.goroutines
    ensures |Busy(s.(goroutines := s.goroutines[g := Executing]))| == |Busy(s)| + 1
    ensures |s.goroutines[g := Executing]| == |s.goroutines| + 1
  {
    assert Busy(s.(goroutines := s.goroutines[g := Executing])) == Busy(s) + {g};
    assert s.goroutines[g := Executing].Keys == s.goroutines.Keys + {g};
    assert |s.goroutines.Keys| == |s.goroutines|;
  }

  lemma ReleaseBusy(s: State, g: nat)
    requires g in s.goroutines && s.goroutines[g].Executing?
    ensures |Busy(s.(goroutines := s.goroutines[g := Released]))| == |Busy(s)| - 1
    ensures |s.goroutines[g := Released]| == |s.goroutines|
  {
    assert Busy(s.(goroutines := s.goroutines[g := Released])) == Busy(s) - {g};
    assert s.goroutines[g := Released].Keys == s.goroutines.Keys;
    assert |s.goroutines[g := Released].Keys| == |s.goroutines[g := Released]| && |s.goroutines.Keys| == |s.goroutines|;
  }

  lemma DoneBusy(s: State, g: nat)
    requires g in s.goroutines && s.goroutines[g].Released?
    ensures Busy(s.(goroutines := s.goroutines - {g})) == Busy(s)
    ensures |s.goroutines - {g}| == |s.goroutines| - 1
  {
    assert (s.goroutines - {g}).Keys == s.goroutines.Keys - {g};
    assert |(s.goroutines - {g}).Keys| == |s.goroutines - {g}| && |s.goroutines.Keys| == |s.goroutines|;
  }

  lemma CountedKept(s: State, e: Event, concurrency: nat)
    requires Inv(s, concurrency) && Enabled(s, e, concurrency)
    ensures Counted(Next(s, e, concurrency), concurrency)
  {
    match e
    case Spawn =>
      if s.loop.job in s.goroutines { assert s.loop.job in s.started && Holds(s.loop, s.loop.job); }
      SpawnBusy(s, s.loop.job);
    case Release(g) => ReleaseBusy(s, g);
    case Done(g) => DoneBusy(s, g);
    case _ => assert Busy(Next(s, e, concurrency)) == Busy(s);
  }

  lemma PlacedKept(s: State, e: Event, concurrency: nat)
    requires Inv(s, concurrency) && Enabled(s, e, concurrency)
    ensures Placed(Next(s, e, concurrency))
  {
    match e
    case Spawn =>
      assert Holds(s.loop, s.loop.job);
      assert s.loop.job !in s.started;
      NoDupAppend(s.started, s.loop.job);
    case _ =>
  }

  lemma ShutDownKept(s: State, e: Event, concurrency: nat)
    requires Inv(s, concurrency) && Enabled(s, e, concurrency)
    ensures ShutDown(Next(s, e, concurrency))
  {
    if e.Return? { assert |s.goroutines.Keys| == |s.goroutines|; }
  }

  lemma {:induction false} InvReached(es: seq<Event>, concurrency: nat)
    requires Run(es, concurrency)
    ensures Inv(After(es, concurrency), concurrency)
  {
    if es == [] {
      assert Busy(INITIAL) == {};
    } else {
      InvReached(es[..|es| - 1], concurrency);
      var s := After(es[..|es| - 1], concurrency);
      CountedKept(s, es[|es| - 1], concurrency);
      PlacedKept(s, es[|es| - 1], concurrency);
      ShutDownKept(s, es[|es| - 1], concurrency);
    }
  }

  /**
   In every interleaving: at most `concurrency` jobs execute, every dequeued job
   is started once, dropped, or in the loop's hands, at most one is ever
   dropped and only by shutdown, and Run has returned only if no job is left.
   */
  lemma PoolIsSafe(es: seq<Event>, concurrency: nat)
    requires Run(es, concurrency)
    ensures var s := After(es, concurrency);
      && |Busy(s)| <= concurrency
      && NoDup(s.started)
      && (forall job: nat | job < s.dequeued :: job in s.started || job in s.dropped || Holds(s.loop, job))
      && (forall job: nat | job in s.started :: job !in s.dropped && job < s.dequeued)
      && |s.dropped| <= 1 && (s.dropped != [] ==> s.cancelled)
      && (s.loop.Returned? ==> s.goroutines == map[] && s.cancelled && |s.started| + |s.dropped| == s.dequeued)
  {
    var s := After(es, concurrency);
    InvReached(es, concurrency);
    if s.loop.Returned? { AllAccountedFor(s); }
  }

  function Elements(s: seq<nat>): set<nat> { set x | x in s }

  function UpTo(n: nat): (r: set<nat>)
    ensures |r| == n && forall k: nat :: k in r <==> k < n
  {
    if n == 0 then {} else UpTo(n - 1) + {n - 1}
  }

  lemma AllAccountedFor(s: State)
    requires Placed(s) && s.loop.Returned?
    ensures |s.started| + |s.dropped| == s.dequeued
  {
    var a, b := Elements(s.started), Elements(s.dropped);
    ElementsSize(s.started);
    ElementsSize(s.dropped);
    assert a !! b;
    forall k: nat ensures k in a + b <==> k in UpTo(s.dequeued) { assert k in a <==> k in s.started; }
    assert a + b == UpTo(s.dequeued);
  }

  lemma {:induction false} ElementsSize(s: seq<nat>)
    requires NoDup(s)
    ensures |Elements(s)| == |s|
  {
    if s != [] {
      var rest, x := s[..|s| - 1], s[|s| - 1];
      ElementsSize(rest);
      assert s == rest + [x];
      assert Elements(s) == Elements(rest) + {x};
    }
  }

  /** The pool cannot lock up: a goroutine always finishes its deferred calls, and a drained loop returns. */
  lemma NoDeadlock(es: seq<Event>, concurrency: nat)
    requires Run(es, concurrency) && !After(es, concurrency).loop.Returned?
    requires concurrency > 0
    ensures exists e :: Enabled(After(es, concurrency), e, concurrency) && !e.Cancel? && !e.DequeueNothing?
  {
    var s := After(es, concurrency);
    InvReached(es, concurrency);
    match s.loop
    case Checking => assert Enabled(s, if s.cancelled then LeaveLoop else CheckContext, concurrency);
    case Polling => assert Enabled(s, Dequeue, concurrency);
    case Starting(job) => assert Enabled(s, Spawn, concurrency);
    case Acquiring(job) =>
      if s.slots < concurrency {
        assert Enabled(s, Acquire, concurrency);
      } else {
        assert Busy(s) != {};
        var g :| g in Busy(s);
        assert Enabled(s, Release(g), concurrency);
      }
    case Draining =>
      if s.waiting == 0 {
        assert Enabled(s, Return, concurrency);
      } else {
        assert s.goroutines != map[];
        var g :| g in s.goroutines;
        if s.goroutines[g].Executing? {
          assert g in Busy(s);
          assert Enabled(s, Release(g), concurrency);
        } else {
          assert Enabled(s, Done(g), concurrency);
        }
      }
    case Returned => assert false;
  }

  // ---- Shutdown ---------------------------------------------------------

  /** A poll or a job in the loop's hands may still lead to one start. */
  function Pending(loop: Loop): nat { if loop.Polling? || loop.Acquiring? || loop.Starting? then 1 else 0 }

  lemma {:induction false} ShutdownBound(es: seq<Event>, later: seq<Event>, concurrency: nat)
    requires Run(es + later, concurrency) && Run(es, concurrency) && After(es, concurrency).cancelled
    ensures var s, t := After(es, concurrency), After(es + later, concurrency);
      t.cancelled && |t.started| + Pending(t.loop) <= |s.started| + Pending(s.loop)
  {
    if later == [] {
      assert es + later == es;
    } else {
      assert (es + later)[..|es + later| - 1] == es + later[..|later| - 1];
      ShutdownBound(es, later[..|later| - 1], concurrency);
    }
  }

  /** Once shutdown has begun, at most one more job starts. */
  lemma OneStartAfterShutdown(es: seq<Event>, later: seq<Event>, concurrency: nat)
    requires Run(es + later, concurrency) && Run(es, concurrency) && After(es, concurrency).cancelled
    ensures |After(es + later, concurrency).started| <= |After(es, concurrency).started| + 1
  {
    ShutdownBound(es, later, concurrency);
  }
}
