/**
 Kube: the executor that runs a scan as one or two Kubernetes Jobs
 (internal/scanexec/kube/executor.go, plan.go), as the sequence of requests it
 makes for every sequence of answers the API server may give.
 */
module Kube {
  import opened Ordering

  datatype Kind = Repository | Filesystem | Image | Endpoint

  datatype Phase = Fetch | Scan

  /** The target, and for each selected adapter the kinds it needs the network for. */
  datatype Request = Request(kind: Kind, networkKinds: seq<set<Kind>>)

  datatype Plan = Plan(phases: seq<Phase>, egress: map<Phase, bool>)

  /** A repository is handed to the adapters as a checkout. */
  function EffectiveKind(k: Kind): Kind { if k.Repository? then Filesystem else k }

  predicate AdaptersNeedNetwork(req: Request) {
    exists i :: 0 <= i < |req.networkKinds| && EffectiveKind(req.kind) in req.networkKinds[i]
  }

  function PlanFor(req: Request): (p: Plan)
    ensures p.phases != [] && p.phases[|p.phases| - 1] == Scan
    ensures forall phase | phase in p.phases :: phase in p.egress
    ensures Fetch in p.phases <==> req.kind.Repository?
    ensures Fetch in p.phases ==> p.phases[0] == Fetch && p.egress[Fetch]
    ensures p.egress[Scan] <==> !req.kind.Repository? && AdaptersNeedNetwork(req)
  {
    if req.kind.Repository? then Plan([Fetch, Scan], map[Fetch := true, Scan := false])
    else Plan([Scan], map[Scan := AdaptersNeedNetwork(req)])
  }

  // ---- Requests and answers ---------------------------------------------

  datatype Answer = Created | AlreadyExists | Refused

  /** A Job as read back: gone, unreadable, or with its two conditions. */
  datatype Reading = Missing | Unreadable | Conditions(complete: bool, failed: bool)

  /** One turn of the polling loop: what was read, and whether the context had ended by the next tick. */
  datatype Poll = Poll(reading: Reading, contextEnded: bool)

  /** The answers of one phase; once the polls run out the context has ended. */
  datatype PhaseAnswers = PhaseAnswers(policy: Answer, job: Answer, polls: seq<Poll>)

  datatype Answers = Answers(session: bool, volume: Answer, fetch: PhaseAnswers, scan: PhaseAnswers)
  {
    function Of(phase: Phase): PhaseAnswers { if phase.Fetch? then fetch else scan }
  }

  datatype Act =
    | OpenSession(ok: bool)
    | CreateVolume(answer: Answer)
    | CreatePolicy(phase: Phase, egress: bool, answer: Answer)
    | CreateJob(phase: Phase, egress: bool, answer: Answer)
    | ReadJob(phase: Phase, reading: Reading)
    | DeleteJobs
    | DeletePolicies
    | DeleteVolume
    | CloseSession

  datatype Failure = WorkspaceUnavailable | FetchFailed | AllScannersDegraded

  /** The Job is read complete before anything goes wrong. */
  predicate Finishes(polls: seq<Poll>) {
    && polls != [] && polls[0].reading.Conditions?
    && (polls[0].reading.complete || (!polls[0].reading.failed && !polls[0].contextEnded && Finishes(polls[1..])))
  }

  predicate PhaseSucceeds(a: PhaseAnswers) { !a.policy.Refused? && !a.job.Refused? && Finishes(a.polls) }

  /** The reading decides nothing and there is time for another. */
  predicate Undecided(p: Poll) { p.reading == Conditions(false, false) && !p.contextEnded }

  // ---- What is allowed when ---------------------------------------------

  predicate VolumeExists(before: seq<Act>) { CreateVolume(Created) in before || CreateVolume(AlreadyExists) in before }

  /** A policy asked for with this egress is there; one that already existed need not have it. */
  predicate PolicyExists(before: seq<Act>, phase: Phase, egress: bool) {
    CreatePolicy(phase, egress, Created) in before || CreatePolicy(phase, egress, AlreadyExists) in before
  }

  predicate JobExists(before: seq<Act>, phase: Phase, egress: bool) {
    CreateJob(phase, egress, Created) in before || CreateJob(phase, egress, AlreadyExists) in before
  }

  predicate SeenComplete(before: seq<Act>, phase: Phase) {
    ReadJob(phase, Conditions(true, false)) in before || ReadJob(phase, Conditions(true, true)) in before
  }

  predicate CleaningUp(before: seq<Act>) {
    DeleteJobs in before || DeletePolicies in before || DeleteVolume in before || CloseSession in before
  }

  /** A repository's scan phase has no egress and waits for the fetch to be seen complete. */
  predicate PhaseMayStart(req: Request, before: seq<Act>, phase: Phase, egress: bool) {
    && phase in PlanFor(req).phases && egress == PlanFor(req).egress[phase]
    && (req.kind.Repository? && phase.Scan? ==> SeenComplete(before, Fetch) && !egress)
    && OpenSession(true) in before && VolumeExists(before) && !CleaningUp(before)
  }

  /** Something the executor asked for was refused. */
  predicate Refusal(x: Act) {
    match x
    case OpenSession(ok) => !ok
    case CreateVolume(answer) => answer.Refused?
    case CreatePolicy(_, _, answer) => answer.Refused?
    case CreateJob(_, _, answer) => answer.Refused?
    case _ => false
  }

  predicate SomeRefusal(trace: seq<Act>) { exists i :: 0 <= i < |trace| && Refusal(trace[i]) }

  /** The fetch Job was read failed, and not complete. */
  predicate FetchReadFailed(trace: seq<Act>) { ReadJob(Fetch, Conditions(false, true)) in trace }

  /** What must have happened before a request is made. */
  predicate Allowed(req: Request, before: seq<Act>, x: Act) {
    match x
    case OpenSession(_) => before == []
    case CreateVolume(_) => OpenSession(true) in before && !CleaningUp(before)
    case CreatePolicy(phase, egress, _) => PhaseMayStart(req, before, phase, egress)
    case CreateJob(phase, egress, _) => PhaseMayStart(req, before, phase, egress) && PolicyExists(before, phase, egress)
    case ReadJob(phase, _) => JobExists(before, phase, true) || JobExists(before, phase, false)
    case DeleteJobs => OpenSession(true) in before && DeleteJobs !in before
    case DeletePolicies => DeleteJobs in before && DeletePolicies !in before
    case DeleteVolume => DeletePolicies in before && DeleteVolume !in before
    case CloseSession => DeleteVolume in before && CloseSession !in before
  }

  /** The Job was read complete. */
  predicate Completes(x: Act) { x.ReadJob? && x.reading.Conditions? && x.reading.complete }

  /** Every request was allowed where it was made. */
  predicate Lawful(req: Request, trace: seq<Act>) {
    forall i | 0 <= i < |trace| :: AllowedAt(req, trace, i)
  }

  predicate AllowedAt(req: Request, trace: seq<Act>, i: nat)
    requires i < |trace|
  {
    Allowed(req, trace[..i], trace[i])
  }

  lemma LawfulAppend(req: Request, trace: seq<Act>, x: Act)
    requires Lawful(req, trace) && Allowed(req, trace, x)
    ensures Lawful(req, trace + [x])
  {
    var t := trace + [x];
    forall i | 0 <= i < |t| ensures AllowedAt(req, t, i) {
      assert t[..i] == trace[..i];
      if i == |trace| { assert trace[..i] == trace; } else { assert AllowedAt(req, trace, i); }
    }
  }

  // ---- The executor -----------------------------------------------------

  /** One request, made where it is allowed. */
  method Send(req: Request, before: seq<Act>, x: Act) returns (trace: seq<Act>)
    requires Lawful(req, before) && Allowed(req, before, x)
    ensures Lawful(req, trace) && trace == before + [x]
    ensures forall y :: y in trace <==> y in before || y == x
  {
    LawfulAppend(req, before, x);
    trace := before + [x];
  }

  /** The answers read in turn, up to and including the first that decides, or all of them. */
  predicate ReadsUntilDecided(readings: seq<Act>, phase: Phase, polls: seq<Poll>) {
    && |readings| <= |polls|
    && (forall i | 0 <= i < |readings| :: readings[i] == ReadJob(phase, polls[i].reading))
    && (forall i | 0 <= i < |readings| - 1 :: Undecided(polls[i]))
    && (|readings| < |polls| ==> readings != [] && !Undecided(polls[|readings| - 1]))
  }

  lemma {:induction false} FinishesAtLast(polls: seq<Poll>, n: nat)
    requires n < |polls| && forall i | 0 <= i < n :: Undecided(polls[i])
    ensures Finishes(polls) <==> Finishes(polls[n..])
  {
    if n > 0 {
      FinishesAtLast(polls[1..], n - 1);
      assert polls[1..][n - 1..] == polls[n..];
    } else {
      assert polls[n..] == polls;
    }
  }

  lemma {:induction false} UndecidedNeverFinishes(polls: seq<Poll>)
    requires forall p | p in polls :: Undecided(p)
    ensures !Finishes(polls)
  {
    if polls != [] {
      assert Undecided(polls[0]);
      UndecidedNeverFinishes(polls[1..]);
    }
  }

  /** Only the last of the readings can decide. */
  lemma DecidedBy(readings: seq<Act>, phase: Phase, polls: seq<Poll>)
    requires ReadsUntilDecided(readings, phase, polls)
    ensures forall x | x in readings :: x.ReadJob? && x.phase == phase
    ensures Finishes(polls) <==> readings != [] && Completes(readings[|readings| - 1])
    ensures forall x | x in readings :: Completes(x) ==> x == readings[|readings| - 1]
    ensures FetchReadFailed(readings) <==>
      readings != [] && readings[|readings| - 1] == ReadJob(Fetch, Conditions(false, true))
  {
    if readings == [] {
      return;
    }
    var n := |readings| - 1;
    FinishesAtLast(polls, n);
    assert forall i | 0 <= i < n :: readings[i] == ReadJob(phase, Conditions(false, false));
    if |readings| == |polls| && Undecided(polls[n]) { UndecidedNeverFinishes(polls); }
  }

  lemma ReadAgain(req: Request, before: seq<Act>, readings: seq<Act>, phase: Phase, reading: Reading)
    requires Lawful(req, before + readings) && !CleaningUp(before + readings)
    requires JobExists(before, phase, true) || JobExists(before, phase, false)
    ensures Lawful(req, before + (readings + [ReadJob(phase, reading)]))
    ensures !CleaningUp(before + (readings + [ReadJob(phase, reading)]))
  {
    LawfulAppend(req, before + readings, ReadJob(phase, reading));
    assert before + (readings + [ReadJob(phase, reading)]) == before + readings + [ReadJob(phase, reading)];
  }

  /** wait: polls until the Job is complete, failed or gone, or the context ends. */
  method Wait(req: Request, phase: Phase, polls: seq<Poll>, before: seq<Act>)
    returns (trace: seq<Act>, failure: Option<Failure>)
    requires Lawful(req, before) && (JobExists(before, phase, true) || JobExists(before, phase, false))
    requires !CleaningUp(before)
    ensures Lawful(req, trace) && before <= trace && !CleaningUp(trace)
    ensures forall x | x in trace[|before|..] :: x.ReadJob? && x.phase == phase
    ensures ReadsUntilDecided(trace[|before|..], phase, polls)
    ensures failure.None? <==> Finishes(polls)
    ensures failure.None? ==> SeenComplete(trace, phase)
    ensures failure.Some? ==> forall x | x in trace[|before|..] :: !(x.reading.Conditions? && x.reading.complete)
    ensures failure == Some(FetchFailed) <==> FetchReadFailed(trace[|before|..])
    ensures failure != Some(WorkspaceUnavailable)
  {
    trace := before;
    ghost var readings: seq<Act> := [];
    for i := 0 to |polls|
      invariant trace == before + readings && |readings| == i && Lawful(req, trace) && !CleaningUp(trace)
      invariant ReadsUntilDecided(readings, phase, polls[..i]) && forall k | 0 <= k < i :: Undecided(polls[k])
    {
      var reading := polls[i].reading;
      ReadAgain(req, before, readings, phase, reading);
      trace, readings := trace + [ReadJob(phase, reading)], readings + [ReadJob(phase, reading)];
      assert trace == before + readings && trace[|before|..] == readings;
      if !Undecided(polls[i]) { DecidedBy(readings, phase, polls); }
      if !reading.Conditions? {
        return trace, Some(AllScannersDegraded);
      }
      if reading.complete {
        return trace, None;
      }
      if reading.failed {
        return trace, Some(if phase.Fetch? then FetchFailed else AllScannersDegraded);
      }
      if polls[i].contextEnded {
        return trace, Some(AllScannersDegraded);
      }
    }
    assert trace[|before|..] == readings;
    DecidedBy(readings, phase, polls);
    failure := Some(AllScannersDegraded);
  }

  /** The policy, then the Job unless the policy was refused. */
  method StartPhase(req: Request, phase: Phase, egress: bool, answers: PhaseAnswers, before: seq<Act>)
    returns (trace: seq<Act>, started: bool)
    requires Lawful(req, before) && PhaseMayStart(req, before, phase, egress)
    ensures Lawful(req, trace) && !CleaningUp(trace)
    ensures started <==> !answers.policy.Refused? && !answers.job.Refused?
    ensures trace == before + if answers.policy.Refused? then [CreatePolicy(phase, egress, answers.policy)]
      else [CreatePolicy(phase, egress, answers.policy), CreateJob(phase, egress, answers.job)]
  {
    trace := Send(req, before, CreatePolicy(phase, egress, answers.policy));
    if answers.policy.Refused? {
      return trace, false;
    }
    trace := Send(req, trace, CreateJob(phase, egress, answers.job));
    assert trace == before + [CreatePolicy(phase, egress, answers.policy), CreateJob(phase, egress, answers.job)];
    started := !answers.job.Refused?;
  }

  /** What a phase did: the policy, the Job unless the policy was refused, the readings unless either was. */
  ghost predicate PhaseActs(acts: seq<Act>, phase: Phase, egress: bool, answers: PhaseAnswers) {
    && acts != [] && acts[0] == CreatePolicy(phase, egress, answers.policy)
    && (answers.policy.Refused? ==> |acts| == 1)
    && (!answers.policy.Refused? ==> |acts| >= 2 && acts[1] == CreateJob(phase, egress, answers.job))
    && (!answers.policy.Refused? && answers.job.Refused? ==> |acts| == 2)
    && (!answers.policy.Refused? && !answers.job.Refused? ==> ReadsUntilDecided(acts[2..], phase, answers.polls))
  }

  /** In a phase that started nothing was refused, and the fetch was read failed by its readings. */
  lemma ReadingsDecide(acts: seq<Act>, phase: Phase, egress: bool, answers: PhaseAnswers)
    requires PhaseActs(acts, phase, egress, answers)
    ensures SomeRefusal(acts) <==> answers.policy.Refused? || answers.job.Refused?
    ensures !SomeRefusal(acts) ==> (FetchReadFailed(acts) <==> FetchReadFailed(acts[2..]))
    ensures SomeRefusal(acts) ==> !FetchReadFailed(acts)
  {
    if answers.policy.Refused? {
      assert Refusal(acts[0]);
    } else if answers.job.Refused? {
      assert Refusal(acts[1]);
    } else {
      assert acts == [acts[0], acts[1]] + acts[2..];
      assert forall i | 2 <= i < |acts| :: acts[i] == acts[2..][i - 2];
    }
  }

  /** runPhase: the policy, then the Job, then the wait. */
  method RunPhase(req: Request, phase: Phase, egress: bool, answers: PhaseAnswers, before: seq<Act>)
    returns (trace: seq<Act>, failure: Option<Failure>)
    requires Lawful(req, before) && PhaseMayStart(req, before, phase, egress)
    ensures Lawful(req, trace) && before <= trace && !CleaningUp(trace)
    ensures PhaseActs(trace[|before|..], phase, egress, answers)
    ensures failure.None? <==> PhaseSucceeds(answers)
    ensures failure.None? ==> SeenComplete(trace, phase)
    ensures failure == Some(FetchFailed) <==> FetchReadFailed(trace[|before|..])
    ensures failure == Some(WorkspaceUnavailable) <==> SomeRefusal(trace[|before|..])
  {
    var ok;
    trace, ok := StartPhase(req, phase, egress, answers, before);
    if !ok {
      ReadingsDecide(trace[|before|..], phase, egress, answers);
      return trace, Some(WorkspaceUnavailable);
    }
    ghost var started := trace;
    assert started[|before| + 1] == CreateJob(phase, egress, answers.job);
    trace, failure := Wait(req, phase, answers.polls, trace);
    PhaseRan(before, started, trace, phase, egress, answers);
  }

  lemma PhaseRan(
    before: seq<Act>, started: seq<Act>, trace: seq<Act>, phase: Phase, egress: bool, answers: PhaseAnswers)
    requires !answers.policy.Refused? && !answers.job.Refused?
    requires started == before + [CreatePolicy(phase, egress, answers.policy), CreateJob(phase, egress, answers.job)]
    requires started <= trace && ReadsUntilDecided(trace[|started|..], phase, answers.polls)
    ensures before <= trace && PhaseActs(trace[|before|..], phase, egress, answers)
    ensures !SomeRefusal(trace[|before|..])
    ensures FetchReadFailed(trace[|before|..]) <==> FetchReadFailed(trace[|started|..])
  {
    assert trace == started + trace[|started|..];
    assert trace[|before|..][2..] == trace[|started|..];
    ReadingsDecide(trace[|before|..], phase, egress, answers);
  }

  /** cleanup and the deferred close, whatever happened before. */
  method CleanUp(req: Request, before: seq<Act>) returns (trace: seq<Act>)
    requires Lawful(req, before) && OpenSession(true) in before && !CleaningUp(before)
    ensures Lawful(req, trace) && trace == before + [DeleteJobs, DeletePolicies, DeleteVolume, CloseSession]
  {
    trace := Send(req, before, DeleteJobs);
    trace := Send(req, trace, DeletePolicies);
    trace := Send(req, trace, DeleteVolume);
    trace := Send(req, trace, CloseSession);
    assert trace == before + [DeleteJobs, DeletePolicies, DeleteVolume, CloseSession];
  }

  /** The volume and the phases in order, up to the first failure. */
  method RunPhases(req: Request, answers: Answers, before: seq<Act>) returns (trace: seq<Act>, failure: Option<Failure>)
    requires before == [OpenSession(true)] && Lawful(req, before)
    ensures Lawful(req, trace) && before + [CreateVolume(answers.volume)] <= trace && !CleaningUp(trace)
    ensures failure.None? <==>
      !answers.volume.Refused? && forall phase | phase in PlanFor(req).phases :: PhaseSucceeds(answers.Of(phase))
    ensures failure.None? ==> forall phase | phase in PlanFor(req).phases :: SeenComplete(trace, phase)
    ensures failure == Some(FetchFailed) <==> FetchReadFailed(trace)
    ensures failure == Some(WorkspaceUnavailable) <==> SomeRefusal(trace)
  {
    trace := Send(req, before, CreateVolume(answers.volume));
    if answers.volume.Refused? {
      assert Refusal(trace[1]);
      return trace, Some(WorkspaceUnavailable);
    }
    var plan := PlanFor(req);
    for i := 0 to |plan.phases|
      invariant Lawful(req, trace) && before + [CreateVolume(answers.volume)] <= trace && !CleaningUp(trace)
      invariant OpenSession(true) in trace && VolumeExists(trace)
      invariant !FetchReadFailed(trace) && !SomeRefusal(trace)
      invariant forall k | 0 <= k < i ::
        SeenComplete(trace, plan.phases[k]) && PhaseSucceeds(answers.Of(plan.phases[k]))
    {
      var phase := plan.phases[i];
      ghost var earlier := trace;
      assert req.kind.Repository? && phase.Scan? ==> i == 1 && plan.phases[0] == Fetch;
      trace, failure := RunPhase(req, phase, plan.egress[phase], answers.Of(phase), trace);
      Extended(earlier, trace);
      if failure.Some? {
        return;
      }
    }
    failure := None;
  }

  /** What a longer trace says is what its two parts say. */
  lemma Extended(earlier: seq<Act>, trace: seq<Act>)
    requires earlier <= trace
    ensures SomeRefusal(trace) <==> SomeRefusal(earlier) || SomeRefusal(trace[|earlier|..])
    ensures FetchReadFailed(trace) <==> FetchReadFailed(earlier) || FetchReadFailed(trace[|earlier|..])
    ensures VolumeExists(earlier) ==> VolumeExists(trace)
    ensures OpenSession(true) in earlier ==> OpenSession(true) in trace
    ensures forall phase | SeenComplete(earlier, phase) :: SeenComplete(trace, phase)
  {
    var later := trace[|earlier|..];
    assert trace == earlier + later;
    if i :| 0 <= i < |trace| && Refusal(trace[i]) {
      if i < |earlier| { assert Refusal(earlier[i]); } else { assert Refusal(later[i - |earlier|]); }
    }
    if i :| 0 <= i < |earlier| && Refusal(earlier[i]) { assert Refusal(trace[i]); }
    if i :| 0 <= i < |later| && Refusal(later[i]) { assert Refusal(trace[|earlier| + i]); }
  }

  /**
   Execute. Whatever the API server answers: every request is made only where it
   is allowed, success means every planned Job was seen complete, and once the
   session was opened the run ends with the three deletes and the close.
   */
  method Execute(req: Request, answers: Answers) returns (trace: seq<Act>, failure: Option<Failure>)
    ensures Lawful(req, trace)
    ensures failure.None? <==>
      && answers.session && !answers.volume.Refused?
      && forall phase | phase in PlanFor(req).phases :: PhaseSucceeds(answers.Of(phase))
    ensures failure.None? ==> forall phase | phase in PlanFor(req).phases :: SeenComplete(trace, phase)
    ensures !answers.session ==> trace == [OpenSession(false)] && failure == Some(WorkspaceUnavailable)
    ensures answers.session ==>
      && |trace| >= 6 && trace[..2] == [OpenSession(true), CreateVolume(answers.volume)]
      && trace[|trace| - 4..] == [DeleteJobs, DeletePolicies, DeleteVolume, CloseSession]
      && !CleaningUp(trace[..|trace| - 4])
    ensures failure == Some(FetchFailed) <==> FetchReadFailed(trace)
    ensures failure == Some(WorkspaceUnavailable) <==> SomeRefusal(trace)
  {
    LawfulAppend(req, [], OpenSession(answers.session));
    trace := [OpenSession(answers.session)];
    assert [] + trace == trace;
    if !answers.session {
      assert Refusal(trace[0]);
      return trace, Some(WorkspaceUnavailable);
    }
    trace, failure := RunPhases(req, answers, trace);
    ghost var ran := trace;
    assert ran[..2] == [OpenSession(true), CreateVolume(answers.volume)] && ran[0] == OpenSession(true);
    trace := CleanUp(req, trace);
    assert trace[..|trace| - 4] == ran && trace[..2] == ran[..2];
    Extended(ran, trace);
  }

  // ---- What a lawful run guarantees -------------------------------------

  predicate SeesComplete(x: Act, phase: Phase) {
    x.ReadJob? && x.phase == phase && x.reading.Conditions? && x.reading.complete
  }

  predicate Creates(x: Act, phase: Phase) { x.CreateJob? && x.phase == phase && !x.answer.Refused? }

  lemma InPrefix(trace: seq<Act>, i: nat, x: Act)
    requires i <= |trace| && x in trace[..i]
    ensures exists j :: 0 <= j < i && trace[j] == x
  {
  }

  /**
   A Job is created only after a policy for its phase was asked for with the same
   egress and not refused. Answered `Created`, the policy has that egress; answered
   `AlreadyExists`, the phase has a policy whose egress the executor did not set.
   */
  lemma PolicyBeforeJob(req: Request, trace: seq<Act>, i: nat)
    requires Lawful(req, trace) && i < |trace| && trace[i].CreateJob?
    ensures exists j :: 0 <= j < i && trace[j].CreatePolicy? && !trace[j].answer.Refused?
                        && trace[j].phase == trace[i].phase && trace[j].egress == trace[i].egress
  {
    assert AllowedAt(req, trace, i);
    var phase, egress := trace[i].phase, trace[i].egress;
    if CreatePolicy(phase, egress, Created) in trace[..i] {
      InPrefix(trace, i, CreatePolicy(phase, egress, Created));
    } else {
      InPrefix(trace, i, CreatePolicy(phase, egress, AlreadyExists));
    }
  }

  /**
   For a repository nothing of the scan phase is asked for before the fetch Job was seen
   complete, nor with egress.
   */
  lemma RepositoryScanIsIsolated(req: Request, trace: seq<Act>, i: nat)
    requires Lawful(req, trace) && i < |trace| && req.kind.Repository?
    requires (trace[i].CreatePolicy? || trace[i].CreateJob?) && trace[i].phase.Scan?
    ensures !trace[i].egress
    ensures exists j :: 0 <= j < i && SeesComplete(trace[j], Fetch)
  {
    assert AllowedAt(req, trace, i);
    if ReadJob(Fetch, Conditions(true, false)) in trace[..i] {
      InPrefix(trace, i, ReadJob(Fetch, Conditions(true, false)));
    } else {
      InPrefix(trace, i, ReadJob(Fetch, Conditions(true, true)));
    }
  }

  /** The volume is asked for, and not refused, before any policy or Job. */
  lemma VolumeFirst(req: Request, trace: seq<Act>, i: nat)
    requires Lawful(req, trace) && i < |trace| && (trace[i].CreatePolicy? || trace[i].CreateJob?)
    ensures exists j :: 0 <= j < i && trace[j].CreateVolume? && !trace[j].answer.Refused?
  {
    assert AllowedAt(req, trace, i);
    if CreateVolume(Created) in trace[..i] {
      InPrefix(trace, i, CreateVolume(Created));
    } else {
      InPrefix(trace, i, CreateVolume(AlreadyExists));
    }
  }

  /** A fetched Job counts only if it was created: nothing is read before it exists. */
  lemma ReadAfterCreate(req: Request, trace: seq<Act>, i: nat)
    requires Lawful(req, trace) && i < |trace| && trace[i].ReadJob?
    ensures exists j :: 0 <= j < i && Creates(trace[j], trace[i].phase)
  {
    var before, phase := trace[..i], trace[i].phase;
    assert AllowedAt(req, trace, i);
    var egress := JobExists(before, phase, true);
    if CreateJob(phase, egress, Created) in before {
      InPrefix(trace, i, CreateJob(phase, egress, Created));
    } else {
      InPrefix(trace, i, CreateJob(phase, egress, AlreadyExists));
    }
  }
}
