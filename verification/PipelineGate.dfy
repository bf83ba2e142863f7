/**
 PipelineGate: the gate's verdict when the whole project is recorrelated and
 rescored around a new or a dismissed finding, and a finding whose arrival turns
 a failing build into a passing one.
 */
module PipelineGate {
  import opened Ordering
  import opened Model
  import Text
  import opened Risk
  import opened Remediation
  import opened Policy
  import opened PolicyTheorems
  import opened Pipeline
  import opened PipelineLimits

  /** `tt` holds the findings of `ss` with one more at `n`; their issues may differ. */
  ghost predicate OneMore(ss: seq<Risk.Subject>, tt: seq<Risk.Subject>, n: nat) {
    && n <= |ss| && |tt| == |ss| + 1
    && forall i | 0 <= i < |ss| :: tt[if i < n then i else i + 1].f == ss[i].f
  }

  /** Position by position, whatever counts on the left counts on the right. */
  lemma {:induction false} CountNoMore(ss: seq<Risk.Subject>, tt: seq<Risk.Subject>, p: Finding -> bool)
    requires |ss| == |tt| && forall i | 0 <= i < |ss| :: p(ss[i].f) ==> p(tt[i].f)
    ensures |Keep(ss, (s: Risk.Subject) => p(s.f))| <= |Keep(tt, (s: Risk.Subject) => p(s.f))|
  {
    if ss != [] { CountNoMore(ss[..|ss| - 1], tt[..|tt| - 1], p); }
  }

  lemma {:induction false} CountOneMore(ss: seq<Risk.Subject>, tt: seq<Risk.Subject>, n: nat, p: Finding -> bool)
    requires OneMore(ss, tt, n)
    ensures |Keep(ss, (s: Risk.Subject) => p(s.f))| <= |Keep(tt, (s: Risk.Subject) => p(s.f))|
    decreases |ss|
  {
    var b := tt[..|tt| - 1];
    if n == |ss| {
      assert forall i | 0 <= i < |ss| :: b[i].f == ss[i].f;
      CountNoMore(ss, b, p);
    } else {
      var a := ss[..|ss| - 1];
      assert forall i | 0 <= i < |a| ::
        b[if i < n then i else i + 1] == tt[if i < n then i else i + 1] && a[i] == ss[i];
      CountOneMore(a, b, n, p);
      assert tt[|tt| - 1].f == ss[|ss| - 1].f;
    }
  }

  /** No severity and no category counts more live findings. */
  ghost predicate CountsNoMore(ss: seq<Risk.Subject>, tt: seq<Risk.Subject>) {
    && (forall v :: |OfSeverity(ss, v)| <= |OfSeverity(tt, v)|)
    && (forall c :: |OfCategory(ss, c)| <= |OfCategory(tt, c)|)
  }

  predicate LiveOfSeverity(f: Finding, v: Severity) { !Dismissed(f.status) && f.severity == v }

  predicate LiveOfCategory(f: Finding, c: Category) { !Dismissed(f.status) && f.category == c }

  lemma SeverityCount(ss: seq<Risk.Subject>, v: Severity)
    ensures var p := (f: Finding) => LiveOfSeverity(f, v);
      OfSeverity(ss, v) == Keep(ss, (s: Risk.Subject) => p(s.f))
  {
    var p := (f: Finding) => LiveOfSeverity(f, v);
    SameKept(ss, (s: Risk.Subject) => IsLive(s) && s.f.severity == v, (s: Risk.Subject) => p(s.f));
  }

  lemma CategoryCount(ss: seq<Risk.Subject>, c: Category)
    ensures var p := (f: Finding) => LiveOfCategory(f, c);
      OfCategory(ss, c) == Keep(ss, (s: Risk.Subject) => p(s.f))
  {
    var p := (f: Finding) => LiveOfCategory(f, c);
    SameKept(ss, (s: Risk.Subject) => IsLive(s) && s.f.category == c, (s: Risk.Subject) => p(s.f));
  }

  lemma OneMoreCounts(ss: seq<Risk.Subject>, tt: seq<Risk.Subject>, n: nat)
    requires OneMore(ss, tt, n)
    ensures CountsNoMore(ss, tt)
  {
    forall v ensures |OfSeverity(ss, v)| <= |OfSeverity(tt, v)| {
      SeverityCount(ss, v);
      SeverityCount(tt, v);
      CountOneMore(ss, tt, n, (f: Finding) => LiveOfSeverity(f, v));
    }
    forall c ensures |OfCategory(ss, c)| <= |OfCategory(tt, c)| {
      CategoryCount(ss, c);
      CategoryCount(tt, c);
      CountOneMore(ss, tt, n, (f: Finding) => LiveOfCategory(f, c));
    }
  }

  /** `ss` holds the findings of `tt`, some of them dismissed. */
  ghost predicate SomeDismissed(ss: seq<Risk.Subject>, tt: seq<Risk.Subject>) {
    |ss| == |tt| && forall i | 0 <= i < |ss| :: ss[i].f == tt[i].f || Dismissed(ss[i].f.status)
  }

  lemma DismissedCounts(ss: seq<Risk.Subject>, tt: seq<Risk.Subject>)
    requires SomeDismissed(ss, tt)
    ensures CountsNoMore(ss, tt)
  {
    forall v ensures |OfSeverity(ss, v)| <= |OfSeverity(tt, v)| {
      SeverityCount(ss, v);
      SeverityCount(tt, v);
      CountNoMore(ss, tt, (f: Finding) => LiveOfSeverity(f, v));
    }
    forall c ensures |OfCategory(ss, c)| <= |OfCategory(tt, c)| {
      CategoryCount(ss, c);
      CategoryCount(tt, c);
      CountNoMore(ss, tt, (f: Finding) => LiveOfCategory(f, c));
    }
  }

  /** More findings and a score no lower read no lower on every rule. */
  lemma ReadingsFollow(p: Policy, ss: seq<Risk.Subject>, tt: seq<Risk.Subject>, before: Input, after: Input)
    requires CountsNoMore(ss, tt) && Counts(before, ss) && Counts(after, tt)
    requires before.riskScore <= after.riskScore && before.scanComplete == after.scanComplete
    ensures ReadsNoMore(p, before, after)
  {
    forall r | r in p.rules ensures Observe(r, before) <= Observe(r, after) {
      if r.kind == SEVERITY_COUNT {
        var v := SeverityNamed(r.selector);
        assert Count(before.severityCounts, v) == |OfSeverity(ss, v)|;
      } else if r.kind == CATEGORY_COUNT {
        assert Count(before.categoryCounts, r.selector) == |OfCategory(ss, r.selector)|;
      }
    }
  }

  lemma OneMoreStored(ps: seq<Stored>, n: nat, x: Stored)
    requires n <= |ps|
    ensures OneMore(RiskSubjects(ps), RiskSubjects(With(ps, n, x)), n)
  {
    WithAt(ps, n, x);
    var ss, tt := RiskSubjects(ps), RiskSubjects(With(ps, n, x));
    forall i: nat | i < |ps| ensures tt[if i < n then i else i + 1].f == ss[i].f {
      SubjectFinding(ps, i);
      SubjectFinding(With(ps, n, x), if i < n then i else i + 1);
    }
  }

  lemma SubjectFinding(ps: seq<Stored>, i: nat)
    requires i < |ps|
    ensures RiskSubjects(ps)[i].f == ps[i].f
  {
  }

  /** Adding a harmless live finding and recorrelating everything never improves the verdict. */
  lemma AddingNeverImprovesRecorrelated(
    p: Policy, w: Weights, ps: seq<Stored>, n: nat, x: Stored, ctx: Context, exp: real -> real,
    before: Input, after: Input, u: Verdict, v: Verdict)
    requires w.Valid() && w.FollowsRank() && w.Places(ctx) && ExpLike(exp)
    requires n <= |ps| && Correlatable(x.f.status) && Harmless(ps, x) && Sound(With(ps, n, x))
    requires Measures(before, w, RiskSubjects(ps), ctx, exp)
    requires Measures(after, w, RiskSubjects(With(ps, n, x)), ctx, exp)
    requires before.scanComplete == after.scanComplete
    requires IsVerdict(p, before, u) && IsVerdict(p, after, v)
    ensures u.Rank() <= v.Rank()
  {
    AddingNeverLowers(w, ps, n, x, ctx, exp);
    OneMoreStored(ps, n, x);
    OneMoreCounts(RiskSubjects(ps), RiskSubjects(With(ps, n, x)), n);
    ReadingsFollow(p, RiskSubjects(ps), RiskSubjects(With(ps, n, x)), before, after);
    VerdictMonotone(p, before, after, u, v);
  }

  // ---- Dismissing -------------------------------------------------------

  function WithStatus(x: Stored, status: Status): Stored { x.(f := x.f.(status := status)) }

  lemma DismissedStored(ps: seq<Stored>, n: nat, x: Stored, d: Stored)
    requires n <= |ps| && Dismissed(d.f.status)
    ensures SomeDismissed(RiskSubjects(With(ps, n, d)), RiskSubjects(With(ps, n, x)))
  {
    WithAt(ps, n, d);
    WithAt(ps, n, x);
    var ss, tt := RiskSubjects(With(ps, n, d)), RiskSubjects(With(ps, n, x));
    forall i: nat | i < |ss| ensures ss[i].f == tt[i].f || Dismissed(ss[i].f.status) {
      SubjectFinding(With(ps, n, d), i);
      SubjectFinding(With(ps, n, x), i);
      assert i < n || i == n || With(ps, n, d)[i] == With(ps, n, x)[i];
    }
  }

  /** Dismissing a finding that would be harmless to add, and recorrelating everything, never worsens the verdict. */
  lemma DismissingNeverWorsensRecorrelated(
    p: Policy, w: Weights, ps: seq<Stored>, n: nat, x: Stored, status: Status, ctx: Context, exp: real -> real,
    before: Input, after: Input, u: Verdict, v: Verdict)
    requires w.Valid() && w.FollowsRank() && w.Places(ctx) && ExpLike(exp)
    requires n <= |ps| && Correlatable(x.f.status) && Harmless(ps, x) && Sound(With(ps, n, x)) && Dismissed(status)
    requires Measures(before, w, RiskSubjects(With(ps, n, x)), ctx, exp)
    requires Measures(after, w, RiskSubjects(With(ps, n, WithStatus(x, status))), ctx, exp)
    requires before.scanComplete == after.scanComplete
    requires IsVerdict(p, before, u) && IsVerdict(p, after, v)
    ensures v.Rank() <= u.Rank()
  {
    var d := WithStatus(x, status);
    DismissingNeverRaises(w, ps, n, x, status, ctx, exp);
    DismissedStored(ps, n, x, d);
    DismissedCounts(RiskSubjects(With(ps, n, d)), RiskSubjects(With(ps, n, x)));
    ReadingsFollow(p, RiskSubjects(With(ps, n, d)), RiskSubjects(With(ps, n, x)), after, before);
    VerdictMonotone(p, after, before, v, u);
  }

  // ---- A build that passes because of a finding -------------------------

  lemma ScoreOfTotal(w: Weights, ps: seq<Stored>, ctx: Context, exp: real -> real)
    requires w.Valid() && ExpLike(exp) && ProjectTotal(w, ps, ctx) >= 0.0
    ensures ProjectScore(w, RiskSubjects(ps), ctx, exp) == Saturate(ProjectTotal(w, ps, ctx), w.saturation, exp)
  {
    SaturateMonotone(ProjectTotal(w, ps, ctx), ProjectTotal(w, ps, ctx), w.saturation, exp);
  }

  /** One rule: the build fails on a score above `max`. */
  function ScoreRule(max: real): Policy { Policy([Rule(RISK_SCORE, "", max, FailLevel)], FailLevel) }

  lemma ScoreRuleIsValid(max: real)
    requires 0.0 <= max <= 100.0
    ensures ValidPolicy(ScoreRule(max))
  {
    Text.TrimSpaceFacts("");
  }

  lemma ScoreRuleDecides(max: real, ss: seq<Subject>, input: Input, v: Verdict)
    requires 0.0 <= max <= 100.0 && Counts(input, ss)
    requires input.scanComplete && IsVerdict(ScoreRule(max), input, v)
    ensures v == if input.riskScore > max then Fail else Pass
  {
    var p := ScoreRule(max);
    assert p.rules[0] in p.rules;
    ScoreRuleIsValid(max);
    if input.riskScore > max { assert Exceeds(p.rules[0], ss, input.riskScore); }
    VerdictExactly(p, ss, input, v);
  }

  lemma ScoreFalls(w: Weights, ps: seq<Stored>, qs: seq<Stored>, ctx: Context, exp: real -> real)
    requires w.Valid() && ExpLike(exp) && 0.0 <= ProjectTotal(w, qs, ctx) < ProjectTotal(w, ps, ctx)
    ensures 0.0 <= ProjectScore(w, RiskSubjects(qs), ctx, exp) < ProjectScore(w, RiskSubjects(ps), ctx, exp) < 100.0
  {
    ScoreOfTotal(w, ps, ctx, exp);
    ScoreOfTotal(w, qs, ctx, exp);
    SaturateMonotone(ProjectTotal(w, qs, ctx), ProjectTotal(w, ps, ctx), w.saturation, exp);
  }

  /** Whenever a project's total falls, some score rule fails before and passes after. */
  lemma FallingTotalCanPass(
    w: Weights, ps: seq<Stored>, qs: seq<Stored>, ctx: Context, exp: real -> real, before: Input, after: Input,
    u: Verdict, v: Verdict)
    requires w.Valid() && ExpLike(exp) && 0.0 <= ProjectTotal(w, qs, ctx) < ProjectTotal(w, ps, ctx)
    requires Measures(before, w, RiskSubjects(ps), ctx, exp) && Measures(after, w, RiskSubjects(qs), ctx, exp)
    requires before.scanComplete && after.scanComplete
    requires IsVerdict(ScoreRule(after.riskScore), before, u) && IsVerdict(ScoreRule(after.riskScore), after, v)
    ensures ValidPolicy(ScoreRule(after.riskScore)) && u == Fail && v == Pass
  {
    ScoreFalls(w, ps, qs, ctx, exp);
    ScoreRuleIsValid(after.riskScore);
    ScoreRuleDecides(after.riskScore, RiskSubjects(ps), before, u);
    ScoreRuleDecides(after.riskScore, RiskSubjects(qs), after, v);
  }

  /**
   Two `low` findings fail a score rule; with an `unknown` finding beside them the complete
   scan passes it. The finding is not harmless: only such a one can do this.
   */
  lemma UnknownTurnsFailIntoPass(
    w: Weights, exp: real -> real, before: Input, after: Input, u: Verdict, v: Verdict)
    requires w.Valid() && w == DEFAULT_WEIGHTS && ExpLike(exp) && before.scanComplete && after.scanComplete
    requires Measures(before, w, RiskSubjects(TWO_LOWS), PLAIN, exp)
    requires Measures(after, w, RiskSubjects(WITH_UNKNOWN), PLAIN, exp)
    requires IsVerdict(ScoreRule(after.riskScore), before, u) && IsVerdict(ScoreRule(after.riskScore), after, v)
    ensures WITH_UNKNOWN == With(TWO_LOWS, 2, Reported("c", "sast", Unknown))
    ensures ValidPolicy(ScoreRule(after.riskScore)) && u == Fail && v == Pass
    ensures !Harmless(TWO_LOWS, Reported("c", "sast", Unknown))
  {
    WithUnknownIsWith();
    UnknownIsNotHarmless(exp);
    DefaultNumbers();
    TwoLowsTotal(w);
    WithUnknownTotal(w);
    FallingTotalCanPass(w, TWO_LOWS, WITH_UNKNOWN, PLAIN, exp, before, after, u, v);
  }

  lemma UnknownIsNotHarmless(exp: real -> real)
    requires ExpLike(exp)
    ensures !Harmless(TWO_LOWS, Reported("c", "sast", Unknown))
  {
    UnknownLowersTotal();
    DefaultWeightsAreValid(PLAIN);
    if Harmless(TWO_LOWS, Reported("c", "sast", Unknown)) {
      AddingNeverLowers(DEFAULT_WEIGHTS, TWO_LOWS, 2, Reported("c", "sast", Unknown), PLAIN, exp);
      assert false;
    }
  }
}
