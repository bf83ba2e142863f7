/**
 RiskTheorems: which valid weight sets keep the promises the scoring code makes
 about escalation and corroboration (internal/risk). Weights.Validate asks for
 neither condition; both are exact.
 */
module RiskTheorems {
  import opened Ordering
  import opened Model
  import opened Risk

  // ---- Escalation -------------------------------------------------------

  /** A valid issue severity at least as bad as the one before, if there was one. */
  predicate Worsens(before: Option<Severity>, after: Severity) {
    after.Valid() && (before.Some? ==> before.value.Valid() && before.value.Rank() <= after.Rank())
  }

  /** `t` is the finding of `s` in a worse issue. */
  predicate Escalated(s: Subject, t: Subject) {
    s.f.Storable() && t.issue.Some? && t == s.(issue := t.issue) && Worsens(s.issue, t.issue.value)
  }

  predicate NoLower(w: Weights, s: Subject, t: Subject, ctx: Context) { Value(w, s, ctx) <= Value(w, t, ctx) }

  /** A worse issue severity never lowers a finding's value. */
  ghost predicate EscalationNeverLowers(w: Weights) {
    forall s, t, ctx | Escalated(s, t) && w.Places(ctx) :: NoLower(w, s, t, ctx)
  }

  lemma SeverityFactorMonotone(w: Weights, s: Severity, t: Severity)
    requires w.Valid() && w.FollowsRank() && s.Valid() && t.Valid() && s.Rank() <= t.Rank()
    ensures SeverityFactor(w, s) <= SeverityFactor(w, t)
  {
  }

  lemma EffectiveGrows(s: Subject, t: Subject)
    requires Escalated(s, t)
    ensures EffectiveSeverity(s).0.Valid() && EffectiveSeverity(t).0.Valid()
    ensures EffectiveSeverity(s).0.Rank() <= EffectiveSeverity(t).0.Rank()
  {
  }

  lemma SameMultiplier(w: Weights, s: Subject, t: Subject, ctx: Context)
    requires s.f == t.f && s.sources == t.sources
    ensures Multiplier(w, s, ctx) == Multiplier(w, t, ctx)
  {
    assert Reporters(s) == Reporters(t);
  }

  lemma ValueOrder(w: Weights, s: Subject, t: Subject, ctx: Context, a: real, b: real, m: real)
    requires a == SeverityFactor(w, EffectiveSeverity(s).0) && b == SeverityFactor(w, EffectiveSeverity(t).0)
    requires m == Multiplier(w, s, ctx) == Multiplier(w, t, ctx)
    requires m >= 0.0
    ensures a <= b ==> Value(w, s, ctx) <= Value(w, t, ctx)
    ensures b < a && m > 0.0 ==> Value(w, t, ctx) < Value(w, s, ctx)
  {
    assert Value(w, s, ctx) == a * m;
    assert Value(w, t, ctx) == b * m;
    if a <= b { MulMonotone(a, b, m); }
    if b < a && m > 0.0 { MulStrict(b, a, m); }
  }

  lemma MulStrict(a: real, b: real, x: real)
    requires a < b && x > 0.0
    ensures a * x < b * x
  {
  }

  lemma MulLeft(x: real, a: real, b: real)
    requires x >= 0.0
    ensures a <= b ==> x * a <= x * b
    ensures a < b && x > 0.0 ==> x * a < x * b
  {
    if a <= b { MulMonotone(a, b, x); }
    if a < b && x > 0.0 { MulStrict(a, b, x); }
    assert x * a == a * x && x * b == b * x;
  }

  lemma WorseIssueScoresNoLower(w: Weights, s: Subject, t: Subject, ctx: Context)
    requires w.Valid() && w.FollowsRank() && w.Places(ctx) && Escalated(s, t)
    ensures NoLower(w, s, t, ctx)
  {
    EffectiveGrows(s, t);
    SeverityFactorMonotone(w, EffectiveSeverity(s).0, EffectiveSeverity(t).0);
    MultiplierNonNegative(w, s, ctx);
    SameMultiplier(w, s, t, ctx);
    ValueOrder(w, s, t, ctx, SeverityFactor(w, EffectiveSeverity(s).0), SeverityFactor(w, EffectiveSeverity(t).0),
      Multiplier(w, s, ctx));
  }

  /** An otherwise unremarkable finding. */
  function Plain(severity: Severity, confidence: Confidence): Finding {
    Finding("f", "s", "", "sast", severity, confidence, "", "", "", Fix(FixUnknown, []), None, Open)
  }

  const PLAIN: Context := Context(Production, MediumAsset, false)

  lemma PlainMultiplier(w: Weights, severity: Severity, issue: Option<Severity>)
    requires w.Valid()
    ensures w.Places(PLAIN)
    ensures Multiplier(w, Subject(Plain(severity, Sure), [], issue), PLAIN) > 0.0
  {
    var s := Subject(Plain(severity, Sure), [], issue);
    assert Reporters(s) == {};
    PlainSetting(w, s.f);
    ProductPositive(Setting(w, s.f, PLAIN), w.confidence[Sure]);
    assert Multiplier(w, s, PLAIN) == Setting(w, s.f, PLAIN) * ConfidenceFactor(w, s);
  }

  lemma ProductPositive(a: real, b: real)
    requires a > 0.0 && b > 0.0
    ensures a * b > 0.0
  {
  }

  /** Where a worse severity weighs less, an escalated finding scores lower. */
  lemma EscalationLowers(w: Weights, mild: Severity, severe: Severity)
    requires w.Valid() && mild.Valid() && severe.Valid() && mild.Rank() < severe.Rank()
    requires w.severity[severe] < w.severity[mild]
    ensures var s := Subject(Plain(mild, Sure), [], None);
      Value(w, s.(issue := Some(severe)), PLAIN) < Value(w, s, PLAIN)
    ensures !EscalationNeverLowers(w)
  {
    var s := Subject(Plain(mild, Sure), [], None);
    var t := s.(issue := Some(severe));
    PlainMultiplier(w, mild, None);
    SameMultiplier(w, s, t, PLAIN);
    ValueOrder(w, s, t, PLAIN, w.severity[mild], w.severity[severe], Multiplier(w, s, PLAIN));
    assert Escalated(s, t) && !NoLower(w, s, t, PLAIN);
  }

  /** For valid weights, escalation never lowers a value exactly when the severity weights follow rank. */
  lemma EscalationNeedsRank(w: Weights)
    requires w.Valid()
    ensures EscalationNeverLowers(w) <==> w.FollowsRank()
  {
    if w.FollowsRank() {
      forall s, t, ctx | Escalated(s, t) && w.Places(ctx) ensures NoLower(w, s, t, ctx) {
        WorseIssueScoresNoLower(w, s, t, ctx);
      }
    } else if w.severity[Low] < w.severity[Info] {
      EscalationLowers(w, Info, Low);
    } else if w.severity[Unknown] < w.severity[Low] {
      EscalationLowers(w, Low, Unknown);
    } else if w.severity[Medium] < w.severity[Unknown] {
      EscalationLowers(w, Unknown, Medium);
    } else if w.severity[High] < w.severity[Medium] {
      EscalationLowers(w, Medium, High);
    } else {
      EscalationLowers(w, High, Critical);
    }
  }

  /** The default weights with `medium` below `low`: they pass validation. */
  const UPSIDE_DOWN: Weights := DEFAULT_WEIGHTS.(severity := DEFAULT_WEIGHTS.severity[Medium := 0.5])

  lemma UpsideDownIsValid()
    ensures UPSIDE_DOWN.Valid() && !UPSIDE_DOWN.FollowsRank()
    ensures !EscalationNeverLowers(UPSIDE_DOWN)
  {
    EscalationNeedsRank(UPSIDE_DOWN);
  }

  // ---- Corroboration ----------------------------------------------------

  /** `t` is the finding of `s` with at least its reporters. */
  predicate Corroborated(s: Subject, t: Subject) {
    s.f.Storable() && t == s.(sources := t.sources) && Reporters(s) <= Reporters(t)
  }

  /** More reporters never lower a finding's value. */
  ghost predicate CorroborationNeverLowers(w: Weights) {
    forall s, t, ctx | Corroborated(s, t) && w.Places(ctx) :: NoLower(w, s, t, ctx)
  }

  /** A surer confidence never weighs less. Validate does not ask for this either. */
  predicate ConfidenceFollows(w: Weights)
    requires w.Valid()
  {
    w.confidence[Weak] <= w.confidence[Likely] <= w.confidence[Sure]
  }

  /** Everything but the severity and the confidence. */
  function Setting(w: Weights, f: Finding, ctx: Context): real {
    ExploitabilityFactor(w, f.epss) * ExposureFactor(w, ctx) * CriticalityFactor(w, ctx)
  }

  lemma SettingNonNegative(w: Weights, f: Finding, ctx: Context)
    requires w.Valid() && w.Places(ctx) && f.Storable()
    ensures Setting(w, f, ctx) >= 0.0
  {
    FactorsPositive(w, Subject(f, [], None), ctx);
    ExposureNonNegative(w, ctx);
    ProductNonNegative(ExploitabilityFactor(w, f.epss), ExposureFactor(w, ctx));
    ProductNonNegative(ExploitabilityFactor(w, f.epss) * ExposureFactor(w, ctx), CriticalityFactor(w, ctx));
  }

  lemma MultiplierSplit(w: Weights, s: Subject, ctx: Context)
    ensures Multiplier(w, s, ctx) == Setting(w, s.f, ctx) * ConfidenceFactor(w, s)
  {
  }

  /** Two confidence factors compare as the multipliers they give. */
  lemma MultiplierOrder(w: Weights, s: Subject, t: Subject, ctx: Context, base: real, c: real, d: real)
    requires s.f == t.f && base == Setting(w, s.f, ctx) && base >= 0.0
    requires c == ConfidenceFactor(w, s) && d == ConfidenceFactor(w, t)
    ensures c <= d ==> Multiplier(w, s, ctx) <= Multiplier(w, t, ctx)
    ensures d < c && base > 0.0 ==> Multiplier(w, t, ctx) < Multiplier(w, s, ctx)
  {
    MultiplierSplit(w, s, ctx);
    MultiplierSplit(w, t, ctx);
    MulLeft(base, c, d);
    MulLeft(base, d, c);
  }

  /** At one severity, values compare as the multipliers do. */
  lemma MultiplierDecides(w: Weights, s: Subject, t: Subject, ctx: Context, v: real, m: real, n: real)
    requires s.f == t.f && s.issue == t.issue && v == SeverityFactor(w, EffectiveSeverity(s).0) && v >= 0.0
    requires m == Multiplier(w, s, ctx) && n == Multiplier(w, t, ctx)
    ensures m <= n ==> NoLower(w, s, t, ctx)
    ensures n < m && v > 0.0 ==> Value(w, t, ctx) < Value(w, s, ctx)
  {
    MulLeft(v, m, n);
    MulLeft(v, n, m);
  }

  lemma ConfidenceDecides(w: Weights, s: Subject, t: Subject, ctx: Context, v: real, base: real, c: real, d: real)
    requires s.f == t.f && s.issue == t.issue
    requires v == SeverityFactor(w, EffectiveSeverity(s).0) && base == Setting(w, s.f, ctx)
    requires c == ConfidenceFactor(w, s) && d == ConfidenceFactor(w, t) && base >= 0.0 && v >= 0.0
    ensures c <= d ==> NoLower(w, s, t, ctx)
    ensures d < c && base > 0.0 && v > 0.0 ==> Value(w, t, ctx) < Value(w, s, ctx)
  {
    MultiplierOrder(w, s, t, ctx, base, c, d);
    MultiplierDecides(w, s, t, ctx, v, Multiplier(w, s, ctx), Multiplier(w, t, ctx));
  }

  lemma ConfidenceFactorGrows(w: Weights, s: Subject, t: Subject)
    requires w.Valid() && ConfidenceFollows(w) && Corroborated(s, t)
    ensures ConfidenceFactor(w, s) <= ConfidenceFactor(w, t)
  {
    SubsetSize(Reporters(s), Reporters(t));
  }

  lemma CorroborationScoresNoLower(w: Weights, s: Subject, t: Subject, ctx: Context)
    requires w.Valid() && ConfidenceFollows(w) && w.Places(ctx) && Corroborated(s, t)
    ensures NoLower(w, s, t, ctx)
  {
    FactorsPositive(w, s, ctx);
    SettingNonNegative(w, s.f, ctx);
    ConfidenceFactorGrows(w, s, t);
    ConfidenceDecides(w, s, t, ctx, SeverityFactor(w, EffectiveSeverity(s).0), Setting(w, s.f, ctx),
      ConfidenceFactor(w, s), ConfidenceFactor(w, t));
  }

  /** Where the raised confidence weighs less, a second reporter lowers the value. */
  lemma CorroborationLowers(w: Weights, level: Confidence)
    requires w.Valid() && (level == Weak || level == Likely)
    requires w.confidence[RaiseConfidence(level)] < w.confidence[level]
    ensures var s := Subject(Plain(High, level), ["a"], None);
      Value(w, s.(sources := ["a", "b"]), PLAIN) < Value(w, s, PLAIN)
    ensures !CorroborationNeverLowers(w)
  {
    var s := Subject(Plain(High, level), ["a"], None);
    var t := s.(sources := ["a", "b"]);
    assert "a"[0] != "b"[0];
    assert "a" in t.sources && "b" in t.sources;
    assert Reporters(s) == {"a"} && Reporters(t) == {"a", "b"};
    PlainSetting(w, s.f);
    ConfidenceDecides(w, s, t, PLAIN, w.severity[High], Setting(w, s.f, PLAIN),
      w.confidence[level], w.confidence[RaiseConfidence(level)]);
    assert Corroborated(s, t) && !NoLower(w, s, t, PLAIN);
  }

  lemma PlainSetting(w: Weights, f: Finding)
    requires w.Valid() && f.epss == None
    ensures w.Places(PLAIN) && Setting(w, f, PLAIN) > 0.0
  {
    DeclaredContextsArePlaced(w, PLAIN);
    assert ExposureFactor(w, PLAIN) == w.environment[Production];
    ProductPositive(w.environment[Production], w.criticality[MediumAsset]);
    assert Setting(w, f, PLAIN) == w.environment[Production] * w.criticality[MediumAsset];
  }

  /** For valid weights, corroboration never lowers a value exactly when the confidence weights follow confidence. */
  lemma CorroborationNeedsOrder(w: Weights)
    requires w.Valid()
    ensures CorroborationNeverLowers(w) <==> ConfidenceFollows(w)
  {
    if ConfidenceFollows(w) {
      forall s, t, ctx | Corroborated(s, t) && w.Places(ctx) ensures NoLower(w, s, t, ctx) {
        CorroborationScoresNoLower(w, s, t, ctx);
      }
    } else if w.confidence[Likely] < w.confidence[Weak] {
      CorroborationLowers(w, Weak);
    } else {
      CorroborationLowers(w, Likely);
    }
  }

  /** The default weights with `likely` below `weak`: they pass validation too. */
  const UNSURE: Weights := DEFAULT_WEIGHTS.(confidence := DEFAULT_WEIGHTS.confidence[Likely := 0.4])

  lemma UnsureIsValid()
    ensures UNSURE.Valid() && !ConfidenceFollows(UNSURE)
    ensures !CorroborationNeverLowers(UNSURE)
  {
    CorroborationNeedsOrder(UNSURE);
  }

  /** Both hold of the defaults. */
  lemma DefaultsKeepBothPromises()
    ensures EscalationNeverLowers(DEFAULT_WEIGHTS) && CorroborationNeverLowers(DEFAULT_WEIGHTS)
  {
    DefaultWeightsAreValid(PLAIN);
    EscalationNeedsRank(DEFAULT_WEIGHTS);
    CorroborationNeedsOrder(DEFAULT_WEIGHTS);
  }
}
