/**
 RiskScale: how to read a score under the default weights. A crowd of like
 findings has a closed total, the worked examples follow from it, and so does
 the size at which a crowd draws level with one worst case
 (docs/architecture/risk-engine.md).
 */
module RiskScale {
  import opened Ordering
  import opened Model
  import opened Risk
  import opened RiskFactors

  const NEUTRAL: Context := Context(Production, MediumAsset, false)
  const SANDBOX: Context := Context(Development, LowAsset, false)
  const EXPOSED: Context := Context(Production, CriticalAsset, true)

  /** A live, certain finding, in no issue. */
  predicate Certain(s: Subject, severity: Severity) {
    s.f.severity == severity && s.f.confidence == Sure && s.issue.None? && !Dismissed(s.f.status)
  }

  /** Nothing is known about how likely it is to be exploited. */
  predicate Plain(s: Subject, severity: Severity) { Certain(s, severity) && s.f.epss.None? }

  predicate WorstCase(s: Subject) { Certain(s, Critical) && s.f.epss == Some(0.99) }

  // ---- Crowds -----------------------------------------------------------

  /** All findings count, and all for the same. */
  predicate Crowd(w: Weights, ss: seq<Subject>, ctx: Context, v: real) {
    forall i | 0 <= i < |ss| :: !Dismissed(ss[i].f.status) && Value(w, ss[i], ctx) == v
  }

  lemma {:induction false} CrowdValues(w: Weights, ss: seq<Subject>, ctx: Context, v: real)
    requires Crowd(w, ss, ctx, v)
    ensures Values(w, ss, ctx) == seq(|ss|, _ => v)
  {
    if ss != [] {
      CrowdValues(w, ss[..|ss| - 1], ctx, v);
      assert seq(|ss|, _ => v) == seq(|ss| - 1, _ => v) + [v];
    }
  }

  lemma {:induction false} LikeValues(n: nat, v: real)
    requires n > 0
    ensures Sum(seq(n, _ => v)) == n as real * v && Max(seq(n, _ => v)) == v
  {
    var vs := seq(n, _ => v);
    assert vs[..n - 1] == seq(n - 1, _ => v);
    if n > 1 {
      LikeValues(n - 1, v);
      assert n as real * v == (n - 1) as real * v + v;
    } else {
      assert vs[..0] == [];
    }
  }

  /** The first of like findings counts in full, every further one for its tail share. */
  function Shared(n: nat, v: real, tail: real): real { v * (1.0 + tail * (n as real - 1.0)) }

  lemma CombineLike(sum: real, max: real, n: nat, v: real, tail: real)
    requires sum == n as real * v && max == v
    ensures Combine(sum, max, tail) == Shared(n, v, tail)
  {
    var m := n as real - 1.0;
    assert n as real * v - v == m * v;
    assert tail * (m * v) == v * (tail * m);
  }

  lemma LikeTotal(n: nat, v: real, tail: real)
    requires n > 0
    ensures TotalOf(seq(n, _ => v), tail) == Shared(n, v, tail)
  {
    var vs := seq(n, _ => v);
    LikeValues(n, v);
    CombineLike(Sum(vs), Max(vs), n, v, tail);
  }

  lemma TotalOfValues(w: Weights, ss: seq<Subject>, ctx: Context, v: real)
    requires Crowd(w, ss, ctx, v)
    ensures Total(w, ss, ctx) == TotalOf(seq(|ss|, _ => v), w.tailWeight)
  {
    CrowdValues(w, ss, ctx, v);
  }

  lemma CrowdTotal(w: Weights, ss: seq<Subject>, ctx: Context, v: real)
    requires ss != [] && Crowd(w, ss, ctx, v)
    ensures Total(w, ss, ctx) == Shared(|ss|, v, w.tailWeight)
  {
    TotalOfValues(w, ss, ctx, v);
    LikeTotal(|ss|, v, w.tailWeight);
  }

  // ---- Worked examples --------------------------------------------------

  lemma CertainConfidence(s: Subject, severity: Severity)
    requires Certain(s, severity)
    ensures ConfidenceFactor(DEFAULT_WEIGHTS, s) == 1.0
  {
  }

  lemma PlainValues(s: Subject, severity: Severity)
    requires Plain(s, severity) && severity.Valid()
    ensures Value(DEFAULT_WEIGHTS, s, NEUTRAL) == DEFAULT_WEIGHTS.severity[severity]
  {
    CertainConfidence(s, severity);
    assert ExposureFactor(DEFAULT_WEIGHTS, NEUTRAL) == 1.0 && CriticalityFactor(DEFAULT_WEIGHTS, NEUTRAL) == 1.0;
  }

  /** What each severity is worth where nothing raises or lowers it. */
  lemma PlainWorth(s: Subject, severity: Severity)
    requires Plain(s, severity)
    ensures severity == Critical ==> Value(DEFAULT_WEIGHTS, s, NEUTRAL) == 100.0
    ensures severity == High ==> Value(DEFAULT_WEIGHTS, s, NEUTRAL) == 30.0
    ensures severity == Medium ==> Value(DEFAULT_WEIGHTS, s, NEUTRAL) == 8.0
    ensures severity == Unknown ==> Value(DEFAULT_WEIGHTS, s, NEUTRAL) == 5.0
    ensures severity == Low ==> Value(DEFAULT_WEIGHTS, s, NEUTRAL) == 1.0
    ensures severity == Info ==> Value(DEFAULT_WEIGHTS, s, NEUTRAL) == 0.05
  {
    if severity.Valid() { PlainValues(s, severity); }
  }

  lemma SandboxWorth(s: Subject)
    requires Plain(s, Critical)
    ensures Value(DEFAULT_WEIGHTS, s, SANDBOX) == 21.0
  {
    CertainConfidence(s, Critical);
    assert ExposureFactor(DEFAULT_WEIGHTS, SANDBOX) == 0.3 && CriticalityFactor(DEFAULT_WEIGHTS, SANDBOX) == 0.7;
  }

  lemma WorstWorth(s: Subject)
    requires WorstCase(s)
    ensures Value(DEFAULT_WEIGHTS, s, EXPOSED) == 335.25
  {
    CertainConfidence(s, Critical);
    assert ExposureFactor(DEFAULT_WEIGHTS, EXPOSED) == 1.5 && CriticalityFactor(DEFAULT_WEIGHTS, EXPOSED) == 1.5;
  }

  lemma Share(x: real, y: real, whole: real, share: real)
    requires whole == 1.0 && x * whole == y * share
    ensures x == share * y
  {
  }

  lemma EnvironmentShares(w: Weights, s: Subject, ctx: Context, a: Environment)
    requires a in w.environment && Production in w.environment && w.environment[Production] == 1.0
    ensures Value(w, s, ctx.(environment := a)) == w.environment[a] * Value(w, s, ctx.(environment := Production))
  {
    EnvironmentsCompare(w, s, ctx, a, Production);
    Share(Value(w, s, ctx.(environment := a)), Value(w, s, ctx.(environment := Production)),
      w.environment[Production], w.environment[a]);
  }

  lemma CriticalityShares(w: Weights, s: Subject, ctx: Context, a: Criticality)
    requires a in w.criticality && MediumAsset in w.criticality && w.criticality[MediumAsset] == 1.0
    ensures Value(w, s, ctx.(criticality := a)) == w.criticality[a] * Value(w, s, ctx.(criticality := MediumAsset))
  {
    CriticalitiesCompare(w, s, ctx, a, MediumAsset);
    Share(Value(w, s, ctx.(criticality := a)), Value(w, s, ctx.(criticality := MediumAsset)),
      w.criticality[MediumAsset], w.criticality[a]);
  }

  /** What any finding is worth in a context, as a share of its worth in production or on a medium asset. */
  lemma ContextsWeigh(s: Subject, ctx: Context)
    ensures Value(DEFAULT_WEIGHTS, s, ctx.(environment := Staging)) ==
      0.6 * Value(DEFAULT_WEIGHTS, s, ctx.(environment := Production))
    ensures Value(DEFAULT_WEIGHTS, s, ctx.(environment := Development)) ==
      0.3 * Value(DEFAULT_WEIGHTS, s, ctx.(environment := Production))
    ensures Value(DEFAULT_WEIGHTS, s, ctx.(criticality := CriticalAsset)) ==
      1.5 * Value(DEFAULT_WEIGHTS, s, ctx.(criticality := MediumAsset))
    ensures Value(DEFAULT_WEIGHTS, s, ctx.(criticality := HighAsset)) ==
      1.2 * Value(DEFAULT_WEIGHTS, s, ctx.(criticality := MediumAsset))
    ensures Value(DEFAULT_WEIGHTS, s, ctx.(criticality := LowAsset)) ==
      0.7 * Value(DEFAULT_WEIGHTS, s, ctx.(criticality := MediumAsset))
    ensures Value(DEFAULT_WEIGHTS, s, ctx.(internetFacing := true)) ==
      1.5 * Value(DEFAULT_WEIGHTS, s, ctx.(internetFacing := false))
  {
    EnvironmentShares(DEFAULT_WEIGHTS, s, ctx, Staging);
    EnvironmentShares(DEFAULT_WEIGHTS, s, ctx, Development);
    CriticalityShares(DEFAULT_WEIGHTS, s, ctx, CriticalAsset);
    CriticalityShares(DEFAULT_WEIGHTS, s, ctx, HighAsset);
    CriticalityShares(DEFAULT_WEIGHTS, s, ctx, LowAsset);
    InternetScales(DEFAULT_WEIGHTS, s, ctx);
  }

  lemma ConfidenceShares(w: Weights, s: Subject, ctx: Context, sources: seq<string>, c: Confidence)
    requires !Vouched(sources) && c.Valid() && c in w.confidence && Sure in w.confidence && w.confidence[Sure] == 1.0
    ensures Value(w, WithConfidence(s, c, sources), ctx) ==
      w.confidence[c] * Value(w, WithConfidence(s, Sure, sources), ctx)
  {
    ConfidencesCompare(w, s, ctx, sources, c, Sure);
    Share(Value(w, WithConfidence(s, c, sources), ctx), Value(w, WithConfidence(s, Sure, sources), ctx),
      w.confidence[Sure], w.confidence[c]);
  }

  /** What a less certain finding is worth, as a share of a certain one. */
  lemma ConfidencesWeigh(s: Subject, ctx: Context, sources: seq<string>)
    requires !Vouched(sources)
    ensures Value(DEFAULT_WEIGHTS, WithConfidence(s, Likely, sources), ctx) ==
      0.75 * Value(DEFAULT_WEIGHTS, WithConfidence(s, Sure, sources), ctx)
    ensures Value(DEFAULT_WEIGHTS, WithConfidence(s, Weak, sources), ctx) ==
      0.5 * Value(DEFAULT_WEIGHTS, WithConfidence(s, Sure, sources), ctx)
  {
    ConfidenceShares(DEFAULT_WEIGHTS, s, ctx, sources, Likely);
    ConfidenceShares(DEFAULT_WEIGHTS, s, ctx, sources, Weak);
  }

  predicate AllPlain(ss: seq<Subject>, severity: Severity) { forall i | 0 <= i < |ss| :: Plain(ss[i], severity) }

  lemma PlainIsCrowd(ss: seq<Subject>, severity: Severity)
    requires AllPlain(ss, severity) && severity.Valid()
    ensures Crowd(DEFAULT_WEIGHTS, ss, NEUTRAL, DEFAULT_WEIGHTS.severity[severity])
  {
    var v := DEFAULT_WEIGHTS.severity[severity];
    forall i | 0 <= i < |ss| ensures !Dismissed(ss[i].f.status) && Value(DEFAULT_WEIGHTS, ss[i], NEUTRAL) == v {
      PlainValues(ss[i], severity);
    }
  }

  lemma PlainCrowd(ss: seq<Subject>, severity: Severity)
    requires ss != [] && AllPlain(ss, severity) && severity.Valid()
    ensures Total(DEFAULT_WEIGHTS, ss, NEUTRAL) == Shared(|ss|, DEFAULT_WEIGHTS.severity[severity], 0.15)
  {
    PlainIsCrowd(ss, severity);
    CrowdTotal(DEFAULT_WEIGHTS, ss, NEUTRAL, DEFAULT_WEIGHTS.severity[severity]);
  }

  lemma SharedRows()
    ensures Shared(1, DEFAULT_WEIGHTS.severity[Medium], 0.15) == 8.0
    ensures Shared(100, DEFAULT_WEIGHTS.severity[Medium], 0.15) == 126.8
    ensures Shared(50, DEFAULT_WEIGHTS.severity[Low], 0.15) == 8.35
    ensures Shared(500, DEFAULT_WEIGHTS.severity[Info], 0.15) == 3.7925
  {
  }

  /** The rows of neutral findings in the design document: 1 and 100 mediums, 50 lows, 500 informational. */
  lemma NeutralRows(ss: seq<Subject>, severity: Severity)
    requires AllPlain(ss, severity)
    ensures severity == Medium && |ss| == 1 ==> Total(DEFAULT_WEIGHTS, ss, NEUTRAL) == 8.0
    ensures severity == Medium && |ss| == 100 ==> Total(DEFAULT_WEIGHTS, ss, NEUTRAL) == 126.8
    ensures severity == Low && |ss| == 50 ==> Total(DEFAULT_WEIGHTS, ss, NEUTRAL) == 8.35
    ensures severity == Info && |ss| == 500 ==> Total(DEFAULT_WEIGHTS, ss, NEUTRAL) == 3.7925
  {
    SharedRows();
    if ss != [] && severity.Valid() { PlainCrowd(ss, severity); }
  }

  predicate AllWorst(ss: seq<Subject>) { forall i | 0 <= i < |ss| :: WorstCase(ss[i]) }

  lemma WorstIsCrowd(ss: seq<Subject>)
    requires AllWorst(ss)
    ensures Crowd(DEFAULT_WEIGHTS, ss, EXPOSED, 335.25)
  {
    forall i | 0 <= i < |ss|
      ensures !Dismissed(ss[i].f.status) && Value(DEFAULT_WEIGHTS, ss[i], EXPOSED) == 335.25
    {
      WorstWorth(ss[i]);
    }
  }

  lemma WorstCrowd(ss: seq<Subject>)
    requires ss != [] && AllWorst(ss)
    ensures Total(DEFAULT_WEIGHTS, ss, EXPOSED) == Shared(|ss|, 335.25, 0.15)
  {
    WorstIsCrowd(ss);
    CrowdTotal(DEFAULT_WEIGHTS, ss, EXPOSED, 335.25);
  }

  lemma SandboxTotal(s: Subject)
    requires Plain(s, Critical)
    ensures Total(DEFAULT_WEIGHTS, [s], SANDBOX) == 21.0
  {
    SandboxWorth(s);
    CrowdTotal(DEFAULT_WEIGHTS, [s], SANDBOX, 21.0);
  }

  /** The rows of criticals: one in a sandbox, one and ten exposed. */
  lemma CriticalRows(s: Subject, ss: seq<Subject>)
    requires Plain(s, Critical) && AllWorst(ss)
    ensures Total(DEFAULT_WEIGHTS, [s], SANDBOX) == 21.0
    ensures |ss| == 1 ==> Total(DEFAULT_WEIGHTS, ss, EXPOSED) == 335.25
    ensures |ss| == 10 ==> Total(DEFAULT_WEIGHTS, ss, EXPOSED) == 787.8375
  {
    SandboxTotal(s);
    if ss != [] { WorstCrowd(ss); }
  }

  // ---- Volume against severity ------------------------------------------

  /** The size at which a crowd of neutral findings draws level with one worst case. */
  function Crossover(severity: Severity): nat {
    match severity
    case Info => 44695
    case Low => 2230
    case Medium => 274
    case High => 69
    case Unknown => 442
    case _ => 17
  }

  lemma CrossoverIsExact(n: nat, severity: Severity)
    requires n > 0 && severity.Valid()
    ensures Shared(n, DEFAULT_WEIGHTS.severity[severity], 0.15) >= 0.0
    ensures Shared(n, DEFAULT_WEIGHTS.severity[severity], 0.15) >= 335.25 <==> n >= Crossover(severity)
  {
  }

  lemma ScoresCompare(s: real, t: real, k: real, exp: real -> real)
    requires ExpLike(exp) && k > 0.0 && s >= 0.0 && t >= 0.0
    ensures Clamp(Saturate(s, k, exp)) >= Clamp(Saturate(t, k, exp)) <==> s >= t
  {
    SaturateMonotone(s, s, k, exp);
    SaturateMonotone(t, t, k, exp);
    if s <= t { SaturateMonotone(s, t, k, exp); } else { SaturateMonotone(t, s, k, exp); }
  }

  /** Severity beats volume, up to a stated size: a crowd scores at least one worst case exactly from there on. */
  lemma CrowdOutranksExactly(ss: seq<Subject>, severity: Severity, worst: Subject, exp: real -> real)
    requires ExpLike(exp) && AllPlain(ss, severity) && severity.Valid() && WorstCase(worst)
    ensures ProjectScore(DEFAULT_WEIGHTS, ss, NEUTRAL, exp) >= ProjectScore(DEFAULT_WEIGHTS, [worst], EXPOSED, exp) <==>
      |ss| >= Crossover(severity)
  {
    var t := Total(DEFAULT_WEIGHTS, [worst], EXPOSED);
    WorstScore(worst, exp);
    if ss == [] {
      SaturateMonotone(0.0, t, 200.0, exp);
    } else {
      PlainScore(ss, severity, exp);
      ScoresCompare(Total(DEFAULT_WEIGHTS, ss, NEUTRAL), t, 200.0, exp);
    }
  }

  lemma WorstScore(worst: Subject, exp: real -> real)
    requires WorstCase(worst)
    ensures Total(DEFAULT_WEIGHTS, [worst], EXPOSED) == 335.25
    ensures ProjectScore(DEFAULT_WEIGHTS, [worst], EXPOSED, exp) == Clamp(Saturate(335.25, 200.0, exp))
  {
    assert AllWorst([worst]);
    WorstCrowd([worst]);
    WorstIsCrowd([worst]);
    CrowdValues(DEFAULT_WEIGHTS, [worst], EXPOSED, 335.25);
  }

  lemma PlainScore(ss: seq<Subject>, severity: Severity, exp: real -> real)
    requires ss != [] && AllPlain(ss, severity) && severity.Valid()
    ensures Total(DEFAULT_WEIGHTS, ss, NEUTRAL) >= 0.0
    ensures Total(DEFAULT_WEIGHTS, ss, NEUTRAL) >= 335.25 <==> |ss| >= Crossover(severity)
    ensures ProjectScore(DEFAULT_WEIGHTS, ss, NEUTRAL, exp) ==
      Clamp(Saturate(Total(DEFAULT_WEIGHTS, ss, NEUTRAL), 200.0, exp))
  {
    PlainCrowd(ss, severity);
    CrossoverIsExact(|ss|, severity);
    SomeValues(ss, severity);
  }

  lemma SomeValues(ss: seq<Subject>, severity: Severity)
    requires ss != [] && AllPlain(ss, severity) && severity.Valid()
    ensures Values(DEFAULT_WEIGHTS, ss, NEUTRAL) != []
  {
    PlainIsCrowd(ss, severity);
    CrowdValues(DEFAULT_WEIGHTS, ss, NEUTRAL, DEFAULT_WEIGHTS.severity[severity]);
  }
}
