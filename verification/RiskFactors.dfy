/**
 RiskFactors: what each circumstance does to a finding's value (internal/risk).
 Values are compared with one another, circumstance by circumstance, and tied
 down by the value of a finding with nothing special about it.
 */
module RiskFactors {
  import opened Ordering
  import opened Model
  import opened Risk
  import opened RiskTheorems

  /** The value with one of its five factors taken out. */
  lemma ScaledExploitability(v: real, k: real, x: real, c: real, f: real)
    ensures v * (k * x * c * f) == k * (v * (1.0 * x * c * f))
  {
    assert k * x * c * f == k * (x * c * f);
    assert v * (k * (x * c * f)) == k * (v * (x * c * f));
  }

  lemma ScaledExposure(v: real, e: real, n: real, k: real, c: real, f: real)
    ensures v * (e * (n * k) * c * f) == k * (v * (e * (n * 1.0) * c * f))
  {
    assert e * (n * k) == k * (e * n);
    assert k * (e * n) * c * f == k * (e * n * c * f);
    assert v * (k * (e * n * c * f)) == k * (v * (e * n * c * f));
  }

  /** Two values that differ in one factor compare as that factor does. */
  lemma CrossEnvironment(v: real, e: real, n: real, m: real, k: real, c: real, f: real)
    ensures v * (e * (n * k) * c * f) * m == v * (e * (m * k) * c * f) * n
  {
    var r := v * (e * k * c * f);
    assert e * (n * k) * c * f == n * (e * k * c * f) && e * (m * k) * c * f == m * (e * k * c * f);
    assert v * (n * (e * k * c * f)) == r * n && v * (m * (e * k * c * f)) == r * m;
    assert r * n * m == r * m * n;
  }

  lemma CrossCriticality(v: real, e: real, x: real, n: real, m: real, f: real)
    ensures v * (e * x * n * f) * m == v * (e * x * m * f) * n
  {
    var r := v * (e * x * f);
    assert e * x * n * f == n * (e * x * f) && e * x * m * f == m * (e * x * f);
    assert v * (n * (e * x * f)) == r * n && v * (m * (e * x * f)) == r * m;
    assert r * n * m == r * m * n;
  }

  lemma CrossConfidence(v: real, e: real, x: real, c: real, n: real, m: real)
    ensures v * (e * x * c * n) * m == v * (e * x * c * m) * n
  {
    var r := v * (e * x * c);
    assert v * (e * x * c * n) == r * n && v * (e * x * c * m) == r * m;
    assert r * n * m == r * m * n;
  }

  lemma CrossSeverity(n: real, m: real, r: real)
    ensures n * r * m == m * r * n
  {
    assert n * r * m == n * (r * m) && m * r * n == n * (r * m);
  }

  // ---- Threat intelligence ----------------------------------------------

  function WithEpss(s: Subject, epss: Option<real>): Subject { s.(f := s.f.(epss := epss)) }

  /** A percentile multiplies the value by the floor plus itself. */
  lemma PercentileScales(w: Weights, s: Subject, ctx: Context, p: real)
    ensures Value(w, WithEpss(s, Some(p)), ctx) == (w.exploitabilityFloor + p) * Value(w, WithEpss(s, None), ctx)
  {
    var a, b := WithEpss(s, Some(p)), WithEpss(s, None);
    assert Reporters(a) == Reporters(b) && ConfidenceFactor(w, a) == ConfidenceFactor(w, b);
    ScaledExploitability(SeverityFactor(w, EffectiveSeverity(b).0), w.exploitabilityFloor + p,
      ExposureFactor(w, ctx), CriticalityFactor(w, ctx), ConfidenceFactor(w, b));
  }

  /** A higher percentile means a higher value, wherever the finding is worth anything. */
  lemma PercentileRaises(w: Weights, s: Subject, ctx: Context, p: real, q: real)
    requires p < q && Value(w, WithEpss(s, None), ctx) > 0.0
    ensures Value(w, WithEpss(s, Some(p)), ctx) < Value(w, WithEpss(s, Some(q)), ctx)
  {
    PercentileScales(w, s, ctx, p);
    PercentileScales(w, s, ctx, q);
    MulStrict(w.exploitabilityFloor + p, w.exploitabilityFloor + q, Value(w, WithEpss(s, None), ctx));
  }

  // ---- Where it runs ----------------------------------------------------

  /** Facing the internet multiplies the value by its weight. */
  lemma InternetScales(w: Weights, s: Subject, ctx: Context)
    ensures Value(w, s, ctx.(internetFacing := true)) ==
      w.internetFacing * Value(w, s, ctx.(internetFacing := false))
  {
    ScaledExposure(SeverityFactor(w, EffectiveSeverity(s).0), ExploitabilityFactor(w, s.f.epss),
      Entry(w.environment, ctx.environment, 1.0), w.internetFacing, CriticalityFactor(w, ctx), ConfidenceFactor(w, s));
  }

  /** Values in two environments of the table compare as their entries. */
  lemma EnvironmentsCompare(w: Weights, s: Subject, ctx: Context, a: Environment, b: Environment)
    requires a in w.environment && b in w.environment
    ensures Value(w, s, ctx.(environment := a)) * w.environment[b] ==
      Value(w, s, ctx.(environment := b)) * w.environment[a]
  {
    CrossEnvironment(SeverityFactor(w, EffectiveSeverity(s).0), ExploitabilityFactor(w, s.f.epss),
      w.environment[a], w.environment[b], if ctx.internetFacing then w.internetFacing else 1.0,
      CriticalityFactor(w, ctx), ConfidenceFactor(w, s));
  }

  /** An environment missing from the table weighs one. */
  lemma UnlistedEnvironment(w: Weights, s: Subject, ctx: Context, a: Environment, b: Environment)
    requires a !in w.environment && b in w.environment
    ensures Value(w, s, ctx.(environment := a)) * w.environment[b] == Value(w, s, ctx.(environment := b))
  {
    CrossEnvironment(SeverityFactor(w, EffectiveSeverity(s).0), ExploitabilityFactor(w, s.f.epss),
      1.0, w.environment[b], if ctx.internetFacing then w.internetFacing else 1.0,
      CriticalityFactor(w, ctx), ConfidenceFactor(w, s));
    assert Value(w, s, ctx.(environment := b)) * 1.0 == Value(w, s, ctx.(environment := b));
  }

  /** Values at two criticalities of the table compare as their entries. */
  lemma CriticalitiesCompare(w: Weights, s: Subject, ctx: Context, a: Criticality, b: Criticality)
    requires a in w.criticality && b in w.criticality
    ensures Value(w, s, ctx.(criticality := a)) * w.criticality[b] ==
      Value(w, s, ctx.(criticality := b)) * w.criticality[a]
  {
    assert ExposureFactor(w, ctx.(criticality := a)) == ExposureFactor(w, ctx.(criticality := b));
    CrossCriticality(SeverityFactor(w, EffectiveSeverity(s).0), ExploitabilityFactor(w, s.f.epss),
      ExposureFactor(w, ctx.(criticality := a)), w.criticality[a], w.criticality[b], ConfidenceFactor(w, s));
  }

  /** A criticality missing from the table weighs one. */
  lemma UnlistedCriticality(w: Weights, s: Subject, ctx: Context, a: Criticality, b: Criticality)
    requires a !in w.criticality && b in w.criticality
    ensures Value(w, s, ctx.(criticality := a)) * w.criticality[b] == Value(w, s, ctx.(criticality := b))
  {
    assert ExposureFactor(w, ctx.(criticality := a)) == ExposureFactor(w, ctx.(criticality := b));
    CrossCriticality(SeverityFactor(w, EffectiveSeverity(s).0), ExploitabilityFactor(w, s.f.epss),
      ExposureFactor(w, ctx.(criticality := a)), 1.0, w.criticality[b], ConfidenceFactor(w, s));
    assert Value(w, s, ctx.(criticality := b)) * 1.0 == Value(w, s, ctx.(criticality := b));
  }

  // ---- How bad it is ----------------------------------------------------

  /** The severity a finding counts with: its own, or its worst issue's where that is known and worse. */
  predicate CountsAs(s: Subject, v: Severity) {
    if s.issue.Some? && s.issue.value.Valid() && s.f.severity.Rank() < s.issue.value.Rank()
    then v == s.issue.value else v == s.f.severity
  }

  /** Values of one finding at two severities compare as the weights of what it counts as. */
  lemma SeveritiesCompare(w: Weights, s: Subject, t: Subject, ctx: Context, a: Severity, b: Severity)
    requires t == s.(f := s.f.(severity := t.f.severity), issue := t.issue) && CountsAs(s, a) && CountsAs(t, b)
    requires a in w.severity && b in w.severity
    ensures Value(w, s, ctx) * w.severity[b] == Value(w, t, ctx) * w.severity[a]
  {
    assert Reporters(s) == Reporters(t) && Multiplier(w, s, ctx) == Multiplier(w, t, ctx);
    CrossSeverity(w.severity[a], w.severity[b], Multiplier(w, s, ctx));
  }

  /** A severity outside the table weighs as `unknown` does. */
  lemma UnlistedSeverity(w: Weights, s: Subject, ctx: Context, text: string)
    requires Unknown in w.severity && Unrecognised(text) !in w.severity && s.issue == None
    ensures Value(w, s.(f := s.f.(severity := Unrecognised(text))), ctx) ==
      Value(w, s.(f := s.f.(severity := Unknown)), ctx)
  {
    var a, b := s.(f := s.f.(severity := Unrecognised(text))), s.(f := s.f.(severity := Unknown));
    assert Reporters(a) == Reporters(b);
  }

  // ---- How sure it is ---------------------------------------------------

  function WithConfidence(s: Subject, c: Confidence, sources: seq<string>): Subject {
    s.(f := s.f.(confidence := c), sources := sources)
  }

  /** Two different scanners with a name report it. */
  ghost predicate Vouched(sources: seq<string>) {
    exists i, j :: 0 <= i < j < |sources| && sources[i] != sources[j] && sources[i] != "" && sources[j] != ""
  }

  lemma VouchedExactly(s: Subject)
    ensures Vouched(s.sources) <==> |Reporters(s)| >= 2
  {
    var ss := s.sources;
    if i, j :| 0 <= i < j < |ss| && ss[i] != ss[j] && ss[i] != "" && ss[j] != "" {
      SubsetSize({ss[i], ss[j]}, Reporters(s));
    }
    if |Reporters(s)| >= 2 {
      var x :| x in Reporters(s);
      assert |Reporters(s) - {x}| == |Reporters(s)| - 1;
      var y :| y in Reporters(s) - {x};
      var i :| 0 <= i < |ss| && ss[i] == x;
      var j :| 0 <= j < |ss| && ss[j] == y;
      assert Vouched(ss) by {
        if i < j { assert ss[i] != ss[j]; } else { assert ss[j] != ss[i]; }
      }
    }
  }

  /** At one number of reporters, values compare as the confidence weights do. */
  lemma ConfidencesCompare(w: Weights, s: Subject, ctx: Context, sources: seq<string>, a: Confidence, b: Confidence)
    requires !Vouched(sources) && a.Valid() && b.Valid() && a in w.confidence && b in w.confidence
    ensures Value(w, WithConfidence(s, a, sources), ctx) * w.confidence[b] ==
      Value(w, WithConfidence(s, b, sources), ctx) * w.confidence[a]
  {
    VouchedExactly(WithConfidence(s, a, sources));
    VouchedExactly(WithConfidence(s, b, sources));
    CrossConfidence(SeverityFactor(w, EffectiveSeverity(s).0), ExploitabilityFactor(w, s.f.epss),
      ExposureFactor(w, ctx), CriticalityFactor(w, ctx), w.confidence[a], w.confidence[b]);
  }

  /** Findings that differ in confidence and reporters alone are worth the same at the same confidence weight. */
  lemma SameConfidenceWeight(w: Weights, s: Subject, ctx: Context, a: Subject, b: Subject)
    requires a.f.severity == b.f.severity == s.f.severity && a.f.epss == b.f.epss == s.f.epss && a.issue == b.issue
    requires ConfidenceFactor(w, a) == ConfidenceFactor(w, b)
    ensures Value(w, a, ctx) == Value(w, b, ctx)
  {
  }

  /** The weight a confidence has once a second reporter raised it from one to the other. */
  lemma Raised(w: Weights, s: Subject, c: Confidence, d: Confidence, one: seq<string>, two: seq<string>)
    requires !Vouched(one) && Vouched(two) && c.Valid() && d.Valid() && RaiseConfidence(c) == d
    ensures ConfidenceFactor(w, WithConfidence(s, c, two)) == ConfidenceFactor(w, WithConfidence(s, d, one))
  {
    CountedReporters(s, c, one, two);
    CountedReporters(s, d, one, two);
  }

  /** A second reporter counts as one step of confidence; the surest stays where it is. */
  lemma CorroborationIsAStep(w: Weights, s: Subject, ctx: Context, one: seq<string>, two: seq<string>)
    requires !Vouched(one) && Vouched(two)
    ensures Value(w, WithConfidence(s, Weak, two), ctx) == Value(w, WithConfidence(s, Likely, one), ctx)
    ensures Value(w, WithConfidence(s, Likely, two), ctx) == Value(w, WithConfidence(s, Sure, one), ctx)
    ensures Value(w, WithConfidence(s, Sure, two), ctx) == Value(w, WithConfidence(s, Sure, one), ctx)
  {
    Raised(w, s, Weak, Likely, one, two);
    Raised(w, s, Likely, Sure, one, two);
    Raised(w, s, Sure, Sure, one, two);
    SameConfidenceWeight(w, s, ctx, WithConfidence(s, Weak, two), WithConfidence(s, Likely, one));
    SameConfidenceWeight(w, s, ctx, WithConfidence(s, Likely, two), WithConfidence(s, Sure, one));
    SameConfidenceWeight(w, s, ctx, WithConfidence(s, Sure, two), WithConfidence(s, Sure, one));
  }

  lemma CountedReporters(s: Subject, c: Confidence, one: seq<string>, two: seq<string>)
    requires !Vouched(one) && Vouched(two)
    ensures |Reporters(WithConfidence(s, c, one))| < 2 <= |Reporters(WithConfidence(s, c, two))|
  {
    VouchedExactly(WithConfidence(s, c, one));
    VouchedExactly(WithConfidence(s, c, two));
  }

  /** Confidence nobody recognises counts as weak. */
  lemma UnrecognisedConfidenceIsWeak(w: Weights, s: Subject, ctx: Context, text: string)
    ensures Value(w, WithConfidence(s, UnrecognisedConfidence(text), s.sources), ctx) ==
      Value(w, WithConfidence(s, Weak, s.sources), ctx)
  {
    var a, b := WithConfidence(s, UnrecognisedConfidence(text), s.sources), WithConfidence(s, Weak, s.sources);
    assert Reporters(a) == Reporters(b);
  }

  // ---- A finding with nothing special about it --------------------------

  /** No intelligence, no issue, one sure reporter, an unexposed medium asset in production: the four weights. */
  lemma PlainValue(w: Weights, f: Finding, source: string)
    requires w.Valid() && f.severity.Valid() && f.confidence == Sure && f.epss == None
    ensures Value(w, Subject(f, [source], None), Context(Production, MediumAsset, false)) ==
      w.severity[f.severity] * (w.environment[Production] * w.criticality[MediumAsset] * w.confidence[Sure])
  {
    var s := Subject(f, [source], None);
    VouchedExactly(s);
    var e, c := w.environment[Production], w.criticality[MediumAsset];
    assert 1.0 * (e * 1.0) * c == e * c;
  }

  // ---- Scores -----------------------------------------------------------

  /** Every finding is scored in place; settled ones at nothing, with their own severity. */
  lemma ScoresExactly(w: Weights, ss: seq<Subject>, ctx: Context, i: nat)
    requires i < |ss|
    ensures var r, s := Scores(w, ss, ctx)[i], ss[i];
      && r.fingerprint == s.f.fingerprint
      && (r.dismissed <==> s.f.status in {Resolved, FalsePositive, Ignored})
      && (r.dismissed ==> r.value == 0.0 && r.severity == s.f.severity && !r.escalated)
      && (!r.dismissed ==> r.value == Value(w, s, ctx) && CountsAs(s, r.severity))
      && (!r.dismissed ==> (r.escalated <==> r.severity != s.f.severity))
  {
  }

  lemma QuotientScales(t: real, k: real, c: real)
    requires k > 0.0 && c > 0.0
    ensures c * k != 0.0 && -(c * t) / (c * k) == -t / k
  {
    ProductPositive(c, k);
    var q := -t / k;
    assert q * k == -t;
    assert q * (c * k) == c * (q * k) == c * -t == -(c * t);
  }

  /** Only the total in units of the saturation constant matters. */
  lemma SaturationScales(t: real, k: real, c: real, exp: real -> real)
    requires k > 0.0 && c > 0.0
    ensures c * k != 0.0 && Saturate(c * t, c * k, exp) == Saturate(t, k, exp)
    ensures Saturate(t, 1.0, exp) == 100.0 - 100.0 * exp(-t)
  {
    QuotientScales(t, k, c);
    assert -t / 1.0 == -t;
  }

  // ---- One more finding -------------------------------------------------

  /** A value no worse than the worst adds its tail share; a worse one takes the worst one's place. */
  predicate Grows(total: real, more: real, max: real, r: real, tail: real) {
    more == if r <= max then total + tail * r else total + r - max * (1.0 - tail)
  }

  lemma CombineTail(sum: real, max: real, r: real, tail: real)
    ensures Combine(sum + r, max, tail) == Combine(sum, max, tail) + tail * r
  {
    CombineShift(sum, max, r, 0.0, tail);
    assert 0.0 * (1.0 - tail) == 0.0;
  }

  lemma CombineHead(sum: real, max: real, r: real, tail: real)
    ensures Combine(sum + r, r, tail) == Combine(sum, max, tail) + r - max * (1.0 - tail)
  {
    CombineShift(sum, max, r, r - max, tail);
    assert (r - max) * (1.0 - tail) + r * tail == r - max * (1.0 - tail);
  }

  lemma CombineMore(sum: real, max: real, r: real, tail: real, sum': real, max': real)
    requires sum' == sum + r && max' == if r <= max then max else r
    ensures Grows(Combine(sum, max, tail), Combine(sum', max', tail), max, r, tail)
  {
    CombineTail(sum, max, r, tail);
    CombineHead(sum, max, r, tail);
  }

  lemma SumMaxMore(vs: seq<real>, r: real)
    requires NonNegative(vs) && r >= 0.0
    ensures Sum(vs + [r]) == Sum(vs) + r
    ensures Max(vs + [r]) == if r <= Max(vs) then Max(vs) else r
  {
    assert (vs + [r])[..|vs|] == vs;
  }

  lemma OneMoreValue(vs: seq<real>, r: real, tail: real)
    requires NonNegative(vs) && r >= 0.0
    ensures Grows(TotalOf(vs, tail), TotalOf(vs + [r], tail), Max(vs), r, tail)
  {
    SumMaxMore(vs, r);
    CombineMore(Sum(vs), Max(vs), r, tail, Sum(vs + [r]), Max(vs + [r]));
  }

  /** Nothing is worth nothing. */
  lemma NoValues(tail: real)
    ensures TotalOf([], tail) == 0.0
  {
  }
}
