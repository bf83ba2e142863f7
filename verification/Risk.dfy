/**
 Risk: the score of a finding and of a project (internal/risk). Reals stand for
 floating point, and the exponential is a parameter known only to be positive,
 strictly increasing and 1 at 0.
 */
module Risk {
  import opened Ordering
  import opened Model

  datatype Environment = Production | Staging | Development | UndeclaredEnvironment(text: string)

  datatype Criticality = CriticalAsset | HighAsset | MediumAsset | LowAsset | UndeclaredCriticality(text: string)

  datatype Context = Context(environment: Environment, criticality: Criticality, internetFacing: bool)

  /** A finding with its reporters and the severity of the worst issue it belongs to. */
  datatype Subject = Subject(f: Finding, sources: seq<string>, issue: Option<Severity>)

  datatype Weights = Weights(
    severity: map<Severity, real>, environment: map<Environment, real>, internetFacing: real,
    criticality: map<Criticality, real>, confidence: map<Confidence, real>,
    exploitabilityFloor: real, tailWeight: real, saturation: real)
  {
    /** Weights.Validate: every table complete and every number in its range. */
    predicate Valid() {
      && Positive(severity, Critical) && Positive(severity, High) && Positive(severity, Medium)
      && Positive(severity, Unknown) && Positive(severity, Low) && Positive(severity, Info)
      && Positive(environment, Development) && Positive(environment, Staging) && Positive(environment, Production)
      && Positive(criticality, LowAsset) && Positive(criticality, MediumAsset)
      && Positive(criticality, HighAsset) && Positive(criticality, CriticalAsset)
      && Positive(confidence, Sure) && Positive(confidence, Likely) && Positive(confidence, Weak)
      && confidence[Sure] <= 1.0 && confidence[Likely] <= 1.0 && confidence[Weak] <= 1.0
      && internetFacing >= 1.0
      && 0.0 <= exploitabilityFloor <= 1.0
      && 0.0 <= tailWeight <= 1.0
      && saturation > 0.0
    }

    /** A worse severity never weighs less. Validate does not ask for this. */
    predicate FollowsRank()
      requires Valid()
    {
      severity[Info] <= severity[Low] <= severity[Unknown] <= severity[Medium] <= severity[High] <= severity[Critical]
    }

    /** The project's environment and criticality weigh something. Validate ensures it for declared ones. */
    predicate Places(ctx: Context) {
      Entry(environment, ctx.environment, 1.0) > 0.0 && Entry(criticality, ctx.criticality, 1.0) > 0.0
    }
  }

  predicate Positive<K(==)>(table: map<K, real>, key: K) { key in table && table[key] > 0.0 }

  function Entry<K(==)>(table: map<K, real>, key: K, default: real): real {
    if key in table then table[key] else default
  }

  lemma DeclaredContextsArePlaced(w: Weights, ctx: Context)
    requires w.Valid() && !ctx.environment.UndeclaredEnvironment? && !ctx.criticality.UndeclaredCriticality?
    ensures w.Places(ctx)
  {
  }

  const DEFAULT_WEIGHTS: Weights := Weights(
    map[Critical := 100.0, High := 30.0, Medium := 8.0, Unknown := 5.0, Low := 1.0, Info := 0.05],
    map[Production := 1.0, Staging := 0.6, Development := 0.3],
    1.5,
    map[CriticalAsset := 1.5, HighAsset := 1.2, MediumAsset := 1.0, LowAsset := 0.7],
    map[Sure := 1.0, Likely := 0.75, Weak := 0.5],
    0.5, 0.15, 200.0)

  /** The defaults are valid, follow rank, and place every context, declared or not. */
  lemma DefaultWeightsAreValid(ctx: Context)
    ensures DEFAULT_WEIGHTS.Valid() && DEFAULT_WEIGHTS.FollowsRank() && DEFAULT_WEIGHTS.Places(ctx)
  {
  }

  ghost predicate ExpLike(exp: real -> real) {
    && (forall x :: exp(x) > 0.0)
    && (forall x, y | x < y :: exp(x) < exp(y))
    && exp(0.0) == 1.0
  }

  // ---- One finding ------------------------------------------------------

  /** The issue's severity where it is worse, and whether it was used. */
  function EffectiveSeverity(s: Subject): (Severity, bool) {
    if s.issue.Some? && s.issue.value.Valid() && s.issue.value.Rank() > s.f.severity.Rank()
    then (s.issue.value, true) else (s.f.severity, false)
  }

  function SeverityFactor(w: Weights, s: Severity): real {
    Entry(w.severity, s, Entry(w.severity, Unknown, 0.0))
  }

  function ExploitabilityFactor(w: Weights, epss: Option<real>): real {
    if epss.None? then 1.0 else w.exploitabilityFloor + epss.value
  }

  function ExposureFactor(w: Weights, ctx: Context): real {
    Entry(w.environment, ctx.environment, 1.0) * if ctx.internetFacing then w.internetFacing else 1.0
  }

  function CriticalityFactor(w: Weights, ctx: Context): real {
    Entry(w.criticality, ctx.criticality, 1.0)
  }

  function Reporters(s: Subject): set<string> {
    set x | x in s.sources && x != ""
  }

  function RaiseConfidence(c: Confidence): Confidence {
    match c case Weak => Likely case Likely => Sure case _ => c
  }

  function ConfidenceFactor(w: Weights, s: Subject): real {
    var level := if s.f.confidence.Valid() then s.f.confidence else Weak;
    var used := if |Reporters(s)| >= 2 then RaiseConfidence(level) else level;
    Entry(w.confidence, used, Entry(w.confidence, Weak, 0.0))
  }

  /** Everything but the severity. */
  function Multiplier(w: Weights, s: Subject, ctx: Context): real {
    ExploitabilityFactor(w, s.f.epss) * ExposureFactor(w, ctx) * CriticalityFactor(w, ctx) * ConfidenceFactor(w, s)
  }

  /** The risk of a finding that counts. */
  function Value(w: Weights, s: Subject, ctx: Context): real {
    SeverityFactor(w, EffectiveSeverity(s).0) * Multiplier(w, s, ctx)
  }

  datatype Score = Score(fingerprint: string, value: real, severity: Severity, escalated: bool, dismissed: bool)

  /** scoreOne. */
  function ScoreOne(w: Weights, s: Subject, ctx: Context): Score {
    if Dismissed(s.f.status) then Score(s.f.fingerprint, 0.0, s.f.severity, false, true)
    else Score(s.f.fingerprint, Value(w, s, ctx), EffectiveSeverity(s).0, EffectiveSeverity(s).1, false)
  }

  // ---- A project --------------------------------------------------------

  /** The values of the findings that count. */
  function Values(w: Weights, ss: seq<Subject>, ctx: Context): seq<real> {
    if ss == [] then [] else
      var s := ss[|ss| - 1];
      Values(w, ss[..|ss| - 1], ctx) + if Dismissed(s.f.status) then [] else [Value(w, s, ctx)]
  }

  function Sum(vs: seq<real>): real {
    if vs == [] then 0.0 else Sum(vs[..|vs| - 1]) + vs[|vs| - 1]
  }

  function Max(vs: seq<real>): real {
    if vs == [] then 0.0
    else if |vs| == 1 then vs[0]
    else if vs[|vs| - 1] > Max(vs[..|vs| - 1]) then vs[|vs| - 1]
    else Max(vs[..|vs| - 1])
  }

  /** The worst finding, and a fraction of everything else. */
  function Combine(sum: real, max: real, tail: real): real { max + tail * (sum - max) }

  function TotalOf(vs: seq<real>, tail: real): real { Combine(Sum(vs), Max(vs), tail) }

  function Clamp(score: real): real {
    if score < 0.0 then 0.0 else if score > 100.0 then 100.0 else score
  }

  function Saturate(total: real, k: real, exp: real -> real): real
    requires k != 0.0
  {
    100.0 * (1.0 - exp(-total / k))
  }

  function Total(w: Weights, ss: seq<Subject>, ctx: Context): real { TotalOf(Values(w, ss, ctx), w.tailWeight) }

  function ProjectScore(w: Weights, ss: seq<Subject>, ctx: Context, exp: real -> real): real
    requires w.saturation != 0.0
  {
    if Values(w, ss, ctx) == [] then 0.0 else Clamp(Saturate(Total(w, ss, ctx), w.saturation, exp))
  }

  datatype Assessment = Assessment(score: real, total: real, findings: seq<Score>, live: nat, dismissed: nat)

  function Scores(w: Weights, ss: seq<Subject>, ctx: Context): (r: seq<Score>)
    ensures |r| == |ss|
  {
    seq(|ss|, i requires 0 <= i < |ss| => ScoreOne(w, ss[i], ctx))
  }

  /** aggregate: one pass over the values for their sum and maximum. */
  method Aggregate(values: seq<real>, tail: real, k: real, exp: real -> real) returns (total: real, score: real)
    requires k != 0.0
    ensures total == TotalOf(values, tail)
    ensures score == if values == [] then 0.0 else Clamp(Saturate(total, k, exp))
  {
    if values == [] {
      return 0.0, 0.0;
    }
    var sum, max := 0.0, values[0];
    for i := 0 to |values|
      invariant sum == Sum(values[..i])
      invariant max == if i == 0 then values[0] else Max(values[..i])
    {
      assert values[..i + 1][..i] == values[..i];
      sum := sum + values[i];
      if values[i] > max {
        max := values[i];
      }
    }
    assert values[..|values|] == values;
    total := max + tail * (sum - max);
    score := Clamp(100.0 * (1.0 - exp(-total / k)));
  }

  /** The assessment of a project: every finding scored in place, the live ones combined. */
  ghost predicate Assessed(a: Assessment, w: Weights, ss: seq<Subject>, ctx: Context, exp: real -> real)
    requires w.saturation != 0.0
  {
    && a.total == Total(w, ss, ctx)
    && a.score == ProjectScore(w, ss, ctx, exp)
    && a.findings == Scores(w, ss, ctx)
    && a.live == |Values(w, ss, ctx)|
    && a.live + a.dismissed == |ss|
  }

  /** AssessWith: invalid weights are refused; valid ones score every finding and combine the live ones. */
  method Assess(w: Weights, ss: seq<Subject>, ctx: Context, exp: real -> real) returns (a: Option<Assessment>)
    ensures a.Some? <==> w.Valid()
    ensures a.Some? ==> Assessed(a.value, w, ss, ctx, exp)
  {
    if !w.Valid() {
      return None;
    }
    var findings: seq<Score>, values: seq<real>, dismissed, live := [], [], 0, 0;
    for i := 0 to |ss|
      invariant findings == Scores(w, ss, ctx)[..i]
      invariant values == Values(w, ss[..i], ctx)
      invariant live == |values| && live + dismissed == i
    {
      assert ss[..i + 1][..i] == ss[..i];
      var sc := ScoreOne(w, ss[i], ctx);
      findings := findings + [sc];
      if sc.dismissed {
        dismissed := dismissed + 1;
      } else {
        live := live + 1;
        values := values + [sc.value];
      }
    }
    assert ss[..|ss|] == ss;
    var total, score := Aggregate(values, w.tailWeight, w.saturation, exp);
    a := Some(Assessment(score, total, findings, live, dismissed));
  }

  // ---- Aggregation is monotone ------------------------------------------

  ghost predicate NonNegative(vs: seq<real>) { forall i | 0 <= i < |vs| :: vs[i] >= 0.0 }

  lemma MulMonotone(a: real, b: real, x: real)
    requires a <= b && x >= 0.0
    ensures a * x <= b * x
  {
  }

  lemma ProductNonNegative(a: real, b: real)
    requires a >= 0.0 && b >= 0.0
    ensures a * b >= 0.0
  {
  }

  /** What a change of the sum by `d` and of the maximum by `e` does to the combination. */
  lemma CombineShift(sum: real, max: real, d: real, e: real, tail: real)
    ensures Combine(sum + d, max + e, tail) == Combine(sum, max, tail) + e * (1.0 - tail) + d * tail
  {
    assert tail * (sum + d - (max + e)) == tail * (sum - max) + tail * d - tail * e;
  }

  /** Raising the sum or the maximum never lowers the combination, for a tail weight within [0, 1]. */
  lemma CombineMonotone(sum: real, max: real, sum': real, max': real, tail: real)
    requires sum <= sum' && max <= max' && 0.0 <= tail <= 1.0
    ensures Combine(sum, max, tail) <= Combine(sum', max', tail)
  {
    ProductNonNegative(sum' - sum, tail);
    ProductNonNegative(max' - max, 1.0 - tail);
    CombineShift(sum, max, sum' - sum, max' - max, tail);
    assert sum + (sum' - sum) == sum' && max + (max' - max) == max';
  }

  lemma {:induction false} SumMaxFacts(vs: seq<real>)
    requires NonNegative(vs)
    ensures 0.0 <= Max(vs) <= Sum(vs)
    ensures forall i | 0 <= i < |vs| :: vs[i] <= Max(vs)
  {
    if vs != [] { SumMaxFacts(vs[..|vs| - 1]); }
  }

  /** A total is never negative. */
  lemma TotalNonNegative(vs: seq<real>, tail: real)
    requires NonNegative(vs) && 0.0 <= tail <= 1.0
    ensures TotalOf(vs, tail) >= 0.0
  {
    SumMaxFacts(vs);
    CombineMonotone(0.0, 0.0, Sum(vs), Max(vs), tail);
  }

  /** `a` is `b` with some values left out and others lowered. */
  ghost predicate Below(a: seq<real>, b: seq<real>) {
    if b == [] then a == []
    else
      || Below(a, b[..|b| - 1])
      || (a != [] && a[|a| - 1] <= b[|b| - 1] && Below(a[..|a| - 1], b[..|b| - 1]))
  }

  lemma {:induction false} BelowSumMax(a: seq<real>, b: seq<real>)
    requires NonNegative(a) && NonNegative(b) && Below(a, b)
    ensures Sum(a) <= Sum(b) && Max(a) <= Max(b)
    decreases |b|
  {
    if b != [] {
      SumMaxFacts(b);
      SumMaxFacts(b[..|b| - 1]);
      if Below(a, b[..|b| - 1]) {
        BelowSumMax(a, b[..|b| - 1]);
      } else {
        BelowSumMax(a[..|a| - 1], b[..|b| - 1]);
        SumMaxFacts(a);
      }
    }
  }

  /** Leaving findings out, or lowering their values, never raises the total. */
  lemma TotalMonotone(a: seq<real>, b: seq<real>, tail: real)
    requires NonNegative(a) && NonNegative(b) && Below(a, b) && 0.0 <= tail <= 1.0
    ensures TotalOf(a, tail) <= TotalOf(b, tail)
  {
    BelowSumMax(a, b);
    CombineMonotone(Sum(a), Max(a), Sum(b), Max(b), tail);
  }

  // ---- The score follows the total --------------------------------------

  lemma QuotientMonotone(s: real, t: real, k: real)
    requires s < t && k > 0.0
    ensures -t / k < -s / k
  {
    assert -s / k - (-t / k) == (t - s) / k;
  }

  /** The clamp never fires: a score lies in [0, 100) and rises strictly with the total. */
  lemma SaturateMonotone(s: real, t: real, k: real, exp: real -> real)
    requires ExpLike(exp) && k > 0.0 && 0.0 <= s <= t
    ensures 0.0 <= Saturate(s, k, exp) <= Saturate(t, k, exp) < 100.0
    ensures s < t ==> Saturate(s, k, exp) < Saturate(t, k, exp)
    ensures Clamp(Saturate(s, k, exp)) == Saturate(s, k, exp)
    ensures s == 0.0 ==> Saturate(s, k, exp) == 0.0
  {
    assert exp(-t / k) > 0.0 && exp(-s / k) > 0.0;
    assert -0.0 / k == 0.0;
    if s < t { QuotientMonotone(s, t, k); assert exp(-t / k) < exp(-s / k); }
    if 0.0 < s { QuotientMonotone(0.0, s, k); assert exp(-s / k) < exp(0.0); }
  }

  // ---- Values are not negative ------------------------------------------

  lemma FactorsPositive(w: Weights, s: Subject, ctx: Context)
    requires w.Valid() && w.Places(ctx) && s.f.Storable()
    ensures ExploitabilityFactor(w, s.f.epss) >= 0.0 && CriticalityFactor(w, ctx) >= 0.0
    ensures ConfidenceFactor(w, s) >= 0.0
    ensures SeverityFactor(w, EffectiveSeverity(s).0) >= 0.0
  {
  }

  lemma MultiplierNonNegative(w: Weights, s: Subject, ctx: Context)
    requires w.Valid() && w.Places(ctx) && s.f.Storable()
    ensures Multiplier(w, s, ctx) >= 0.0
  {
    FactorsPositive(w, s, ctx);
    ExposureNonNegative(w, ctx);
    ProductOfFour(ExploitabilityFactor(w, s.f.epss), ExposureFactor(w, ctx), CriticalityFactor(w, ctx),
      ConfidenceFactor(w, s));
  }

  lemma ExposureNonNegative(w: Weights, ctx: Context)
    requires w.Valid() && w.Places(ctx)
    ensures ExposureFactor(w, ctx) >= 0.0
  {
    ProductNonNegative(Entry(w.environment, ctx.environment, 1.0),
      if ctx.internetFacing then w.internetFacing else 1.0);
  }

  lemma ProductOfFour(a: real, b: real, c: real, d: real)
    requires a >= 0.0 && b >= 0.0 && c >= 0.0 && d >= 0.0
    ensures a * b * c * d >= 0.0
  {
    ProductNonNegative(a, b);
    ProductNonNegative(a * b, c);
    ProductNonNegative(a * b * c, d);
  }

  lemma {:induction false} ValuesNonNegative(w: Weights, ss: seq<Subject>, ctx: Context)
    requires w.Valid() && w.Places(ctx) && forall s | s in ss :: s.f.Storable()
    ensures NonNegative(Values(w, ss, ctx))
  {
    if ss != [] {
      var s := ss[|ss| - 1];
      ValuesNonNegative(w, ss[..|ss| - 1], ctx);
      FactorsPositive(w, s, ctx);
      MultiplierNonNegative(w, s, ctx);
      ProductNonNegative(SeverityFactor(w, EffectiveSeverity(s).0), Multiplier(w, s, ctx));
    }
  }

  /** `ss` is `tt` with findings left out and values lowered, and no finding brought back to life. */
  ghost predicate Milder(w: Weights, ss: seq<Subject>, tt: seq<Subject>, ctx: Context) {
    Below(Values(w, ss, ctx), Values(w, tt, ctx))
  }

  lemma TotalsFollow(w: Weights, ss: seq<Subject>, tt: seq<Subject>, ctx: Context)
    requires w.Valid() && w.Places(ctx)
    requires (forall s | s in ss :: s.f.Storable()) && (forall t | t in tt :: t.f.Storable())
    requires Milder(w, ss, tt, ctx)
    ensures 0.0 <= Total(w, ss, ctx) <= Total(w, tt, ctx)
  {
    ValuesNonNegative(w, ss, ctx);
    ValuesNonNegative(w, tt, ctx);
    TotalNonNegative(Values(w, ss, ctx), w.tailWeight);
    TotalMonotone(Values(w, ss, ctx), Values(w, tt, ctx), w.tailWeight);
  }

  /** The project score moves with the values, for every valid weight set. */
  lemma ScoreMonotone(w: Weights, ss: seq<Subject>, tt: seq<Subject>, ctx: Context, exp: real -> real)
    requires w.Valid() && w.Places(ctx) && ExpLike(exp)
    requires (forall s | s in ss :: s.f.Storable()) && (forall t | t in tt :: t.f.Storable())
    requires Milder(w, ss, tt, ctx)
    ensures 0.0 <= Total(w, ss, ctx) <= Total(w, tt, ctx)
    ensures 0.0 <= ProjectScore(w, ss, ctx, exp) <= ProjectScore(w, tt, ctx, exp) < 100.0
  {
    TotalsFollow(w, ss, tt, ctx);
    SaturateMonotone(Total(w, ss, ctx), Total(w, tt, ctx), w.saturation, exp);
    SaturateMonotone(Total(w, tt, ctx), Total(w, tt, ctx), w.saturation, exp);
  }

  // ---- The order of the findings does not matter ------------------------

  lemma {:induction false} SumAppend(a: seq<real>, b: seq<real>)
    ensures Sum(a + b) == Sum(a) + Sum(b)
  {
    if b == [] {
      assert a + b == a;
    } else {
      assert (a + b)[..|a + b| - 1] == a + b[..|b| - 1];
      SumAppend(a, b[..|b| - 1]);
    }
  }

  lemma {:induction false} SumPermutation(a: seq<real>, b: seq<real>)
    requires multiset(a) == multiset(b)
    ensures Sum(a) == Sum(b)
    decreases |a|
  {
    if a == [] {
      assert |multiset(a)| == 0 && |multiset(b)| == |b|;
    } else {
      var rest, x, l, r := PermutationSplit(a, b);
      SumPermutation(rest, l + r);
      SumAppend(rest, [x]);
      SumAppend(l, r);
      SumAppend(l + [x], r);
      SumAppend(l, [x]);
    }
  }

  lemma {:induction false} MaxIsReached(vs: seq<real>)
    requires vs != []
    ensures Max(vs) in vs && forall v | v in vs :: v <= Max(vs)
  {
    if |vs| > 1 {
      MaxIsReached(vs[..|vs| - 1]);
      assert vs == vs[..|vs| - 1] + [vs[|vs| - 1]];
    }
  }

  lemma TotalPermutation(a: seq<real>, b: seq<real>, tail: real)
    requires multiset(a) == multiset(b)
    ensures TotalOf(a, tail) == TotalOf(b, tail) && (a == [] <==> b == [])
  {
    SumPermutation(a, b);
    assert |multiset(a)| == |a| && |multiset(b)| == |b|;
    if a != [] {
      MaxIsReached(a);
      MaxIsReached(b);
      assert Max(a) in multiset(a) && Max(b) in multiset(b);
      assert Max(a) in b && Max(b) in a;
    }
  }

  lemma {:induction false} ValuesAppend(w: Weights, a: seq<Subject>, b: seq<Subject>, ctx: Context)
    ensures Values(w, a + b, ctx) == Values(w, a, ctx) + Values(w, b, ctx)
  {
    if b == [] {
      assert a + b == a;
    } else {
      assert (a + b)[..|a + b| - 1] == a + b[..|b| - 1];
      ValuesAppend(w, a, b[..|b| - 1], ctx);
    }
  }

  lemma ValuesAround(w: Weights, a: seq<Subject>, s: Subject, b: seq<Subject>, ctx: Context)
    ensures multiset(Values(w, a + [s] + b, ctx)) == multiset(Values(w, a + b, ctx)) + multiset(Values(w, [s], ctx))
  {
    ValuesAppend(w, a, b, ctx);
    ValuesAppend(w, a + [s], b, ctx);
    ValuesAppend(w, a, [s], ctx);
    var va, vb := Values(w, a, ctx), Values(w, b, ctx);
    assert multiset(va + vb) == multiset(va) + multiset(vb);
  }

  lemma {:induction false} ValuesPermutation(w: Weights, ss: seq<Subject>, tt: seq<Subject>, ctx: Context)
    requires multiset(ss) == multiset(tt)
    ensures multiset(Values(w, ss, ctx)) == multiset(Values(w, tt, ctx))
    decreases |ss|
  {
    if ss == [] {
      assert |multiset(ss)| == 0 && |multiset(tt)| == |tt|;
    } else {
      var rest, s, a, b := PermutationSplit(ss, tt);
      ValuesPermutation(w, rest, a + b, ctx);
      ValuesAround(w, a, s, b, ctx);
      ValuesAppend(w, rest, [s], ctx);
    }
  }

  /** A project's total and score are those of its findings in any order. */
  lemma ScorePermutation(w: Weights, ss: seq<Subject>, tt: seq<Subject>, ctx: Context, exp: real -> real)
    requires multiset(ss) == multiset(tt) && w.saturation != 0.0
    ensures Total(w, ss, ctx) == Total(w, tt, ctx)
    ensures ProjectScore(w, ss, ctx, exp) == ProjectScore(w, tt, ctx, exp)
  {
    ValuesPermutation(w, ss, tt, ctx);
    TotalPermutation(Values(w, ss, ctx), Values(w, tt, ctx), w.tailWeight);
  }
}
