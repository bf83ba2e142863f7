/**
 PolicyTheorems: when the gate passes, what its answer does not depend on, and
 how it moves with the findings.
 */
module PolicyTheorems {
  import opened Ordering
  import opened Text
  import opened Model
  import opened Risk
  import opened Remediation
  import opened RemediationTheorems
  import opened Policy

  // ---- The verdict on the findings --------------------------------------

  /** A rule that counts the findings of severity `v`. */
  predicate CountsSeverity(r: Rule, v: Severity) { r.kind == "severity_count" && v.Valid() && r.selector == v.Text() }

  /** The live findings a rule counts, or the score, exceed its ceiling. */
  ghost predicate Exceeds(r: Rule, ss: seq<Subject>, score: real) {
    || (exists v :: CountsSeverity(r, v) && |OfSeverity(ss, v)| as real > r.max)
    || (r.kind == "category_count" && |OfCategory(ss, r.selector)| as real > r.max)
    || (r.kind == "risk_score" && score > r.max)
  }

  /** A selector names a severity exactly by its spelling. */
  lemma SpelledOnce(text: string, v: Severity)
    requires v.Valid()
    ensures v.Text() == text <==> SeverityNamed(text) == v
  {
    assert |"critical"| == 8 && |"high"| == 4 && |"medium"| == 6 && |"low"| == 3 && |"info"| == 4 && |"unknown"| == 7;
    assert "high"[0] != "info"[0];
  }

  lemma BreachedExactly(r: Rule, ss: seq<Subject>, input: Input)
    requires ValidRule(r) && Counts(input, ss)
    ensures Breached(r, input) <==> Exceeds(r, ss, input.riskScore)
  {
    if r.kind == SEVERITY_COUNT {
      var named := SeverityNamed(r.selector);
      SpelledOnce(r.selector, named);
      assert CountsSeverity(r, named) && Count(input.severityCounts, named) == |OfSeverity(ss, named)|;
      forall v | CountsSeverity(r, v) ensures v == named { SpelledOnce(r.selector, v); }
    } else if r.kind == CATEGORY_COUNT {
      assert Count(input.categoryCounts, r.selector) == |OfCategory(ss, r.selector)|;
    }
  }

  /** Some rule of the level is exceeded. */
  ghost predicate SomeExceeds(p: Policy, level: Level, ss: seq<Subject>, score: real) {
    exists r :: r in p.rules && r.level == level && Exceeds(r, ss, score)
  }

  lemma DemandedExactly(p: Policy, ss: seq<Subject>, input: Input, level: Level)
    requires ValidPolicy(p) && Counts(input, ss) && level.Valid()
    ensures Demanded(p, input, level.AsVerdict()) <==>
      SomeExceeds(p, level, ss, input.riskScore) || (!input.scanComplete && p.incompleteScan == level)
  {
    if r :| r in p.rules && Breached(r, input) && r.level.AsVerdict() == level.AsVerdict() {
      BreachedExactly(r, ss, input);
      assert r.level == level;
    }
    if r :| r in p.rules && r.level == level && Exceeds(r, ss, input.riskScore) {
      BreachedExactly(r, ss, input);
    }
  }

  /**
   The verdict, on the findings: it fails exactly when a fail-level rule is
   exceeded, or the scan is incomplete and that is to fail, and otherwise warns
   exactly when anything is exceeded or the scan is incomplete.
   */
  lemma VerdictExactly(p: Policy, ss: seq<Subject>, input: Input, v: Verdict)
    requires ValidPolicy(p) && Counts(input, ss) && IsVerdict(p, input, v)
    ensures v == Fail <==>
      SomeExceeds(p, FailLevel, ss, input.riskScore) || (!input.scanComplete && p.incompleteScan == FailLevel)
    ensures v == Pass <==>
      && input.scanComplete
      && !SomeExceeds(p, FailLevel, ss, input.riskScore) && !SomeExceeds(p, WarnLevel, ss, input.riskScore)
  {
    DemandedExactly(p, ss, input, FailLevel);
    DemandedExactly(p, ss, input, WarnLevel);
    assert Demanded(p, input, Fail) ==> Verdict.Fail.Rank() <= v.Rank();
    assert Demanded(p, input, Warn) ==> Verdict.Warn.Rank() <= v.Rank();
  }

  /**
   A pass means the scan was complete, no severity and no category has more live
   findings than its rule allows, and the score is within its ceiling; and the
   other way round.
   */
  lemma PassExactly(p: Policy, ss: seq<Subject>, input: Input, v: Verdict)
    requires ValidPolicy(p) && Counts(input, ss) && IsVerdict(p, input, v)
    ensures v == Pass <==>
      && input.scanComplete
      && (forall r, s | r in p.rules && CountsSeverity(r, s) :: |OfSeverity(ss, s)| as real <= r.max)
      && (forall r | r in p.rules && r.kind == "category_count" :: |OfCategory(ss, r.selector)| as real <= r.max)
      && (forall r | r in p.rules && r.kind == "risk_score" :: input.riskScore <= r.max)
  {
    VerdictExactly(p, ss, input, v);
    forall r | r in p.rules
      ensures Exceeds(r, ss, input.riskScore) ==>
        SomeExceeds(p, FailLevel, ss, input.riskScore) || SomeExceeds(p, WarnLevel, ss, input.riskScore)
    {
      assert ValidRule(r);
    }
  }

  /** What a rule measures, on the findings. */
  ghost predicate Measured(c: Condition, ss: seq<Subject>, score: real) {
    && (forall v | CountsSeverity(c.rule, v) :: c.observed == |OfSeverity(ss, v)| as real)
    && (c.rule.kind == "category_count" ==> c.observed == |OfCategory(ss, c.rule.selector)| as real)
    && (c.rule.kind == "risk_score" ==> c.observed == score)
    && (c.breached <==> Exceeds(c.rule, ss, score))
  }

  /** Every rule is reported, each with what it measures and whether that is too much. */
  lemma ConditionsMeasure(p: Policy, ss: seq<Subject>, input: Input, res: Result, i: nat)
    requires ValidPolicy(p) && Counts(input, ss) && Judged(p, input, res) && i < |res.conditions|
    ensures |res.conditions| == |p.rules| && res.conditions[i].rule in p.rules
    ensures Measured(res.conditions[i], ss, input.riskScore)
  {
    SortElements(p.rules, RuleBefore);
    var r := SortBy(p.rules, RuleBefore)[i];
    assert r in SortBy(p.rules, RuleBefore) && res.conditions[i] == ConditionOf(r, input);
    BreachedExactly(r, ss, input);
    forall v | CountsSeverity(r, v) ensures res.conditions[i].observed == |OfSeverity(ss, v)| as real {
      SpelledOnce(r.selector, v);
      assert Count(input.severityCounts, v) == |OfSeverity(ss, v)|;
    }
    assert Count(input.categoryCounts, r.selector) == |OfCategory(ss, r.selector)|;
  }

  /** Coverage is what made the verdict exactly when the scan is incomplete and the rules alone ask for less. */
  lemma DowngradedExactly(p: Policy, ss: seq<Subject>, input: Input, res: Result)
    requires ValidPolicy(p) && Counts(input, ss) && Judged(p, input, res)
    ensures res.coverage.downgraded <==>
      && !input.scanComplete && !SomeExceeds(p, FailLevel, ss, input.riskScore)
      && (p.incompleteScan == FailLevel || !SomeExceeds(p, WarnLevel, ss, input.riskScore))
  {
    var whole := input.(scanComplete := true);
    assert forall r :: Breached(r, whole) == Breached(r, input);
    var alone := OneVerdict(p, whole);
    VerdictExactly(p, ss, input, res.verdict);
    VerdictExactly(p, ss, whole, alone);
  }

  // ---- Ceilings ---------------------------------------------------------

  /** A score rule whose ceiling is the top of the scale is accepted, and nothing ever exceeds it. */
  lemma FullScaleNeverExceeds(r: Rule, w: Weights, ss: seq<Subject>, ctx: Context, exp: real -> real)
    requires r.kind == RISK_SCORE && r.max >= 100.0 && w.Valid() && w.Places(ctx) && ExpLike(exp)
    requires forall s | s in ss :: s.f.Storable()
    ensures !Exceeds(r, ss, ProjectScore(w, ss, ctx, exp))
    ensures ValidRule(Rule(RISK_SCORE, "", 100.0, FailLevel))
  {
    BelowItself(Values(w, ss, ctx));
    ScoreMonotone(w, ss, ss, ctx, exp);
    assert TrimSpace("") == "";
  }

  // ---- What a rule may say ----------------------------------------------

  ghost predicate SpellsSeverity(text: string) { exists v: Severity :: v.Valid() && v.Text() == text }

  lemma SpellsExactly(text: string)
    ensures SeverityNamed(text).Valid() <==> SpellsSeverity(text)
  {
    if v: Severity :| v.Valid() && v.Text() == text { SpelledOnce(text, v); }
    var named := SeverityNamed(text);
    if named.Valid() { SpelledOnce(text, named); }
  }

  predicate NamesCategory(text: string) {
    || text == "sast" || text == "secrets" || text == "dependency" || text == "container"
    || text == "iac" || text == "dast" || text == "license"
  }

  lemma CategoriesNamed(text: string)
    ensures KnownCategory(text) <==> NamesCategory(text)
  {
  }

  /**
   A rule is usable exactly if it warns or fails above a ceiling that can be kept
   and measures the findings of a known severity, those of a known category, or
   the score on its scale.
   */
  lemma UsableExactly(r: Rule)
    ensures ValidRule(r) <==>
      && (r.level == WarnLevel || r.level == FailLevel) && r.max >= 0.0
      && (|| (r.kind == "severity_count" && SpellsSeverity(r.selector))
          || (r.kind == "category_count" && NamesCategory(r.selector))
          || (r.kind == "risk_score" && Blank(r.selector) && r.max <= 100.0))
  {
    SpellsExactly(r.selector);
    CategoriesNamed(r.selector);
    BlankExactly(r.selector);
  }

  lemma BlankExactly(s: string)
    ensures TrimSpace(s) == "" <==> Blank(s)
  {
    var a, b := TrimSpaceExactly(s);
    if TrimSpace(s) != "" {
      assert s[|a|] == TrimSpace(s)[0];
    }
  }

  /** Conditions are listed by kind, and by selector within a kind. */
  lemma ConditionsInOrder(p: Policy, input: Input, res: Result, i: nat, j: nat)
    requires ValidPolicy(p) && Judged(p, input, res) && i < j < |res.conditions|
    ensures var a, b := res.conditions[i].rule, res.conditions[j].rule;
      StringLess(a.kind, b.kind) || (a.kind == b.kind && StringLess(a.selector, b.selector))
  {
    RuleBeforeIsWeakOrder();
    RulesSeparated(p);
    SortIncreasing(p.rules, RuleBefore);
    assert RuleBefore(res.conditions[i].rule, res.conditions[j].rule);
  }

  // ---- The order of the rules -------------------------------------------

  lemma RuleBeforeIsWeakOrder()
    ensures StrictWeakOrder(RuleBefore)
  {
    StringLessIsTotal();
    forall a, b, c | RuleBefore(a, c) ensures RuleBefore(a, b) || RuleBefore(b, c) {
      assert a.kind == c.kind || StringLess(a.kind, b.kind) || StringLess(b.kind, c.kind);
    }
  }

  /** The rules of a valid policy are told apart by the order they are listed in. */
  lemma RulesSeparated(p: Policy)
    requires ValidPolicy(p)
    ensures Separated(p.rules, RuleBefore)
  {
    StringLessIsTotal();
    forall i, j | 0 <= i < j < |p.rules|
      ensures RuleBefore(p.rules[i], p.rules[j]) || RuleBefore(p.rules[j], p.rules[i])
    {
      assert MetricKeys(p.rules)[i] != MetricKeys(p.rules)[j];
    }
  }

  lemma KeysPermutation(p: Policy, q: Policy)
    requires ValidPolicy(p) && multiset(p.rules) == multiset(q.rules)
    ensures NoDup(MetricKeys(q.rules))
  {
    SameMembership(p.rules, q.rules);
    forall i, j | 0 <= i < j < |q.rules| ensures MetricKeys(q.rules)[i] != MetricKeys(q.rules)[j] {
      if MetricKey(q.rules[i]) == MetricKey(q.rules[j]) {
        assert q.rules[i] in p.rules && q.rules[j] in p.rules;
        SameRule(p, q.rules[i], q.rules[j]);
        CountTwo(q.rules, i, j);
        var k, l := TwoOf(p.rules, q.rules[i]);
        RepeatedKey(p, k, l);
        assert false;
      }
    }
  }

  lemma RepeatedKey(p: Policy, k: nat, l: nat)
    requires k < l < |p.rules| && p.rules[k] == p.rules[l]
    ensures !NoDup(MetricKeys(p.rules))
  {
    assert MetricKeys(p.rules)[k] == MetricKeys(p.rules)[l];
  }

  lemma SameRule(p: Policy, a: Rule, b: Rule)
    requires NoDup(MetricKeys(p.rules)) && a in p.rules && b in p.rules && MetricKey(a) == MetricKey(b)
    ensures a == b
  {
    var i :| 0 <= i < |p.rules| && p.rules[i] == a;
    var j :| 0 <= j < |p.rules| && p.rules[j] == b;
    assert MetricKeys(p.rules)[i] == MetricKeys(p.rules)[j];
  }

  /** Rearranging the rules changes neither the verdict nor the list of conditions; each rule is listed once. */
  lemma RuleOrderIsIrrelevant(p: Policy, q: Policy, input: Input, v: Verdict)
    requires ValidPolicy(p) && multiset(p.rules) == multiset(q.rules) && p.incompleteScan == q.incompleteScan
    ensures ValidPolicy(q)
    ensures IsVerdict(p, input, v) <==> IsVerdict(q, input, v)
    ensures Conditions(SortBy(p.rules, RuleBefore), input) == Conditions(SortBy(q.rules, RuleBefore), input)
    ensures multiset(SortBy(p.rules, RuleBefore)) == multiset(p.rules)
  {
    SameMembership(p.rules, q.rules);
    KeysPermutation(p, q);
    assert forall u :: Demanded(p, input, u) <==> Demanded(q, input, u);
    RuleBeforeIsWeakOrder();
    RulesSeparated(p);
    RulesSeparated(q);
    SortCanonical(p.rules, q.rules, RuleBefore);
    SortMultiset(p.rules, RuleBefore);
  }

  predicate SameMetric(a: Rule, b: Rule) { a.kind == b.kind && (a.kind == RISK_SCORE || a.selector == b.selector) }

  /** Two rules of a valid policy measure one thing exactly when both are score rules, told apart by blanks alone. */
  lemma OnlyBlankSelectorsShareAMetric(p: Policy, i: nat, j: nat)
    requires ValidPolicy(p) && i < j < |p.rules|
    ensures SameMetric(p.rules[i], p.rules[j]) <==>
      && p.rules[i].kind == RISK_SCORE == p.rules[j].kind && p.rules[i].selector != p.rules[j].selector
      && TrimSpace(p.rules[i].selector) == "" == TrimSpace(p.rules[j].selector)
  {
    assert MetricKeys(p.rules)[i] != MetricKeys(p.rules)[j];
    assert p.rules[i] in p.rules && p.rules[j] in p.rules;
    assert ValidRule(p.rules[i]) && ValidRule(p.rules[j]);
  }

  /** The check for duplicates does let such a pair through. */
  lemma BlankSelectorsPass(limit: real, other: real)
    requires 0.0 <= limit <= 100.0 && 0.0 <= other <= 100.0
    ensures var rules := [Rule(RISK_SCORE, "", limit, FailLevel), Rule(RISK_SCORE, " ", other, FailLevel)];
      ValidPolicy(Policy(rules, WarnLevel))
  {
    var rules := [Rule(RISK_SCORE, "", limit, FailLevel), Rule(RISK_SCORE, " ", other, FailLevel)];
    assert TrimSpace("") == "";
    assert " "[1..] == "" && TrimLeft(" ") == TrimLeft("") == "";
    assert |MetricKeys(rules)[0]| == |RISK_SCORE| + 1 && |MetricKeys(rules)[1]| == |RISK_SCORE| + 2;
  }

  // ---- The gate follows the findings ------------------------------------

  /** What one input reads is never above what the other reads. */
  ghost predicate ReadsNoMore(p: Policy, a: Input, b: Input) {
    a.scanComplete == b.scanComplete && forall r | r in p.rules :: Observe(r, a) <= Observe(r, b)
  }

  lemma VerdictMonotone(p: Policy, a: Input, b: Input, u: Verdict, v: Verdict)
    requires ReadsNoMore(p, a, b) && IsVerdict(p, a, u) && IsVerdict(p, b, v)
    ensures u.Rank() <= v.Rank()
  {
    if u != Pass {
      if !a.scanComplete && p.incompleteScan.AsVerdict() == u {
        assert Demanded(p, b, u);
      } else {
        var r :| r in p.rules && Breached(r, a) && r.level.AsVerdict() == u;
        assert Observe(r, a) <= Observe(r, b);
        assert Breached(r, b);
        assert Demanded(p, b, u);
      }
    }
  }

  lemma {:induction false} BelowItself(a: seq<real>)
    ensures Below(a, a)
  {
    if a != [] { BelowItself(a[..|a| - 1]); }
  }

  lemma {:induction false} BelowInsert(a: seq<real>, t: seq<real>, b: seq<real>)
    requires |t| <= 1
    ensures Below(a + b, a + t + b)
    decreases |b|
  {
    if b == [] {
      BelowItself(a);
      BelowStep(a, a, t, false);
      assert a + b == a + [] && a + t + b == a + t;
    } else {
      var c := b[..|b| - 1];
      BelowInsert(a, t, c);
      BelowStep(a + c, a + t + c, [b[|b| - 1]], true);
      assert a + b == a + c + [b[|b| - 1]] && a + t + b == a + t + c + [b[|b| - 1]];
    }
  }

  /** `x` counts for nothing: it is empty or holds dismissed findings. */
  ghost predicate Silent(x: seq<Subject>) { forall s | s in x :: Dismissed(s.f.status) }

  lemma {:induction false} SilentKept(x: seq<Subject>, p: Subject -> bool, w: Weights, ctx: Context)
    requires Silent(x) && forall s | p(s) :: IsLive(s)
    ensures Keep(x, p) == [] && Values(w, x, ctx) == []
  {
    if x != [] {
      assert x[|x| - 1] in x;
      assert forall s | s in x[..|x| - 1] :: s in x;
      SilentKept(x[..|x| - 1], p, w, ctx);
    }
  }

  lemma KeptBetween(
    a: seq<Subject>, x: seq<Subject>, y: Subject, b: seq<Subject>, p: Subject -> bool, w: Weights, ctx: Context)
    requires Silent(x) && forall s | p(s) :: IsLive(s)
    ensures |Keep(a + x + b, p)| <= |Keep(a + [y] + b, p)|
  {
    SilentKept(x, p, w, ctx);
    KeepAppend(a + x, b, p);
    KeepAppend(a, x, p);
    KeepAppend(a + [y], b, p);
    KeepAppend(a, [y], p);
  }

  lemma ValuesBetween(w: Weights, a: seq<Subject>, x: seq<Subject>, y: Subject, b: seq<Subject>, ctx: Context)
    requires Silent(x)
    ensures Below(Values(w, a + x + b, ctx), Values(w, a + [y] + b, ctx))
  {
    SilentKept(x, IsLive, w, ctx);
    OneValue(w, y, ctx);
    ValuesAppend(w, a + x, b, ctx);
    ValuesAppend(w, a, x, ctx);
    ValuesAppend(w, a + [y], b, ctx);
    ValuesAppend(w, a, [y], ctx);
    assert Values(w, a, ctx) + [] == Values(w, a, ctx);
    BelowInsert(Values(w, a, ctx), Values(w, [y], ctx), Values(w, b, ctx));
  }

  /** The gate's input for a project: its counts and its score, at fixed issue severities. */
  ghost predicate Measures(input: Input, w: Weights, ss: seq<Subject>, ctx: Context, exp: real -> real)
    requires w.Valid()
  {
    Counts(input, ss) && input.riskScore == ProjectScore(w, ss, ctx, exp)
  }

  lemma ReadingsBetween(
    p: Policy, w: Weights, a: seq<Subject>, x: seq<Subject>, y: Subject, b: seq<Subject>, ctx: Context,
    exp: real -> real,
    before: Input, after: Input)
    requires w.Valid() && w.Places(ctx) && ExpLike(exp) && Silent(x)
    requires forall s | s in a + x + b || s in a + [y] + b :: s.f.Storable()
    requires Measures(before, w, a + x + b, ctx, exp) && Measures(after, w, a + [y] + b, ctx, exp)
    requires before.scanComplete == after.scanComplete
    ensures ReadsNoMore(p, before, after)
  {
    ValuesBetween(w, a, x, y, b, ctx);
    ScoreMonotone(w, a + x + b, a + [y] + b, ctx, exp);
    forall r | r in p.rules ensures Observe(r, before) <= Observe(r, after) {
      if r.kind == SEVERITY_COUNT {
        var v := SeverityNamed(r.selector);
        KeptBetween(a, x, y, b, (s: Subject) => IsLive(s) && s.f.severity == v, w, ctx);
        assert Count(before.severityCounts, v) == |OfSeverity(a + x + b, v)|;
      } else if r.kind == CATEGORY_COUNT {
        KeptBetween(a, x, y, b, (s: Subject) => IsLive(s) && s.f.category == r.selector, w, ctx);
        assert Count(before.categoryCounts, r.selector) == |OfCategory(a + x + b, r.selector)|;
      }
    }
  }

  /** One more finding, wherever it is listed, never improves the verdict. */
  lemma AddingNeverImproves(
    p: Policy, w: Weights, a: seq<Subject>, s: Subject, b: seq<Subject>, ctx: Context, exp: real -> real,
    before: Input, after: Input, u: Verdict, v: Verdict)
    requires w.Valid() && w.Places(ctx) && ExpLike(exp) && forall t | t in a + [s] + b :: t.f.Storable()
    requires Measures(before, w, a + b, ctx, exp) && Measures(after, w, a + [s] + b, ctx, exp)
    requires before.scanComplete == after.scanComplete
    requires IsVerdict(p, before, u) && IsVerdict(p, after, v)
    ensures u.Rank() <= v.Rank()
  {
    assert a + [] + b == a + b;
    forall t | t in a + b ensures t.f.Storable() { assert t in a + [s] + b; }
    ReadingsBetween(p, w, a, [], s, b, ctx, exp, before, after);
    VerdictMonotone(p, before, after, u, v);
  }

  function WithStatus(s: Subject, status: Status): Subject { s.(f := s.f.(status := status)) }

  /** Dismissing a finding never worsens the verdict. */
  lemma DismissingNeverWorsens(
    p: Policy, w: Weights, a: seq<Subject>, s: Subject, b: seq<Subject>, status: Status, ctx: Context,
    exp: real -> real,
    before: Input, after: Input, u: Verdict, v: Verdict)
    requires w.Valid() && w.Places(ctx) && ExpLike(exp) && forall t | t in a + [s] + b :: t.f.Storable()
    requires Dismissed(status)
    requires Measures(before, w, a + [s] + b, ctx, exp) && Measures(after, w, a + [WithStatus(s, status)] + b, ctx, exp)
    requires before.scanComplete == after.scanComplete
    requires IsVerdict(p, before, u) && IsVerdict(p, after, v)
    ensures v.Rank() <= u.Rank()
  {
    var d := WithStatus(s, status);
    assert s in a + [s] + b;
    forall t | t in a + [d] + b ensures t.f.Storable() {
      if t != d { assert t in a + [s] + b; }
    }
    ReadingsBetween(p, w, a, [d], s, b, ctx, exp, after, before);
    VerdictMonotone(p, after, before, v, u);
  }

  // ---- One idea of what counts ------------------------------------------

  lemma {:induction false} LiveValues(w: Weights, ss: seq<Subject>, ctx: Context)
    ensures |Values(w, ss, ctx)| == |Live(ss)|
  {
    if ss != [] { LiveValues(w, ss[..|ss| - 1], ctx); }
  }

  lemma LiveIsClosed(w: Weights, ss: seq<Subject>, ctx: Context, exp: real -> real, s: Subject)
    requires Identified(ss) && s in ss
    ensures s in Live(ss) <==>
      exists a :: a in PlanOf(w, ss, ctx, exp).actions && s.f.fingerprint in Excluded(a.members)
  {
    var live, plan := Live(ss), PlanOf(w, ss, ctx, exp);
    ActionsPartitionLive(w, ss, ctx, exp);
    KeepElements(ss, IsLive);
    if a :| a in plan.actions && s.f.fingerprint in Excluded(a.members) {
      assert s.f.fingerprint in SubjectFingerprints(live);
      var i :| 0 <= i < |live| && SubjectFingerprints(live)[i] == s.f.fingerprint;
      assert live[i] in live;
      SameSubject(ss, s, live[i]);
    }
    if s in live {
      var a :| a in plan.actions && a.key == KeyOf(s);
      assert s.f.fingerprint in Excluded(a.members);
    }
  }

  lemma {:induction false} ZeroTotal<K(!new)>(counts: map<K, nat>)
    requires forall k | k in counts :: counts[k] == 0
    ensures TotalCount(counts) == 0
    decreases |counts|
  {
    if counts != map[] {
      var k :| k in counts;
      SumWithout(counts, k);
      ZeroTotal(counts - {k});
    }
  }

  /** One less under one key is one less in all. */
  lemma TotalLess<K(!new)>(counts: map<K, nat>, k: K)
    requires k in counts && counts[k] > 0
    ensures TotalCount(counts) == TotalCount(counts[k := counts[k] - 1]) + 1
  {
    var less := counts[k := counts[k] - 1];
    SumWithout(counts, k);
    SumWithout(less, k);
    assert less - {k} == counts - {k};
  }

  /** Being live with a given value of an attribute. */
  function Having<K(==)>(attribute: Subject -> K, k: K): Subject -> bool {
    (s: Subject) => IsLive(s) && attribute(s) == k
  }

  /** A table that counts the live findings by some attribute sums to their number. */
  lemma {:induction false} TableTotal<K(!new)>(counts: map<K, nat>, ss: seq<Subject>, attribute: Subject -> K)
    requires forall k :: Count(counts, k) == |Keep(ss, Having(attribute, k))|
    ensures TotalCount(counts) == |Live(ss)|
    decreases |ss|
  {
    if ss == [] {
      forall k | k in counts ensures counts[k] == 0 { assert Count(counts, k) == 0; }
      ZeroTotal(counts);
    } else {
      var rest, last := ss[..|ss| - 1], ss[|ss| - 1];
      var k := attribute(last);
      assert Count(counts, k) == |Keep(ss, Having(attribute, k))|;
      var less := if IsLive(last) then counts[k := counts[k] - 1] else counts;
      forall l ensures Count(less, l) == |Keep(rest, Having(attribute, l))| {
        assert Count(counts, l) == |Keep(ss, Having(attribute, l))|;
      }
      TableTotal(less, rest, attribute);
      if IsLive(last) { TotalLess(counts, k); }
    }
  }

  /** However the gate's tables came about, if they count the live findings each sums to their number. */
  lemma GateCountsLive(input: Input, ss: seq<Subject>)
    requires Counts(input, ss)
    ensures TotalCount(input.severityCounts) == TotalCount(input.categoryCounts) == |Live(ss)|
  {
    forall v ensures Count(input.severityCounts, v) == |Keep(ss, Having(SeverityOf, v))| {
      assert Count(input.severityCounts, v) == |OfSeverity(ss, v)|;
      forall s ensures Having(SeverityOf, v)(s) == (IsLive(s) && s.f.severity == v) {
        assert SeverityOf(s) == s.f.severity;
      }
      SameKept(ss, (s: Subject) => IsLive(s) && s.f.severity == v, Having(SeverityOf, v));
    }
    forall c ensures Count(input.categoryCounts, c) == |Keep(ss, Having(CategoryOf, c))| {
      assert Count(input.categoryCounts, c) == |OfCategory(ss, c)|;
      forall s ensures Having(CategoryOf, c)(s) == (IsLive(s) && s.f.category == c) {
        assert CategoryOf(s) == s.f.category;
      }
      SameKept(ss, (s: Subject) => IsLive(s) && s.f.category == c, Having(CategoryOf, c));
    }
    TableTotal(input.severityCounts, ss, SeverityOf);
    TableTotal(input.categoryCounts, ss, CategoryOf);
  }

  function SeverityOf(s: Subject): Severity { s.f.severity }

  function CategoryOf(s: Subject): Category { s.f.category }

  lemma {:induction false} SameKept(ss: seq<Subject>, p: Subject -> bool, q: Subject -> bool)
    requires forall s | s in ss :: p(s) == q(s)
    ensures Keep(ss, p) == Keep(ss, q)
  {
    if ss != [] {
      assert forall s | s in ss[..|ss| - 1] :: s in ss;
      assert ss[|ss| - 1] in ss;
      SameKept(ss[..|ss| - 1], p, q);
    }
  }

  /**
   Correlation, scoring, the plan and the gate describe the same findings: those
   correlation reads are those the score counts, those some action closes, and
   those the gate's tables count.
   */
  lemma LiveSetsAgree(w: Weights, ss: seq<Subject>, ctx: Context, exp: real -> real, input: Input)
    requires Identified(ss) && Counts(input, ss) && forall s | s in ss :: s.f.status.Valid()
    ensures TotalCount(input.severityCounts) == TotalCount(input.categoryCounts) == |Live(ss)|
    ensures |Values(w, ss, ctx)| == PlanOf(w, ss, ctx, exp).addressable == |Live(ss)|
    ensures forall s | s in ss :: Correlatable(s.f.status) <==> s in Live(ss)
    ensures forall s | s in ss :: Correlatable(s.f.status) <==>
      exists a :: a in PlanOf(w, ss, ctx, exp).actions && s.f.fingerprint in Excluded(a.members)
  {
    GateCountsLive(input, ss);
    LiveValues(w, ss, ctx);
    KeepElements(ss, IsLive);
    forall s | s in ss
      ensures Correlatable(s.f.status) <==>
        exists a :: a in PlanOf(w, ss, ctx, exp).actions && s.f.fingerprint in Excluded(a.members)
    {
      LiveIsClosed(w, ss, ctx, exp, s);
    }
  }
}
