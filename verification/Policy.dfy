/**
 Policy: the gate decision (internal/policies). Explanations and the summary
 are prose and not part of it.
 */
module Policy {
  import opened Ordering
  import opened Text
  import opened Model
  import opened Risk
  import opened Remediation

  datatype Verdict = Pass | Warn | Fail
  {
    function Rank(): nat {
      match this
      case Pass => 0
      case Warn => 1
      case Fail => 2
    }
  }

  datatype Level = WarnLevel | FailLevel | UnknownLevel(text: string)
  {
    predicate Valid() { !UnknownLevel? }

    function AsVerdict(): Verdict { if FailLevel? then Fail else Warn }
  }

  datatype Rule = Rule(kind: string, selector: string, max: real, level: Level)

  const SEVERITY_COUNT: string := "severity_count"
  const CATEGORY_COUNT: string := "category_count"
  const RISK_SCORE: string := "risk_score"

  datatype Policy = Policy(rules: seq<Rule>, incompleteScan: Level)

  datatype Input = Input(
    severityCounts: map<Severity, nat>, categoryCounts: map<Category, nat>, riskScore: real,
    scanStatus: string, scanComplete: bool)

  datatype Condition = Condition(rule: Rule, observed: real, breached: bool)

  datatype Coverage = Coverage(complete: bool, scanStatus: string, downgraded: bool, level: Level)

  datatype Result = Result(verdict: Verdict, conditions: seq<Condition>, coverage: Coverage)

  /** The severity a selector names. */
  function SeverityNamed(text: string): Severity {
    if text == "critical" then Critical
    else if text == "high" then High
    else if text == "medium" then Medium
    else if text == "low" then Low
    else if text == "info" then Info
    else if text == "unknown" then Unknown
    else Unrecognised(text)
  }

  predicate KnownCategory(c: string) {
    c in ["sast", "secrets", "dependency", "container", "iac", "dast", "license"]
  }

  predicate ValidRule(r: Rule) {
    && r.level.Valid() && r.max >= 0.0
    && if r.kind == SEVERITY_COUNT then SeverityNamed(r.selector).Valid()
       else if r.kind == CATEGORY_COUNT then KnownCategory(r.selector)
       else r.kind == RISK_SCORE && TrimSpace(r.selector) == "" && r.max <= 100.0
  }

  function MetricKey(r: Rule): string { r.kind + "/" + r.selector }

  function MetricKeys(rs: seq<Rule>): seq<string> {
    seq(|rs|, i requires 0 <= i < |rs| => MetricKey(rs[i]))
  }

  ghost predicate ValidPolicy(p: Policy) {
    && p.incompleteScan.Valid()
    && (forall r | r in p.rules :: ValidRule(r))
    && NoDup(MetricKeys(p.rules))
  }

  // ---- What the gate sees -----------------------------------------------

  function OfSeverity(ss: seq<Subject>, v: Severity): seq<Subject> {
    Keep(ss, (s: Subject) => IsLive(s) && s.f.severity == v)
  }

  function OfCategory(ss: seq<Subject>, c: Category): seq<Subject> {
    Keep(ss, (s: Subject) => IsLive(s) && s.f.category == c)
  }

  function Count<K(==)>(counts: map<K, nat>, key: K): nat { if key in counts then counts[key] else 0 }

  /** The counts are those of the live findings, by severity and by category. */
  ghost predicate Counts(input: Input, ss: seq<Subject>) {
    && (forall v :: Count(input.severityCounts, v) == |OfSeverity(ss, v)|)
    && (forall c :: Count(input.categoryCounts, c) == |OfCategory(ss, c)|)
  }

  /** The sum of all entries of a table. */
  ghost function TotalCount<K(!new)>(counts: map<K, nat>): nat
    decreases |counts|
  {
    if counts == map[] then 0 else
      var k :| k in counts;
      counts[k] + TotalCount(counts - {k})
  }

  lemma {:induction false} SumWithout<K(!new)>(counts: map<K, nat>, k: K)
    requires k in counts
    ensures TotalCount(counts) == counts[k] + TotalCount(counts - {k})
    decreases |counts|
  {
    var l :| l in counts && TotalCount(counts) == counts[l] + TotalCount(counts - {l});
    if l != k {
      SumWithout(counts - {l}, k);
      SumWithout(counts - {k}, l);
      assert counts - {l} - {k} == counts - {k} - {l};
    }
  }

  lemma SumIncrement<K(!new)>(counts: map<K, nat>, k: K)
    ensures TotalCount(counts[k := Count(counts, k) + 1]) == TotalCount(counts) + 1
  {
    var more := counts[k := Count(counts, k) + 1];
    SumWithout(more, k);
    if k in counts { SumWithout(counts, k); }
    assert more - {k} == counts - {k};
    assert k !in counts ==> counts - {k} == counts;
  }

  /** One live finding is counted under its severity and its category, one dismissed under neither. */
  lemma CountOne(input: Input, ss: seq<Subject>, s: Subject, input': Input)
    requires Counts(input, ss)
    requires input'.severityCounts ==
      if IsLive(s) then input.severityCounts[s.f.severity := Count(input.severityCounts, s.f.severity) + 1]
        else input.severityCounts
    requires input'.categoryCounts ==
      if IsLive(s) then input.categoryCounts[s.f.category := Count(input.categoryCounts, s.f.category) + 1]
        else input.categoryCounts
    ensures Counts(input', ss + [s])
  {
    assert (ss + [s])[..|ss|] == ss;
    forall v ensures Count(input'.severityCounts, v) == |OfSeverity(ss + [s], v)| {
      assert Count(input.severityCounts, v) == |OfSeverity(ss, v)|;
    }
    forall c ensures Count(input'.categoryCounts, c) == |OfCategory(ss + [s], c)| {
      assert Count(input.categoryCounts, c) == |OfCategory(ss, c)|;
    }
  }

  /** InputFrom: the live findings counted, and nothing else. */
  method InputFrom(ss: seq<Subject>, score: real, scanStatus: string, complete: bool) returns (input: Input)
    ensures Counts(input, ss)
    ensures TotalCount(input.severityCounts) == TotalCount(input.categoryCounts) == |Live(ss)|
    ensures input.riskScore == score && input.scanStatus == scanStatus && input.scanComplete == complete
  {
    input := Input(map[], map[], score, scanStatus, complete);
    for i := 0 to |ss|
      invariant Counts(input, ss[..i])
      invariant TotalCount(input.severityCounts) == TotalCount(input.categoryCounts) == |Live(ss[..i])|
      invariant input.riskScore == score && input.scanStatus == scanStatus && input.scanComplete == complete
    {
      assert ss[..i + 1] == ss[..i] + [ss[i]] && ss[..i + 1][..i] == ss[..i];
      input := CountIn(input, ss[..i], ss[i]);
    }
    assert ss[..|ss|] == ss;
  }

  /** One more finding counted, if it is live. */
  method CountIn(input: Input, ghost ss: seq<Subject>, s: Subject) returns (more: Input)
    requires Counts(input, ss)
    ensures Counts(more, ss + [s])
    ensures TotalCount(more.severityCounts) == TotalCount(input.severityCounts) + if IsLive(s) then 1 else 0
    ensures TotalCount(more.categoryCounts) == TotalCount(input.categoryCounts) + if IsLive(s) then 1 else 0
    ensures more == input.(severityCounts := more.severityCounts, categoryCounts := more.categoryCounts)
  {
    more := input;
    if !Dismissed(s.f.status) {
      SumIncrement(input.severityCounts, s.f.severity);
      SumIncrement(input.categoryCounts, s.f.category);
      more := input.(
        severityCounts := input.severityCounts[s.f.severity := Count(input.severityCounts, s.f.severity) + 1],
        categoryCounts := input.categoryCounts[s.f.category := Count(input.categoryCounts, s.f.category) + 1]);
    }
    CountOne(input, ss, s, more);
  }

  // ---- The decision -----------------------------------------------------

  function Observe(r: Rule, input: Input): real {
    if r.kind == SEVERITY_COUNT then Count(input.severityCounts, SeverityNamed(r.selector)) as real
    else if r.kind == CATEGORY_COUNT then Count(input.categoryCounts, r.selector) as real
    else if r.kind == RISK_SCORE then input.riskScore
    else 0.0
  }

  /** A ceiling may be reached, not exceeded. */
  predicate Breached(r: Rule, input: Input) { Observe(r, input) > r.max }

  /** What a rule of the policy, or the scan's coverage, asks for. */
  ghost predicate Demanded(p: Policy, input: Input, v: Verdict) {
    || (exists r :: r in p.rules && Breached(r, input) && r.level.AsVerdict() == v)
    || (!input.scanComplete && p.incompleteScan.AsVerdict() == v)
  }

  /** The worst verdict anything asks for, or a pass when nothing does. */
  ghost predicate IsVerdict(p: Policy, input: Input, v: Verdict) {
    && (v == Pass || Demanded(p, input, v))
    && (forall u :: Demanded(p, input, u) ==> u.Rank() <= v.Rank())
  }

  predicate RuleBefore(a: Rule, b: Rule) {
    if a.kind != b.kind then StringLess(a.kind, b.kind) else StringLess(a.selector, b.selector)
  }

  function ConditionOf(r: Rule, input: Input): Condition { Condition(r, Observe(r, input), Breached(r, input)) }

  function Conditions(rs: seq<Rule>, input: Input): seq<Condition> {
    seq(|rs|, i requires 0 <= i < |rs| => ConditionOf(rs[i], input))
  }

  /**
   The whole answer: the verdict, every rule reported once in order, and the
   coverage with whether it made the verdict worse.
   */
  ghost predicate Judged(p: Policy, input: Input, res: Result) {
    && IsVerdict(p, input, res.verdict)
    && res.conditions == Conditions(SortBy(p.rules, RuleBefore), input)
    && res.coverage.complete == input.scanComplete
    && res.coverage.scanStatus == input.scanStatus && res.coverage.level == p.incompleteScan
    && (res.coverage.downgraded <==> !IsVerdict(p, input.(scanComplete := true), res.verdict))
  }

  /** Validate: every rule usable and no two with one key. */
  method Validate(p: Policy) returns (ok: bool)
    ensures ok <==> ValidPolicy(p)
  {
    if !p.incompleteScan.Valid() {
      return false;
    }
    var seen: set<string> := {};
    for i := 0 to |p.rules|
      invariant forall k | 0 <= k < i :: ValidRule(p.rules[k])
      invariant forall key :: key in seen <==> key in MetricKeys(p.rules)[..i]
      invariant NoDup(MetricKeys(p.rules)[..i])
    {
      var r := p.rules[i];
      if !ValidRule(r) {
        return false;
      }
      var key := r.kind + "/" + r.selector;
      if key in seen {
        Duplicate(MetricKeys(p.rules), i);
        return false;
      }
      TakeNext(MetricKeys(p.rules), i);
      NoDupAppend(MetricKeys(p.rules)[..i], key);
      seen := seen + {key};
    }
    assert MetricKeys(p.rules)[..|p.rules|] == MetricKeys(p.rules);
    ok := true;
  }

  lemma Duplicate(keys: seq<string>, i: nat)
    requires i < |keys| && keys[i] in keys[..i]
    ensures !NoDup(keys)
  {
    var k :| 0 <= k < i && keys[k] == keys[i];
  }

  /** The rules in order, each judged; the verdict is the worst level breached so far. */
  method Judge(rules: seq<Rule>, input: Input) returns (verdict: Verdict, conditions: seq<Condition>)
    ensures conditions == Conditions(rules, input)
    ensures verdict == Pass || exists r :: r in rules && Breached(r, input) && r.level.AsVerdict() == verdict
    ensures forall r | r in rules && Breached(r, input) :: r.level.AsVerdict().Rank() <= verdict.Rank()
  {
    verdict, conditions := Pass, [];
    for i := 0 to |rules|
      invariant conditions == Conditions(rules, input)[..i]
      invariant verdict == Pass || exists r :: r in rules && Breached(r, input) && r.level.AsVerdict() == verdict
      invariant forall k | 0 <= k < i && Breached(rules[k], input) ::
        rules[k].level.AsVerdict().Rank() <= verdict.Rank()
    {
      var r := rules[i];
      var observed := Observe(r, input);
      var breached := observed > r.max;
      TakeNext(Conditions(rules, input), i);
      conditions := conditions + [Condition(r, observed, breached)];
      if breached && r.level.AsVerdict().Rank() > verdict.Rank() {
        assert r in rules && Breached(r, input);
        verdict := r.level.AsVerdict();
      }
    }
  }

  /**
   Evaluate: refused for an unusable policy, else the worst of everything
   breached and the coverage, with every rule reported once, in order.
   */
  method Evaluate(p: Policy, input: Input) returns (res: Option<Result>)
    ensures res.Some? <==> ValidPolicy(p)
    ensures res.Some? ==> Judged(p, input, res.value)
  {
    var ok := Validate(p);
    if !ok {
      return None;
    }
    var rules := SortBy(p.rules, RuleBefore);
    SortElements(p.rules, RuleBefore);
    var verdict, conditions := Judge(rules, input);
    ghost var judged := verdict;
    assert forall r :: Breached(r, input) == Breached(r, input.(scanComplete := true));
    assert IsVerdict(p, input.(scanComplete := true), judged);
    var downgraded := false;
    if !input.scanComplete {
      var v := p.incompleteScan.AsVerdict();
      if v.Rank() > verdict.Rank() {
        verdict, downgraded := v, true;
      }
    }
    ghost var only := OneVerdict(p, input.(scanComplete := true));
    res := Some(Result(verdict, conditions,
      Coverage(input.scanComplete, input.scanStatus, downgraded, p.incompleteScan)));
  }

  lemma RankDecidesVerdict(u: Verdict, v: Verdict)
    requires u.Rank() == v.Rank()
    ensures u == v
  {
  }

  /** Every policy gives every input one verdict. */
  lemma OneVerdict(p: Policy, input: Input) returns (v: Verdict)
    ensures forall u :: IsVerdict(p, input, u) <==> u == v
  {
    v := if Demanded(p, input, Fail) then Fail else if Demanded(p, input, Warn) then Warn else Pass;
    forall u | IsVerdict(p, input, u) ensures u == v {
      assert u.Rank() <= v.Rank() && v.Rank() <= u.Rank();
      RankDecidesVerdict(u, v);
    }
  }
}
