/**
 Remediation: the plan of actions and what each would remove from the score
 (internal/remediation). Statements, versions and references are not part of it.
 */
module Remediation {
  import opened Ordering
  import opened Text
  import opened Model
  import opened Risk

  datatype Kind = Upgrade | NoFixAvailable | RotateCredential | Reconfigure | ChangeCode | ReviewLicense
  {
    function Text(): string {
      match this
      case Upgrade => "upgrade"
      case NoFixAvailable => "no_fix_available"
      case RotateCredential => "rotate_credential"
      case Reconfigure => "reconfigure"
      case ChangeCode => "change_code"
      case ReviewLicense => "review_license"
    }
  }

  datatype Member = Member(fingerprint: string, scanner: string, severity: Severity, risk: real)

  datatype Action = Action(
    kind: Kind, key: string, component: string, members: seq<Member>, riskRemoved: real, scoreAfter: real)

  datatype Plan = Plan(actions: seq<Action>, score: real, addressable: nat)

  // ---- Grouping ---------------------------------------------------------

  function KindFor(f: Finding): Kind {
    if f.category == "dependency" || f.category == "container" then
      if f.fix.Available() then Upgrade else NoFixAvailable
    else if f.category == "secrets" then RotateCredential
    else if f.category == "iac" then Reconfigure
    else if f.category == "license" then ReviewLicense
    else ChangeCode
  }

  function ComponentFor(f: Finding, kind: Kind): string {
    match kind
    case Upgrade | NoFixAvailable | ReviewLicense =>
      if TrimSpace(f.purl) != "" then TrimSpace(f.purl)
      else if TrimSpace(f.packageName) != "" then TrimSpace(f.packageName)
      else f.fingerprint
    case Reconfigure | ChangeCode =>
      if TrimSpace(f.ruleId) != "" then
        TrimSpace(f.ruleId) + "@" + if |f.fingerprint| < 12 then f.fingerprint else f.fingerprint[..12]
      else f.fingerprint
    case RotateCredential => f.fingerprint
  }

  function KeyOf(s: Subject): string { KindFor(s.f).Text() + ":" + ComponentFor(s.f, KindFor(s.f)) }

  predicate IsLive(s: Subject) { !Dismissed(s.f.status) }

  function Live(ss: seq<Subject>): seq<Subject> { Keep(ss, IsLive) }

  function Grouped(live: seq<Subject>, key: string): seq<Subject> {
    Keep(live, (s: Subject) => KeyOf(s) == key)
  }

  function Keys(live: seq<Subject>): seq<string> {
    Distinct(seq(|live|, i requires 0 <= i < |live| => KeyOf(live[i])))
  }

  function MemberOf(s: Subject, risks: map<string, real>): Member {
    Member(s.f.fingerprint, s.f.scanner, s.f.severity, Entry(risks, s.f.fingerprint, 0.0))
  }

  function Listed(group: seq<Subject>, risks: map<string, real>): seq<Member> {
    seq(|group|, i requires 0 <= i < |group| => MemberOf(group[i], risks))
  }

  predicate ByFingerprint(a: Member, b: Member) { StringLess(a.fingerprint, b.fingerprint) }

  // ---- The plan ---------------------------------------------------------

  /** The score, or zero when the weights are refused. */
  function ScoreOf(w: Weights, ss: seq<Subject>, ctx: Context, exp: real -> real): real {
    if w.Valid() then ProjectScore(w, ss, ctx, exp) else 0.0
  }

  /** What each finding scores on its own. */
  function RiskTable(w: Weights, live: seq<Subject>, ctx: Context): map<string, real> {
    if live == [] || !w.Valid() then map[] else
      var s := live[|live| - 1];
      RiskTable(w, live[..|live| - 1], ctx)[s.f.fingerprint := ScoreOne(w, s, ctx).value]
  }

  function Withheld(live: seq<Subject>, fps: set<string>): seq<Subject> {
    Keep(live, (s: Subject) => s.f.fingerprint !in fps)
  }

  function Excluded(ms: seq<Member>): set<string> { set m | m in ms :: m.fingerprint }

  /** The action of one key, with the score its group's absence would leave. */
  function ActionFor(w: Weights, live: seq<Subject>, ctx: Context, exp: real -> real, key: string): Action
    requires Grouped(live, key) != []
  {
    var group := Grouped(live, key);
    var members := SortBy(Listed(group, RiskTable(w, live, ctx)), ByFingerprint);
    var score, after := ScoreOf(w, live, ctx, exp), ScoreOf(w, Withheld(live, Excluded(members)), ctx, exp);
    Action(KindFor(group[0].f), key, ComponentFor(group[0].f, KindFor(group[0].f)), members,
      if score - after < 0.0 then 0.0 else score - after, after)
  }

  function Actions(w: Weights, live: seq<Subject>, ctx: Context, exp: real -> real): (r: seq<Action>)
    ensures |r| == |Keys(live)|
  {
    KeysAreGroups(live);
    seq(|Keys(live)|, i requires 0 <= i < |Keys(live)| => ActionFor(w, live, ctx, exp, Keys(live)[i]))
  }

  /** What it would remove, then how many findings it closes, then its key. */
  predicate Before(a: Action, b: Action) {
    if a.riskRemoved != b.riskRemoved then a.riskRemoved > b.riskRemoved
    else if |a.members| != |b.members| then |a.members| > |b.members|
    else StringLess(a.key, b.key)
  }

  function PlanOf(w: Weights, ss: seq<Subject>, ctx: Context, exp: real -> real): Plan {
    Plan(SortBy(Actions(w, Live(ss), ctx, exp), Before), ScoreOf(w, Live(ss), ctx, exp), |Live(ss)|)
  }

  lemma KeysAreGroups(live: seq<Subject>)
    ensures NoDup(Keys(live))
    ensures forall key :: key in Keys(live) <==> Grouped(live, key) != []
    ensures forall i | 0 <= i < |Keys(live)| :: Grouped(live, Keys(live)[i]) != []
  {
    var keys := seq(|live|, i requires 0 <= i < |live| => KeyOf(live[i]));
    DistinctElements(keys);
    forall key ensures key in keys <==> Grouped(live, key) != [] {
      GroupedElements(live, key);
      if key in keys {
        var i :| 0 <= i < |keys| && keys[i] == key;
        assert live[i] in Grouped(live, key);
      }
      if Grouped(live, key) != [] {
        assert Grouped(live, key)[0] in Grouped(live, key);
        var i :| 0 <= i < |live| && live[i] == Grouped(live, key)[0];
        assert keys[i] == key;
      }
    }
    forall i | 0 <= i < |Keys(live)| ensures Grouped(live, Keys(live)[i]) != [] {
      assert Keys(live)[i] in Keys(live);
    }
  }

  lemma GroupedElements(live: seq<Subject>, key: string)
    ensures forall s :: s in Grouped(live, key) <==> s in live && KeyOf(s) == key
  {
    KeepElements(live, (s: Subject) => KeyOf(s) == key);
  }

  lemma KeysAppend(live: seq<Subject>, s: Subject)
    ensures Keys(live + [s]) == Keys(live) + if KeyOf(s) in Keys(live) then [] else [KeyOf(s)]
  {
    var a := seq(|live|, i requires 0 <= i < |live| => KeyOf(live[i]));
    var b := seq(|live + [s]|, i requires 0 <= i < |live + [s]| => KeyOf((live + [s])[i]));
    assert b[..|b| - 1] == a;
  }

  lemma GroupedAppend(live: seq<Subject>, s: Subject, key: string)
    ensures Grouped(live + [s], key) == if KeyOf(s) == key then Grouped(live, key) + [s] else Grouped(live, key)
  {
    assert (live + [s])[..|live|] == live;
  }

  // ---- The algorithm ----------------------------------------------------

  /** The entry holds the group's kind, component and members so far. */
  ghost predicate Holds(a: Action, key: string, group: seq<Subject>, risks: map<string, real>) {
    && group != [] && a.key == key
    && a.kind == KindFor(group[0].f) && a.component == ComponentFor(group[0].f, a.kind)
    && a.members == Listed(group, risks)
  }

  ghost predicate HoldsFor(table: map<string, Action>, live: seq<Subject>, risks: map<string, real>, key: string) {
    (key in table <==> Grouped(live, key) != []) && (key in table ==> Holds(table[key], key, Grouped(live, key), risks))
  }

  ghost predicate Holding(table: map<string, Action>, live: seq<Subject>, risks: map<string, real>) {
    forall key :: HoldsFor(table, live, risks, key)
  }

  lemma HoldingKept(table: map<string, Action>, live: seq<Subject>, risks: map<string, real>, s: Subject, a: Action)
    requires Holding(table, live, risks) && Holds(a, KeyOf(s), Grouped(live, KeyOf(s)) + [s], risks)
    ensures Holding(table[KeyOf(s) := a], live + [s], risks)
  {
    var table', live' := table[KeyOf(s) := a], live + [s];
    forall key ensures HoldsFor(table', live', risks, key) {
      GroupedAppend(live, s, key);
      assert HoldsFor(table, live, risks, key);
    }
  }

  /** One finding joins its group, opening it if it is the first. */
  method Join(table: map<string, Action>, s: Subject, risks: map<string, real>, ghost live: seq<Subject>)
    returns (a: Action)
    requires HoldsFor(table, live, risks, KeyOf(s))
    ensures Holds(a, KeyOf(s), Grouped(live, KeyOf(s)) + [s], risks)
  {
    var kind := KindFor(s.f);
    var component := ComponentFor(s.f, kind);
    var key := kind.Text() + ":" + component;
    ghost var group := Grouped(live, key);
    if key in table {
      a := table[key];
    } else {
      a := Action(kind, key, component, [], 0.0, 0.0);
      assert group + [s] == [s] && Listed([], risks) == [];
    }
    a := a.(members := a.members + [MemberOf(s, risks)]);
    assert Listed(group + [s], risks) == Listed(group, risks) + [MemberOf(s, risks)];
  }

  method Enter(
    table: map<string, Action>, order: seq<string>, s: Subject, risks: map<string, real>, ghost live: seq<Subject>)
    returns (table': map<string, Action>, order': seq<string>)
    requires order == Keys(live) && Holding(table, live, risks)
    ensures order' == Keys(live + [s]) && Holding(table', live + [s], risks)
  {
    var key := KeyOf(s);
    KeysAppend(live, s);
    KeysAreGroups(live);
    assert HoldsFor(table, live, risks, key);
    order' := if key in table then order else order + [key];
    var a := Join(table, s, risks, live);
    HoldingKept(table, live, risks, s, a);
    table' := table[key := a];
  }

  method Collect(live: seq<Subject>, risks: map<string, real>) returns (table: map<string, Action>, order: seq<string>)
    ensures order == Keys(live) && Holding(table, live, risks)
  {
    table, order := map[], [];
    for i := 0 to |live|
      invariant order == Keys(live[..i])
      invariant Holding(table, live[..i], risks)
    {
      assert live[..i + 1] == live[..i] + [live[i]];
      table, order := Enter(table, order, live[i], risks, live[..i]);
    }
    assert live[..|live|] == live;
  }

  method Without(live: seq<Subject>, members: seq<Member>) returns (out: seq<Subject>)
    ensures out == Withheld(live, Excluded(members))
  {
    var excluded: set<string> := {};
    for i := 0 to |members|
      invariant excluded == Excluded(members[..i])
    {
      excluded := excluded + {members[i].fingerprint};
      assert members[..i + 1] == members[..i] + [members[i]];
    }
    assert members[..|members|] == members;
    out := [];
    for i := 0 to |live|
      invariant out == Withheld(live[..i], excluded)
    {
      assert live[..i + 1][..i] == live[..i];
      if live[i].f.fingerprint !in excluded {
        out := out + [live[i]];
      }
    }
    assert live[..|live|] == live;
  }

  method AssessScore(w: Weights, ss: seq<Subject>, ctx: Context, exp: real -> real)
    returns (score: real, findings: seq<Score>)
    ensures score == ScoreOf(w, ss, ctx, exp)
    ensures findings == if w.Valid() then Scores(w, ss, ctx) else []
  {
    var a := Assess(w, ss, ctx, exp);
    if a.None? {
      return 0.0, [];
    }
    return a.value.score, a.value.findings;
  }

  method RiskPerFinding(w: Weights, live: seq<Subject>, ctx: Context, findings: seq<Score>)
    returns (risks: map<string, real>)
    requires findings == if w.Valid() then Scores(w, live, ctx) else []
    ensures risks == RiskTable(w, live, ctx)
  {
    risks := map[];
    for i := 0 to |findings|
      invariant risks == RiskTable(w, live[..i], ctx)
    {
      assert live[..i + 1][..i] == live[..i];
      risks := risks[findings[i].fingerprint := findings[i].value];
    }
    assert live[..|live|] == live;
  }

  /** One group's action: its members in order and the score without them. */
  method Weigh(w: Weights, live: seq<Subject>, ctx: Context, exp: real -> real, a: Action, baseline: real)
    returns (r: Action)
    requires baseline == ScoreOf(w, live, ctx, exp)
    requires Holds(a, a.key, Grouped(live, a.key), RiskTable(w, live, ctx))
    ensures r == ActionFor(w, live, ctx, exp, a.key)
  {
    r := a.(members := SortBy(a.members, ByFingerprint));
    var remaining := Without(live, r.members);
    var after, _ := AssessScore(w, remaining, ctx, exp);
    var removed := baseline - after;
    if removed < 0.0 {
      removed := 0.0;
    }
    r := r.(scoreAfter := after, riskRemoved := removed);
  }

  method WeighOne(
    w: Weights, live: seq<Subject>, ctx: Context, exp: real -> real, table: map<string, Action>, key: string,
    baseline: real)
    returns (a: Action)
    requires key in Keys(live) && Holding(table, live, RiskTable(w, live, ctx))
    requires baseline == ScoreOf(w, live, ctx, exp)
    ensures Grouped(live, key) != [] && a == ActionFor(w, live, ctx, exp, key)
  {
    KeysAreGroups(live);
    assert HoldsFor(table, live, RiskTable(w, live, ctx), key);
    a := Weigh(w, live, ctx, exp, table[key], baseline);
  }

  method ListLive(ss: seq<Subject>) returns (live: seq<Subject>)
    ensures live == Live(ss)
  {
    live := [];
    for i := 0 to |ss|
      invariant live == Live(ss[..i])
    {
      assert ss[..i + 1][..i] == ss[..i];
      if !Dismissed(ss[i].f.status) {
        live := live + [ss[i]];
      }
    }
    assert ss[..|ss|] == ss;
  }

  method WeighAll(w: Weights, live: seq<Subject>, ctx: Context, exp: real -> real, findings: seq<Score>, baseline: real)
    returns (grouped: seq<Action>)
    requires findings == if w.Valid() then Scores(w, live, ctx) else []
    requires baseline == ScoreOf(w, live, ctx, exp)
    ensures grouped == Actions(w, live, ctx, exp)
  {
    var risks := RiskPerFinding(w, live, ctx, findings);
    var table, order := Collect(live, risks);
    ghost var all := Actions(w, live, ctx, exp);
    grouped := [];
    for k := 0 to |order|
      invariant grouped == all[..k]
    {
      var a := WeighOne(w, live, ctx, exp, table, order[k], baseline);
      TakeNext(all, k);
      grouped := grouped + [a];
    }
  }

  /** BuildWith: the plan for the live findings. */
  method Build(w: Weights, ss: seq<Subject>, ctx: Context, exp: real -> real) returns (plan: Plan)
    ensures plan == PlanOf(w, ss, ctx, exp)
  {
    var live := ListLive(ss);
    var baseline, findings := AssessScore(w, live, ctx, exp);
    if live == [] {
      assert Actions(w, live, ctx, exp) == [];
      return Plan([], baseline, 0);
    }
    var grouped := WeighAll(w, live, ctx, exp, findings, baseline);
    plan := Plan(SortBy(grouped, Before), baseline, |live|);
  }
}
