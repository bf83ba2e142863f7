/**
 ActionTheorems: what an action of the plan stands for. Which findings one
 action closes, and what is left of the score without them, said on the findings
 (internal/remediation/group.go, action.go, remediation.go).
 */
module ActionTheorems {
  import opened Ordering
  import opened Text
  import opened Model
  import opened Risk
  import opened RiskFactors
  import opened Remediation
  import opened RemediationTheorems

  // ---- What is left without an action -----------------------------------

  lemma {:induction false} KeepAlike<T>(s: seq<T>, p: T -> bool, q: T -> bool)
    requires forall x | x in s :: p(x) == q(x)
    ensures Keep(s, p) == Keep(s, q)
  {
    if s != [] {
      assert forall x | x in s[..|s| - 1] :: x in s;
      KeepAlike(s[..|s| - 1], p, q);
    }
  }

  /** The live findings another action closes. */
  function OthersLive(ss: seq<Subject>, key: string): seq<Subject> {
    Keep(ss, (s: Subject) => IsLive(s) && KeyOf(s) != key)
  }

  function Others(live: seq<Subject>, key: string): seq<Subject> { Keep(live, (s: Subject) => KeyOf(s) != key) }

  lemma OthersStep(ss: seq<Subject>, s: Subject, key: string)
    requires Others(Live(ss), key) == OthersLive(ss, key)
    ensures Others(Live(ss + [s]), key) == OthersLive(ss + [s], key)
  {
    KeepOneMore(ss, s, IsLive);
    KeepOneMore(ss, s, (t: Subject) => IsLive(t) && KeyOf(t) != key);
    if IsLive(s) {
      KeepOneMore(Live(ss), s, (t: Subject) => KeyOf(t) != key);
    } else {
      assert Live(ss) + [] == Live(ss);
    }
  }

  lemma {:induction false} OthersOfLive(ss: seq<Subject>, key: string)
    ensures Others(Live(ss), key) == OthersLive(ss, key)
  {
    if ss != [] {
      OthersOfLive(ss[..|ss| - 1], key);
      assert ss == ss[..|ss| - 1] + [ss[|ss| - 1]];
      OthersStep(ss[..|ss| - 1], ss[|ss| - 1], key);
    }
  }

  lemma WithheldAreOthers(w: Weights, ss: seq<Subject>, ctx: Context, exp: real -> real, a: Action)
    requires Identified(ss) && a in PlanOf(w, ss, ctx, exp).actions
    ensures Withheld(Live(ss), Excluded(a.members)) == Others(Live(ss), a.key)
  {
    var live, fps := Live(ss), Excluded(a.members);
    SortedMember(w, live, ctx, exp, a);
    KeepIdentified(ss, IsLive);
    forall s | s in live ensures s.f.fingerprint !in fps <==> KeyOf(s) != a.key {
      CoveredFingerprints(w, live, ctx, exp, a.key, s);
    }
    KeepAlike(live, (s: Subject) => s.f.fingerprint !in fps, (s: Subject) => KeyOf(s) != a.key);
  }

  /**
   An action is weighed by the project without its findings: the score they leave
   behind, and the difference, where that is a fall.
   */
  lemma WeighedWithout(w: Weights, ss: seq<Subject>, ctx: Context, exp: real -> real, a: Action)
    requires Identified(ss) && w.Valid() && a in PlanOf(w, ss, ctx, exp).actions
    ensures PlanOf(w, ss, ctx, exp).score == ProjectScore(w, Live(ss), ctx, exp)
    ensures a.scoreAfter == ProjectScore(w, OthersLive(ss, a.key), ctx, exp)
    ensures a.scoreAfter <= PlanOf(w, ss, ctx, exp).score ==>
      a.riskRemoved == PlanOf(w, ss, ctx, exp).score - a.scoreAfter
    ensures a.scoreAfter > PlanOf(w, ss, ctx, exp).score ==> a.riskRemoved == 0.0
  {
    SortedMember(w, Live(ss), ctx, exp, a);
    WithheldAreOthers(w, ss, ctx, exp, a);
    OthersOfLive(ss, a.key);
  }

  // ---- Members ----------------------------------------------------------

  /** The finding as the action lists it, with its own value. */
  function Listing(w: Weights, s: Subject, ctx: Context): Member {
    Member(s.f.fingerprint, s.f.scanner, s.f.severity, Value(w, s, ctx))
  }

  lemma ListedAs(w: Weights, live: seq<Subject>, ctx: Context, s: Subject)
    requires Identified(live) && w.Valid() && s in live && IsLive(s)
    ensures MemberOf(s, RiskTable(w, live, ctx)) == Listing(w, s, ctx)
  {
    RiskTableMeaning(w, live, ctx);
    assert TellsRisk(RiskTable(w, live, ctx), w, s, ctx);
  }

  lemma MembersSorted(w: Weights, ss: seq<Subject>, ctx: Context, exp: real -> real, a: Action)
    requires Identified(ss) && a in PlanOf(w, ss, ctx, exp).actions
    ensures Increasing(a.members, ByFingerprint)
  {
    var live := Live(ss);
    SortedMember(w, live, ctx, exp, a);
    KeepIdentified(ss, IsLive);
    KeepIdentified(live, (s: Subject) => KeyOf(s) == a.key);
    ListedSeparated(Grouped(live, a.key), RiskTable(w, live, ctx));
    ByFingerprintIsWeakOrder();
    SortIncreasing(Listed(Grouped(live, a.key), RiskTable(w, live, ctx)), ByFingerprint);
  }

  /** A live finding that the action closes. */
  ghost predicate Closes(a: Action, ss: seq<Subject>, s: Subject) { s in ss && IsLive(s) && KeyOf(s) == a.key }

  lemma MemberSource(w: Weights, ss: seq<Subject>, ctx: Context, exp: real -> real, a: Action, m: Member)
    returns (s: Subject)
    requires Identified(ss) && w.Valid() && a in PlanOf(w, ss, ctx, exp).actions && m in a.members
    ensures Closes(a, ss, s) && m == Listing(w, s, ctx)
  {
    var live := Live(ss);
    var group := Grouped(live, a.key);
    SortedMember(w, live, ctx, exp, a);
    ActionMembers(w, live, ctx, exp, a.key);
    GroupedElements(live, a.key);
    KeepElements(ss, IsLive);
    var i :| 0 <= i < |group| && Listed(group, RiskTable(w, live, ctx))[i] == m;
    s := group[i];
    assert s in group;
    KeepIdentified(ss, IsLive);
    ListedAs(w, live, ctx, s);
  }

  lemma ClosedIsMember(w: Weights, ss: seq<Subject>, ctx: Context, exp: real -> real, a: Action, s: Subject)
    requires Identified(ss) && w.Valid() && a in PlanOf(w, ss, ctx, exp).actions && Closes(a, ss, s)
    ensures Listing(w, s, ctx) in a.members
  {
    var live := Live(ss);
    var group, risks := Grouped(live, a.key), RiskTable(w, live, ctx);
    SortedMember(w, live, ctx, exp, a);
    ActionMembers(w, live, ctx, exp, a.key);
    GroupedElements(live, a.key);
    KeepElements(ss, IsLive);
    KeepIdentified(ss, IsLive);
    ListedAs(w, live, ctx, s);
    var i :| 0 <= i < |group| && group[i] == s;
    assert Listed(group, risks)[i] in Listed(group, risks);
  }

  /** An action lists exactly the live findings of its key, each with its value, in fingerprint order. */
  lemma MembersExactly(w: Weights, ss: seq<Subject>, ctx: Context, exp: real -> real, a: Action, m: Member)
    requires Identified(ss) && w.Valid() && a in PlanOf(w, ss, ctx, exp).actions
    ensures forall i, j | 0 <= i < j < |a.members| :: StringLess(a.members[i].fingerprint, a.members[j].fingerprint)
    ensures m in a.members <==> exists s :: Closes(a, ss, s) && m == Listing(w, s, ctx)
  {
    MembersSorted(w, ss, ctx, exp, a);
    if m in a.members { var s := MemberSource(w, ss, ctx, exp, a, m); }
    if s :| Closes(a, ss, s) && m == Listing(w, s, ctx) { ClosedIsMember(w, ss, ctx, exp, a, s); }
  }

  /** An action's kind and component are those of every finding it closes. */
  lemma NamedByItsFindings(w: Weights, ss: seq<Subject>, ctx: Context, exp: real -> real, a: Action, s: Subject)
    requires a in PlanOf(w, ss, ctx, exp).actions && Closes(a, ss, s)
    ensures a.kind == KindFor(s.f) && a.component == ComponentFor(s.f, KindFor(s.f))
  {
    var live := Live(ss);
    SortedMember(w, live, ctx, exp, a);
    GroupedElements(live, a.key);
    var first := Grouped(live, a.key)[0];
    assert first in Grouped(live, a.key);
    KeyDecides(first, s);
  }

  // ---- Which findings one action closes ---------------------------------

  predicate Packaged(f: Finding) { f.category == "dependency" || f.category == "container" }

  /** Neither a package, a secret, a configuration nor a license. */
  predicate InCode(f: Finding) { !Packaged(f) && f.category !in ["secrets", "iac", "license"] }

  /** The kind of work, by what the finding is about. */
  lemma KindExactly(f: Finding)
    ensures KindFor(f) == Upgrade <==> Packaged(f) && f.fix.state == Fixed && f.fix.versions != []
    ensures KindFor(f) == NoFixAvailable <==> Packaged(f) && (f.fix.state != Fixed || f.fix.versions == [])
    ensures KindFor(f) == RotateCredential <==> f.category == "secrets"
    ensures KindFor(f) == Reconfigure <==> f.category == "iac"
    ensures KindFor(f) == ReviewLicense <==> f.category == "license"
    ensures KindFor(f) == ChangeCode <==> InCode(f)
  {
  }

  /** The package URL, else the package, else the finding itself, whichever is not blank. */
  predicate PackageIs(f: Finding, name: string) {
    if TrimSpace(f.purl) != "" then name == TrimSpace(f.purl)
    else if TrimSpace(f.packageName) != "" then name == TrimSpace(f.packageName)
    else name == f.fingerprint
  }

  ghost predicate SamePackage(a: Finding, b: Finding) { exists name :: PackageIs(a, name) && PackageIs(b, name) }

  function Start(fp: string): string { if |fp| < 12 then fp else fp[..12] }

  /** One rule at fingerprints that begin alike, or one finding of no rule. */
  predicate SameSite(a: Finding, b: Finding) {
    || (TrimSpace(a.ruleId) == TrimSpace(b.ruleId) != "" && Start(a.fingerprint) == Start(b.fingerprint))
    || (TrimSpace(a.ruleId) == TrimSpace(b.ruleId) == "" && a.fingerprint == b.fingerprint)
  }

  /** Two findings are one piece of work. */
  ghost predicate SameWork(a: Finding, b: Finding) {
    || (Packaged(a) && Packaged(b) && a.fix.Available() == b.fix.Available() && SamePackage(a, b))
    || (a.category == "license" == b.category && SamePackage(a, b))
    || (a.category == "secrets" == b.category && a.fingerprint == b.fingerprint)
    || (a.category == "iac" == b.category && SameSite(a, b))
    || (InCode(a) && InCode(b) && SameSite(a, b))
  }

  lemma LastAt(r: string, x: string)
    requires '@' !in x
    ensures var s := r + "@" + x; s[|r|] == '@' && forall k | |r| < k < |s| :: s[k] != '@'
  {
    forall k | |r| < k < |r + "@" + x| ensures (r + "@" + x)[k] != '@' {
      assert (r + "@" + x)[k] == x[k - |r| - 1] && x[k - |r| - 1] in x;
    }
  }

  lemma SitesDiffer(r: string, x: string, q: string, y: string)
    requires '@' !in x && '@' !in y
    ensures r + "@" + x == q + "@" + y <==> r == q && x == y
  {
    var a, b := r + "@" + x, q + "@" + y;
    LastAt(r, x);
    LastAt(q, y);
    if a == b {
      assert |r| == |q|;
      assert a[..|r|] == r && b[..|q|] == q && a[|r| + 1..] == x && b[|q| + 1..] == y;
    }
  }

  lemma NotASite(r: string, x: string, fp: string)
    requires '@' !in fp
    ensures r + "@" + x != fp
  {
    assert (r + "@" + x)[|r|] == '@';
  }

  lemma SiteExactly(a: Finding, b: Finding, kind: Kind)
    requires '@' !in a.fingerprint && '@' !in b.fingerprint && (kind == Reconfigure || kind == ChangeCode)
    ensures ComponentFor(a, kind) == ComponentFor(b, kind) <==> SameSite(a, b)
  {
    var r, q, x, y := TrimSpace(a.ruleId), TrimSpace(b.ruleId), Start(a.fingerprint), Start(b.fingerprint);
    assert forall c | c in x :: c in a.fingerprint;
    assert forall c | c in y :: c in b.fingerprint;
    SitesDiffer(r, x, q, y);
    NotASite(r, x, b.fingerprint);
    NotASite(q, y, a.fingerprint);
  }

  lemma PackageExactly(a: Finding, b: Finding, kind: Kind)
    requires kind == Upgrade || kind == NoFixAvailable || kind == ReviewLicense
    ensures ComponentFor(a, kind) == ComponentFor(b, kind) <==> SamePackage(a, b)
  {
    assert PackageIs(a, ComponentFor(a, kind)) && PackageIs(b, ComponentFor(b, kind));
  }

  /** One action closes two findings exactly when they are one piece of work. */
  lemma SharedActionExactly(s: Subject, t: Subject)
    requires '@' !in s.f.fingerprint && '@' !in t.f.fingerprint
    ensures KeyOf(s) == KeyOf(t) <==> SameWork(s.f, t.f)
  {
    KindExactly(s.f);
    KindExactly(t.f);
    if KeyOf(s) == KeyOf(t) { KeyDecides(s, t); }
    var kind := KindFor(s.f);
    if kind == KindFor(t.f) {
      if kind == Reconfigure || kind == ChangeCode {
        SiteExactly(s.f, t.f, kind);
      } else if kind != RotateCredential {
        PackageExactly(s.f, t.f, kind);
      }
    }
  }

  /**
   The code means each site of a rule to be an action of its own. It is, unless
   two fingerprints begin with the same twelve characters.
   */
  lemma SitesMergeExactly(s: Subject, t: Subject)
    requires '@' !in s.f.fingerprint && '@' !in t.f.fingerprint && s.f.fingerprint != t.f.fingerprint
    requires InCode(s.f) && InCode(t.f) && TrimSpace(s.f.ruleId) == TrimSpace(t.f.ruleId)
    ensures KeyOf(s) == KeyOf(t) <==> TrimSpace(s.f.ruleId) != "" && Start(s.f.fingerprint) == Start(t.f.fingerprint)
  {
    SharedActionExactly(s, t);
  }

  /** Two secrets are never one rotation. */
  lemma SecretsStandAlone(w: Weights, ss: seq<Subject>, ctx: Context, exp: real -> real, a: Action, s: Subject)
    requires Identified(ss) && w.Valid() && a in PlanOf(w, ss, ctx, exp).actions
    requires Closes(a, ss, s) && s.f.category == "secrets"
    ensures a.members == [Listing(w, s, ctx)]
  {
    var m := Listing(w, s, ctx);
    MembersSorted(w, ss, ctx, exp, a);
    ClosedIsMember(w, ss, ctx, exp, a, s);
    forall n | n in a.members ensures n == m {
      var t := MemberSource(w, ss, ctx, exp, a, n);
      KeyDecides(s, t);
      SameSubject(ss, s, t);
    }
    if |a.members| > 1 {
      assert a.members[0] in a.members && a.members[1] in a.members && ByFingerprint(a.members[0], a.members[1]);
      StringLessAsymmetric(m.fingerprint, m.fingerprint);
      assert false;
    }
    var i :| 0 <= i < |a.members| && a.members[i] == m;
  }
}
