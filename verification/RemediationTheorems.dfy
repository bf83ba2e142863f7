/**
 RemediationTheorems: a plan accounts for every live finding once, no action can
 make the score worse, and the ranking does not depend on the order of the input.
 */
module RemediationTheorems {
  import opened Ordering
  import opened Model
  import opened Risk
  import opened Remediation

  // ---- Withholding findings never raises the score ----------------------

  lemma BelowStep(a: seq<real>, b: seq<real>, tail: seq<real>, keep: bool)
    requires Below(a, b) && |tail| <= 1
    ensures Below(a + if keep then tail else [], b + tail)
  {
    if tail == [] {
      assert a + [] == a && b + [] == b;
    } else {
      assert (b + tail)[..|b|] == b && (a + tail)[..|a|] == a && a + [] == a;
    }
  }

  lemma OneValue(w: Weights, s: Subject, ctx: Context)
    ensures |Values(w, [s], ctx)| <= 1
  {
  }

  lemma KeptValues(w: Weights, rest: seq<Subject>, s: Subject, p: Subject -> bool, ctx: Context)
    ensures Values(w, Keep(rest + [s], p), ctx) ==
      Values(w, Keep(rest, p), ctx) + if p(s) then Values(w, [s], ctx) else []
  {
    assert (rest + [s])[..|rest|] == rest;
    if p(s) {
      ValuesAppend(w, Keep(rest, p), [s], ctx);
    } else {
      assert Keep(rest + [s], p) == Keep(rest, p);
    }
  }

  lemma {:induction false} KeepBelow(w: Weights, ss: seq<Subject>, p: Subject -> bool, ctx: Context)
    ensures Below(Values(w, Keep(ss, p), ctx), Values(w, ss, ctx))
  {
    if ss != [] {
      var rest, s := ss[..|ss| - 1], ss[|ss| - 1];
      KeepBelow(w, rest, p, ctx);
      OneValue(w, s, ctx);
      BelowStep(Values(w, Keep(rest, p), ctx), Values(w, rest, ctx), Values(w, [s], ctx), p(s));
      assert ss == rest + [s];
      ValuesAppend(w, rest, [s], ctx);
      KeptValues(w, rest, s, p, ctx);
    }
  }

  lemma SortedMember(w: Weights, live: seq<Subject>, ctx: Context, exp: real -> real, a: Action)
    requires a in SortBy(Actions(w, live, ctx, exp), Before)
    ensures a.key in Keys(live) && Grouped(live, a.key) != [] && a == ActionFor(w, live, ctx, exp, a.key)
  {
    var all := Actions(w, live, ctx, exp);
    KeysAreGroups(live);
    SortElements(all, Before);
    var i :| 0 <= i < |all| && all[i] == a;
    assert a.key == Keys(live)[i];
  }

  /**
   For every valid weight set no action makes things worse: the clamp never
   fires, and what an action removes is exactly the fall of the score.
   */
  lemma WithholdingNeverRaises(w: Weights, ss: seq<Subject>, ctx: Context, exp: real -> real, a: Action)
    requires w.Valid() && w.Places(ctx) && ExpLike(exp) && forall s | s in ss :: s.f.Storable()
    requires a in PlanOf(w, ss, ctx, exp).actions
    ensures 0.0 <= a.scoreAfter && 0.0 <= a.riskRemoved
    ensures a.scoreAfter + a.riskRemoved == PlanOf(w, ss, ctx, exp).score < 100.0
  {
    var live := Live(ss);
    SortedMember(w, live, ctx, exp, a);
    var fps := Excluded(a.members);
    KeepElements(ss, IsLive);
    KeepElements(live, (s: Subject) => s.f.fingerprint !in fps);
    KeepBelow(w, live, (s: Subject) => s.f.fingerprint !in fps, ctx);
    ScoreMonotone(w, Withheld(live, fps), live, ctx, exp);
  }

  // ---- The actions partition the live findings --------------------------

  function SubjectFingerprints(ss: seq<Subject>): seq<string> {
    seq(|ss|, i requires 0 <= i < |ss| => ss[i].f.fingerprint)
  }

  ghost predicate Identified(ss: seq<Subject>) { NoDup(SubjectFingerprints(ss)) }

  lemma SameSubject(ss: seq<Subject>, s: Subject, t: Subject)
    requires Identified(ss) && s in ss && t in ss && s.f.fingerprint == t.f.fingerprint
    ensures s == t
  {
    var i :| 0 <= i < |ss| && ss[i] == s;
    var j :| 0 <= j < |ss| && ss[j] == t;
    assert SubjectFingerprints(ss)[i] == SubjectFingerprints(ss)[j];
  }

  lemma {:induction false} KeepIdentified(ss: seq<Subject>, p: Subject -> bool)
    requires Identified(ss)
    ensures Identified(Keep(ss, p))
  {
    if ss != [] {
      var rest, s := ss[..|ss| - 1], ss[|ss| - 1];
      assert SubjectFingerprints(rest) == SubjectFingerprints(ss)[..|rest|];
      KeepIdentified(rest, p);
      KeepElements(rest, p);
      if p(s) {
        forall i | 0 <= i < |Keep(rest, p)| ensures SubjectFingerprints(Keep(rest, p))[i] != s.f.fingerprint {
          assert Keep(rest, p)[i] in rest;
          var j :| 0 <= j < |rest| && rest[j] == Keep(rest, p)[i];
          assert SubjectFingerprints(ss)[j] != SubjectFingerprints(ss)[|rest|];
        }
        NoDupAppend(SubjectFingerprints(Keep(rest, p)), s.f.fingerprint);
        assert SubjectFingerprints(Keep(ss, p)) == SubjectFingerprints(Keep(rest, p)) + [s.f.fingerprint];
      } else {
        assert Keep(ss, p) == Keep(rest, p);
      }
    }
  }

  /** The members of an action are the findings of its group. */
  lemma ActionMembers(w: Weights, live: seq<Subject>, ctx: Context, exp: real -> real, key: string)
    requires Grouped(live, key) != []
    ensures var a := ActionFor(w, live, ctx, exp, key);
      a.members != [] && forall m :: m in a.members <==> m in Listed(Grouped(live, key), RiskTable(w, live, ctx))
  {
    SortElements(Listed(Grouped(live, key), RiskTable(w, live, ctx)), ByFingerprint);
  }

  lemma CoveredFingerprints(w: Weights, live: seq<Subject>, ctx: Context, exp: real -> real, key: string, s: Subject)
    requires Grouped(live, key) != [] && s in live
    ensures KeyOf(s) == key ==> s.f.fingerprint in Excluded(ActionFor(w, live, ctx, exp, key).members)
    ensures Identified(live) && KeyOf(s) != key ==>
      s.f.fingerprint !in Excluded(ActionFor(w, live, ctx, exp, key).members)
  {
    var group, risks := Grouped(live, key), RiskTable(w, live, ctx);
    ActionMembers(w, live, ctx, exp, key);
    GroupedElements(live, key);
    if KeyOf(s) == key {
      var i :| 0 <= i < |group| && group[i] == s;
      assert Listed(group, risks)[i] in ActionFor(w, live, ctx, exp, key).members;
    } else if s.f.fingerprint in Excluded(ActionFor(w, live, ctx, exp, key).members) && Identified(live) {
      var m :| m in ActionFor(w, live, ctx, exp, key).members && m.fingerprint == s.f.fingerprint;
      var i :| 0 <= i < |group| && Listed(group, risks)[i] == m;
      assert group[i] in group;
      SameSubject(live, s, group[i]);
      assert false;
    }
  }

  /** Every member is a live finding. */
  lemma MemberIsLive(w: Weights, live: seq<Subject>, ctx: Context, exp: real -> real, key: string, fp: string)
    requires Grouped(live, key) != [] && fp in Excluded(ActionFor(w, live, ctx, exp, key).members)
    ensures fp in SubjectFingerprints(live)
  {
    var group, risks := Grouped(live, key), RiskTable(w, live, ctx);
    ActionMembers(w, live, ctx, exp, key);
    GroupedElements(live, key);
    var m :| m in ActionFor(w, live, ctx, exp, key).members && m.fingerprint == fp;
    var i :| 0 <= i < |group| && Listed(group, risks)[i] == m;
    assert group[i] in live;
    var j :| 0 <= j < |live| && live[j] == group[i];
    assert SubjectFingerprints(live)[j] == fp;
  }

  predicate AllIn(fps: set<string>, listed: seq<string>) { forall fp | fp in fps :: fp in listed }

  lemma MembersAreLive(w: Weights, live: seq<Subject>, ctx: Context, exp: real -> real, a: Action)
    requires Grouped(live, a.key) != [] && a == ActionFor(w, live, ctx, exp, a.key)
    ensures a.members != [] && AllIn(Excluded(a.members), SubjectFingerprints(live))
  {
    ActionMembers(w, live, ctx, exp, a.key);
    forall fp | fp in Excluded(a.members) ensures fp in SubjectFingerprints(live) {
      MemberIsLive(w, live, ctx, exp, a.key, fp);
    }
  }

  lemma ActionOf(w: Weights, live: seq<Subject>, ctx: Context, exp: real -> real, s: Subject) returns (a: Action)
    requires s in live
    ensures a in Actions(w, live, ctx, exp) && a.key == KeyOf(s)
  {
    KeysAreGroups(live);
    GroupedElements(live, KeyOf(s));
    assert s in Grouped(live, KeyOf(s));
    var i :| 0 <= i < |Keys(live)| && Keys(live)[i] == KeyOf(s);
    a := Actions(w, live, ctx, exp)[i];
  }

  /** Each live finding is in one action, the one of its key, and every action has members. */
  lemma ActionsPartitionLive(w: Weights, ss: seq<Subject>, ctx: Context, exp: real -> real)
    requires Identified(ss)
    ensures var plan := PlanOf(w, ss, ctx, exp);
      && plan.addressable == |Live(ss)|
      && (forall i, j | 0 <= i < j < |plan.actions| :: plan.actions[i].key != plan.actions[j].key)
      && (forall a | a in plan.actions :: a.members != [] && AllIn(Excluded(a.members), SubjectFingerprints(Live(ss))))
      && (forall s | s in Live(ss) :: exists a :: a in plan.actions && a.key == KeyOf(s))
      && (forall s, a | s in Live(ss) && a in plan.actions ::
            s.f.fingerprint in Excluded(a.members) <==> a.key == KeyOf(s))
  {
    var live, plan := Live(ss), PlanOf(w, ss, ctx, exp);
    var all := Actions(w, live, ctx, exp);
    KeysAreGroups(live);
    KeepIdentified(ss, IsLive);
    SortElements(all, Before);
    RankedKeysDiffer(w, live, ctx, exp);
    forall a | a in plan.actions
      ensures a.members != [] && AllIn(Excluded(a.members), SubjectFingerprints(live))
    {
      SortedMember(w, live, ctx, exp, a);
      MembersAreLive(w, live, ctx, exp, a);
    }
    forall s | s in live ensures exists a :: a in plan.actions && a.key == KeyOf(s) {
      var a := ActionOf(w, live, ctx, exp, s);
      assert a in plan.actions;
    }
    forall s, a | s in live && a in plan.actions ensures s.f.fingerprint in Excluded(a.members) <==> a.key == KeyOf(s) {
      SortedMember(w, live, ctx, exp, a);
      CoveredFingerprints(w, live, ctx, exp, a.key, s);
    }
  }

  // ---- The ranking ------------------------------------------------------

  lemma BeforeIsWeakOrder()
    ensures StrictWeakOrder(Before)
  {
    StringLessIsTotal();
  }

  /** Actions of different keys are ranked one before the other. */
  lemma KeysRank(w: Weights, live: seq<Subject>, ctx: Context, exp: real -> real)
    ensures Separated(Actions(w, live, ctx, exp), Before)
  {
    StringLessIsTotal();
    KeysAreGroups(live);
    var all := Actions(w, live, ctx, exp);
    forall i, j | 0 <= i < j < |all| ensures Before(all[i], all[j]) || Before(all[j], all[i]) {
      assert all[i].key == Keys(live)[i] && all[j].key == Keys(live)[j];
    }
  }

  /** The ranking is strict: most risk removed first, then most findings closed, then key. */
  lemma PlanIsRanked(w: Weights, ss: seq<Subject>, ctx: Context, exp: real -> real)
    ensures Increasing(PlanOf(w, ss, ctx, exp).actions, Before)
    ensures var r := PlanOf(w, ss, ctx, exp).actions;
      forall i, j | 0 <= i < j < |r| ::
        && r[i].riskRemoved >= r[j].riskRemoved
        && (r[i].riskRemoved == r[j].riskRemoved ==> |r[i].members| >= |r[j].members|)
        && (r[i].riskRemoved == r[j].riskRemoved && |r[i].members| == |r[j].members| ==>
              StringLess(r[i].key, r[j].key))
  {
    BeforeIsWeakOrder();
    KeysRank(w, Live(ss), ctx, exp);
    SortIncreasing(Actions(w, Live(ss), ctx, exp), Before);
  }

  lemma RankedKeysDiffer(w: Weights, live: seq<Subject>, ctx: Context, exp: real -> real)
    ensures var r := SortBy(Actions(w, live, ctx, exp), Before);
      forall i, j | 0 <= i < j < |r| :: r[i].key != r[j].key
  {
    BeforeIsWeakOrder();
    StringLessIsTotal();
    KeysRank(w, live, ctx, exp);
    var r := SortBy(Actions(w, live, ctx, exp), Before);
    SortIncreasing(Actions(w, live, ctx, exp), Before);
    forall i, j | 0 <= i < j < |r| ensures r[i].key != r[j].key {
      assert r[i] in r && r[j] in r;
      SortedMember(w, live, ctx, exp, r[i]);
      SortedMember(w, live, ctx, exp, r[j]);
      assert Before(r[i], r[j]) && !Before(r[j], r[i]);
    }
  }

  // ---- The order of the input -------------------------------------------

  lemma CountTwo<T>(s: seq<T>, i: nat, j: nat)
    requires i < j < |s| && s[i] == s[j]
    ensures multiset(s)[s[i]] >= 2
  {
    assert s == s[..j] + s[j..];
    assert s[i] in s[..j] && s[i] in s[j..];
    assert multiset(s) == multiset(s[..j]) + multiset(s[j..]);
  }

  lemma {:induction false} TwoOf<T>(s: seq<T>, x: T) returns (i: nat, j: nat)
    requires multiset(s)[x] >= 2
    ensures i < j < |s| && s[i] == x == s[j]
  {
    var rest, last := s[..|s| - 1], s[|s| - 1];
    assert s == rest + [last];
    if last == x {
      assert x in multiset(rest);
      var k :| 0 <= k < |rest| && rest[k] == x;
      i, j := k, |s| - 1;
    } else {
      i, j := TwoOf(rest, x);
    }
  }

  lemma Repeated(ss: seq<Subject>, k: nat, l: nat)
    requires k < l < |ss| && ss[k] == ss[l]
    ensures !Identified(ss)
  {
    assert SubjectFingerprints(ss)[k] == SubjectFingerprints(ss)[l];
  }

  lemma IdentifiedPermutation(ss: seq<Subject>, tt: seq<Subject>)
    requires Identified(ss) && multiset(ss) == multiset(tt)
    ensures Identified(tt)
  {
    forall i, j | 0 <= i < j < |tt| ensures SubjectFingerprints(tt)[i] != SubjectFingerprints(tt)[j] {
      if tt[i].f.fingerprint == tt[j].f.fingerprint {
        assert tt[i] in multiset(ss) && tt[j] in multiset(ss);
        SameSubject(ss, tt[i], tt[j]);
        CountTwo(tt, i, j);
        var k, l := TwoOf(ss, tt[i]);
        Repeated(ss, k, l);
        assert false;
      }
    }
  }

  predicate TellsRisk(risks: map<string, real>, w: Weights, s: Subject, ctx: Context) {
    s.f.fingerprint in risks && risks[s.f.fingerprint] == ScoreOne(w, s, ctx).value
  }

  lemma {:induction false} RiskTableMeaning(w: Weights, live: seq<Subject>, ctx: Context)
    requires Identified(live) && w.Valid()
    ensures forall fp :: fp in RiskTable(w, live, ctx) <==> fp in SubjectFingerprints(live)
    ensures forall s | s in live :: TellsRisk(RiskTable(w, live, ctx), w, s, ctx)
  {
    if live != [] {
      var rest, last := live[..|live| - 1], live[|live| - 1];
      assert SubjectFingerprints(live) == SubjectFingerprints(rest) + [last.f.fingerprint];
      assert SubjectFingerprints(rest) == SubjectFingerprints(live)[..|rest|];
      RiskTableMeaning(w, rest, ctx);
      forall s | s in live ensures TellsRisk(RiskTable(w, live, ctx), w, s, ctx) {
        if s.f.fingerprint == last.f.fingerprint {
          SameSubject(live, s, last);
        } else {
          assert s in rest && TellsRisk(RiskTable(w, rest, ctx), w, s, ctx);
        }
      }
    }
  }

  lemma SameRisks(w: Weights, live: seq<Subject>, live': seq<Subject>, ctx: Context)
    requires Identified(live) && multiset(live) == multiset(live')
    ensures RiskTable(w, live, ctx) == RiskTable(w, live', ctx)
  {
    if w.Valid() {
      IdentifiedPermutation(live, live');
      RiskTableMeaning(w, live, ctx);
      RiskTableMeaning(w, live', ctx);
      SameMembership(live, live');
      var a, b := RiskTable(w, live, ctx), RiskTable(w, live', ctx);
      forall fp ensures (fp in a <==> fp in b) && (fp in a ==> a[fp] == b[fp]) {
        if fp in a { RiskOfSubject(w, live, live', ctx, fp); }
        if fp in b { RiskOfSubject(w, live', live, ctx, fp); }
      }
    }
  }

  lemma RiskOfSubject(w: Weights, live: seq<Subject>, live': seq<Subject>, ctx: Context, fp: string)
    requires Identified(live) && Identified(live') && w.Valid() && (forall s :: s in live <==> s in live')
    requires fp in RiskTable(w, live, ctx)
    ensures fp in RiskTable(w, live', ctx) && RiskTable(w, live, ctx)[fp] == RiskTable(w, live', ctx)[fp]
  {
    RiskTableMeaning(w, live, ctx);
    RiskTableMeaning(w, live', ctx);
    var i :| 0 <= i < |live| && SubjectFingerprints(live)[i] == fp;
    assert live[i] in live && TellsRisk(RiskTable(w, live, ctx), w, live[i], ctx);
    assert TellsRisk(RiskTable(w, live', ctx), w, live[i], ctx);
  }

  lemma ByFingerprintIsWeakOrder()
    ensures StrictWeakOrder(ByFingerprint)
  {
    StringLessIsTotal();
  }

  lemma ListedSeparated(group: seq<Subject>, risks: map<string, real>)
    requires Identified(group)
    ensures Separated(Listed(group, risks), ByFingerprint)
  {
    StringLessIsTotal();
    var ms := Listed(group, risks);
    forall i, j | 0 <= i < j < |ms| ensures ByFingerprint(ms[i], ms[j]) || ByFingerprint(ms[j], ms[i]) {
      assert SubjectFingerprints(group)[i] != SubjectFingerprints(group)[j];
    }
  }

  lemma ListedElements(group: seq<Subject>, group': seq<Subject>, risks: map<string, real>)
    requires forall s :: s in group <==> s in group'
    ensures forall m :: m in Listed(group, risks) <==> m in Listed(group', risks)
  {
    forall m ensures m in Listed(group, risks) <==> m in Listed(group', risks) {
      if m in Listed(group, risks) {
        var i :| 0 <= i < |group| && Listed(group, risks)[i] == m;
        assert group[i] in group';
        var j :| 0 <= j < |group'| && group'[j] == group[i];
        assert Listed(group', risks)[j] == m;
      }
      if m in Listed(group', risks) {
        var i :| 0 <= i < |group'| && Listed(group', risks)[i] == m;
        assert group'[i] in group;
        var j :| 0 <= j < |group| && group[j] == group'[i];
        assert Listed(group, risks)[j] == m;
      }
    }
  }

  lemma SameMembers(w: Weights, live: seq<Subject>, live': seq<Subject>, ctx: Context, key: string)
    requires Identified(live) && multiset(live) == multiset(live')
    ensures var risks := RiskTable(w, live, ctx);
      && RiskTable(w, live', ctx) == risks
      && SortBy(Listed(Grouped(live, key), risks), ByFingerprint) ==
        SortBy(Listed(Grouped(live', key), risks), ByFingerprint)
  {
    var p := (s: Subject) => KeyOf(s) == key;
    var risks := RiskTable(w, live, ctx);
    SameRisks(w, live, live', ctx);
    IdentifiedPermutation(live, live');
    KeepIdentified(live, p);
    KeepIdentified(live', p);
    KeepPermutation(live, live', p);
    SameMembership(Keep(live, p), Keep(live', p));
    ListedElements(Keep(live, p), Keep(live', p), risks);
    ListedSeparated(Keep(live, p), risks);
    ListedSeparated(Keep(live', p), risks);
    ByFingerprintIsWeakOrder();
    SortCanonical(Listed(Keep(live, p), risks), Listed(Keep(live', p), risks), ByFingerprint);
  }

  /** The kind is the part of a key before the colon, the component what follows. */
  lemma KeyDecides(s: Subject, t: Subject)
    requires KeyOf(s) == KeyOf(t)
    ensures KindFor(s.f) == KindFor(t.f) && ComponentFor(s.f, KindFor(s.f)) == ComponentFor(t.f, KindFor(t.f))
  {
    KindFromKey(KindFor(s.f), ComponentFor(s.f, KindFor(s.f)), KindFor(t.f), ComponentFor(t.f, KindFor(t.f)));
  }

  lemma KindFromKey(k: Kind, c: string, l: Kind, d: string)
    requires k.Text() + ":" + c == l.Text() + ":" + d
    ensures k == l && c == d
  {
    var a, b := k.Text() + ":" + c, l.Text() + ":" + d;
    assert a[0] == k.Text()[0] && a[1] == k.Text()[1] && a[2] == k.Text()[2];
    assert b[0] == l.Text()[0] && b[1] == l.Text()[1] && b[2] == l.Text()[2];
    assert k == l;
    assert a[|k.Text()| + 1..] == c && b[|k.Text()| + 1..] == d;
  }

  lemma SameScore(w: Weights, ss: seq<Subject>, tt: seq<Subject>, ctx: Context, exp: real -> real)
    requires multiset(ss) == multiset(tt)
    ensures ScoreOf(w, ss, ctx, exp) == ScoreOf(w, tt, ctx, exp)
  {
    if w.Valid() { ScorePermutation(w, ss, tt, ctx, exp); }
  }

  lemma SameAction(w: Weights, live: seq<Subject>, live': seq<Subject>, ctx: Context, exp: real -> real, key: string)
    requires Identified(live) && multiset(live) == multiset(live')
    requires Grouped(live, key) != [] && Grouped(live', key) != []
    ensures ActionFor(w, live, ctx, exp, key) == ActionFor(w, live', ctx, exp, key)
  {
    SameMembers(w, live, live', ctx, key);
    var fps := Excluded(ActionFor(w, live, ctx, exp, key).members);
    SameScore(w, live, live', ctx, exp);
    KeepPermutation(live, live', (s: Subject) => s.f.fingerprint !in fps);
    SameScore(w, Withheld(live, fps), Withheld(live', fps), ctx, exp);
    GroupedElements(live, key);
    GroupedElements(live', key);
    assert Grouped(live, key)[0] in Grouped(live, key) && Grouped(live', key)[0] in Grouped(live', key);
    KeyDecides(Grouped(live, key)[0], Grouped(live', key)[0]);
  }

  lemma SameKeys(live: seq<Subject>, live': seq<Subject>, key: string)
    requires multiset(live) == multiset(live')
    ensures key in Keys(live) <==> key in Keys(live')
  {
    var p := (s: Subject) => KeyOf(s) == key;
    KeysAreGroups(live);
    KeysAreGroups(live');
    KeepPermutation(live, live', p);
    assert |multiset(Keep(live, p))| == |Keep(live, p)| && |multiset(Keep(live', p))| == |Keep(live', p)|;
  }

  lemma ActionListed(w: Weights, live: seq<Subject>, live': seq<Subject>, ctx: Context, exp: real -> real, a: Action)
    requires Identified(live) && Identified(live') && multiset(live) == multiset(live')
    requires a in Actions(w, live, ctx, exp)
    ensures a in Actions(w, live', ctx, exp)
  {
    var all, all' := Actions(w, live, ctx, exp), Actions(w, live', ctx, exp);
    KeysAreGroups(live);
    KeysAreGroups(live');
    var i :| 0 <= i < |all| && all[i] == a;
    var key := Keys(live)[i];
    assert key in Keys(live);
    SameKeys(live, live', key);
    var j :| 0 <= j < |all'| && Keys(live')[j] == key;
    SameAction(w, live, live', ctx, exp, key);
    assert all'[j] == a;
  }

  /** The same findings in another order give the same plan, for any weights. */
  lemma PlanIgnoresOrder(w: Weights, ss: seq<Subject>, tt: seq<Subject>, ctx: Context, exp: real -> real)
    requires Identified(ss) && multiset(ss) == multiset(tt)
    ensures PlanOf(w, ss, ctx, exp) == PlanOf(w, tt, ctx, exp)
  {
    var live, live' := Live(ss), Live(tt);
    var all, all' := Actions(w, live, ctx, exp), Actions(w, live', ctx, exp);
    KeepPermutation(ss, tt, IsLive);
    KeepIdentified(ss, IsLive);
    IdentifiedPermutation(live, live');
    SameScore(w, live, live', ctx, exp);
    assert |multiset(live)| == |live| && |multiset(live')| == |live'|;
    forall a ensures a in all <==> a in all' {
      if a in all { ActionListed(w, live, live', ctx, exp, a); }
      if a in all' { ActionListed(w, live', live, ctx, exp, a); }
    }
    BeforeIsWeakOrder();
    KeysRank(w, live, ctx, exp);
    KeysRank(w, live', ctx, exp);
    SortCanonical(all, all', Before);
  }
}
