/**
 PipelineLimits: exactly which findings can lower a project's total, under the
 default weights: an `unknown` one by demoting an issue, and any at all by
 evicting a member of a full bucket.
 */
module PipelineLimits {
  import opened Ordering
  import Text
  import opened Model
  import opened Correlation
  import opened CorrelationTheorems
  import opened Risk
  import RiskTheorems
  import opened Pipeline

  // ---- Which severities are safe to add ---------------------------------

  /** No bucket of the project holds more than `size` findings. */
  ghost predicate Within(ps: seq<Stored>, size: nat) { forall k :: |LiveBucket(ps, k)| <= size }

  ghost predicate Addable(ps: seq<Stored>, n: nat, x: Stored, s: Severity, size: nat) {
    n <= |ps| && Correlatable(x.f.status) && x.f.severity == s && Sound(With(ps, n, x)) && Within(With(ps, n, x), size)
  }

  /** Under the default weights, no finding of severity `s` lowers a total while buckets stay within `size`. */
  ghost predicate SafeToAdd(s: Severity, size: nat) {
    forall ps, n: nat, x, ctx | Addable(ps, n, x, s, size) ::
      ProjectTotal(DEFAULT_WEIGHTS, ps, ctx) <= ProjectTotal(DEFAULT_WEIGHTS, With(ps, n, x), ctx)
  }

  const SHARED: Key := Key(CveKey, "C")

  /** A finding known only by a CVE, with every other factor at 1. */
  function Reported(fp: string, category: Category, severity: Severity): Stored {
    Stored(Finding(fp, "s", "", category, severity, Sure, "", "", "C", Fix(FixUnknown, []), None, Open), [], [])
  }

  const PLAIN: Context := RiskTheorems.PLAIN

  const TWO_LOWS: seq<Stored> := [Reported("a", "sast", Low), Reported("b", "dependency", Low)]

  const WITH_UNKNOWN: seq<Stored> := TWO_LOWS + [Reported("c", "sast", Unknown)]

  /** A live finding known by the shared CVE alone. */
  predicate Shares(p: Stored) { p.f.cve == "C" && p.f.purl == "" && p.files == [] && Correlatable(p.f.status) }

  lemma SharedView(p: Stored)
    requires Shares(p)
    ensures ViewOf(SubjectOf(p)) == View(p.f, {SHARED})
  {
    Text.TrimSpaceFacts("C");
    Text.TrimSpaceFacts("");
    assert FileKeys([]) == {};
  }

  ghost predicate AllShare(ps: seq<Stored>) { forall i | 0 <= i < |ps| :: Shares(ps[i]) }

  function Findings(ps: seq<Stored>): (fs: seq<Finding>)
    ensures |fs| == |ps|
  {
    seq(|ps|, i requires 0 <= i < |ps| => ps[i].f)
  }

  /** All findings of the project are in the bucket of the shared key, and no other bucket has any. */
  ghost predicate OneBucket(ps: seq<Stored>, fs: seq<Finding>) {
    forall k :: LiveBucket(ps, k) == if k == SHARED then fs else []
  }

  function SharedViews(ps: seq<Stored>): (vs: seq<View>)
    ensures |vs| == |ps|
  {
    seq(|ps|, i requires 0 <= i < |ps| => View(ps[i].f, {SHARED}))
  }

  lemma {:induction false} ReportedViews(ps: seq<Stored>)
    requires AllShare(ps)
    ensures Views(Live(ps)) == SharedViews(ps)
  {
    if ps != [] {
      var p, rest := ps[|ps| - 1], ps[..|ps| - 1];
      ReportedViews(rest);
      SharedView(p);
      assert Live(ps) == Live(rest) + [SubjectOf(p)];
      assert Views(Live(ps)) == Views(Live(rest)) + [ViewOf(SubjectOf(p))];
      assert SharedViews(ps) == SharedViews(rest) + [View(p.f, {SHARED})];
    }
  }

  lemma {:induction false} OneKeyBucket(vs: seq<View>, fs: seq<Finding>, key: Key, k: Key)
    requires |fs| == |vs| && forall i | 0 <= i < |vs| :: vs[i].keys == {key} && vs[i].f == fs[i]
    ensures Bucket(vs, k) == if k == key then fs else []
  {
    if vs != [] {
      var n := |vs| - 1;
      OneKeyBucket(vs[..n], fs[..n], key, k);
      assert vs[n].keys == {key};
      assert fs == fs[..n] + [fs[n]];
    }
  }

  lemma SharedBucket(ps: seq<Stored>, k: Key)
    ensures Bucket(SharedViews(ps), k) == if k == SHARED then Findings(ps) else []
  {
    OneKeyBucket(SharedViews(ps), Findings(ps), SHARED, k);
  }

  lemma ReportedBucket(ps: seq<Stored>)
    requires AllShare(ps) && Increasing(SharedViews(ps), ViewLess)
    ensures OneBucket(ps, Findings(ps))
  {
    ReportedViews(ps);
    FingerprintOrders();
    SortOfIncreasing(SharedViews(ps), ViewLess);
    forall k ensures LiveBucket(ps, k) == if k == SHARED then Findings(ps) else [] { SharedBucket(ps, k); }
  }

  /** In such a project the kept findings are in the one issue, and the others in none. */
  lemma OneIssue(ps: seq<Stored>, fs: seq<Finding>, i: nat)
    requires OneBucket(ps, fs) && |fs| >= 2 && i < |fs| && Increasing(fs, Before)
    ensures var kept := if |fs| > DEFAULT_MAX_BUCKET_SIZE then fs[..DEFAULT_MAX_BUCKET_SIZE] else fs;
      WorstIssue(IssuesOf(ps), fs[i].fingerprint) == if i < |kept| then Some(IssueSeverity(kept).0) else None
  {
    var kept := if |fs| > DEFAULT_MAX_BUCKET_SIZE then fs[..DEFAULT_MAX_BUCKET_SIZE] else fs;
    assert LiveBucket(ps, SHARED) == fs && KeptBucket(ps, SHARED) == kept;
    var issue := IssueOf(SHARED, kept, Inventory({}, false, "")).value;
    assert Yields(ps, SHARED, issue);
    IssuesYielded(ps, issue);
    WorstIssueFacts(IssuesOf(ps), fs[i].fingerprint);
    KeptNames(fs, kept, i);
    forall j | j in IssuesOf(ps) ensures j == issue {
      IssuesYielded(ps, j);
      var k :| Yields(ps, k, j);
      assert k != SHARED ==> LiveBucket(ps, k) == [];
    }
  }

  lemma KeptNames(fs: seq<Finding>, kept: seq<Finding>, i: nat)
    requires kept <= fs && i < |fs| && Increasing(fs, Before)
    ensures (exists m :: m in Members(kept) && m.fingerprint == fs[i].fingerprint) <==> i < |kept|
  {
    if i < |kept| {
      assert Members(kept)[i] in Members(kept) && Members(kept)[i].fingerprint == fs[i].fingerprint;
    }
    if m :| m in Members(kept) && m.fingerprint == fs[i].fingerprint {
      var j :| 0 <= j < |kept| && Members(kept)[j] == m;
      StringLessAsymmetric(fs[i].fingerprint, fs[j].fingerprint);
    }
  }

  /** The numbers of the default weights the examples below depend on. */
  predicate Defaults(w: Weights) {
    && w.Valid() && w.tailWeight == 0.15 && w.exploitabilityFloor == 0.5
    && w.severity[Critical] == 100.0 && w.severity[Medium] == 8.0
    && w.severity[Unknown] == 5.0 && w.severity[Low] == 1.0
    && w.environment[Production] == 1.0 && w.criticality[MediumAsset] == 1.0
    && w.confidence[Sure] == 1.0 && w.confidence[Weak] == 0.5
  }

  lemma DefaultNumbers()
    ensures Defaults(DEFAULT_WEIGHTS)
  {
  }

  lemma TwoLowsSeverity()
    ensures IssueSeverity(Findings(TWO_LOWS)).0 == Medium
  {
    var fs := Findings(TWO_LOWS);
    assert fs[..1][..0] == [];
    assert Worst(fs[..1]) == Low && Worst(fs) == Low;
    assert fs[0] in fs && fs[1] in fs;
    assert {"sast", "dependency"} <= CategoriesOf(fs);
    assert |"sast"| != |"dependency"|;
    SubsetSize({"sast", "dependency"}, CategoriesOf(fs));
  }

  lemma WithUnknownSeverity()
    ensures IssueSeverity(Findings(WITH_UNKNOWN)).0 == Unknown
  {
    var fs := Findings(WITH_UNKNOWN);
    assert fs[..2][..1] == fs[..1] && fs[..1][..0] == [];
    assert Worst(fs[..1]) == Low && Worst(fs[..2]) == Low && Worst(fs) == Unknown;
  }

  lemma ReportedValue(w: Weights, fp: string, category: Category, severity: Severity, issue: Severity)
    requires Defaults(w)
    requires issue.Valid() && severity.Valid() && severity.Rank() <= issue.Rank()
    ensures Value(w, Risk.Subject(Reported(fp, category, severity).f, [], Some(issue)), PLAIN) ==
      SeverityFactor(w, issue)
  {
    var s := Risk.Subject(Reported(fp, category, severity).f, [], Some(issue));
    assert Reporters(s) == {};
    assert Multiplier(w, s, PLAIN) == 1.0;
    RankDetermines(severity, issue);
  }

  lemma RankDetermines(s: Severity, t: Severity)
    requires s.Valid() && t.Valid()
    ensures s.Rank() == t.Rank() <==> s == t
  {
  }

  lemma {:induction false} EqualSum(vs: seq<real>, v: real)
    requires forall i | 0 <= i < |vs| :: vs[i] == v
    ensures Sum(vs) == v * (|vs| as real)
    ensures vs != [] ==> Max(vs) == v
  {
    if vs != [] {
      EqualSum(vs[..|vs| - 1], v);
      assert v * (|vs| as real) == v * ((|vs| - 1) as real) + v;
    }
  }

  lemma {:induction false} EqualValues(w: Weights, ss: seq<Risk.Subject>, ctx: Context, v: real)
    requires forall i | 0 <= i < |ss| :: !Dismissed(ss[i].f.status) && Value(w, ss[i], ctx) == v
    ensures |Values(w, ss, ctx)| == |ss| && forall i | 0 <= i < |ss| :: Values(w, ss, ctx)[i] == v
  {
    if ss != [] { EqualValues(w, ss[..|ss| - 1], ctx, v); }
  }

  /** A project of reported findings: those kept score as the issue, no worse than it. */
  lemma ReportedValues(w: Weights, ps: seq<Stored>, severity: Severity, v: real)
    requires Defaults(w)
    requires 2 <= |ps| <= DEFAULT_MAX_BUCKET_SIZE && AllReported(ps) && Increasing(SharedViews(ps), ViewLess)
    requires severity == IssueSeverity(Findings(ps)).0 && severity.Valid() && v == SeverityFactor(w, severity)
    requires forall i | 0 <= i < |ps| :: ps[i].f.severity.Valid() && ps[i].f.severity.Rank() <= severity.Rank()
    ensures |Values(w, RiskSubjects(ps), PLAIN)| == |ps|
    ensures forall i | 0 <= i < |ps| :: Values(w, RiskSubjects(ps), PLAIN)[i] == v
  {
    var ss := RiskSubjects(ps);
    ReportedBucket(ps);
    FindingsOrdered(ps);
    forall i | 0 <= i < |ss| ensures !Dismissed(ss[i].f.status) && Value(w, ss[i], PLAIN) == v {
      OneIssue(ps, Findings(ps), i);
      ReportedValue(w, ps[i].f.fingerprint, ps[i].f.category, ps[i].f.severity, severity);
    }
    EqualValues(w, ss, PLAIN, v);
  }

  /** Every finding is a plain report on the shared CVE. */
  ghost predicate AllReported(ps: seq<Stored>) {
    AllShare(ps) && forall i | 0 <= i < |ps| ::
      ps[i] == Reported(ps[i].f.fingerprint, ps[i].f.category, ps[i].f.severity)
  }

  lemma FindingsOrdered(ps: seq<Stored>)
    requires Increasing(SharedViews(ps), ViewLess)
    ensures Increasing(Findings(ps), Before)
  {
    forall i, j | 0 <= i < j < |ps| ensures Before(Findings(ps)[i], Findings(ps)[j]) {
      assert ViewLess(SharedViews(ps)[i], SharedViews(ps)[j]);
    }
  }

  lemma TwoLowsTotal(w: Weights)
    requires Defaults(w)
    ensures ProjectTotal(w, TWO_LOWS, PLAIN) == 9.2
  {
    TwoLowsSeverity();
    ReportedValues(w, TWO_LOWS, Medium, 8.0);
    var vs := Values(w, RiskSubjects(TWO_LOWS), PLAIN);
    EqualSum(vs, 8.0);
    assert Sum(vs) == 16.0 && Max(vs) == 8.0;
  }

  lemma WithUnknownTotal(w: Weights)
    requires Defaults(w)
    ensures ProjectTotal(w, WITH_UNKNOWN, PLAIN) == 6.5
  {
    WithUnknownSeverity();
    WithUnknownOrdered();
    ReportedValues(w, WITH_UNKNOWN, Unknown, 5.0);
    var vs := Values(w, RiskSubjects(WITH_UNKNOWN), PLAIN);
    EqualSum(vs, 5.0);
    assert Sum(vs) == 15.0 && Max(vs) == 5.0;
  }

  lemma WithUnknownSound()
    ensures Sound(WITH_UNKNOWN)
  {
    assert StoredFingerprints(WITH_UNKNOWN) == ["a", "b", "c"];
    assert "a"[0] != "b"[0] && "b"[0] != "c"[0] && "a"[0] != "c"[0];
    assert NoDup(["a", "b", "c"]);
  }

  lemma WithUnknownIsWith()
    ensures With(TWO_LOWS, 2, Reported("c", "sast", Unknown)) == WITH_UNKNOWN
  {
    assert TWO_LOWS[..2] == TWO_LOWS && TWO_LOWS[2..] == [];
  }

  lemma OneBucketWithin(ps: seq<Stored>, size: nat)
    requires AllShare(ps) && Increasing(SharedViews(ps), ViewLess) && |ps| <= size
    ensures Within(ps, size)
  {
    ReportedBucket(ps);
    forall k ensures |LiveBucket(ps, k)| <= size {
      assert LiveBucket(ps, k) == if k == SHARED then Findings(ps) else [];
    }
  }

  lemma UnknownIsAddable()
    ensures Addable(TWO_LOWS, 2, Reported("c", "sast", Unknown), Unknown, 3)
  {
    WithUnknownIsWith();
    WithUnknownSound();
    WithUnknownOrdered();
    OneBucketWithin(WITH_UNKNOWN, 3);
  }

  lemma WithUnknownOrdered()
    ensures AllReported(WITH_UNKNOWN) && Increasing(SharedViews(WITH_UNKNOWN), ViewLess)
  {
  }

  /**
   Two `low` findings in two categories on one CVE score 9.2; an `unknown` one beside them
   brings the total to 6.5.
   */
  lemma UnknownLowersTotal()
    ensures Addable(TWO_LOWS, 2, Reported("c", "sast", Unknown), Unknown, 3)
    ensures ProjectTotal(DEFAULT_WEIGHTS, TWO_LOWS, PLAIN) == 9.2
    ensures ProjectTotal(DEFAULT_WEIGHTS, With(TWO_LOWS, 2, Reported("c", "sast", Unknown)), PLAIN) == 6.5
  {
    DefaultNumbers();
    WithUnknownIsWith();
    UnknownIsAddable();
    TwoLowsTotal(DEFAULT_WEIGHTS);
    WithUnknownTotal(DEFAULT_WEIGHTS);
  }

  /** The other way round: dismissing the `unknown` finding raises the total from 6.5 to 9.2. */
  lemma DismissingUnknownRaisesTotal(status: Status)
    requires Dismissed(status)
    ensures var x := Reported("c", "sast", Unknown);
      var d := x.(f := x.f.(status := status));
      && ProjectTotal(DEFAULT_WEIGHTS, With(TWO_LOWS, 2, x), PLAIN) == 6.5
      && ProjectTotal(DEFAULT_WEIGHTS, With(TWO_LOWS, 2, d), PLAIN) == 9.2
  {
    var x := Reported("c", "sast", Unknown);
    UnknownLowersTotal();
    DismissedIsInvisible(DEFAULT_WEIGHTS, TWO_LOWS, 2, x.(f := x.f.(status := status)), PLAIN);
  }

  // ---- A full bucket ----------------------------------------------------

  /** Fingerprints in increasing order. */
  function Nth(i: nat): string { seq(i + 1, _ => 'a') }

  lemma {:induction false} NthOrder(i: nat, j: nat)
    requires i < j
    ensures StringLess(Nth(i), Nth(j))
  {
    assert Nth(i)[0] == Nth(j)[0];
    if i > 0 {
      assert Nth(i)[1..] == Nth(i - 1) && Nth(j)[1..] == Nth(j - 1);
      NthOrder(i - 1, j - 1);
    } else {
      assert Nth(i)[1..] == "" && Nth(j)[1..] == Nth(j - 1);
    }
  }

  /** One `critical` finding and many `low` ones on the same CVE, all in one category. */
  function Crowd(i: nat): Stored { Reported(Nth(i), "sast", if i == 0 then Critical else Low) }

  /** A finding hardly anybody vouches for: its own factors come to a quarter. */
  function Faint(fp: string, severity: Severity): Stored {
    Stored(Finding(fp, "s", "", "sast", severity, Weak, "", "", "C", Fix(FixUnknown, []), Some(0.0), Open), [], [])
  }

  const MANY: nat := DEFAULT_MAX_BUCKET_SIZE - 1

  function Most(n: nat): (r: seq<Stored>)
    ensures |r| == n
  {
    seq(n, i requires 0 <= i < n => Crowd(i))
  }

  /** A bucket exactly at the cap; its last member sorts behind a gap. */
  const FULL: seq<Stored> := Most(MANY) + [Crowd(DEFAULT_MAX_BUCKET_SIZE)]

  /** The same with a faint finding in the gap. */
  function Overfull(s: Severity): seq<Stored> {
    Most(MANY) + [Faint(Nth(MANY), s)] + [Crowd(DEFAULT_MAX_BUCKET_SIZE)]
  }

  lemma OverfullIsWith(s: Severity)
    ensures With(FULL, MANY, Faint(Nth(MANY), s)) == Overfull(s)
  {
    assert FULL[..MANY] == Most(MANY) && FULL[MANY..] == [Crowd(DEFAULT_MAX_BUCKET_SIZE)];
  }

  lemma OverfullNames(s: Severity, i: nat)
    requires i <= DEFAULT_MAX_BUCKET_SIZE
    ensures Overfull(s)[i].f.fingerprint == Nth(i) && Shares(Overfull(s)[i])
  {
  }

  lemma FullNames(i: nat)
    requires i < DEFAULT_MAX_BUCKET_SIZE
    ensures FULL[i] == Crowd(if i < MANY then i else DEFAULT_MAX_BUCKET_SIZE)
  {
  }

  lemma OverfullOrdered(s: Severity)
    ensures AllShare(Overfull(s)) && Increasing(SharedViews(Overfull(s)), ViewLess)
  {
    var ps := Overfull(s);
    forall i | 0 <= i < |ps| ensures Shares(ps[i]) { OverfullNames(s, i); }
    forall i, j | 0 <= i < j < |ps| ensures ViewLess(SharedViews(ps)[i], SharedViews(ps)[j]) {
      OverfullNames(s, i);
      OverfullNames(s, j);
      NthOrder(i, j);
    }
  }

  lemma FullOrdered()
    ensures AllReported(FULL) && Increasing(SharedViews(FULL), ViewLess)
  {
    forall i | 0 <= i < |FULL| ensures Shares(FULL[i]) { FullNames(i); }
    forall i | 0 <= i < |FULL|
      ensures FULL[i] == Reported(FULL[i].f.fingerprint, FULL[i].f.category, FULL[i].f.severity)
    {
      FullNames(i);
    }
    forall i, j | 0 <= i < j < |FULL| ensures ViewLess(SharedViews(FULL)[i], SharedViews(FULL)[j]) {
      FullNames(i);
      FullNames(j);
      NthOrder(i, if j < MANY then j else DEFAULT_MAX_BUCKET_SIZE);
    }
  }

  lemma OverfullSound(s: Severity)
    requires s.Valid()
    ensures Sound(Overfull(s))
  {
    var ps := Overfull(s);
    forall i, j | 0 <= i < j < |ps| ensures StoredFingerprints(ps)[i] != StoredFingerprints(ps)[j] {
      OverfullNames(s, i);
      OverfullNames(s, j);
      assert |Nth(i)| != |Nth(j)|;
    }
    forall p | p in ps ensures p.f.Storable() { var i :| 0 <= i < |ps| && ps[i] == p; }
  }

  /** A bucket with a critical member makes a critical issue. */
  lemma CriticalIssue(fs: seq<Finding>)
    requires fs != [] && fs[0].severity == Critical
    ensures IssueSeverity(fs).0 == Critical
  {
    WorstFacts(fs);
    assert fs[0] in fs;
  }

  lemma FullTotal(w: Weights)
    requires Defaults(w)
    ensures ProjectTotal(w, FULL, PLAIN) == 7585.0
  {
    FullOrdered();
    FullNames(0);
    CriticalIssue(Findings(FULL));
    forall i | 0 <= i < |FULL| ensures FULL[i].f.severity.Valid() && FULL[i].f.severity.Rank() <= Critical.Rank() {
      FullNames(i);
    }
    ReportedValues(w, FULL, Critical, 100.0);
    var vs := Values(w, RiskSubjects(FULL), PLAIN);
    EqualSum(vs, 100.0);
    assert Sum(vs) == 50000.0 && Max(vs) == 100.0;
  }

  lemma FaintValue(w: Weights, fp: string, severity: Severity)
    requires Defaults(w)
    requires severity.Valid()
    ensures Value(w, Risk.Subject(Faint(fp, severity).f, [], Some(Critical)), PLAIN) == 25.0
  {
    var s := Risk.Subject(Faint(fp, severity).f, [], Some(Critical));
    assert Reporters(s) == {};
    assert Multiplier(w, s, PLAIN) == 0.25;
    RankDetermines(severity, Critical);
  }

  lemma LowValue(w: Weights, fp: string)
    requires Defaults(w)
    ensures Value(w, Risk.Subject(Reported(fp, "sast", Low).f, [], None), PLAIN) == 1.0
  {
    var s := Risk.Subject(Reported(fp, "sast", Low).f, [], None);
    assert Reporters(s) == {};
    assert Multiplier(w, s, PLAIN) == 1.0;
  }

  /** One finding over the cap, the first of them critical: all but the last are in a critical issue. */
  lemma CriticalCrowd(ps: seq<Stored>, i: nat)
    requires AllShare(ps) && Increasing(SharedViews(ps), ViewLess) && |ps| == DEFAULT_MAX_BUCKET_SIZE + 1 && i < |ps|
    requires ps[0].f.severity == Critical
    ensures RiskSubjects(ps)[i] ==
      Risk.Subject(ps[i].f, ps[i].sources, if i < DEFAULT_MAX_BUCKET_SIZE then Some(Critical) else None)
  {
    var fs := Findings(ps);
    ReportedBucket(ps);
    FindingsOrdered(ps);
    OneIssue(ps, fs, i);
    CriticalIssue(fs[..DEFAULT_MAX_BUCKET_SIZE]);
  }

  /** The crowd still scores as critical, the faint finding at a quarter of it, and the evicted one as itself. */
  function Expected(i: nat): real { if i < MANY then 100.0 else if i == MANY then 25.0 else 1.0 }

  predicate ScoresAt(w: Weights, s: Risk.Subject, v: real) { !Dismissed(s.f.status) && Value(w, s, PLAIN) == v }

  lemma CrowdScores(w: Weights, i: nat)
    requires Defaults(w)
    ensures ScoresAt(w, Risk.Subject(Crowd(i).f, [], Some(Critical)), 100.0)
  {
    ReportedValue(w, Nth(i), "sast", Crowd(i).f.severity, Critical);
  }

  lemma MemberScores(w: Weights, s: Severity, p: Stored, i: nat)
    requires Defaults(w) && s.Valid()
    requires p == if i == MANY then Faint(Nth(MANY), s) else Crowd(i)
    requires i <= DEFAULT_MAX_BUCKET_SIZE
    ensures var issue := if i < DEFAULT_MAX_BUCKET_SIZE then Some(Critical) else None;
      ScoresAt(w, Risk.Subject(p.f, p.sources, issue), Expected(i))
  {
    if i < MANY {
      CrowdScores(w, i);
    } else if i == MANY {
      FaintValue(w, Nth(MANY), s);
    } else {
      LowValue(w, Nth(i));
    }
  }

  lemma OverfullMember(s: Severity, i: nat)
    requires i <= DEFAULT_MAX_BUCKET_SIZE
    ensures Overfull(s)[i] == if i == MANY then Faint(Nth(MANY), s) else Crowd(i)
  {
  }

  lemma OverfullTotal(w: Weights, s: Severity)
    requires Defaults(w) && s.Valid()
    ensures ProjectTotal(w, Overfull(s), PLAIN) == 7573.9
  {
    var ps := Overfull(s);
    OverfullOrdered(s);
    OverfullMember(s, 0);
    forall i: nat | i < |ps| ensures ScoresAt(w, RiskSubjects(ps)[i], Expected(i)) {
      CriticalCrowd(ps, i);
      OverfullMember(s, i);
      MemberScores(w, s, ps[i], i);
    }
    ExpectedTotal(w, RiskSubjects(ps));
  }

  lemma ExpectedTotal(w: Weights, ss: seq<Risk.Subject>)
    requires Defaults(w) && |ss| == MANY + 2 && forall i: nat | i < |ss| :: ScoresAt(w, ss[i], Expected(i))
    ensures Total(w, ss, PLAIN) == 7573.9
  {
    var most, rest := ss[..MANY], ss[..MANY + 1];
    var vs := Values(w, most, PLAIN);
    forall i | 0 <= i < |most| ensures !Dismissed(most[i].f.status) && Value(w, most[i], PLAIN) == 100.0 {
      assert ScoresAt(w, ss[i], Expected(i));
    }
    EqualValues(w, most, PLAIN, 100.0);
    EqualSum(vs, 100.0);
    OneMore(w, most, ss[MANY], 25.0);
    assert rest == most + [ss[MANY]] && ss == rest + [ss[MANY + 1]];
    OneMore(w, rest, ss[MANY + 1], 1.0);
    LastTwo(vs);
  }

  lemma OneMore(w: Weights, ss: seq<Risk.Subject>, s: Risk.Subject, v: real)
    requires ScoresAt(w, s, v)
    ensures Values(w, ss + [s], PLAIN) == Values(w, ss, PLAIN) + [v]
  {
    assert (ss + [s])[..|ss|] == ss;
  }

  lemma LastTwo(vs: seq<real>)
    requires Sum(vs) == 49900.0 && Max(vs) == 100.0 && |vs| == MANY
    ensures TotalOf(vs + [25.0] + [1.0], 0.15) == 7573.9
  {
    var a := vs + [25.0];
    assert a[..|a| - 1] == vs && (a + [1.0])[..|a|] == a;
    assert Sum(a) == 49925.0 && Max(a) == 100.0;
    assert Sum(a + [1.0]) == 49926.0 && Max(a + [1.0]) == 100.0;
  }

  /**
   A bucket at the cap: 500 findings score 7585; one more, of any severity, that
   sorts before the last of them evicts it and the total falls to 7573.9.
   */
  lemma EvictionLowersTotal(s: Severity)
    requires s.Valid()
    ensures Addable(FULL, MANY, Faint(Nth(MANY), s), s, DEFAULT_MAX_BUCKET_SIZE + 1)
    ensures ProjectTotal(DEFAULT_WEIGHTS, FULL, PLAIN) == 7585.0
    ensures ProjectTotal(DEFAULT_WEIGHTS, With(FULL, MANY, Faint(Nth(MANY), s)), PLAIN) == 7573.9
  {
    DefaultNumbers();
    OverfullIsWith(s);
    OverfullSound(s);
    OverfullOrdered(s);
    OneBucketWithin(Overfull(s), DEFAULT_MAX_BUCKET_SIZE + 1);
    FullTotal(DEFAULT_WEIGHTS);
    OverfullTotal(DEFAULT_WEIGHTS, s);
  }

  // ---- Exactly which findings are safe ----------------------------------

  lemma FewAreNotMixed(fs: seq<Finding>)
    requires |fs| <= 1
    ensures !Mixed(fs)
  {
    if fs == [] {
      assert CategoriesOf(fs) == {};
    } else {
      assert CategoriesOf(fs) <= {fs[0].category};
      SubsetSize(CategoriesOf(fs), {fs[0].category});
    }
  }

  lemma SmallIsHarmless(ps: seq<Stored>, n: nat, x: Stored, s: Severity, size: nat)
    requires Addable(ps, n, x, s, size) && (size <= 2 || (s != Unknown && size <= DEFAULT_MAX_BUCKET_SIZE))
    ensures Harmless(ps, x)
  {
    SoundWithout(ps, n, x);
    forall k | k in ViewOf(SubjectOf(x)).keys
      ensures |LiveBucket(ps, k)| < DEFAULT_MAX_BUCKET_SIZE && !Demotes(x.f, LiveBucket(ps, k))
    {
      LiveBucketWith(ps, n, x, k);
      JoinedElements(LiveBucket(ps, k), LiveBucket(With(ps, n, x), k), x.f);
      assert |LiveBucket(With(ps, n, x), k)| <= size;
      if size <= 2 { FewAreNotMixed(LiveBucket(ps, k)); }
    }
  }

  lemma SafeWhenSmall(s: Severity, size: nat)
    requires s.Valid() && (size <= 2 || (s != Unknown && size <= DEFAULT_MAX_BUCKET_SIZE))
    ensures SafeToAdd(s, size)
  {
    forall ps, n: nat, x, ctx | Addable(ps, n, x, s, size)
      ensures ProjectTotal(DEFAULT_WEIGHTS, ps, ctx) <= ProjectTotal(DEFAULT_WEIGHTS, With(ps, n, x), ctx)
    {
      DefaultWeightsAreValid(ctx);
      SmallIsHarmless(ps, n, x, s, size);
      AddingIsMilder(DEFAULT_WEIGHTS, ps, n, x, ctx);
      RiskSubjectsStorable(ps);
      RiskSubjectsStorable(With(ps, n, x));
      TotalsFollow(DEFAULT_WEIGHTS, RiskSubjects(ps), RiskSubjects(With(ps, n, x)), ctx);
    }
  }

  lemma AddableGrows(ps: seq<Stored>, n: nat, x: Stored, s: Severity, size: nat, more: nat)
    requires Addable(ps, n, x, s, size) && size <= more
    ensures Addable(ps, n, x, s, more)
  {
  }

  /**
   A severity is safe to add, while no bucket exceeds `size`, exactly when buckets
   hold at most two findings, or somebody assessed it and they stay within the cap.
   */
  lemma SafeToAddExactly(s: Severity, size: nat)
    requires s.Valid()
    ensures SafeToAdd(s, size) <==> size <= 2 || (s != Unknown && size <= DEFAULT_MAX_BUCKET_SIZE)
  {
    if size <= 2 || (s != Unknown && size <= DEFAULT_MAX_BUCKET_SIZE) {
      SafeWhenSmall(s, size);
    } else if size > DEFAULT_MAX_BUCKET_SIZE {
      EvictionLowersTotal(s);
      AddableGrows(FULL, MANY, Faint(Nth(MANY), s), s, DEFAULT_MAX_BUCKET_SIZE + 1, size);
    } else {
      UnknownLowersTotal();
      AddableGrows(TWO_LOWS, 2, Reported("c", "sast", Unknown), Unknown, 3, size);
    }
  }
}
