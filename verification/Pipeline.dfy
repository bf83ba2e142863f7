/**
 Pipeline: a project scored end to end. The live findings are correlated, each
 stored finding takes the severity of its worst issue, and the whole is scored
 (internal/worker/runner.go, internal/findings/risk.go). The question is whether
 adding a finding can ever make a project look safer.
 */
module Pipeline {
  import opened Ordering
  import opened Model
  import opened Correlation
  import opened CorrelationTheorems
  import opened Risk
  import opened RiskTheorems

  /** A finding as stored, with its sightings' files and reporters. */
  datatype Stored = Stored(f: Finding, files: seq<string>, sources: seq<string>)

  function SubjectOf(p: Stored): Correlation.Subject { Correlation.Subject(p.f, p.files) }

  /** What correlation reads of a project. */
  function Live(ps: seq<Stored>): seq<Correlation.Subject> {
    if ps == [] then [] else
      var p := ps[|ps| - 1];
      Live(ps[..|ps| - 1]) + if Correlatable(p.f.status) then [SubjectOf(p)] else []
  }

  function MemberFingerprints(i: Issue): set<string> { set m | m in i.members :: m.fingerprint }

  /** The worst issue a finding belongs to. */
  function WorstIssue(issues: seq<Issue>, fp: string): Option<Severity> {
    if issues == [] then None else
      var i := issues[|issues| - 1];
      var rest := WorstIssue(issues[..|issues| - 1], fp);
      var worse := rest.None? || i.severity.Rank() > rest.value.Rank();
      if fp in MemberFingerprints(i) && worse then Some(i.severity) else rest
  }

  ghost function IssuesOf(ps: seq<Stored>): seq<Issue> { Correlate(Live(ps), 0, Inventory({}, false, "")).issues }

  /** LoadRiskInputs: every stored finding with its worst issue. */
  ghost function RiskSubjects(ps: seq<Stored>): (ss: seq<Risk.Subject>)
    ensures |ss| == |ps|
  {
    var issues := IssuesOf(ps);
    seq(|ps|, i requires 0 <= i < |ps| =>
      Risk.Subject(ps[i].f, ps[i].sources, WorstIssue(issues, ps[i].f.fingerprint)))
  }

  ghost function ProjectTotal(w: Weights, ps: seq<Stored>, ctx: Context): real { Total(w, RiskSubjects(ps), ctx) }

  /** A project the store can hold: valid findings, one per fingerprint. */
  ghost predicate Sound(ps: seq<Stored>) {
    && NoDup(StoredFingerprints(ps))
    && forall p | p in ps :: p.f.Storable()
  }

  function StoredFingerprints(ps: seq<Stored>): (fps: seq<string>)
    ensures |fps| == |ps|
  {
    seq(|ps|, i requires 0 <= i < |ps| => ps[i].f.fingerprint)
  }

  /** The live findings of a project carrying a key. */
  ghost function LiveBucket(ps: seq<Stored>, k: Key): seq<Finding> {
    Bucket(SortBy(Views(Live(ps)), ViewLess), k)
  }

  /** What the cap leaves of a bucket. */
  ghost function KeptBucket(ps: seq<Stored>, k: Key): seq<Finding> {
    Kept(SortBy(Views(Live(ps)), ViewLess), k, DEFAULT_MAX_BUCKET_SIZE)
  }

  function With(ps: seq<Stored>, n: nat, x: Stored): seq<Stored>
    requires n <= |ps|
  {
    ps[..n] + [x] + ps[n..]
  }

  // ---- What is loaded for scoring ---------------------------------------

  predicate Lists(i: Issue, fp: string) { exists k :: 0 <= k < |i.members| && i.members[k].fingerprint == fp }

  /** The severity of an issue that lists the finding, outranked by no other that does. */
  ghost predicate IsWorstIssue(issues: seq<Issue>, fp: string, worst: Option<Severity>) {
    match worst
    case None => forall k | 0 <= k < |issues| :: !Lists(issues[k], fp)
    case Some(s) =>
      && (exists k :: 0 <= k < |issues| && Lists(issues[k], fp) && issues[k].severity == s)
      && (forall k | 0 <= k < |issues| && Lists(issues[k], fp) :: issues[k].severity.Rank() <= s.Rank())
  }

  lemma {:induction false} WorstIssueExactly(issues: seq<Issue>, fp: string)
    ensures IsWorstIssue(issues, fp, WorstIssue(issues, fp))
  {
    if issues != [] {
      var rest, i := issues[..|issues| - 1], issues[|issues| - 1];
      WorstIssueExactly(rest, fp);
      assert Lists(i, fp) <==> fp in MemberFingerprints(i);
      assert forall k | 0 <= k < |rest| :: issues[k] == rest[k];
      if WorstIssue(rest, fp).Some? {
        var k :| 0 <= k < |rest| && Lists(rest[k], fp) && rest[k].severity == WorstIssue(rest, fp).value;
        assert Lists(issues[k], fp) && issues[k].severity == WorstIssue(rest, fp).value;
      }
      if Lists(i, fp) { assert Lists(issues[|issues| - 1], fp); }
    }
  }

  /** Every stored finding is scored, as stored, with its reporters and the worst of the issues that list it. */
  lemma LoadedExactly(ps: seq<Stored>, i: nat)
    requires i < |ps|
    ensures var s := RiskSubjects(ps)[i];
      s.f == ps[i].f && s.sources == ps[i].sources && IsWorstIssue(IssuesOf(ps), ps[i].f.fingerprint, s.issue)
  {
    WorstIssueExactly(IssuesOf(ps), ps[i].f.fingerprint);
  }

  // ---- Live findings of an extended project -----------------------------

  lemma {:induction false} LiveConcat(a: seq<Stored>, b: seq<Stored>)
    ensures Live(a + b) == Live(a) + Live(b)
    decreases |b|
  {
    if b == [] {
      assert a + b == a;
    } else {
      assert (a + b)[..|a + b| - 1] == a + b[..|b| - 1];
      LiveConcat(a, b[..|b| - 1]);
    }
  }

  lemma LiveOne(x: Stored)
    requires Correlatable(x.f.status)
    ensures Live([x]) == [SubjectOf(x)]
  {
    assert [x][..0] == [];
  }

  lemma LiveWith(ps: seq<Stored>, n: nat, x: Stored)
    requires n <= |ps| && Correlatable(x.f.status)
    ensures Live(ps) == Live(ps[..n]) + Live(ps[n..])
    ensures Live(With(ps, n, x)) == Live(ps[..n]) + [SubjectOf(x)] + Live(ps[n..])
  {
    assert ps == ps[..n] + ps[n..];
    LiveConcat(ps[..n], ps[n..]);
    LiveOne(x);
    LiveConcat(ps[..n], [x]);
    LiveConcat(ps[..n] + [x], ps[n..]);
  }

  lemma {:induction false} LiveFingerprints(ps: seq<Stored>)
    ensures forall fp | fp in Fingerprints(Live(ps)) :: fp in StoredFingerprints(ps)
  {
    if ps != [] {
      var rest, p := ps[..|ps| - 1], ps[|ps| - 1];
      LiveFingerprints(rest);
      assert StoredFingerprints(ps) == StoredFingerprints(rest) + [p.f.fingerprint];
      assert Fingerprints(Live(ps)) ==
        Fingerprints(Live(rest)) + if Correlatable(p.f.status) then [p.f.fingerprint] else [];
    }
  }

  lemma {:induction false} LiveDistinct(ps: seq<Stored>)
    requires NoDup(StoredFingerprints(ps))
    ensures DistinctFingerprints(Live(ps))
  {
    if ps != [] {
      var rest, p := ps[..|ps| - 1], ps[|ps| - 1];
      var fps := StoredFingerprints(ps);
      assert StoredFingerprints(rest) == fps[..|rest|];
      LiveDistinct(rest);
      LiveFingerprints(rest);
      assert fps[|rest|] !in fps[..|rest|];
      if Correlatable(p.f.status) {
        NoDupAppend(Fingerprints(Live(rest)), p.f.fingerprint);
        assert Fingerprints(Live(ps)) == Fingerprints(Live(rest)) + [p.f.fingerprint];
      } else {
        assert Live(ps) == Live(rest);
      }
    }
  }

  // ---- Buckets of an extended project -----------------------------------

  lemma {:induction false} InsertSplit<T>(x: T, s: seq<T>, less: (T, T) -> bool) returns (j: nat)
    ensures j <= |s| && Insert(x, s, less) == s[..j] + [x] + s[j..]
  {
    if s != [] && less(s[0], x) {
      var k := InsertSplit(x, s[1..], less);
      TailSplit(s, x, k);
      j := k + 1;
    } else {
      j := 0;
      assert s[..0] == [] && s[0..] == s && [] + [x] == [x];
    }
  }

  lemma TailSplit<T>(s: seq<T>, x: T, k: nat)
    requires s != [] && k < |s|
    ensures [s[0]] + (s[1..][..k] + [x] + s[1..][k..]) == s[..k + 1] + [x] + s[k + 1..]
  {
    assert [s[0]] + s[1..][..k] == s[..k + 1] && s[1..][k..] == s[k + 1..];
  }

  lemma {:induction false} BucketConcat(a: seq<View>, b: seq<View>, k: Key)
    ensures Bucket(a + b, k) == Bucket(a, k) + Bucket(b, k)
    decreases |b|
  {
    if b == [] {
      assert a + b == a;
    } else {
      assert (a + b)[..|a + b| - 1] == a + b[..|b| - 1];
      BucketConcat(a, b[..|b| - 1], k);
    }
  }

  /** `fs'` is `fs`, with `f` somewhere in it when `joined`. */
  ghost predicate Joined(fs: seq<Finding>, fs': seq<Finding>, f: Finding, joined: bool) {
    if joined then exists j :: JoinedAt(fs, fs', f, j) else fs' == fs
  }

  ghost predicate JoinedAt(fs: seq<Finding>, fs': seq<Finding>, f: Finding, j: int) {
    0 <= j <= |fs| && fs' == fs[..j] + [f] + fs[j..]
  }

  lemma BucketOne(v: View, k: Key)
    ensures Bucket([v], k) == if k in v.keys then [v.f] else []
  {
    assert [v][..0] == [];
  }

  lemma JoinedParts(a: seq<Finding>, b: seq<Finding>, f: Finding, joined: bool)
    ensures Joined(a + b, a + (if joined then [f] else []) + b, f, joined)
  {
    if joined {
      assert (a + b)[..|a|] == a && (a + b)[|a|..] == b;
      assert JoinedAt(a + b, a + [f] + b, f, |a|);
    } else {
      assert a + [] + b == a + b;
    }
  }

  lemma BucketParts(a: seq<View>, v: View, b: seq<View>, k: Key)
    ensures Bucket(a + b, k) == Bucket(a, k) + Bucket(b, k)
    ensures Bucket(a + [v] + b, k) == Bucket(a, k) + (if k in v.keys then [v.f] else []) + Bucket(b, k)
  {
    BucketConcat(a, b, k);
    BucketConcat(a, [v], k);
    BucketConcat(a + [v], b, k);
    BucketOne(v, k);
  }

  lemma BucketWith(vs: seq<View>, j: nat, v: View, k: Key)
    requires j <= |vs|
    ensures Joined(Bucket(vs, k), Bucket(vs[..j] + [v] + vs[j..], k), v.f, k in v.keys)
  {
    assert vs == vs[..j] + vs[j..];
    BucketParts(vs[..j], v, vs[j..], k);
    JoinedParts(Bucket(vs[..j], k), Bucket(vs[j..], k), v.f, k in v.keys);
  }

  lemma RankedWith(a: seq<Correlation.Subject>, x: Correlation.Subject, b: seq<Correlation.Subject>) returns (j: nat)
    requires DistinctFingerprints(a + [x] + b) && DistinctFingerprints(a + b)
    ensures j <= |Ranked(a + b)|
    ensures Ranked(a + [x] + b) == Ranked(a + b)[..j] + [ViewOf(x)] + Ranked(a + b)[j..]
  {
    var vs, vs' := Ranked(a + b), Ranked(a + [x] + b);
    var w := Insert(ViewOf(x), vs, ViewLess);
    j := InsertSplit(ViewOf(x), vs, ViewLess);
    InsertedView(a, x, b);
    FingerprintOrders();
    InsertIncreasing(ViewOf(x), vs, ViewLess);
    forall u ensures u in w <==> u in vs' {
      assert u in w <==> u == ViewOf(x) || u in vs by { assert vs == vs[..j] + vs[j..]; }
      RankedExtends(a, x, b, u);
    }
    IncreasingUnique(w, vs', ViewLess);
  }

  lemma AnotherFingerprint(a: seq<Correlation.Subject>, x: Correlation.Subject, b: seq<Correlation.Subject>,
    s: Correlation.Subject)
    requires DistinctFingerprints(a + [x] + b) && s in a + b
    ensures s.f.fingerprint != x.f.fingerprint
  {
    var all := a + [x] + b;
    var fps := Fingerprints(all);
    assert all[|a|] == x;
    if s in a {
      var i :| 0 <= i < |a| && a[i] == s;
      assert all[i] == s && fps[i] != fps[|a|];
    } else {
      var i :| 0 <= i < |b| && b[i] == s;
      assert all[|a| + 1 + i] == s && fps[|a|] != fps[|a| + 1 + i];
    }
  }

  lemma InsertedView(a: seq<Correlation.Subject>, x: Correlation.Subject, b: seq<Correlation.Subject>)
    requires DistinctFingerprints(a + [x] + b) && DistinctFingerprints(a + b)
    ensures forall u | u in Ranked(a + b) :: ViewLess(ViewOf(x), u) || ViewLess(u, ViewOf(x))
  {
    forall u | u in Ranked(a + b) ensures ViewLess(ViewOf(x), u) || ViewLess(u, ViewOf(x)) {
      var s := RankedSource(a + b, u);
      AnotherFingerprint(a, x, b, s);
      StringLessConnected(s.f.fingerprint, x.f.fingerprint);
    }
  }

  lemma RankedExtends(a: seq<Correlation.Subject>, x: Correlation.Subject, b: seq<Correlation.Subject>, u: View)
    requires DistinctFingerprints(a + [x] + b) && DistinctFingerprints(a + b)
    ensures u in Ranked(a + [x] + b) <==> u == ViewOf(x) || u in Ranked(a + b)
  {
    if u in Ranked(a + [x] + b) {
      var s := RankedSource(a + [x] + b, u);
      if s in a + b { RankedHas(a + b, s); }
    }
    assert x in a + [x] + b;
    RankedHas(a + [x] + b, x);
    if u in Ranked(a + b) {
      var s := RankedSource(a + b, u);
      assert s in a + [x] + b;
      RankedHas(a + [x] + b, s);
    }
  }

  // ---- The severity of an extended bucket -------------------------------

  ghost predicate Mixed(fs: seq<Finding>) { |CategoriesOf(fs)| >= 2 }

  /** The one way an issue can lose severity: `unknown` joins a mixed bucket whose worst is `low`. */
  ghost predicate Demotes(x: Finding, fs: seq<Finding>) {
    x.severity == Unknown && Worst(fs) == Low && Mixed(fs)
  }

  lemma JoinedElements(fs: seq<Finding>, fs': seq<Finding>, x: Finding)
    requires Joined(fs, fs', x, true)
    ensures |fs'| == |fs| + 1
    ensures forall f :: f in fs' <==> f == x || f in fs
  {
    var j :| JoinedAt(fs, fs', x, j);
    assert fs == fs[..j] + fs[j..];
  }

  lemma JoinedWorst(fs: seq<Finding>, fs': seq<Finding>, x: Finding)
    requires Joined(fs, fs', x, true)
    ensures Worst(fs').Rank() == if x.severity.Rank() > Worst(fs).Rank() then x.severity.Rank() else Worst(fs).Rank()
  {
    JoinedElements(fs, fs', x);
    WorstFacts(fs);
    WorstFacts(fs');
    assert x in fs';
  }

  lemma JoinedCategories(fs: seq<Finding>, fs': seq<Finding>, x: Finding)
    requires Joined(fs, fs', x, true)
    ensures |CategoriesOf(fs)| <= |CategoriesOf(fs')|
  {
    JoinedElements(fs, fs', x);
    assert CategoriesOf(fs) <= CategoriesOf(fs');
    SubsetSize(CategoriesOf(fs), CategoriesOf(fs'));
  }

  /** The severity of an issue from its worst member. */
  function Raised(worst: Severity, mixed: bool): Severity {
    if mixed && Escalate(worst).Some? then Escalate(worst).value else worst
  }

  lemma RaisedFalls(worst: Severity, mixed: bool, x: Severity, worst': Severity, mixed': bool)
    requires worst.Valid() && x.Valid() && worst'.Valid() && (mixed ==> mixed')
    requires worst'.Rank() == if x.Rank() > worst.Rank() then x.Rank() else worst.Rank()
    ensures Raised(worst', mixed').Rank() < Raised(worst, mixed).Rank() <==> x == Unknown && worst == Low && mixed
  {
  }

  /**
   Adding a finding to a bucket lowers the severity of its issue exactly when an
   `unknown` finding joins a bucket that had been raised from `low` to `medium`.
   */
  lemma IssueSeverityFalls(fs: seq<Finding>, fs': seq<Finding>, x: Finding)
    requires Joined(fs, fs', x, true) && x.severity.Valid()
    ensures IssueSeverity(fs').0.Rank() < IssueSeverity(fs).0.Rank() <==> Demotes(x, fs)
  {
    JoinedWorst(fs, fs', x);
    JoinedCategories(fs, fs', x);
    WorstFacts(fs);
    WorstFacts(fs');
    RaisedFalls(Worst(fs), Mixed(fs), x.severity, Worst(fs'), Mixed(fs'));
  }

  // ---- Issues of an extended project ------------------------------------

  /** `x` would push the last kept member of a full bucket over the cap. */
  ghost predicate Evicts(ps: seq<Stored>, x: Stored, k: Key) {
    var fs := LiveBucket(ps, k);
    |fs| >= DEFAULT_MAX_BUCKET_SIZE && StringLess(x.f.fingerprint, fs[DEFAULT_MAX_BUCKET_SIZE - 1].fingerprint)
  }

  /** `x` demotes no issue it joins and evicts no member: what a caller can check before adding. */
  ghost predicate Harmless(ps: seq<Stored>, x: Stored) {
    forall k | k in ViewOf(SubjectOf(x)).keys ::
      !Evicts(ps, x, k) && (|LiveBucket(ps, k)| < DEFAULT_MAX_BUCKET_SIZE ==> !Demotes(x.f, LiveBucket(ps, k)))
  }

  lemma LiveBucketWith(ps: seq<Stored>, n: nat, x: Stored, k: Key)
    requires n <= |ps| && Correlatable(x.f.status)
    requires NoDup(StoredFingerprints(ps)) && NoDup(StoredFingerprints(With(ps, n, x)))
    ensures Joined(LiveBucket(ps, k), LiveBucket(With(ps, n, x), k), x.f, k in ViewOf(SubjectOf(x)).keys)
  {
    var a, s, b := Live(ps[..n]), SubjectOf(x), Live(ps[n..]);
    LiveWith(ps, n, x);
    LiveDistinct(ps);
    LiveDistinct(With(ps, n, x));
    var j := RankedWith(a, s, b);
    BucketWith(Ranked(a + b), j, ViewOf(s), k);
  }

  lemma LiveBucketOrdered(ps: seq<Stored>, k: Key)
    requires NoDup(StoredFingerprints(ps))
    ensures Increasing(LiveBucket(ps, k), Before)
  {
    LiveDistinct(ps);
    BucketFacts(Ranked(Live(ps)), k);
  }

  lemma JoinedBefore(fs: seq<Finding>, fs': seq<Finding>, x: Finding, j: nat, i: nat)
    requires JoinedAt(fs, fs', x, j) && Increasing(fs', Before) && j <= i < |fs|
    ensures Before(x, fs[i])
  {
    assert fs'[j] == x && fs'[i + 1] == fs[i];
  }

  /** A finding that sorts behind the last kept one does not get into the kept part. */
  lemma BehindTheCap(fs: seq<Finding>, fs': seq<Finding>, x: Finding)
    requires Joined(fs, fs', x, true) && Increasing(fs', Before) && |fs| >= DEFAULT_MAX_BUCKET_SIZE
    requires !Before(x, fs[DEFAULT_MAX_BUCKET_SIZE - 1])
    ensures fs'[..DEFAULT_MAX_BUCKET_SIZE] == fs[..DEFAULT_MAX_BUCKET_SIZE]
  {
    var j :| JoinedAt(fs, fs', x, j);
    if j < DEFAULT_MAX_BUCKET_SIZE {
      JoinedBefore(fs, fs', x, j, DEFAULT_MAX_BUCKET_SIZE - 1);
      assert false;
    }
  }

  /** A harmless finding joins what is kept of a bucket without demoting it, or leaves it alone. */
  lemma KeptBucketWith(ps: seq<Stored>, n: nat, x: Stored, k: Key) returns (joined: bool)
    requires n <= |ps| && Correlatable(x.f.status) && Harmless(ps, x)
    requires NoDup(StoredFingerprints(ps)) && NoDup(StoredFingerprints(With(ps, n, x)))
    ensures Joined(KeptBucket(ps, k), KeptBucket(With(ps, n, x), k), x.f, joined)
    ensures joined ==> !Demotes(x.f, KeptBucket(ps, k))
  {
    var fs, fs' := LiveBucket(ps, k), LiveBucket(With(ps, n, x), k);
    LiveBucketWith(ps, n, x, k);
    joined := k in ViewOf(SubjectOf(x)).keys && |fs| < DEFAULT_MAX_BUCKET_SIZE;
    if joined {
      JoinedElements(fs, fs', x.f);
    } else if k in ViewOf(SubjectOf(x)).keys {
      LiveBucketOrdered(With(ps, n, x), k);
      JoinedElements(fs, fs', x.f);
      assert !Evicts(ps, x, k);
      BehindTheCap(fs, fs', x.f);
      assert |fs| == DEFAULT_MAX_BUCKET_SIZE ==> fs[..DEFAULT_MAX_BUCKET_SIZE] == fs;
    }
  }

  /** `issue` is what is kept of the bucket of `k` yields. */
  ghost predicate Yields(ps: seq<Stored>, k: Key, issue: Issue) {
    IssueOf(k, KeptBucket(ps, k), Inventory({}, false, "")) == Some(issue)
  }

  lemma KeyOfBucket(vs: seq<View>, k: Key)
    ensures k !in KeyUnion(vs) ==> Bucket(vs, k) == []
  {
    if k !in KeyUnion(vs) {
      forall i | 0 <= i < |vs| ensures k !in vs[i].keys { assert vs[i] in vs; }
      NoCarrier(vs, k);
    }
  }

  lemma {:induction false} NoCarrier(vs: seq<View>, k: Key)
    requires forall i | 0 <= i < |vs| :: k !in vs[i].keys
    ensures Bucket(vs, k) == []
  {
    if vs != [] { NoCarrier(vs[..|vs| - 1], k); }
  }

  /** The issues of a project are what its buckets yield. */
  lemma IssuesYielded(ps: seq<Stored>, issue: Issue)
    ensures issue in IssuesOf(ps) <==> exists k :: Yields(ps, k, issue)
  {
    var vs := SortBy(Views(Live(ps)), ViewLess);
    IssuesFromBuckets(KeyList(vs), vs, DEFAULT_MAX_BUCKET_SIZE, Inventory({}, false, ""));
    if issue in IssuesOf(ps) {
      var k :| k in KeyList(vs) && Yields(ps, k, issue);
    }
    if k :| Yields(ps, k, issue) {
      KeyOfBucket(vs, k);
      assert k in KeyList(vs);
    }
  }

  lemma {:induction false} WorstIssueFacts(issues: seq<Issue>, fp: string)
    ensures WorstIssue(issues, fp).None? ==> forall i | i in issues :: fp !in MemberFingerprints(i)
    ensures WorstIssue(issues, fp).Some? ==>
      && (exists i :: i in issues && fp in MemberFingerprints(i) && i.severity == WorstIssue(issues, fp).value)
      && (forall i | i in issues && fp in MemberFingerprints(i) ::
        i.severity.Rank() <= WorstIssue(issues, fp).value.Rank())
  {
    if issues != [] {
      var rest, last := issues[..|issues| - 1], issues[|issues| - 1];
      WorstIssueFacts(rest, fp);
      assert issues == rest + [last];
      if WorstIssue(issues, fp).Some? && WorstIssue(issues, fp) == WorstIssue(rest, fp) {
        var i :| i in rest && fp in MemberFingerprints(i) && i.severity == WorstIssue(rest, fp).value;
        assert i in issues;
      }
    }
  }

  lemma IssueGrows(k: Key, fs: seq<Finding>, fs': seq<Finding>, x: Finding, joined: bool, inv: Inventory, fp: string)
    requires Joined(fs, fs', x, joined) && x.severity.Valid() && (joined ==> !Demotes(x, fs))
    requires IssueOf(k, fs, inv).Some? && fp in MemberFingerprints(IssueOf(k, fs, inv).value)
    ensures IssueOf(k, fs', inv).Some? && fp in MemberFingerprints(IssueOf(k, fs', inv).value)
    ensures IssueOf(k, fs, inv).value.severity.Rank() <= IssueOf(k, fs', inv).value.severity.Rank()
  {
    if joined {
      JoinedElements(fs, fs', x);
      JoinedCategories(fs, fs', x);
      IssueSeverityFalls(fs, fs', x);
      var m :| m in Members(fs) && m.fingerprint == fp;
      var i :| 0 <= i < |fs| && Members(fs)[i] == m;
      assert fs[i] in fs';
      var i' :| 0 <= i' < |fs'| && fs'[i'] == fs[i];
      assert Members(fs')[i'] in Members(fs');
    }
  }

  /** Nothing a finding belonged to gets better by adding a harmless finding. */
  lemma WorstIssueGrows(ps: seq<Stored>, n: nat, x: Stored, fp: string)
    requires n <= |ps| && Correlatable(x.f.status) && x.f.severity.Valid() && Harmless(ps, x)
    requires NoDup(StoredFingerprints(ps)) && NoDup(StoredFingerprints(With(ps, n, x)))
    ensures WorstIssue(IssuesOf(ps), fp).Some? ==>
      && WorstIssue(IssuesOf(With(ps, n, x)), fp).Some?
      && WorstIssue(IssuesOf(ps), fp).value.Rank() <= WorstIssue(IssuesOf(With(ps, n, x)), fp).value.Rank()
  {
    var ps' := With(ps, n, x);
    WorstIssueFacts(IssuesOf(ps), fp);
    WorstIssueFacts(IssuesOf(ps'), fp);
    if WorstIssue(IssuesOf(ps), fp).Some? {
      var i :| i in IssuesOf(ps) && fp in MemberFingerprints(i) && i.severity == WorstIssue(IssuesOf(ps), fp).value;
      IssuesYielded(ps, i);
      var k :| Yields(ps, k, i);
      var joined := KeptBucketWith(ps, n, x, k);
      IssueGrows(k, KeptBucket(ps, k), KeptBucket(ps', k), x.f, joined, Inventory({}, false, ""), fp);
      var i' := IssueOf(k, KeptBucket(ps', k), Inventory({}, false, "")).value;
      assert Yields(ps', k, i');
      IssuesYielded(ps', i');
    }
  }

  // ---- Scoring an extended project --------------------------------------

  /** A project that loses a finding is still one the store can hold. */
  lemma SoundWithout(ps: seq<Stored>, n: nat, x: Stored)
    requires n <= |ps| && Sound(With(ps, n, x))
    ensures Sound(ps)
  {
    var ps' := With(ps, n, x);
    forall i, j | 0 <= i < j < |ps| ensures StoredFingerprints(ps)[i] != StoredFingerprints(ps)[j] {
      var i', j' := if i < n then i else i + 1, if j < n then j else j + 1;
      assert StoredFingerprints(ps')[i'] == StoredFingerprints(ps)[i];
      assert StoredFingerprints(ps')[j'] == StoredFingerprints(ps)[j];
    }
    forall p | p in ps ensures p.f.Storable() { assert ps == ps[..n] + ps[n..]; assert p in ps'; }
  }

  /** The same finding, scored no lower. */
  ghost predicate Rescored(w: Weights, s: Risk.Subject, t: Risk.Subject, ctx: Context) {
    (Dismissed(s.f.status) <==> Dismissed(t.f.status)) && NoLower(w, s, t, ctx)
  }

  lemma IssueSeverityValid(ps: seq<Stored>, issue: Issue)
    requires issue in IssuesOf(ps)
    ensures issue.severity.Valid()
  {
    IssuesYielded(ps, issue);
    var k :| Yields(ps, k, issue);
    BucketSeverityValid(KeptBucket(ps, k));
  }

  lemma BucketSeverityValid(fs: seq<Finding>)
    ensures IssueSeverity(fs).0.Valid()
  {
    WorstFacts(fs);
  }

  lemma WorstIssueValid(ps: seq<Stored>, fp: string)
    ensures WorstIssue(IssuesOf(ps), fp).Some? ==> WorstIssue(IssuesOf(ps), fp).value.Valid()
  {
    WorstIssueFacts(IssuesOf(ps), fp);
    if WorstIssue(IssuesOf(ps), fp).Some? {
      var i :| i in IssuesOf(ps) && fp in MemberFingerprints(i) && i.severity == WorstIssue(IssuesOf(ps), fp).value;
      IssueSeverityValid(ps, i);
    }
  }

  lemma {:induction false} BelowPointwise(w: Weights, ss: seq<Risk.Subject>, tt: seq<Risk.Subject>, ctx: Context)
    requires |ss| == |tt| && forall i | 0 <= i < |ss| :: Rescored(w, ss[i], tt[i], ctx)
    ensures Below(Values(w, ss, ctx), Values(w, tt, ctx))
  {
    if ss != [] {
      var a, b := ss[..|ss| - 1], tt[..|tt| - 1];
      BelowPointwise(w, a, b, ctx);
      assert Rescored(w, ss[|ss| - 1], tt[|tt| - 1], ctx);
      BelowExtends(Values(w, a, ctx), Values(w, b, ctx), Values(w, ss, ctx), Values(w, tt, ctx));
    }
  }

  lemma BelowExtends(a: seq<real>, b: seq<real>, a': seq<real>, b': seq<real>)
    requires Below(a, b)
    requires (a' == a && b' == b)
      || (|a'| == |a| + 1 && |b'| == |b| + 1 && a'[..|a|] == a && b'[..|b|] == b && a'[|a|] <= b'[|b|])
    ensures Below(a', b')
  {
  }

  lemma {:induction false} BelowWith(w: Weights, ss: seq<Risk.Subject>, tt: seq<Risk.Subject>, n: nat, ctx: Context)
    requires n <= |ss| && |tt| == |ss| + 1
    requires forall i | 0 <= i < |ss| :: Rescored(w, ss[i], tt[if i < n then i else i + 1], ctx)
    ensures Below(Values(w, ss, ctx), Values(w, tt, ctx))
    decreases |ss|
  {
    var b := tt[..|tt| - 1];
    if n == |ss| {
      assert forall i | 0 <= i < |ss| :: b[i] == tt[i];
      BelowPointwise(w, ss, b, ctx);
      BelowSkip(Values(w, ss, ctx), Values(w, b, ctx), Values(w, tt, ctx));
    } else {
      var a := ss[..|ss| - 1];
      assert forall i | 0 <= i < |a| ::
        a[i] == ss[i] && b[if i < n then i else i + 1] == tt[if i < n then i else i + 1];
      BelowWith(w, a, b, n, ctx);
      assert Rescored(w, ss[|ss| - 1], tt[|tt| - 1], ctx);
      BelowExtends(Values(w, a, ctx), Values(w, b, ctx), Values(w, ss, ctx), Values(w, tt, ctx));
    }
  }

  lemma BelowSkip(a: seq<real>, b: seq<real>, b': seq<real>)
    requires Below(a, b) && (b' == b || (|b'| == |b| + 1 && b'[..|b|] == b))
    ensures Below(a, b')
  {
  }

  lemma SubjectsNoLower(w: Weights, ps: seq<Stored>, n: nat, x: Stored, ctx: Context, i: nat)
    requires w.Valid() && w.FollowsRank() && w.Places(ctx)
    requires n <= |ps| && Correlatable(x.f.status) && Harmless(ps, x)
    requires Sound(ps) && Sound(With(ps, n, x)) && i < |ps|
    ensures Rescored(w, RiskSubjects(ps)[i], RiskSubjects(With(ps, n, x))[if i < n then i else i + 1], ctx)
  {
    var ps' := With(ps, n, x);
    var fp := ps[i].f.fingerprint;
    assert x in ps' && ps[i] in ps;
    assert ps'[if i < n then i else i + 1] == ps[i];
    WorstIssueGrows(ps, n, x, fp);
    WorstIssueValid(ps, fp);
    WorstIssueValid(ps', fp);
    var s, t := RiskSubjects(ps)[i], RiskSubjects(ps')[if i < n then i else i + 1];
    if t.issue.Some? { WorseIssueScoresNoLower(w, s, t, ctx); } else { assert s == t; }
  }

  lemma RiskSubjectsStorable(ps: seq<Stored>)
    requires Sound(ps)
    ensures forall s | s in RiskSubjects(ps) :: s.f.Storable()
  {
    forall s | s in RiskSubjects(ps) ensures s.f.Storable() {
      var i :| 0 <= i < |ps| && RiskSubjects(ps)[i] == s;
      assert ps[i] in ps;
    }
  }

  lemma AddingIsMilder(w: Weights, ps: seq<Stored>, n: nat, x: Stored, ctx: Context)
    requires w.Valid() && w.FollowsRank() && w.Places(ctx)
    requires n <= |ps| && Correlatable(x.f.status) && Harmless(ps, x)
    requires Sound(With(ps, n, x))
    ensures Sound(ps) && Milder(w, RiskSubjects(ps), RiskSubjects(With(ps, n, x)), ctx)
  {
    SoundWithout(ps, n, x);
    var ss, tt := RiskSubjects(ps), RiskSubjects(With(ps, n, x));
    forall i | 0 <= i < |ss| ensures Rescored(w, ss[i], tt[if i < n then i else i + 1], ctx) {
      SubjectsNoLower(w, ps, n, x, ctx, i);
    }
    BelowWith(w, ss, tt, n, ctx);
  }

  /**
   Adding a live finding, recorrelating the whole project and rescoring it never
   lowers the total or the score, when the finding demotes no issue it joins and
   evicts no member of a full bucket; for every valid weight set that follows rank.
   */
  lemma AddingNeverLowers(w: Weights, ps: seq<Stored>, n: nat, x: Stored, ctx: Context, exp: real -> real)
    requires w.Valid() && w.FollowsRank() && w.Places(ctx) && ExpLike(exp)
    requires n <= |ps| && Correlatable(x.f.status) && Harmless(ps, x)
    requires Sound(With(ps, n, x))
    ensures ProjectTotal(w, ps, ctx) <= ProjectTotal(w, With(ps, n, x), ctx)
    ensures ProjectScore(w, RiskSubjects(ps), ctx, exp) <= ProjectScore(w, RiskSubjects(With(ps, n, x)), ctx, exp)
  {
    AddingIsMilder(w, ps, n, x, ctx);
    RiskSubjectsStorable(ps);
    RiskSubjectsStorable(With(ps, n, x));
    ScoreMonotone(w, RiskSubjects(ps), RiskSubjects(With(ps, n, x)), ctx, exp);
  }

  // ---- Dismissing a finding ---------------------------------------------

  lemma LiveSkips(a: seq<Stored>, d: Stored)
    requires !Correlatable(d.f.status)
    ensures Live(a + [d]) == Live(a)
  {
    assert (a + [d])[..|a|] == a;
  }

  lemma LiveAround(ps: seq<Stored>, a: seq<Stored>, d: Stored, b: seq<Stored>)
    requires ps == a + b && !Correlatable(d.f.status)
    ensures Live(a + [d] + b) == Live(ps)
  {
    LiveSkips(a, d);
    LiveConcat(a + [d], b);
    LiveConcat(a, b);
  }

  lemma LiveWithout(ps: seq<Stored>, n: nat, d: Stored)
    requires n <= |ps| && !Correlatable(d.f.status)
    ensures Live(With(ps, n, d)) == Live(ps)
  {
    TakeDrop(ps, n);
    LiveAround(ps, ps[..n], d, ps[n..]);
  }

  lemma ValuesSkip(w: Weights, a: seq<Risk.Subject>, s: Risk.Subject, b: seq<Risk.Subject>, ctx: Context)
    requires Dismissed(s.f.status)
    ensures Values(w, a + [s] + b, ctx) == Values(w, a + b, ctx)
  {
    assert [s][..0] == [] && Values(w, [s], ctx) == [];
    ValuesAppend(w, a + [s], b, ctx);
    ValuesAppend(w, a, [s], ctx);
    ValuesAppend(w, a, b, ctx);
    assert Values(w, a, ctx) + [] == Values(w, a, ctx);
  }

  lemma SubjectsSplit<T>(ss: seq<T>, tt: seq<T>, n: nat)
    requires n <= |ss| && |tt| == |ss| + 1
    requires forall i | 0 <= i < n :: tt[i] == ss[i]
    requires forall i | n < i < |tt| :: tt[i] == ss[i - 1]
    ensures tt == ss[..n] + [tt[n]] + ss[n..]
  {
  }

  lemma SubjectKept(ps: seq<Stored>, qs: seq<Stored>, i: nat, j: nat)
    requires Live(ps) == Live(qs) && i < |ps| && j < |qs| && ps[i] == qs[j]
    ensures RiskSubjects(ps)[i] == RiskSubjects(qs)[j]
  {
  }

  lemma WithAt(ps: seq<Stored>, n: nat, x: Stored)
    requires n <= |ps|
    ensures |With(ps, n, x)| == |ps| + 1 && With(ps, n, x)[n] == x
    ensures forall i | 0 <= i < n :: With(ps, n, x)[i] == ps[i]
    ensures forall i | n < i <= |ps| :: With(ps, n, x)[i] == ps[i - 1]
  {
  }

  lemma SubjectsWithout(ps: seq<Stored>, n: nat, d: Stored)
    requires n <= |ps| && !Correlatable(d.f.status)
    ensures var ss, tt := RiskSubjects(ps), RiskSubjects(With(ps, n, d));
      tt == ss[..n] + [tt[n]] + ss[n..] && tt[n].f == d.f
  {
    var qs := With(ps, n, d);
    var ss, tt := RiskSubjects(ps), RiskSubjects(qs);
    WithAt(ps, n, d);
    LiveWithout(ps, n, d);
    forall i | 0 <= i < n ensures tt[i] == ss[i] { SubjectKept(ps, qs, i, i); }
    forall i | n < i < |tt| ensures tt[i] == ss[i - 1] { SubjectKept(ps, qs, i - 1, i); }
    SubjectsSplit(ss, tt, n);
  }

  /** A dismissed finding counts for nothing: the project scores as if it were not there. */
  lemma DismissedIsInvisible(w: Weights, ps: seq<Stored>, n: nat, d: Stored, ctx: Context)
    requires n <= |ps| && Dismissed(d.f.status)
    ensures Values(w, RiskSubjects(With(ps, n, d)), ctx) == Values(w, RiskSubjects(ps), ctx)
  {
    var ss, tt := RiskSubjects(ps), RiskSubjects(With(ps, n, d));
    SubjectsWithout(ps, n, d);
    TakeDrop(ss, n);
    ValuesSkip(w, ss[..n], tt[n], ss[n..], ctx);
  }

  /** Dismissing a finding that would be harmless to add never raises the total or the score. */
  lemma DismissingNeverRaises(
    w: Weights, ps: seq<Stored>, n: nat, x: Stored, status: Status, ctx: Context, exp: real -> real)
    requires w.Valid() && w.FollowsRank() && w.Places(ctx) && ExpLike(exp)
    requires n <= |ps| && Correlatable(x.f.status) && Harmless(ps, x) && Dismissed(status)
    requires Sound(With(ps, n, x))
    ensures var d := x.(f := x.f.(status := status));
      && ProjectTotal(w, With(ps, n, d), ctx) <= ProjectTotal(w, With(ps, n, x), ctx)
      && ProjectScore(w, RiskSubjects(With(ps, n, d)), ctx, exp) <=
        ProjectScore(w, RiskSubjects(With(ps, n, x)), ctx, exp)
  {
    AddingNeverLowers(w, ps, n, x, ctx, exp);
    DismissedIsInvisible(w, ps, n, x.(f := x.f.(status := status)), ctx);
  }
}
