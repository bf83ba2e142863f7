/**
 IssueTheorems: what an issue holds and in what order issues come, with the cap
 spelled out (internal/correlation/correlation.go, key.go).
 */
module IssueTheorems {
  import opened Ordering
  import opened Text
  import opened Model
  import opened Correlation
  import opened CorrelationTheorems

  ghost predicate IsMember(issue: Issue, s: Subject) {
    Member(s.f.fingerprint, s.f.scanner, s.f.severity) in issue.members
  }

  predicate MemberLess(a: Member, b: Member) { StringLess(a.fingerprint, b.fingerprint) }

  lemma IssueSource(subjects: seq<Subject>, maxBucketSize: int, inv: Inventory, issue: Issue) returns (fs: seq<Finding>)
    requires DistinctFingerprints(subjects) && issue in Correlate(subjects, maxBucketSize, inv).issues
    ensures fs == Kept(Ranked(subjects), issue.key, LimitOf(maxBucketSize))
    ensures IssueOf(issue.key, fs, inv) == Some(issue)
  {
    var vs, limit := Ranked(subjects), LimitOf(maxBucketSize);
    IssuesFromBuckets(KeyList(vs), vs, limit, inv);
    var k :| k in KeyList(vs) && IssueOf(k, Kept(vs, k, limit), inv) == Some(issue);
    fs := Kept(vs, k, limit);
  }

  lemma CarrierInBucket(subjects: seq<Subject>, k: Key, s: Subject)
    requires DistinctFingerprints(subjects) && s in subjects
    ensures s.f in Bucket(Ranked(subjects), k) <==> k in ViewOf(s).keys
  {
    RankedHas(subjects, s);
    InBucket(Ranked(subjects), k, s);
  }

  /** What the cap leaves out of a bucket comes after all it keeps. */
  lemma CutOff(subjects: seq<Subject>, k: Key, limit: nat, f: Finding)
    requires DistinctFingerprints(subjects) && f in Bucket(Ranked(subjects), k)
    ensures var kept := Kept(Ranked(subjects), k, limit);
      f in kept || (|kept| == limit && forall g | g in kept :: Before(g, f))
  {
    var b := Bucket(Ranked(subjects), k);
    BucketFacts(Ranked(subjects), k);
    var i :| 0 <= i < |b| && b[i] == f;
    if |b| > limit && i < limit { assert b[..limit][i] == f; }
    if |b| > limit && i >= limit {
      forall g | g in b[..limit] ensures Before(g, f) {
        var j :| 0 <= j < limit && b[j] == g;
      }
    }
  }

  lemma MembersSorted(subjects: seq<Subject>, maxBucketSize: int, inv: Inventory, issue: Issue)
    requires DistinctFingerprints(subjects) && issue in Correlate(subjects, maxBucketSize, inv).issues
    ensures Increasing(issue.members, MemberLess) && |issue.members| <= LimitOf(maxBucketSize)
  {
    var fs := IssueSource(subjects, maxBucketSize, inv, issue);
    KeptIncreasing(Ranked(subjects), issue.key, LimitOf(maxBucketSize));
    forall i, j | 0 <= i < j < |fs| ensures MemberLess(issue.members[i], issue.members[j]) {
      assert Before(fs[i], fs[j]);
    }
  }

  ghost predicate AllBefore(issue: Issue, s: Subject) {
    forall m | m in issue.members :: StringLess(m.fingerprint, s.f.fingerprint)
  }

  lemma CutOffMembers(issue: Issue, fs: seq<Finding>, s: Subject)
    requires issue.members == Members(fs) && forall g | g in fs :: Before(g, s.f)
    ensures AllBefore(issue, s)
  {
    forall m | m in issue.members ensures StringLess(m.fingerprint, s.f.fingerprint) {
      var i :| 0 <= i < |fs| && issue.members[i] == m;
      assert fs[i] in fs;
    }
  }

  /**
   An issue's members come in fingerprint order, no more than the cap. Every
   finding that carries the key is one, except behind a full cap, where it comes
   after all of them.
   */
  lemma MembersExactly(subjects: seq<Subject>, maxBucketSize: int, inv: Inventory, issue: Issue, s: Subject)
    requires DistinctFingerprints(subjects) && issue in Correlate(subjects, maxBucketSize, inv).issues && s in subjects
    ensures Increasing(issue.members, MemberLess) && |issue.members| <= LimitOf(maxBucketSize)
    ensures IsMember(issue, s) ==> issue.key in ViewOf(s).keys
    ensures issue.key in ViewOf(s).keys && !IsMember(issue, s) ==>
      |issue.members| == LimitOf(maxBucketSize) && AllBefore(issue, s)
  {
    var limit := LimitOf(maxBucketSize);
    var fs := IssueSource(subjects, maxBucketSize, inv, issue);
    MembersSorted(subjects, maxBucketSize, inv, issue);
    CarrierInBucket(subjects, issue.key, s);
    MemberOfKept(subjects, fs, issue, s, limit);
    if issue.key in ViewOf(s).keys && s.f !in fs {
      CutOff(subjects, issue.key, limit, s.f);
      CutOffMembers(issue, fs, s);
    }
  }

  /** Being a member is being among the kept findings. */
  lemma MemberOfKept(subjects: seq<Subject>, fs: seq<Finding>, issue: Issue, s: Subject, limit: nat)
    requires DistinctFingerprints(subjects) && s in subjects && issue.members == Members(fs)
    requires fs == Kept(Ranked(subjects), issue.key, limit)
    ensures IsMember(issue, s) <==> s.f in fs
    ensures s.f in fs ==> s.f in Bucket(Ranked(subjects), issue.key)
  {
    if s.f in fs {
      var i :| 0 <= i < |fs| && fs[i] == s.f;
      assert issue.members[i] == Member(s.f.fingerprint, s.f.scanner, s.f.severity);
    }
    if IsMember(issue, s) {
      var i :| 0 <= i < |fs| && issue.members[i] == Member(s.f.fingerprint, s.f.scanner, s.f.severity);
      assert fs[i] in fs;
      var v := KeptCarrier(Ranked(subjects), issue.key, limit, fs[i]);
      RankedHas(subjects, s);
      SameView(Ranked(subjects), v, ViewOf(s));
    }
  }

  /** An issue's categories are those of its members, blanks aside, in order. */
  lemma CategoriesExactly(subjects: seq<Subject>, maxBucketSize: int, inv: Inventory, issue: Issue, c: Category)
    requires DistinctFingerprints(subjects) && issue in Correlate(subjects, maxBucketSize, inv).issues
    ensures Increasing(issue.categories, StringLess)
    ensures c in issue.categories <==> c != "" && exists s :: s in subjects && IsMember(issue, s) && s.f.category == c
  {
    StringLessIsTotal();
    var limit := LimitOf(maxBucketSize);
    var fs := IssueSource(subjects, maxBucketSize, inv, issue);
    if c in issue.categories {
      var f :| f in fs && f.category == c;
      var v := KeptCarrier(Ranked(subjects), issue.key, limit, f);
      var s := RankedSource(subjects, v);
      MemberOfKept(subjects, fs, issue, s, limit);
      assert s in subjects && IsMember(issue, s) && s.f.category == c;
    }
    if s :| s in subjects && IsMember(issue, s) && s.f.category == c {
      MemberOfKept(subjects, fs, issue, s, limit);
    }
  }

  // ---- Order ------------------------------------------------------------

  /** Vulnerabilities, then files, then components; by name within each. */
  predicate ComesBefore(a: Key, b: Key) {
    match (a.kind, b.kind)
    case (CveKey, CveKey) => StringLess(a.value, b.value)
    case (FileKey, FileKey) => StringLess(a.value, b.value)
    case (ComponentKey, ComponentKey) => StringLess(a.value, b.value)
    case (CveKey, _) => true
    case (FileKey, ComponentKey) => true
    case _ => false
  }

  lemma KeyOrder(a: Key, b: Key)
    ensures KeyLess(a, b) <==> ComesBefore(a, b)
  {
    if a.kind == b.kind {
      var p := if a.kind.CveKey? then "cve:" else if a.kind.FileKey? then "file:" else "purl:";
      StringLessPrefix(p, a.value, b.value);
    } else {
      assert a.Text()[0] != b.Text()[0];
    }
  }

  ghost predicate KeyedBy(issues: seq<Issue>, keys: seq<Key>) {
    forall i | 0 <= i < |issues| :: issues[i].key in keys
  }

  ghost predicate InKeyOrder(issues: seq<Issue>) {
    forall i, j | 0 <= i < j < |issues| :: KeyLess(issues[i].key, issues[j].key)
  }

  lemma NextInKeyOrder(issues: seq<Issue>, rest: seq<Key>, k: Key, issue: Issue)
    requires KeyedBy(issues, rest) && InKeyOrder(issues) && Increasing(rest + [k], KeyLess) && issue.key == k
    ensures InKeyOrder(issues + [issue])
  {
    var more := issues + [issue];
    forall i, j | 0 <= i < j < |more| ensures KeyLess(more[i].key, more[j].key) {
      if j == |issues| {
        var n :| 0 <= n < |rest| && rest[n] == issues[i].key;
        assert (rest + [k])[n] == rest[n] && (rest + [k])[|rest|] == k;
      }
    }
  }

  lemma {:induction false} IssuesFollowKeys(keys: seq<Key>, vs: seq<View>, limit: nat, inv: Inventory)
    requires Increasing(keys, KeyLess)
    ensures KeyedBy(IssuesFor(keys, vs, limit, inv), keys) && InKeyOrder(IssuesFor(keys, vs, limit, inv))
  {
    if keys != [] {
      var rest, k := keys[..|keys| - 1], keys[|keys| - 1];
      IssuesFollowKeys(rest, vs, limit, inv);
      assert keys == rest + [k];
      EarnedExactly(Kept(vs, k, limit), k, inv);
      var o := IssueOf(k, Kept(vs, k, limit), inv);
      if o.Some? { NextInKeyOrder(IssuesFor(rest, vs, limit, inv), rest, k, o.value); }
    }
  }

  /** Issues come with vulnerabilities first, then files, then components, by name within each. */
  lemma IssuesInOrder(subjects: seq<Subject>, maxBucketSize: int, inv: Inventory, i: nat, j: nat)
    requires i < j < |Correlate(subjects, maxBucketSize, inv).issues|
    ensures ComesBefore(Correlate(subjects, maxBucketSize, inv).issues[i].key,
      Correlate(subjects, maxBucketSize, inv).issues[j].key)
  {
    var issues := Correlate(subjects, maxBucketSize, inv).issues;
    ListedInKeyOrder(subjects, maxBucketSize, inv);
    KeyOrder(issues[i].key, issues[j].key);
  }

  lemma ListedInKeyOrder(subjects: seq<Subject>, maxBucketSize: int, inv: Inventory)
    ensures InKeyOrder(Correlate(subjects, maxBucketSize, inv).issues)
  {
    var vs, limit := SortBy(Views(subjects), ViewLess), LimitOf(maxBucketSize);
    IssuesFollowKeys(KeyList(vs), vs, limit, inv);
  }

  // ---- Truncated keys ---------------------------------------------------

  /** The findings of a project that carry a key. */
  function Carriers(subjects: seq<Subject>, k: Key): seq<Subject> {
    Keep(subjects, (s: Subject) => k in ViewOf(s).keys)
  }

  predicate HasKey(v: View, k: Key) { k in v.keys }

  function Holders(vs: seq<View>, k: Key): seq<View> { Keep(vs, (v: View) => HasKey(v, k)) }

  lemma {:induction false} BucketSize(vs: seq<View>, k: Key)
    ensures |Bucket(vs, k)| == |Holders(vs, k)|
  {
    if vs != [] { BucketSize(vs[..|vs| - 1], k); }
  }

  lemma HoldersStep(vs: seq<View>, v: View, k: Key)
    ensures |Holders(vs + [v], k)| == |Holders(vs, k)| + if HasKey(v, k) then 1 else 0
  {
    KeepOneMore(vs, v, (u: View) => HasKey(u, k));
  }

  lemma CarriersStep(ss: seq<Subject>, s: Subject, k: Key)
    ensures |Carriers(ss + [s], k)| == |Carriers(ss, k)| + if k in ViewOf(s).keys then 1 else 0
  {
    KeepOneMore(ss, s, (t: Subject) => k in ViewOf(t).keys);
  }

  lemma ViewsStep(ss: seq<Subject>, s: Subject)
    ensures Views(ss + [s]) == Views(ss) + [ViewOf(s)]
  {
  }

  lemma SizeStep(ss: seq<Subject>, s: Subject, k: Key)
    requires |Carriers(ss, k)| == |Holders(Views(ss), k)|
    ensures |Carriers(ss + [s], k)| == |Holders(Views(ss + [s]), k)|
  {
    ViewsStep(ss, s);
    CarriersStep(ss, s, k);
    HoldersStep(Views(ss), ViewOf(s), k);
  }

  lemma {:induction false} CarriersSize(subjects: seq<Subject>, k: Key)
    ensures |Carriers(subjects, k)| == |Holders(Views(subjects), k)|
  {
    if subjects != [] {
      CarriersSize(subjects[..|subjects| - 1], k);
      SizeStep(subjects[..|subjects| - 1], subjects[|subjects| - 1], k);
      assert subjects[..|subjects| - 1] + [subjects[|subjects| - 1]] == subjects;
    }
  }

  lemma HoldersPermuted(vs: seq<View>, us: seq<View>, k: Key)
    requires multiset(vs) == multiset(us)
    ensures |Holders(vs, k)| == |Holders(us, k)|
  {
    KeepPermutation(vs, us, (v: View) => HasKey(v, k));
    assert |multiset(Holders(vs, k))| == |Holders(vs, k)| && |multiset(Holders(us, k))| == |Holders(us, k)|;
  }

  /** However the findings are ordered, a bucket is as large as its key has carriers. */
  lemma BucketCounts(subjects: seq<Subject>, k: Key)
    ensures |Bucket(SortBy(Views(subjects), ViewLess), k)| == |Carriers(subjects, k)|
  {
    var vs := SortBy(Views(subjects), ViewLess);
    BucketSize(vs, k);
    CarriersSize(subjects, k);
    SortMultiset(Views(subjects), ViewLess);
    HoldersPermuted(vs, Views(subjects), k);
  }

  lemma {:induction false} TruncatedFrom(keys: seq<Key>, vs: seq<View>, limit: nat, text: string)
    ensures text in TruncatedFor(keys, vs, limit) <==>
      exists k :: k in keys && k.Text() == text && |Bucket(vs, k)| > limit
  {
    if keys != [] {
      var rest, last := keys[..|keys| - 1], keys[|keys| - 1];
      TruncatedFrom(rest, vs, limit, text);
      assert keys == rest + [last];
      if k :| k in rest && k.Text() == text && |Bucket(vs, k)| > limit { assert k in keys; }
    }
  }

  /** How a key is written down. */
  predicate Written(text: string, k: Key) {
    match k.kind
    case CveKey => text == "cve:" + k.value
    case ComponentKey => text == "purl:" + k.value
    case FileKey => text == "file:" + k.value
  }

  lemma CarriedIsListed(subjects: seq<Subject>, k: Key)
    requires Carriers(subjects, k) != []
    ensures k in KeyList(SortBy(Views(subjects), ViewLess))
  {
    KeepElements(subjects, (s: Subject) => k in ViewOf(s).keys);
    var s := Carriers(subjects, k)[0];
    assert s in Carriers(subjects, k);
    RankedHas(subjects, s);
  }

  /** More findings carry the key than the cap allows. */
  ghost predicate Overfull(subjects: seq<Subject>, maxBucketSize: int, k: Key) {
    |Carriers(subjects, k)| > if maxBucketSize <= 0 then 500 else maxBucketSize
  }

  lemma OverfullIsCut(subjects: seq<Subject>, maxBucketSize: int, k: Key)
    ensures Overfull(subjects, maxBucketSize, k) <==>
      var vs := SortBy(Views(subjects), ViewLess); k in KeyList(vs) && |Bucket(vs, k)| > LimitOf(maxBucketSize)
  {
    BucketCounts(subjects, k);
    if Overfull(subjects, maxBucketSize, k) { CarriedIsListed(subjects, k); }
  }

  lemma WrittenIsText(text: string, k: Key)
    ensures Written(text, k) <==> k.Text() == text
  {
  }

  /** A key is reported truncated exactly when more findings than the cap carry it. */
  lemma TruncatedExactly(subjects: seq<Subject>, maxBucketSize: int, inv: Inventory, text: string)
    ensures text in Correlate(subjects, maxBucketSize, inv).truncated <==>
      exists k :: Written(text, k) && Overfull(subjects, maxBucketSize, k)
  {
    var vs, limit := SortBy(Views(subjects), ViewLess), LimitOf(maxBucketSize);
    TruncatedFrom(KeyList(vs), vs, limit, text);
    if k :| k in KeyList(vs) && k.Text() == text && |Bucket(vs, k)| > limit {
      OverfullIsCut(subjects, maxBucketSize, k);
      WrittenIsText(text, k);
    }
    if k :| Written(text, k) && Overfull(subjects, maxBucketSize, k) {
      OverfullIsCut(subjects, maxBucketSize, k);
      WrittenIsText(text, k);
    }
  }
}
