/**
 CorrelationEngine: the engine as it runs, with its loops, maps and the link set
 it changes in place, proved to compute the specification in Correlation.
 */
module CorrelationEngine {
  import opened Ordering
  import opened Text
  import opened Model
  import opened Correlation

  /** Links deduplicated across buckets, keeping the strongest claim about a pair. */
  class LinkSet {
    var byPair: LinkMap

    ghost predicate Valid() reads this { Keyed(byPair) }

    constructor ()
      ensures Valid() && byPair == map[]
    {
      byPair := map[];
    }

    method Add(l: Link)
      requires Valid()
      modifies this
      ensures Valid() && byPair == AddLink(old(byPair), l)
    {
      var d := l;
      if StringLess(d.to, d.from) {
        d := d.(from := d.to, to := d.from);
      }
      if d.Pair() !in byPair || Stronger(d, byPair[d.Pair()]) {
        byPair := byPair[d.Pair() := d];
      }
    }

    /** The pairs in the set, in whatever order the map is walked. */
    method Pairs() returns (found: seq<(string, string)>)
      ensures NoDup(found) && forall p :: p in found <==> p in byPair.Keys
    {
      var todo := byPair.Keys;
      found := [];
      while todo != {}
        invariant todo <= byPair.Keys
        invariant NoDup(found) && forall p :: p in found <==> p in byPair.Keys && p !in todo
        decreases |todo|
      {
        var p :| p in todo;
        NoDupAppend(found, p);
        found, todo := found + [p], todo - {p};
      }
    }

    /** The links in one stable order, whatever order the map is walked in. */
    method Sorted() returns (out: seq<Link>)
      ensures out == LinkList(byPair)
    {
      var found := Pairs();
      PairListBySort(byPair, found);
      out := LinksAt(byPair, SortBy(found, PairLess));
    }
  }

  lemma PairListBySort(m: LinkMap, found: seq<(string, string)>)
    requires NoDup(found) && forall p :: p in found <==> p in m.Keys
    ensures SortBy(found, PairLess) == PairList(m)
  {
    PairLessIsTotal();
    SortedSetBySort(found, m.Keys, PairLess);
  }

  lemma FileKeysAppend(files: seq<string>, p: string)
    ensures FileKeys(files + [p]) == FileKeys(files) +
      if NormalizeLocation(p) == "" then {} else {Key(FileKey, NormalizeLocation(p))}
  {
    forall q | q in files ensures q in files + [p] {}
    assert p in files + [p];
  }

  /** The file loop of keysOf. */
  method AddFileKeys(files: seq<string>, start: seq<Key>) returns (keys: seq<Key>)
    requires NoDup(start) && forall k | k in start :: !k.kind.FileKey?
    ensures NoDup(keys)
    ensures forall k :: k in keys <==> k in start || k in FileKeys(files)
  {
    var seen: set<string> := {};
    keys := start;
    for i := 0 to |files|
      invariant forall p :: p in seen <==> Key(FileKey, p) in FileKeys(files[..i])
      invariant forall k :: k in keys <==> k in start || k in FileKeys(files[..i])
      invariant NoDup(keys)
    {
      var p := NormalizeLocation(files[i]);
      assert files[..i + 1] == files[..i] + [files[i]];
      FileKeysAppend(files[..i], files[i]);
      if p != "" && p !in seen {
        NoDupAppend(keys, Key(FileKey, p));
        seen := seen + {p};
        keys := keys + [Key(FileKey, p)];
      }
    }
    assert files[..|files|] == files;
  }

  /** keysOf: every key a subject carries, each once. */
  method KeysOf(s: Subject) returns (keys: seq<Key>)
    ensures forall k :: k in keys <==> k in ViewOf(s).keys
    ensures NoDup(keys)
  {
    keys := [];
    if TrimSpace(s.f.cve) != "" {
      keys := keys + [Key(CveKey, TrimSpace(s.f.cve))];
    }
    if TrimSpace(s.f.purl) != "" {
      keys := keys + [Key(ComponentKey, TrimSpace(s.f.purl))];
    }
    keys := AddFileKeys(s.files, keys);
  }

  lemma ViewsAppend(ss: seq<Subject>, s: Subject)
    ensures Views(ss + [s]) == Views(ss) + [ViewOf(s)]
  {
  }

  ghost predicate Buckets(buckets: map<Key, seq<Finding>>, vs: seq<View>) {
    && buckets.Keys == KeyUnion(vs)
    && forall k | k in buckets :: buckets[k] == Bucket(vs, k)
  }

  lemma {:induction false} BucketEmpty(vs: seq<View>, k: Key)
    requires k !in KeyUnion(vs)
    ensures Bucket(vs, k) == []
  {
    if vs != [] {
      assert k !in KeyUnion(vs[..|vs| - 1]);
      BucketEmpty(vs[..|vs| - 1], k);
    }
  }

  lemma KeyUnionAppend(vs: seq<View>, v: View)
    ensures KeyUnion(vs + [v]) == KeyUnion(vs) + v.keys
  {
    forall k ensures k in KeyUnion(vs + [v]) <==> k in KeyUnion(vs) + v.keys {
      if k in v.keys { assert v in vs + [v]; }
      if k in KeyUnion(vs) { var u :| u in vs && k in u.keys; assert u in vs + [v]; }
    }
  }

  function At<K(==), V>(m: map<K, seq<V>>, k: K): seq<V> {
    if k in m then m[k] else []
  }

  /** `out` is `base` with `x` appended under each key of `ks`. */
  ghost predicate Grown<K(!new), V>(out: map<K, seq<V>>, base: map<K, seq<V>>, ks: seq<K>, x: V) {
    && (forall k :: k in out <==> k in base || k in ks)
    && (forall k | k in out :: out[k] == At(base, k) + if k in ks then [x] else [])
  }

  lemma GrowStep<K(!new), V>(out: map<K, seq<V>>, base: map<K, seq<V>>, ks: seq<K>, k: K, x: V)
    requires Grown(out, base, ks, x) && k !in ks
    ensures Grown(out[k := At(out, k) + [x]], base, ks + [k], x)
  {
  }

  lemma BucketsStep(buckets: map<Key, seq<Finding>>, vs: seq<View>, s: Subject, out: map<Key, seq<Finding>>)
    requires Buckets(buckets, vs)
    requires out.Keys == buckets.Keys + ViewOf(s).keys
    requires forall k | k in out :: out[k] == At(buckets, k) + if k in ViewOf(s).keys then [s.f] else []
    ensures Buckets(out, vs + [ViewOf(s)])
  {
    var v := ViewOf(s);
    KeyUnionAppend(vs, v);
    assert (vs + [v])[..|vs|] == vs;
    forall k | k in out ensures out[k] == Bucket(vs + [v], k) {
      if k !in buckets { BucketEmpty(vs, k); }
    }
  }

  /** The inner loop of bucketize: one subject joins the bucket of each of its keys. */
  method AddToBuckets(buckets: map<Key, seq<Finding>>, ghost vs: seq<View>, s: Subject)
    returns (out: map<Key, seq<Finding>>)
    requires Buckets(buckets, vs)
    ensures Buckets(out, vs + [ViewOf(s)])
  {
    var keys := KeysOf(s);
    out := buckets;
    for j := 0 to |keys|
      invariant Grown(out, buckets, keys[..j], s.f)
    {
      assert keys[..j + 1] == keys[..j] + [keys[j]];
      GrowStep(out, buckets, keys[..j], keys[j], s.f);
      out := out[keys[j] := At(out, keys[j]) + [s.f]];
    }
    assert keys[..|keys|] == keys;
    BucketsStep(buckets, vs, s, out);
  }

  /** bucketize: the buckets by key, and the keys in order. */
  method Bucketize(subjects: seq<Subject>) returns (buckets: map<Key, seq<Finding>>, keys: seq<Key>)
    ensures Buckets(buckets, Views(subjects))
    ensures keys == KeyList(Views(subjects))
  {
    buckets := map[];
    for i := 0 to |subjects|
      invariant Buckets(buckets, Views(subjects[..i]))
    {
      ViewsAppend(subjects[..i], subjects[i]);
      assert subjects[..i + 1] == subjects[..i] + [subjects[i]];
      buckets := AddToBuckets(buckets, Views(subjects[..i]), subjects[i]);
    }
    assert subjects[..|subjects|] == subjects;
    var todo, found := buckets.Keys, [];
    while todo != {}
      invariant todo <= buckets.Keys
      invariant forall k :: k in found <==> k in buckets.Keys && k !in todo
      invariant NoDup(found)
      decreases |todo|
    {
      var k :| k in todo;
      NoDupAppend(found, k);
      found, todo := found + [k], todo - {k};
    }
    keys := SortBy(found, KeyLess);
    KeyLessIsTotal();
    SortedSetBySort(found, buckets.Keys, KeyLess);
  }

  /** The inner loop of linkBucket: one member against the later ones. */
  method LinkRow(key: Key, a: Finding, rest: seq<Finding>, into: LinkSet)
    requires into.Valid()
    modifies into
    ensures into.Valid() && into.byPair == AddAll(old(into.byPair), OffersWith(key, a, rest))
  {
    ghost var goal := AddAll(into.byPair, OffersWith(key, a, rest));
    for j := 0 to |rest|
      invariant into.Valid() && AddAll(into.byPair, OffersWith(key, a, rest[j..])) == goal
    {
      assert rest[j..][1..] == rest[j + 1..];
      var link := LinkFor(key, a, rest[j]);
      AddAllConcat(into.byPair, AsSeq(link), OffersWith(key, a, rest[j + 1..]));
      if link.Some? {
        assert AddAll(into.byPair, [link.value]) == AddLink(into.byPair, link.value);
        into.Add(link.value);
      }
    }
  }

  /** linkBucket: every pair of a bucket, earlier member first. */
  method LinkBucket(key: Key, members: seq<Finding>, into: LinkSet)
    requires into.Valid()
    modifies into
    ensures into.Valid() && into.byPair == AddAll(old(into.byPair), Offers(key, members))
  {
    ghost var goal := AddAll(into.byPair, Offers(key, members));
    for i := 0 to |members|
      invariant into.Valid() && AddAll(into.byPair, Offers(key, members[i..])) == goal
    {
      assert members[i..][1..] == members[i + 1..];
      AddAllConcat(into.byPair, OffersWith(key, members[i], members[i + 1..]), Offers(key, members[i + 1..]));
      LinkRow(key, members[i], members[i + 1..], into);
    }
  }

  lemma CategoriesAppend(fs: seq<Finding>, f: Finding)
    ensures CategoriesOf(fs + [f]) == CategoriesOf(fs) + if f.category == "" then {} else {f.category}
  {
    forall c ensures c in CategoriesOf(fs + [f]) <==> c in CategoriesOf(fs) || (c == f.category && c != "") {
      if c in CategoriesOf(fs) { var g :| g in fs && g.category == c; assert g in fs + [f]; }
      if c == f.category { assert f in fs + [f]; }
    }
  }

  /** The loop of distinctCategories: each non-blank category once. */
  method CollectCategories(members: seq<Finding>) returns (found: seq<Category>)
    ensures forall c :: c in found <==> c in CategoriesOf(members)
    ensures NoDup(found)
    ensures |found| == |CategoriesOf(members)|
  {
    var seen: set<Category> := {};
    found := [];
    for i := 0 to |members|
      invariant seen == CategoriesOf(members[..i])
      invariant forall c :: c in found <==> c in seen
      invariant NoDup(found)
      invariant |found| == |seen|
    {
      assert members[..i + 1] == members[..i] + [members[i]];
      CategoriesAppend(members[..i], members[i]);
      var c := members[i].category;
      if c != "" && c !in seen {
        NoDupAppend(found, c);
        seen, found := seen + {c}, found + [c];
      }
    }
    assert members[..|members|] == members;
  }

  /** distinctCategories: the categories present, sorted, blank ones left out. */
  method DistinctCategories(members: seq<Finding>) returns (out: seq<Category>)
    ensures TotalOrder(StringLess)
    ensures out == SortedSet(CategoriesOf(members), StringLess)
    ensures |out| == |CategoriesOf(members)|
  {
    var found := CollectCategories(members);
    out := SortBy(found, StringLess);
    StringLessIsTotal();
    SortedSetBySort(found, CategoriesOf(members), StringLess);
    SortElements(found, StringLess);
  }

  /** issueSeverity: the worst member, raised one step across categories. */
  method DeriveSeverity(members: seq<Finding>, categories: nat) returns (severity: Severity, escalated: bool)
    requires categories == |CategoriesOf(members)|
    ensures (severity, escalated) == IssueSeverity(members)
  {
    var worst := Info;
    for i := 0 to |members|
      invariant worst == Worst(members[..i])
    {
      assert members[..i + 1][..i] == members[..i];
      if members[i].severity.Rank() > worst.Rank() {
        worst := members[i].severity;
      }
    }
    assert members[..|members|] == members;
    if categories < 2 {
      return worst, false;
    }
    match Escalate(worst) {
      case None => return worst, false;
      case Some(raised) => return raised, true;
    }
  }

  method ListMembers(members: seq<Finding>) returns (ms: seq<Member>)
    ensures ms == Members(members)
  {
    ms := [];
    for i := 0 to |members|
      invariant ms == Members(members)[..i]
    {
      ms := ms + [Member(members[i].fingerprint, members[i].scanner, members[i].severity)];
    }
  }

  /** formIssue, for a bucket of at least two members. */
  method FormIssue(key: Key, members: seq<Finding>, artifact: Inventory) returns (issue: Option<Issue>)
    requires |members| >= 2
    ensures issue == IssueOf(key, members, artifact)
  {
    var categories := DistinctCategories(members);
    if key.kind.FileKey? && |categories| < 2 {
      return None;
    }
    var ms := ListMembers(members);
    var severity, escalated := DeriveSeverity(members, |categories|);
    var deployment := DeploymentOf(key, artifact);
    issue := Some(Issue(key, severity, escalated, categories, ms, deployment,
                        if deployment.DeploymentUnknown? then "" else artifact.scanId));
  }

  lemma ViewsCons(s: Subject, ss: seq<Subject>)
    ensures Views([s] + ss) == [ViewOf(s)] + Views(ss)
  {
  }

  lemma {:induction false} InsertViews(s: Subject, ss: seq<Subject>)
    ensures Views(Insert(s, ss, SubjectLess)) == Insert(ViewOf(s), Views(ss), ViewLess)
  {
    if ss == [] || !SubjectLess(ss[0], s) {
      ViewsCons(s, ss);
    } else {
      assert ss == [ss[0]] + ss[1..];
      ViewsCons(ss[0], ss[1..]);
      ViewsCons(ss[0], Insert(s, ss[1..], SubjectLess));
      InsertViews(s, ss[1..]);
      assert Views(ss)[1..] == Views(ss[1..]);
    }
  }

  lemma {:induction false} SortViews(ss: seq<Subject>)
    ensures Views(SortBy(ss, SubjectLess)) == SortBy(Views(ss), ViewLess)
  {
    if ss != [] {
      SortViews(ss[1..]);
      assert Views(ss)[1..] == Views(ss[1..]);
      InsertViews(ss[0], SortBy(ss[1..], SubjectLess));
    }
  }

  /** The loop body of CorrelateWith: one bucket, already capped. */
  method ProcessBucket(key: Key, members: seq<Finding>, artifact: Inventory, links: LinkSet)
    returns (issue: Option<Issue>)
    requires links.Valid()
    modifies links
    ensures links.Valid() && links.byPair == AddAll(old(links.byPair), BucketOffers(key, members))
    ensures issue == IssueOf(key, members, artifact)
  {
    if |members| < 2 {
      return None;
    }
    LinkBucket(key, members, links);
    issue := FormIssue(key, members, artifact);
  }

  /** One more key: its links, its issue, its truncation. */
  lemma WalkStep(keys: seq<Key>, n: nat, vs: seq<View>, limit: nat, artifact: Inventory)
    requires n < |keys|
    ensures var a, b, k := keys[..n], keys[..n + 1], keys[n];
      var o := IssueOf(k, Kept(vs, k, limit), artifact);
      && Collected(b, vs, limit) == AddAll(Collected(a, vs, limit), BucketOffers(k, Kept(vs, k, limit)))
      && IssuesFor(b, vs, limit, artifact) == IssuesFor(a, vs, limit, artifact) + (if o.Some? then [o.value] else [])
      && TruncatedFor(b, vs, limit) == TruncatedFor(a, vs, limit) + if |Bucket(vs, k)| > limit then [k.Text()] else []
  {
    assert keys[..n + 1][..n] == keys[..n];
  }

  /** The loop of CorrelateWith: every bucket in key order, capped. */
  method WalkBuckets(
    buckets: map<Key, seq<Finding>>, keys: seq<Key>, limit: nat, artifact: Inventory, links: LinkSet,
    ghost vs: seq<View>)
      returns (issues: seq<Issue>, truncated: seq<string>)
    requires Buckets(buckets, vs) && forall k | k in keys :: k in buckets
    requires links.Valid() && links.byPair == map[]
    modifies links
    ensures links.Valid() && links.byPair == Collected(keys, vs, limit)
    ensures issues == IssuesFor(keys, vs, limit, artifact)
    ensures truncated == TruncatedFor(keys, vs, limit)
  {
    issues, truncated := [], [];
    for n := 0 to |keys|
      invariant links.Valid() && links.byPair == Collected(keys[..n], vs, limit)
      invariant issues == IssuesFor(keys[..n], vs, limit, artifact)
      invariant truncated == TruncatedFor(keys[..n], vs, limit)
    {
      var key := keys[n];
      WalkStep(keys, n, vs, limit, artifact);
      assert key in keys;
      var members := buckets[key];
      if |members| > limit {
        members := members[..limit];
        truncated := truncated + [key.Text()];
      }
      assert members == Kept(vs, key, limit);
      var issue := ProcessBucket(key, members, artifact, links);
      if issue.Some? {
        issues := issues + [issue.value];
      }
    }
    assert keys[..|keys|] == keys;
  }

  /** CorrelateWith: the engine computes its specification for every input. */
  method CorrelateWith(subjects: seq<Subject>, maxBucketSize: int, artifact: Inventory) returns (result: Result)
    ensures result == Correlate(subjects, maxBucketSize, artifact)
  {
    var limit := if maxBucketSize <= 0 then DEFAULT_MAX_BUCKET_SIZE else maxBucketSize;
    var sorted := SortBy(subjects, SubjectLess);
    SortViews(subjects);
    var buckets, keys := Bucketize(sorted);
    var links := new LinkSet();
    var issues, truncated := WalkBuckets(buckets, keys, limit, artifact, links, Views(sorted));
    var out := links.Sorted();
    result := Result(issues, out, truncated);
  }

  /** NewInventory: unnamed components are left out of the set. */
  method NewInventory(scanId: string, purls: seq<string>, complete: bool) returns (inv: Inventory)
    ensures inv.complete == complete && inv.scanId == scanId && "" !in inv.purls
    ensures forall p :: p in inv.purls <==> p != "" && exists q :: q in purls && p == TrimSpace(q)
  {
    var found: set<string> := {};
    for i := 0 to |purls|
      invariant forall p :: p in found <==> p != "" && exists j :: 0 <= j < i && p == TrimSpace(purls[j])
    {
      var p := TrimSpace(purls[i]);
      if p != "" {
        found := found + {p};
      }
    }
    inv := Inventory(found, complete, scanId);
  }
}
