/**
 Correlation: linking findings that share an attribute and forming issues
 (internal/correlation). This file holds the data and the specification
 functions; CorrelationEngine is the imperative engine proved against them, and
 CorrelationTheorems says what the specification means.
 */
module Correlation {
  import opened Ordering
  import opened Text
  import opened Model

  datatype KeyKind = CveKey | ComponentKey | FileKey

  datatype Key = Key(kind: KeyKind, value: string)
  {
    /** The text a key is stored and ordered by. */
    function Text(): string {
      match kind
      case CveKey => "cve:" + value
      case ComponentKey => "purl:" + value
      case FileKey => "file:" + value
    }
  }

  predicate KeyLess(a: Key, b: Key) { StringLess(a.Text(), b.Text()) }

  /** A finding with the files it has been seen in. */
  datatype Subject = Subject(f: Finding, files: seq<string>)

  /** A finding with the keys it carries, which is all the engine looks at. */
  datatype View = View(f: Finding, keys: set<Key>)

  predicate SubjectLess(a: Subject, b: Subject) { StringLess(a.f.fingerprint, b.f.fingerprint) }

  predicate ViewLess(a: View, b: View) { StringLess(a.f.fingerprint, b.f.fingerprint) }

  datatype Relationship = LikelyDuplicate | Related

  /** Why two findings are linked, as structured data instead of a sentence. */
  datatype Evidence =
    | SameVulnerability(cve: string)
    | SameComponent(purl: string)
    | SameComponentAndCategory(purl: string, category: Category)
    | SameFile(path: string, left: Category, right: Category)

  datatype Link = Link(from: string, to: string, relationship: Relationship, confidence: Confidence, evidence: Evidence)
  {
    function Pair(): (string, string) { (from, to) }
  }

  type LinkMap = map<(string, string), Link>

  predicate PairLess(a: (string, string), b: (string, string)) {
    if a.0 != b.0 then StringLess(a.0, b.0) else StringLess(a.1, b.1)
  }

  predicate LinkLess(a: Link, b: Link) { PairLess(a.Pair(), b.Pair()) }

  datatype Deployment = DeploymentUnknown | Deployed | NotDeployed

  datatype Inventory = Inventory(purls: set<string>, complete: bool, scanId: string)
  {
    predicate Empty() { purls == {} && scanId == "" }
  }

  datatype Member = Member(fingerprint: string, scanner: string, severity: Severity)

  datatype Issue = Issue(
    key: Key, severity: Severity, escalated: bool, categories: seq<Category>,
    members: seq<Member>, deployment: Deployment, artifactScanId: string)

  datatype Result = Result(issues: seq<Issue>, links: seq<Link>, truncated: seq<string>)

  const DEFAULT_MAX_BUCKET_SIZE: nat := 500

  // ---- Orders -----------------------------------------------------------

  lemma KeyTextInjective(a: Key, b: Key)
    requires a.Text() == b.Text()
    ensures a == b
  {
    var t := a.Text();
    assert a.value == t[if a.kind.CveKey? then 4 else 5..];
    assert b.value == t[if b.kind.CveKey? then 4 else 5..];
    assert a.kind == b.kind by { assert t[0] == a.Text()[0] == b.Text()[0]; }
  }

  lemma KeyLessIsTotal()
    ensures TotalOrder(KeyLess)
  {
    StringLessIsTotal();
    forall a, b | a != b ensures KeyLess(a, b) || KeyLess(b, a) {
      if a.Text() == b.Text() { KeyTextInjective(a, b); assert false; }
    }
  }

  lemma PairLessIsTotal()
    ensures TotalOrder(PairLess)
  {
    StringLessIsTotal();
  }

  lemma FingerprintOrders()
    ensures StrictWeakOrder(SubjectLess) && StrictWeakOrder(ViewLess)
  {
    StringLessIsTotal();
  }

  // ---- Keys and buckets -------------------------------------------------

  function CveKeys(f: Finding): set<Key> {
    if TrimSpace(f.cve) == "" then {} else {Key(CveKey, TrimSpace(f.cve))}
  }

  function ComponentKeys(f: Finding): set<Key> {
    if TrimSpace(f.purl) == "" then {} else {Key(ComponentKey, TrimSpace(f.purl))}
  }

  function FileKeys(files: seq<string>): set<Key> {
    set p | p in files && NormalizeLocation(p) != "" :: Key(FileKey, NormalizeLocation(p))
  }

  function ViewOf(s: Subject): View {
    View(s.f, CveKeys(s.f) + ComponentKeys(s.f) + FileKeys(s.files))
  }

  function Views(ss: seq<Subject>): (vs: seq<View>)
    ensures |vs| == |ss|
  {
    seq(|ss|, i requires 0 <= i < |ss| => ViewOf(ss[i]))
  }

  /** The findings carrying a key, in the order given. */
  function Bucket(vs: seq<View>, k: Key): seq<Finding> {
    if vs == [] then [] else
      var v := vs[|vs| - 1];
      Bucket(vs[..|vs| - 1], k) + if k in v.keys then [v.f] else []
  }

  function KeyUnion(vs: seq<View>): set<Key> {
    set v, k | v in vs && k in v.keys :: k
  }

  /** What is left of a bucket after the cap. */
  function Kept(vs: seq<View>, k: Key, limit: nat): seq<Finding> {
    var b := Bucket(vs, k);
    if |b| > limit then b[..limit] else b
  }

  // ---- Links ------------------------------------------------------------

  /** The claim one shared key makes about two findings. */
  function LinkFor(k: Key, a: Finding, b: Finding): Option<Link> {
    match k.kind
    case CveKey => Some(Link(a.fingerprint, b.fingerprint, Related, Sure, SameVulnerability(k.value)))
    case ComponentKey =>
      if a.category == b.category && a.cve == "" && b.cve == "" then
        Some(Link(a.fingerprint, b.fingerprint, LikelyDuplicate, Likely, SameComponentAndCategory(k.value, a.category)))
      else
        Some(Link(a.fingerprint, b.fingerprint, Related, Likely, SameComponent(k.value)))
    case FileKey =>
      if a.category == b.category then None
      else Some(Link(a.fingerprint, b.fingerprint, Related, Weak, SameFile(k.value, a.category, b.category)))
  }

  function ConfidenceRank(c: Confidence): nat {
    match c case Sure => 3 case Likely => 2 case Weak => 1 case _ => 0
  }

  /** Confidence first, then the more specific relationship. */
  predicate Stronger(a: Link, b: Link) {
    if ConfidenceRank(a.confidence) != ConfidenceRank(b.confidence)
    then ConfidenceRank(a.confidence) > ConfidenceRank(b.confidence)
    else a.relationship.LikelyDuplicate? && !b.relationship.LikelyDuplicate?
  }

  function Directed(l: Link): Link {
    if StringLess(l.to, l.from) then l.(from := l.to, to := l.from) else l
  }

  /** One claim added to the set, keeping the stronger of two about one pair. */
  function AddLink(m: LinkMap, l: Link): LinkMap {
    var d := Directed(l);
    if d.Pair() !in m || Stronger(d, m[d.Pair()]) then m[d.Pair() := d] else m
  }

  function AddAll(m: LinkMap, log: seq<Link>): LinkMap
    decreases |log|
  {
    if log == [] then m else AddAll(AddLink(m, log[0]), log[1..])
  }

  lemma {:induction false} AddAllConcat(m: LinkMap, a: seq<Link>, b: seq<Link>)
    ensures AddAll(m, a + b) == AddAll(AddAll(m, a), b)
    decreases |a|
  {
    if a == [] {
      assert a + b == b;
    } else {
      assert (a + b)[1..] == a[1..] + b;
      AddAllConcat(AddLink(m, a[0]), a[1..], b);
    }
  }

  function AsSeq(o: Option<Link>): seq<Link> {
    if o.Some? then [o.value] else []
  }

  function OffersWith(k: Key, a: Finding, rest: seq<Finding>): seq<Link> {
    if rest == [] then [] else AsSeq(LinkFor(k, a, rest[0])) + OffersWith(k, a, rest[1..])
  }

  /** Every claim a bucket makes, earlier member first. */
  function Offers(k: Key, fs: seq<Finding>): seq<Link> {
    if fs == [] then [] else OffersWith(k, fs[0], fs[1..]) + Offers(k, fs[1..])
  }

  function BucketOffers(k: Key, fs: seq<Finding>): seq<Link> {
    if |fs| < 2 then [] else Offers(k, fs)
  }

  /** The links after the buckets of `keys`, taken in that order. */
  function Collected(keys: seq<Key>, vs: seq<View>, limit: nat): LinkMap {
    if keys == [] then map[] else
      var k := keys[|keys| - 1];
      AddAll(Collected(keys[..|keys| - 1], vs, limit), BucketOffers(k, Kept(vs, k, limit)))
  }

  // ---- Issues -----------------------------------------------------------

  function Worst(fs: seq<Finding>): Severity {
    if fs == [] then Info else
      var w := Worst(fs[..|fs| - 1]);
      var s := fs[|fs| - 1].severity;
      if s.Rank() > w.Rank() then s else w
  }

  /** One step up the ladder; `critical` and `unknown` stay. */
  function Escalate(s: Severity): Option<Severity> {
    match s
    case Info => Some(Low)
    case Low => Some(Medium)
    case Medium => Some(High)
    case High => Some(Critical)
    case _ => None
  }

  function CategoriesOf(fs: seq<Finding>): set<Category> {
    set f | f in fs && f.category != "" :: f.category
  }

  function IssueSeverity(fs: seq<Finding>): (Severity, bool) {
    var w := Worst(fs);
    if |CategoriesOf(fs)| < 2 then (w, false)
    else match Escalate(w) case None => (w, false) case Some(raised) => (raised, true)
  }

  function DeploymentOf(k: Key, inv: Inventory): Deployment {
    if !k.kind.ComponentKey? || inv.Empty() then DeploymentUnknown
    else if k.value in inv.purls then Deployed
    else if !inv.complete then DeploymentUnknown
    else NotDeployed
  }

  function Members(fs: seq<Finding>): (ms: seq<Member>)
    ensures |ms| == |fs|
  {
    seq(|fs|, i requires 0 <= i < |fs| => Member(fs[i].fingerprint, fs[i].scanner, fs[i].severity))
  }

  /** The issue of a bucket, if the bucket earns one. */
  ghost function IssueOf(k: Key, fs: seq<Finding>, inv: Inventory): Option<Issue> {
    if |fs| < 2 || (k.kind.FileKey? && |CategoriesOf(fs)| < 2) then None
    else
      StringLessIsTotal();
      var d := DeploymentOf(k, inv);
      Some(Issue(k, IssueSeverity(fs).0, IssueSeverity(fs).1, SortedSet(CategoriesOf(fs), StringLess), Members(fs),
                 d, if d.DeploymentUnknown? then "" else inv.scanId))
  }

  ghost function IssuesFor(keys: seq<Key>, vs: seq<View>, limit: nat, inv: Inventory): seq<Issue> {
    if keys == [] then [] else
      var k := keys[|keys| - 1];
      var o := IssueOf(k, Kept(vs, k, limit), inv);
      IssuesFor(keys[..|keys| - 1], vs, limit, inv) + if o.Some? then [o.value] else []
  }

  function TruncatedFor(keys: seq<Key>, vs: seq<View>, limit: nat): seq<string> {
    if keys == [] then [] else
      var k := keys[|keys| - 1];
      TruncatedFor(keys[..|keys| - 1], vs, limit) + if |Bucket(vs, k)| > limit then [k.Text()] else []
  }

  // ---- The whole engine -------------------------------------------------

  ghost function KeyList(vs: seq<View>): (keys: seq<Key>)
    ensures Increasing(keys, KeyLess)
    ensures forall k :: k in keys <==> k in KeyUnion(vs)
  {
    KeyLessIsTotal();
    SortedSet(KeyUnion(vs), KeyLess)
  }

  ghost function PairList(m: LinkMap): (pairs: seq<(string, string)>)
    ensures forall i | 0 <= i < |pairs| :: pairs[i] in m
  {
    PairLessIsTotal();
    var pairs := SortedSet(m.Keys, PairLess);
    assert forall i | 0 <= i < |pairs| :: pairs[i] in pairs;
    pairs
  }

  /** linkSet.sorted: the links in the order of their pairs. */
  ghost function LinkList(m: LinkMap): seq<Link> { LinksAt(m, PairList(m)) }

  function LinksAt(m: LinkMap, pairs: seq<(string, string)>): (links: seq<Link>)
    requires forall i | 0 <= i < |pairs| :: pairs[i] in m
    ensures |links| == |pairs|
  {
    seq(|pairs|, i requires 0 <= i < |pairs| => m[pairs[i]])
  }

  ghost predicate Keyed(m: LinkMap) {
    forall p | p in m :: m[p].Pair() == p
  }

  lemma LinkListFacts(m: LinkMap)
    requires Keyed(m)
    ensures Increasing(LinkList(m), LinkLess)
    ensures forall l: Link :: l in LinkList(m) <==> l.Pair() in m && m[l.Pair()] == l
  {
    PairLessIsTotal();
    var pairs := PairList(m);
    var links := LinkList(m);
    assert Increasing(pairs, PairLess);
    forall i, j | 0 <= i < j < |links| ensures LinkLess(links[i], links[j]) {
      assert links[i].Pair() == pairs[i] && links[j].Pair() == pairs[j];
    }
    forall l: Link ensures l in links <==> l.Pair() in m && m[l.Pair()] == l {
      if l in links {
        var i :| 0 <= i < |links| && links[i] == l;
        assert m[pairs[i]] == l && l.Pair() == pairs[i];
      }
      if l.Pair() in m && m[l.Pair()] == l {
        assert l.Pair() in pairs;
        var i :| 0 <= i < |pairs| && pairs[i] == l.Pair();
        assert links[i] == l;
      }
    }
  }

  function LimitOf(maxBucketSize: int): nat {
    if maxBucketSize <= 0 then DEFAULT_MAX_BUCKET_SIZE else maxBucketSize
  }

  lemma {:induction false} AddAllKeyed(m: LinkMap, log: seq<Link>)
    requires Keyed(m)
    ensures Keyed(AddAll(m, log))
    decreases |log|
  {
    if log != [] { AddAllKeyed(AddLink(m, log[0]), log[1..]); }
  }

  lemma {:induction false} CollectedKeyed(keys: seq<Key>, vs: seq<View>, limit: nat)
    ensures Keyed(Collected(keys, vs, limit))
  {
    if keys != [] {
      CollectedKeyed(keys[..|keys| - 1], vs, limit);
      AddAllKeyed(Collected(keys[..|keys| - 1], vs, limit),
        BucketOffers(keys[|keys| - 1], Kept(vs, keys[|keys| - 1], limit)));
    }
  }

  ghost function LinksFor(vs: seq<View>, limit: nat): seq<Link> { LinkList(Collected(KeyList(vs), vs, limit)) }

  /** The engine on findings already in fingerprint order. */
  ghost function CorrelateViews(vs: seq<View>, limit: nat, inv: Inventory): Result {
    Result(IssuesFor(KeyList(vs), vs, limit, inv), LinksFor(vs, limit), TruncatedFor(KeyList(vs), vs, limit))
  }

  /** The engine: order by fingerprint, then correlate. */
  ghost function Correlate(subjects: seq<Subject>, maxBucketSize: int, inv: Inventory): Result {
    CorrelateViews(SortBy(Views(subjects), ViewLess), LimitOf(maxBucketSize), inv)
  }
}
