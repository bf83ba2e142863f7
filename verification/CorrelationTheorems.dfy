/**
 CorrelationTheorems: what the correlation engine computes. Links agree with a
 pairwise definition, issues with their buckets, and nothing depends on the
 order of the input.
 */
module CorrelationTheorems {
  import opened Ordering
  import opened Text
  import opened Model
  import opened Correlation

  predicate Before(a: Finding, b: Finding) { StringLess(a.fingerprint, b.fingerprint) }

  // ---- Buckets ----------------------------------------------------------

  predicate Same<T(==)>(x: T, y: T) { x == y }

  ghost predicate Carries(vs: seq<View>, k: Key, f: Finding, v: View) {
    v in vs && Same(v.f, f) && k in v.keys
  }

  /** A bucket holds exactly the findings carrying its key, in fingerprint order. */
  lemma {:induction false} BucketFacts(vs: seq<View>, k: Key)
    requires Increasing(vs, ViewLess)
    ensures Increasing(Bucket(vs, k), Before)
    ensures forall f :: f in Bucket(vs, k) <==> exists v :: Carries(vs, k, f, v)
  {
    if vs != [] {
      var v, rest := vs[|vs| - 1], vs[..|vs| - 1];
      BucketFacts(rest, k);
      assert vs == rest + [v];
      forall i | 0 <= i < |Bucket(rest, k)| ensures Before(Bucket(rest, k)[i], v.f) {
        assert Bucket(rest, k)[i] in Bucket(rest, k);
        var u :| Carries(rest, k, Bucket(rest, k)[i], u);
      }
      forall f ensures f in Bucket(vs, k) <==> exists v :: Carries(vs, k, f, v) {
        if f in Bucket(rest, k) { var u :| Carries(rest, k, f, u); assert Carries(vs, k, f, u); }
        if u :| Carries(vs, k, f, u) { assert u in rest ==> Carries(rest, k, f, u); }
        if k in v.keys && Same(v.f, f) { assert Carries(vs, k, f, v); }
      }
    }
  }

  lemma KeptIncreasing(vs: seq<View>, k: Key, limit: nat)
    requires Increasing(vs, ViewLess)
    ensures Increasing(Kept(vs, k, limit), Before)
  {
    BucketFacts(vs, k);
  }

  lemma KeptCarrier(vs: seq<View>, k: Key, limit: nat, f: Finding) returns (v: View)
    requires Increasing(vs, ViewLess) && f in Kept(vs, k, limit)
    ensures v in vs && v.f == f && k in v.keys
  {
    BucketFacts(vs, k);
    assert f in Bucket(vs, k);
    v :| Carries(vs, k, f, v);
  }

  /** The stored path of a sighting is the file key of its finding, as long as the path was tidy. */
  lemma StoredPathIsKey(p: string)
    requires Tidy(p)
    ensures var stored := NormalizeLocation(p);
      FileKeys([stored]) == FileKeys([p]) == if stored == "" then {} else {Key(FileKey, stored)}
  {
    TidyIsStable(p);
    var stored := NormalizeLocation(p);
    assert forall q | q in [stored] :: q == stored;
    assert stored in [stored] && p in [p];
  }

  // ---- Links: what the set holds after a run ----------------------------

  function Lookup(m: LinkMap, p: (string, string)): Option<Link> {
    if p in m then Some(m[p]) else None
  }

  /** The stronger of an earlier and a later claim; the earlier one on a tie. */
  function Merge(earlier: Option<Link>, later: Option<Link>): Option<Link> {
    if later.None? then earlier
    else if earlier.None? || Stronger(later.value, earlier.value) then later
    else earlier
  }

  /** The fingerprints of `a` and `b` name only `a` and `b`. */
  predicate Names(f: Finding, a: Finding, b: Finding) {
    (f.fingerprint == a.fingerprint ==> Same(f, a)) && (f.fingerprint == b.fingerprint ==> Same(f, b))
  }

  ghost predicate Identifies(fs: seq<Finding>, a: Finding, b: Finding) {
    forall f | f in fs :: Names(f, a, b)
  }

  /** What one bucket claims about a pair. */
  function Offer(k: Key, fs: seq<Finding>, a: Finding, b: Finding): Option<Link> {
    if a in fs && b in fs then LinkFor(k, a, b) else None
  }

  lemma AddOne(m: LinkMap, o: Option<Link>, log: seq<Link>)
    ensures AddAll(m, AsSeq(o) + log) == AddAll(AddOffer(m, o), log)
  {
    if o.Some? {
      assert (AsSeq(o) + log)[1..] == log;
    } else {
      assert AsSeq(o) + log == log;
    }
  }

  lemma LookupAddLink(m: LinkMap, l: Link, p: (string, string))
    requires StringLess(l.from, l.to)
    ensures Lookup(AddLink(m, l), p) == if l.Pair() == p then Merge(Lookup(m, p), Some(l)) else Lookup(m, p)
  {
    StringLessAsymmetric(l.from, l.to);
  }

  /** What one member's row claims about a pair. */
  function RowOffer(k: Key, x: Finding, rest: seq<Finding>, a: Finding, b: Finding): Option<Link> {
    if x.fingerprint == a.fingerprint && b in rest then LinkFor(k, x, b) else None
  }

  lemma RowOfferStep(k: Key, x: Finding, rest: seq<Finding>, a: Finding, b: Finding)
    requires rest != [] && Increasing(rest, Before) && Identifies(rest, a, b)
    ensures RowOffer(k, x, rest, a, b) ==
      if x.fingerprint == a.fingerprint && rest[0].fingerprint == b.fingerprint then LinkFor(k, x, rest[0])
      else RowOffer(k, x, rest[1..], a, b)
    ensures rest[0].fingerprint == b.fingerprint ==> RowOffer(k, x, rest[1..], a, b) == None
  {
    var y, tail := rest[0], rest[1..];
    assert rest == [y] + tail && y in rest;
    if y.fingerprint == b.fingerprint {
      assert Same(y, b);
      if b in tail { assert Before(y, b); StringLessAsymmetric(b.fingerprint, b.fingerprint); assert false; }
    }
  }

  function AddOffer(m: LinkMap, o: Option<Link>): LinkMap {
    if o.Some? then AddLink(m, o.value) else m
  }

  lemma LinkForEnds(k: Key, x: Finding, y: Finding)
    ensures LinkFor(k, x, y).Some? ==>
      LinkFor(k, x, y).value.from == x.fingerprint && LinkFor(k, x, y).value.to == y.fingerprint
  {
  }

  lemma LookupAddOffer(m: LinkMap, o: Option<Link>, x: string, y: string, a: string, b: string)
    requires o.Some? ==> o.value.from == x && o.value.to == y && StringLess(x, y)
    ensures Lookup(AddOffer(m, o), (a, b)) ==
      if x == a && y == b then Merge(Lookup(m, (a, b)), o) else Lookup(m, (a, b))
  {
    if o.Some? { LookupAddLink(m, o.value, (a, b)); }
  }

  lemma {:induction false} LookupOffersWith(m: LinkMap, k: Key, x: Finding, rest: seq<Finding>, a: Finding, b: Finding)
    requires Increasing(rest, Before) && forall y | y in rest :: Before(x, y)
    requires Identifies(rest, a, b)
    ensures Lookup(AddAll(m, OffersWith(k, x, rest)), (a.fingerprint, b.fingerprint))
         == Merge(Lookup(m, (a.fingerprint, b.fingerprint)), RowOffer(k, x, rest, a, b))
    decreases |rest|
  {
    if rest != [] {
      var m' := AddOffer(m, LinkFor(k, x, rest[0]));
      RowOfferStep(k, x, rest, a, b);
      assert rest[0] in rest;
      LinkForEnds(k, x, rest[0]);
      LookupAddOffer(m, LinkFor(k, x, rest[0]), x.fingerprint, rest[0].fingerprint, a.fingerprint, b.fingerprint);
      LookupOffersWith(m', k, x, rest[1..], a, b);
      AddOne(m, LinkFor(k, x, rest[0]), OffersWith(k, x, rest[1..]));
    }
  }

  lemma OfferStep(k: Key, fs: seq<Finding>, a: Finding, b: Finding)
    requires fs != [] && Increasing(fs, Before) && Identifies(fs, a, b) && Before(a, b)
    ensures Offer(k, fs, a, b) ==
      if fs[0].fingerprint == a.fingerprint then RowOffer(k, fs[0], fs[1..], a, b) else Offer(k, fs[1..], a, b)
    ensures fs[0].fingerprint == a.fingerprint ==> Offer(k, fs[1..], a, b) == None
    ensures fs[0].fingerprint != a.fingerprint ==> RowOffer(k, fs[0], fs[1..], a, b) == None
  {
    var x, rest := fs[0], fs[1..];
    assert fs == [x] + rest && x in fs;
    assert forall y | y in rest :: Before(x, y);
    StringLessAsymmetric(a.fingerprint, a.fingerprint);
    StringLessAsymmetric(a.fingerprint, b.fingerprint);
    if x.fingerprint == a.fingerprint { assert Same(x, a); }
    if Same(x, b) { assert a !in rest; }
  }

  /** A bucket changes the claim about a pair by its one offer, and no other claim. */
  lemma {:induction false} LookupOffers(m: LinkMap, k: Key, fs: seq<Finding>, a: Finding, b: Finding)
    requires Increasing(fs, Before)
    requires Identifies(fs, a, b) && Before(a, b)
    ensures Lookup(AddAll(m, Offers(k, fs)), (a.fingerprint, b.fingerprint))
         == Merge(Lookup(m, (a.fingerprint, b.fingerprint)), Offer(k, fs, a, b))
    decreases |fs|
  {
    if fs != [] {
      var x, rest := fs[0], fs[1..];
      OfferStep(k, fs, a, b);
      AddAllConcat(m, OffersWith(k, x, rest), Offers(k, rest));
      LookupOffersWith(m, k, x, rest, a, b);
      LookupOffers(AddAll(m, OffersWith(k, x, rest)), k, rest, a, b);
    }
  }

  /** What each bucket in turn claims about a pair. */
  function OfferList(keys: seq<Key>, vs: seq<View>, limit: nat, a: Finding, b: Finding): (os: seq<Option<Link>>)
    ensures |os| == |keys|
    ensures forall i | 0 <= i < |keys| :: os[i] == Offer(keys[i], Kept(vs, keys[i], limit), a, b)
  {
    seq(|keys|, i requires 0 <= i < |keys| => Offer(keys[i], Kept(vs, keys[i], limit), a, b))
  }

  /** The claim left after a list of claims. */
  function Best(os: seq<Option<Link>>): Option<Link> {
    if os == [] then None else Merge(Best(os[..|os| - 1]), os[|os| - 1])
  }

  lemma SameView(vs: seq<View>, u: View, w: View)
    requires Increasing(vs, ViewLess) && u in vs && w in vs
    requires u.f.fingerprint == w.f.fingerprint
    ensures u == w
  {
    StringLessAsymmetric(u.f.fingerprint, w.f.fingerprint);
    assert u == w || ViewLess(u, w) || ViewLess(w, u);
  }

  lemma KeptIdentifies(vs: seq<View>, k: Key, limit: nat, u: View, v: View)
    requires Increasing(vs, ViewLess) && u in vs && v in vs
    ensures Identifies(Kept(vs, k, limit), u.f, v.f)
  {
    forall f | f in Kept(vs, k, limit) ensures Names(f, u.f, v.f) {
      var w := KeptCarrier(vs, k, limit, f);
      if f.fingerprint == u.f.fingerprint { SameView(vs, u, w); }
      if f.fingerprint == v.f.fingerprint { SameView(vs, v, w); }
    }
  }

  lemma OfferListStep(keys: seq<Key>, vs: seq<View>, limit: nat, a: Finding, b: Finding)
    requires keys != []
    ensures Best(OfferList(keys, vs, limit, a, b)) ==
      Merge(Best(OfferList(keys[..|keys| - 1], vs, limit, a, b)),
        Offer(keys[|keys| - 1], Kept(vs, keys[|keys| - 1], limit), a, b))
  {
    var os := OfferList(keys, vs, limit, a, b);
    assert os[..|os| - 1] == OfferList(keys[..|keys| - 1], vs, limit, a, b);
  }

  lemma LookupBucket(m: LinkMap, k: Key, vs: seq<View>, limit: nat, u: View, v: View)
    requires Increasing(vs, ViewLess)
    requires u in vs && v in vs && ViewLess(u, v)
    ensures Lookup(AddAll(m, BucketOffers(k, Kept(vs, k, limit))), (u.f.fingerprint, v.f.fingerprint))
         == Merge(Lookup(m, (u.f.fingerprint, v.f.fingerprint)), Offer(k, Kept(vs, k, limit), u.f, v.f))
  {
    KeptIncreasing(vs, k, limit);
    KeptIdentifies(vs, k, limit, u, v);
    LookupOffers(m, k, Kept(vs, k, limit), u.f, v.f);
    StringLessAsymmetric(u.f.fingerprint, v.f.fingerprint);
  }

  lemma {:induction false} LookupCollected(keys: seq<Key>, vs: seq<View>, limit: nat, u: View, v: View)
    requires Increasing(vs, ViewLess)
    requires u in vs && v in vs && ViewLess(u, v)
    ensures Lookup(Collected(keys, vs, limit), (u.f.fingerprint, v.f.fingerprint)) ==
      Best(OfferList(keys, vs, limit, u.f, v.f))
  {
    if keys != [] {
      var rest := keys[..|keys| - 1];
      LookupCollected(rest, vs, limit, u, v);
      LookupBucket(Collected(rest, vs, limit), keys[|keys| - 1], vs, limit, u, v);
      OfferListStep(keys, vs, limit, u.f, v.f);
    }
  }

  // ---- Links: which claim survives --------------------------------------

  function Strength(l: Link): nat {
    2 * ConfidenceRank(l.confidence) + if l.relationship.LikelyDuplicate? then 1 else 0
  }

  ghost predicate IsFirstStrongest(i: nat, os: seq<Option<Link>>, l: Link) {
    && i < |os|
    && os[i] == Some(l)
    && forall j | 0 <= j < |os| && os[j].Some? ::
         Strength(os[j].value) <= Strength(l) && (j < i ==> Strength(os[j].value) < Strength(l))
  }

  /** The survivor is the first of the strongest claims. */
  lemma {:induction false} BestIsFirstStrongest(os: seq<Option<Link>>)
    ensures Best(os).None? ==> forall j | 0 <= j < |os| :: os[j].None?
    ensures Best(os).Some? ==> exists i: nat :: IsFirstStrongest(i, os, Best(os).value)
  {
    if os != [] {
      var n := |os| - 1;
      var rest := os[..n];
      var earlier, later, best := Best(rest), os[n], Best(os);
      BestIsFirstStrongest(rest);
      assert later.Some? && earlier.Some? ==>
        (Stronger(later.value, earlier.value) <==> Strength(later.value) > Strength(earlier.value));
      if earlier.Some? {
        var i: nat :| IsFirstStrongest(i, rest, earlier.value);
        assert IsFirstStrongest(if later.None? || !Stronger(later.value, earlier.value) then i else n, os, best.value);
      } else if later.Some? {
        assert IsFirstStrongest(n, os, best.value);
      }
    }
  }

  // ---- The pairwise definition ------------------------------------------

  predicate SharesCve(a: Finding, b: Finding) {
    TrimSpace(a.cve) != "" && TrimSpace(a.cve) == TrimSpace(b.cve)
  }

  predicate SharesComponent(a: Finding, b: Finding) {
    TrimSpace(a.purl) != "" && TrimSpace(a.purl) == TrimSpace(b.purl)
  }

  function SharedFiles(s: Subject, t: Subject): set<string> {
    set p, q | p in s.files && q in t.files && NormalizeLocation(p) == NormalizeLocation(q) != "" ::
      NormalizeLocation(p)
  }

  ghost function FirstFile(s: Subject, t: Subject): (p: string)
    requires SharedFiles(s, t) != {}
    ensures p in SharedFiles(s, t) && forall q | q in SharedFiles(s, t) && q != p :: StringLess(p, q)
  {
    StringLessIsTotal();
    var files := SortedSet(SharedFiles(s, t), StringLess);
    assert files != [] by { var p :| p in SharedFiles(s, t); assert p in files; }
    assert files[0] in files;
    files[0]
  }

  /** Whether two findings are connected at all, by the documented rules. */
  predicate Connected(s: Subject, t: Subject) {
    SharesCve(s.f, t.f) || SharesComponent(s.f, t.f) || (SharedFiles(s, t) != {} && s.f.category != t.f.category)
  }

  /** The one link two findings should have: by CVE, else by component, else by the first shared file. */
  ghost function PairLink(s: Subject, t: Subject): Option<Link> {
    if SharesCve(s.f, t.f) then LinkFor(Key(CveKey, TrimSpace(s.f.cve)), s.f, t.f)
    else if SharesComponent(s.f, t.f) then LinkFor(Key(ComponentKey, TrimSpace(s.f.purl)), s.f, t.f)
    else if SharedFiles(s, t) != {} then LinkFor(Key(FileKey, FirstFile(s, t)), s.f, t.f)
    else None
  }

  /** The link exists exactly for connected findings, and its confidence says by what. */
  lemma PairLinkMeaning(s: Subject, t: Subject)
    ensures PairLink(s, t).Some? <==> Connected(s, t)
    ensures PairLink(s, t).Some? ==>
      && PairLink(s, t).value.from == s.f.fingerprint && PairLink(s, t).value.to == t.f.fingerprint
      && PairLink(s, t).value.confidence ==
           (if SharesCve(s.f, t.f) then Sure else if SharesComponent(s.f, t.f) then Likely else Weak)
  {
  }

  /** Sharing a key of some kind, said on the findings. */
  predicate Shared(s: Subject, t: Subject, k: Key) {
    match k.kind
    case CveKey => SharesCve(s.f, t.f) && k.value == TrimSpace(s.f.cve)
    case ComponentKey => SharesComponent(s.f, t.f) && k.value == TrimSpace(s.f.purl)
    case FileKey => k.value in SharedFiles(s, t)
  }

  lemma CarriesKey(s: Subject, k: Key)
    ensures k in ViewOf(s).keys <==>
      match k.kind
      case CveKey => TrimSpace(s.f.cve) != "" && k.value == TrimSpace(s.f.cve)
      case ComponentKey => TrimSpace(s.f.purl) != "" && k.value == TrimSpace(s.f.purl)
      case FileKey => k in FileKeys(s.files)
  {
  }

  /** Both subjects carry a key exactly when they share it. */
  lemma SharedKeys(s: Subject, t: Subject, k: Key)
    ensures k in ViewOf(s).keys && k in ViewOf(t).keys <==> Shared(s, t, k)
  {
    CarriesKey(s, k);
    CarriesKey(t, k);
    if k.kind.FileKey? {
      if k in FileKeys(s.files) && k in FileKeys(t.files) {
        var p :| p in s.files && NormalizeLocation(p) != "" && k == Key(FileKey, NormalizeLocation(p));
        var q :| q in t.files && NormalizeLocation(q) != "" && k == Key(FileKey, NormalizeLocation(q));
        assert NormalizeLocation(p) in SharedFiles(s, t);
      }
    }
  }

  lemma FileKeyOrder(p: string, q: string)
    ensures KeyLess(Key(FileKey, p), Key(FileKey, q)) <==> StringLess(p, q)
  {
    StringLessPrefix("file:", p, q);
  }

  ghost predicate AllKept(vs: seq<View>, limit: nat) {
    forall k | k in KeyUnion(vs) :: |Bucket(vs, k)| <= limit
  }

  /** Without a cap, a bucket offers a link for two subjects exactly when they share its key. */
  lemma OfferUncapped(vs: seq<View>, limit: nat, k: Key, s: Subject, t: Subject)
    requires Increasing(vs, ViewLess) && AllKept(vs, limit) && k in KeyUnion(vs)
    requires ViewOf(s) in vs && ViewOf(t) in vs
    ensures Offer(k, Kept(vs, k, limit), s.f, t.f) == if Shared(s, t, k) then LinkFor(k, s.f, t.f) else None
  {
    SharedKeys(s, t, k);
    InBucket(vs, k, s);
    InBucket(vs, k, t);
  }

  lemma InBucket(vs: seq<View>, k: Key, s: Subject)
    requires Increasing(vs, ViewLess) && ViewOf(s) in vs
    ensures s.f in Bucket(vs, k) <==> k in ViewOf(s).keys
  {
    BucketFacts(vs, k);
    if s.f in Bucket(vs, k) {
      var w :| Carries(vs, k, s.f, w);
      SameView(vs, w, ViewOf(s));
    }
  }

  /** The key whose claim should survive. */
  ghost function WinningKey(s: Subject, t: Subject): Key
    requires Connected(s, t)
  {
    if SharesCve(s.f, t.f) then Key(CveKey, TrimSpace(s.f.cve))
    else if SharesComponent(s.f, t.f) then Key(ComponentKey, TrimSpace(s.f.purl))
    else Key(FileKey, FirstFile(s, t))
  }

  lemma LinkStrength(k: Key, a: Finding, b: Finding)
    requires LinkFor(k, a, b).Some?
    ensures match k.kind
      case CveKey => Strength(LinkFor(k, a, b).value) == 6
      case ComponentKey => 4 <= Strength(LinkFor(k, a, b).value) <= 5
      case FileKey => Strength(LinkFor(k, a, b).value) == 2
  {
  }

  lemma WinningKeyShared(s: Subject, t: Subject)
    requires Connected(s, t)
    ensures Shared(s, t, WinningKey(s, t)) && LinkFor(WinningKey(s, t), s.f, t.f) == PairLink(s, t)
  {
  }

  /** Any other shared key with a claim makes a weaker one, or an equal one later in key order. */
  lemma WinningKeyWins(s: Subject, t: Subject, k: Key)
    requires Connected(s, t)
    requires Shared(s, t, k) && LinkFor(k, s.f, t.f).Some? && k != WinningKey(s, t)
    ensures LinkFor(WinningKey(s, t), s.f, t.f).Some?
    ensures
      var rival, winner := Strength(LinkFor(k, s.f, t.f).value), Strength(LinkFor(WinningKey(s, t), s.f, t.f).value);
      rival < winner || (rival == winner && KeyLess(WinningKey(s, t), k))
  {
    WinningKeyShared(s, t);
    PairLinkMeaning(s, t);
    LinkStrength(k, s.f, t.f);
    LinkStrength(WinningKey(s, t), s.f, t.f);
    if k.kind.FileKey? && WinningKey(s, t).kind.FileKey? { FileKeyOrder(FirstFile(s, t), k.value); }
  }

  lemma WinningKeyListed(vs: seq<View>, s: Subject, t: Subject) returns (n: nat)
    requires Connected(s, t) && ViewOf(s) in vs
    ensures n < |KeyList(vs)| && KeyList(vs)[n] == WinningKey(s, t)
    ensures Shared(s, t, WinningKey(s, t)) && LinkFor(WinningKey(s, t), s.f, t.f) == PairLink(s, t)
  {
    WinningKeyShared(s, t);
    SharedKeys(s, t, WinningKey(s, t));
    assert WinningKey(s, t) in KeyUnion(vs);
    n :| n < |KeyList(vs)| && KeyList(vs)[n] == WinningKey(s, t);
  }

  lemma NoEarlierKey(keys: seq<Key>, i: nat, n: nat)
    requires Increasing(keys, KeyLess) && i < |keys| && n < |keys|
    requires KeyLess(keys[n], keys[i])
    ensures n < i
  {
    StringLessAsymmetric(keys[i].Text(), keys[n].Text());
  }

  /** Without a cap the claim that survives is the pairwise definition. */
  lemma BestIsPairLink(vs: seq<View>, limit: nat, s: Subject, t: Subject)
    requires Increasing(vs, ViewLess) && AllKept(vs, limit)
    requires ViewOf(s) in vs && ViewOf(t) in vs
    ensures Best(OfferList(KeyList(vs), vs, limit, s.f, t.f)) == PairLink(s, t)
  {
    var keys := KeyList(vs);
    var os := OfferList(keys, vs, limit, s.f, t.f);
    PairLinkMeaning(s, t);
    BestIsFirstStrongest(os);
    forall i | 0 <= i < |keys| ensures os[i] == if Shared(s, t, keys[i]) then LinkFor(keys[i], s.f, t.f) else None {
      assert keys[i] in keys;
      OfferUncapped(vs, limit, keys[i], s, t);
    }
    if Connected(s, t) {
      var n := WinningKeyListed(vs, s, t);
      assert os[n] == PairLink(s, t);
      var i: nat :| IsFirstStrongest(i, os, Best(os).value);
      if !Same(keys[i], keys[n]) {
        WinningKeyWins(s, t, keys[i]);
        NoEarlierKey(keys, i, n);
        assert false;
      }
    }
  }

  // ---- Links: the whole list --------------------------------------------

  /** A link two findings of the project earn through one key both carry. */
  ghost predicate Earned(l: Link, vs: seq<View>, k: Key, u: View, v: View) {
    u in vs && v in vs && ViewLess(u, v) && k in u.keys && k in v.keys && LinkFor(k, u.f, v.f) == Some(l)
  }

  lemma {:induction false} OffersWithSource(k: Key, x: Finding, rest: seq<Finding>, l: Link)
    requires l in OffersWith(k, x, rest)
    ensures exists y :: y in rest && LinkFor(k, x, y) == Some(l)
  {
    if l in OffersWith(k, x, rest[1..]) {
      OffersWithSource(k, x, rest[1..], l);
    } else {
      assert rest[0] in rest;
    }
  }

  lemma {:induction false} OffersSource(k: Key, fs: seq<Finding>, l: Link) returns (x: Finding, y: Finding)
    requires Increasing(fs, Before) && l in Offers(k, fs)
    ensures x in fs && y in fs && Before(x, y) && LinkFor(k, x, y) == Some(l)
  {
    if l in Offers(k, fs[1..]) {
      x, y := OffersSource(k, fs[1..], l);
    } else {
      OffersWithSource(k, fs[0], fs[1..], l);
      x := fs[0];
      y :| y in fs[1..] && LinkFor(k, x, y) == Some(l);
    }
  }

  lemma {:induction false} AddAllSource(m: LinkMap, log: seq<Link>, p: (string, string))
    requires p in AddAll(m, log)
    ensures (p in m && Same(AddAll(m, log)[p], m[p])) || exists l :: l in log && Same(AddAll(m, log)[p], Directed(l))
    decreases |log|
  {
    if log != [] {
      AddAllSource(AddLink(m, log[0]), log[1..], p);
      assert log[0] in log;
    }
  }

  lemma BucketEarned(vs: seq<View>, k: Key, limit: nat, offered: Link)
    requires Increasing(vs, ViewLess)
    requires offered in BucketOffers(k, Kept(vs, k, limit))
    ensures exists u, v :: Earned(Directed(offered), vs, k, u, v)
  {
    KeptIncreasing(vs, k, limit);
    var x, y := OffersSource(k, Kept(vs, k, limit), offered);
    var u := KeptCarrier(vs, k, limit, x);
    var v := KeptCarrier(vs, k, limit, y);
    OfferIsDirected(k, x, y, offered);
    assert Earned(Directed(offered), vs, k, u, v);
  }

  lemma OfferIsDirected(k: Key, x: Finding, y: Finding, l: Link)
    requires Before(x, y) && LinkFor(k, x, y) == Some(l)
    ensures Directed(l) == l
  {
    StringLessAsymmetric(x.fingerprint, y.fingerprint);
  }

  /** Every stored link was earned by a pair through a key both carry, capped or not. */
  lemma {:induction false} CollectedEarned(keys: seq<Key>, vs: seq<View>, limit: nat, p: (string, string))
    returns (k: Key, u: View, v: View)
    requires Increasing(vs, ViewLess)
    requires p in Collected(keys, vs, limit)
    ensures Earned(Collected(keys, vs, limit)[p], vs, k, u, v)
  {
    k := keys[|keys| - 1];
    var rest, fs := keys[..|keys| - 1], Kept(vs, k, limit);
    var before, after := Collected(rest, vs, limit), Collected(keys, vs, limit);
    AddAllSource(before, BucketOffers(k, fs), p);
    if p in before && Same(after[p], before[p]) {
      k, u, v := CollectedEarned(rest, vs, limit, p);
    } else {
      var offered :| offered in BucketOffers(k, fs) && Same(after[p], Directed(offered));
      BucketEarned(vs, k, limit, offered);
      u, v :| Earned(Directed(offered), vs, k, u, v);
    }
  }

  /** Different subjects have different fingerprints, as the findings table guarantees. */
  ghost predicate DistinctFingerprints(subjects: seq<Subject>) {
    NoDup(Fingerprints(subjects))
  }

  function Fingerprints(subjects: seq<Subject>): (fps: seq<string>)
    ensures |fps| == |subjects|
  {
    seq(|subjects|, i requires 0 <= i < |subjects| => subjects[i].f.fingerprint)
  }

  lemma ViewsSeparated(subjects: seq<Subject>)
    requires DistinctFingerprints(subjects)
    ensures Separated(Views(subjects), ViewLess)
  {
    forall i, j | 0 <= i < j < |subjects|
      ensures ViewLess(Views(subjects)[i], Views(subjects)[j]) || ViewLess(Views(subjects)[j], Views(subjects)[i])
    {
      StringLessConnected(Fingerprints(subjects)[i], Fingerprints(subjects)[j]);
    }
  }

  /** The views in fingerprint order, which is what the engine works on. */
  ghost function Ranked(subjects: seq<Subject>): (vs: seq<View>)
    requires DistinctFingerprints(subjects)
    ensures Increasing(vs, ViewLess)
  {
    FingerprintOrders();
    ViewsSeparated(subjects);
    SortIncreasing(Views(subjects), ViewLess);
    SortBy(Views(subjects), ViewLess)
  }

  lemma ViewsHave(subjects: seq<Subject>, s: Subject)
    requires s in subjects
    ensures ViewOf(s) in Views(subjects)
  {
    var i :| 0 <= i < |subjects| && subjects[i] == s;
    assert Views(subjects)[i] == ViewOf(s);
  }

  lemma RankedSource(subjects: seq<Subject>, v: View) returns (s: Subject)
    requires v in SortBy(Views(subjects), ViewLess)
    ensures s in subjects && v == ViewOf(s)
  {
    SortElements(Views(subjects), ViewLess);
    var i :| 0 <= i < |Views(subjects)| && Views(subjects)[i] == v;
    s := subjects[i];
  }

  lemma RankedHas(subjects: seq<Subject>, s: Subject)
    requires s in subjects
    ensures ViewOf(s) in SortBy(Views(subjects), ViewLess)
  {
    SortElements(Views(subjects), ViewLess);
    ViewsHave(subjects, s);
  }

  lemma {:induction false} NothingTruncated(keys: seq<Key>, vs: seq<View>, limit: nat)
    ensures TruncatedFor(keys, vs, limit) == [] <==> forall k | k in keys :: |Bucket(vs, k)| <= limit
  {
    if keys != [] {
      var rest, last := keys[..|keys| - 1], keys[|keys| - 1];
      NothingTruncated(rest, vs, limit);
      assert keys == rest + [last] && last in keys;
      assert (forall k | k in keys :: |Bucket(vs, k)| <= limit) <==>
        (forall k | k in rest :: |Bucket(vs, k)| <= limit) && |Bucket(vs, last)| <= limit;
    }
  }

  lemma LinkedPair(vs: seq<View>, limit: nat, s: Subject, t: Subject, l: Link)
    requires Increasing(vs, ViewLess) && AllKept(vs, limit)
    requires ViewOf(s) in vs && ViewOf(t) in vs && SubjectLess(s, t)
    ensures PairLink(s, t) == Some(l) <==>
      l.from == s.f.fingerprint && l.to == t.f.fingerprint && l in LinksFor(vs, limit)
  {
    var m := Collected(KeyList(vs), vs, limit);
    CollectedKeyed(KeyList(vs), vs, limit);
    LinkListFacts(m);
    LookupCollected(KeyList(vs), vs, limit, ViewOf(s), ViewOf(t));
    BestIsPairLink(vs, limit, s, t);
    PairLinkMeaning(s, t);
    assert l.Pair() == (s.f.fingerprint, t.f.fingerprint) ==> (l in LinkList(m) <==> PairLink(s, t) == Some(l));
  }

  /** Two subjects, smaller fingerprint first, whose pairwise link is `l`. */
  ghost predicate Pairwise(l: Link, subjects: seq<Subject>, s: Subject, t: Subject) {
    s in subjects && t in subjects && SubjectLess(s, t) && PairLink(s, t) == Some(l)
  }

  lemma LinkSource(subjects: seq<Subject>, limit: nat, l: Link) returns (s: Subject, t: Subject, k: Key)
    requires DistinctFingerprints(subjects)
    requires l in LinksFor(Ranked(subjects), limit)
    ensures s in subjects && t in subjects && SubjectLess(s, t)
    ensures k in ViewOf(s).keys && k in ViewOf(t).keys && LinkFor(k, s.f, t.f) == Some(l)
  {
    var vs := Ranked(subjects);
    CollectedKeyed(KeyList(vs), vs, limit);
    LinkListFacts(Collected(KeyList(vs), vs, limit));
    var u, v;
    k, u, v := CollectedEarned(KeyList(vs), vs, limit, l.Pair());
    s := RankedSource(subjects, u);
    t := RankedSource(subjects, v);
  }

  /** For two subjects of the project, being linked by `l` is the pairwise definition. */
  lemma LinkOfPair(subjects: seq<Subject>, limit: nat, s: Subject, t: Subject, l: Link)
    requires DistinctFingerprints(subjects) && AllKept(Ranked(subjects), limit)
    requires s in subjects && t in subjects && SubjectLess(s, t)
    ensures PairLink(s, t) == Some(l) <==>
      l.from == s.f.fingerprint && l.to == t.f.fingerprint && l in LinksFor(Ranked(subjects), limit)
  {
    RankedHas(subjects, s);
    RankedHas(subjects, t);
    LinkedPair(Ranked(subjects), limit, s, t, l);
  }

  lemma NothingCapped(subjects: seq<Subject>, maxBucketSize: int, inv: Inventory)
    requires DistinctFingerprints(subjects)
    ensures Correlate(subjects, maxBucketSize, inv).truncated == [] <==>
      AllKept(Ranked(subjects), LimitOf(maxBucketSize))
  {
    NothingTruncated(KeyList(Ranked(subjects)), Ranked(subjects), LimitOf(maxBucketSize));
  }

  lemma LinksInOrder(vs: seq<View>, limit: nat)
    ensures Increasing(LinksFor(vs, limit), LinkLess)
  {
    CollectedKeyed(KeyList(vs), vs, limit);
    LinkListFacts(Collected(KeyList(vs), vs, limit));
  }

  lemma LinkIsPairwise(subjects: seq<Subject>, limit: nat, l: Link)
    requires DistinctFingerprints(subjects) && AllKept(Ranked(subjects), limit)
    ensures l in LinksFor(Ranked(subjects), limit) <==> exists s, t :: Pairwise(l, subjects, s, t)
  {
    if l in LinksFor(Ranked(subjects), limit) {
      var s, t, k := LinkSource(subjects, limit, l);
      LinkForEnds(k, s.f, t.f);
      LinkOfPair(subjects, limit, s, t, l);
      assert Pairwise(l, subjects, s, t);
    } else if s, t :| Pairwise(l, subjects, s, t) {
      LinkOfPair(subjects, limit, s, t, l);
    }
  }

  /**
   With distinct fingerprints and no truncated bucket, the engine's links are
   exactly the pairwise definition: one link for each connected pair, smaller
   fingerprint first, and no other.
   */
  lemma LinksArePairwise(subjects: seq<Subject>, maxBucketSize: int, inv: Inventory)
    requires DistinctFingerprints(subjects)
    requires Correlate(subjects, maxBucketSize, inv).truncated == []
    ensures Increasing(Correlate(subjects, maxBucketSize, inv).links, LinkLess)
    ensures forall l :: l in Correlate(subjects, maxBucketSize, inv).links <==>
      exists s, t :: Pairwise(l, subjects, s, t)
  {
    var limit := LimitOf(maxBucketSize);
    NothingCapped(subjects, maxBucketSize, inv);
    LinksInOrder(Ranked(subjects), limit);
    forall l ensures l in LinksFor(Ranked(subjects), limit) <==> exists s, t :: Pairwise(l, subjects, s, t) {
      LinkIsPairwise(subjects, limit, l);
    }
  }

  /** Even with a capped bucket, every link joins two connected findings, smaller fingerprint first. */
  lemma LinksAreConnected(subjects: seq<Subject>, maxBucketSize: int, inv: Inventory, l: Link)
    returns (s: Subject, t: Subject)
    requires DistinctFingerprints(subjects)
    requires l in Correlate(subjects, maxBucketSize, inv).links
    ensures s in subjects && t in subjects && SubjectLess(s, t) && Connected(s, t)
    ensures l.from == s.f.fingerprint && l.to == t.f.fingerprint
  {
    var k;
    s, t, k := LinkSource(subjects, LimitOf(maxBucketSize), l);
    LinkForEnds(k, s.f, t.f);
    SharedKeys(s, t, k);
  }

  lemma BestExists(os: seq<Option<Link>>)
    ensures Best(os).Some? <==> exists i :: 0 <= i < |os| && os[i].Some?
  {
    BestIsFirstStrongest(os);
    if Best(os).Some? { var i: nat :| IsFirstStrongest(i, os, Best(os).value); }
  }

  /** Both findings survive the cap of the key's bucket, and the key says something about them. */
  ghost predicate BothKept(vs: seq<View>, limit: nat, k: Key, s: Finding, t: Finding) {
    s in Kept(vs, k, limit) && t in Kept(vs, k, limit) && LinkFor(k, s, t).Some?
  }

  lemma OfferedIfKept(vs: seq<View>, limit: nat, s: Finding, t: Finding)
    requires Increasing(vs, ViewLess)
    ensures Best(OfferList(KeyList(vs), vs, limit, s, t)).Some? <==> exists k :: BothKept(vs, limit, k, s, t)
  {
    var keys := KeyList(vs);
    var os := OfferList(keys, vs, limit, s, t);
    BestExists(os);
    if Best(os).Some? {
      var i :| 0 <= i < |os| && os[i].Some?;
      assert BothKept(vs, limit, keys[i], s, t);
    }
    if k :| BothKept(vs, limit, k, s, t) {
      KeptHasKey(vs, k, limit);
      var i :| 0 <= i < |keys| && keys[i] == k;
      assert os[i].Some?;
    }
  }

  /** Cap or no cap, two findings are linked exactly when both are kept for a key that says something about them. */
  lemma LinkedExactlyWhenKept(subjects: seq<Subject>, maxBucketSize: int, inv: Inventory, s: Subject, t: Subject)
    requires DistinctFingerprints(subjects) && s in subjects && t in subjects && SubjectLess(s, t)
    ensures (exists l: Link ::
               l in Correlate(subjects, maxBucketSize, inv).links && l.Pair() == (s.f.fingerprint, t.f.fingerprint))
       <==> exists k :: BothKept(Ranked(subjects), LimitOf(maxBucketSize), k, s.f, t.f)
  {
    var vs, limit := Ranked(subjects), LimitOf(maxBucketSize);
    var m, pair := Collected(KeyList(vs), vs, limit), (s.f.fingerprint, t.f.fingerprint);
    RankedHas(subjects, s);
    RankedHas(subjects, t);
    CollectedKeyed(KeyList(vs), vs, limit);
    LinkListFacts(m);
    LookupCollected(KeyList(vs), vs, limit, ViewOf(s), ViewOf(t));
    OfferedIfKept(vs, limit, s.f, t.f);
    if pair in m { assert m[pair].Pair() == pair && m[pair] in LinkList(m); }
  }

  // ---- Order independence -----------------------------------------------

  ghost predicate Alike(s: Subject, t: Subject) {
    s.f == t.f && forall p :: p in s.files <==> p in t.files
  }

  ghost predicate Covers(a: seq<Subject>, b: seq<Subject>) {
    forall s | s in a :: exists t :: t in b && Alike(s, t)
  }

  /** The same findings with the same files, in any order and any repetition of files. */
  ghost predicate SameProject(a: seq<Subject>, b: seq<Subject>) {
    Covers(a, b) && Covers(b, a)
  }

  lemma AlikeViews(s: Subject, t: Subject)
    requires Alike(s, t)
    ensures ViewOf(s) == ViewOf(t)
  {
    assert FileKeys(s.files) == FileKeys(t.files);
  }

  lemma AlikeIncluded(a: seq<Subject>, b: seq<Subject>)
    requires DistinctFingerprints(a) && DistinctFingerprints(b) && Covers(a, b)
    ensures forall v | v in Ranked(a) :: v in Ranked(b)
  {
    forall v | v in Ranked(a) ensures v in Ranked(b) {
      var s := RankedSource(a, v);
      var t :| t in b && Alike(s, t);
      AlikeViews(s, t);
      RankedHas(b, t);
    }
  }

  /** The result, cap and tie-breaks included, does not depend on the order of the input. */
  lemma OrderIndependent(a: seq<Subject>, b: seq<Subject>, maxBucketSize: int, inv: Inventory)
    requires DistinctFingerprints(a) && DistinctFingerprints(b) && SameProject(a, b)
    ensures Correlate(a, maxBucketSize, inv) == Correlate(b, maxBucketSize, inv)
  {
    AlikeIncluded(a, b);
    AlikeIncluded(b, a);
    FingerprintOrders();
    IncreasingUnique(Ranked(a), Ranked(b), ViewLess);
  }

  // ---- Issues -----------------------------------------------------------

  /** The worst member dominates all, and is a member's severity unless none outranks `info`. */
  lemma {:induction false} WorstFacts(fs: seq<Finding>)
    ensures forall f | f in fs :: f.severity.Rank() <= Worst(fs).Rank()
    ensures Worst(fs) == Info || exists f :: f in fs && f.severity == Worst(fs)
    ensures Worst(fs).Valid()
  {
    if fs != [] {
      var rest := fs[..|fs| - 1];
      WorstFacts(rest);
      assert fs == rest + [fs[|fs| - 1]];
      if Worst(fs) == Worst(rest) && Worst(fs) != Info {
        var f :| f in rest && f.severity == Worst(rest);
        assert f in fs;
      }
    }
  }

  /** The issues are those of the buckets that earn one. */
  lemma {:induction false} IssuesFromBuckets(keys: seq<Key>, vs: seq<View>, limit: nat, inv: Inventory)
    ensures forall i :: i in IssuesFor(keys, vs, limit, inv) <==>
      exists k :: k in keys && IssueOf(k, Kept(vs, k, limit), inv) == Some(i)
  {
    if keys != [] {
      var n := |keys| - 1;
      var rest := keys[..n];
      IssuesFromBuckets(rest, vs, limit, inv);
      assert keys == rest + [keys[n]];
      forall i
        ensures i in IssuesFor(keys, vs, limit, inv) <==>
          exists k :: k in keys && IssueOf(k, Kept(vs, k, limit), inv) == Some(i)
      {
        if i in IssuesFor(rest, vs, limit, inv) {
          var k :| k in rest && IssueOf(k, Kept(vs, k, limit), inv) == Some(i);
          assert k in keys;
        }
      }
    }
  }

  /** The mildest graded severity that is worse; nobody is raised to `unknown`. */
  ghost predicate OneStepUp(worst: Severity, raised: Severity) {
    && raised.Valid() && raised != Unknown && raised.Rank() > worst.Rank()
    && forall v: Severity | v.Valid() && v != Unknown && v.Rank() > worst.Rank() :: raised.Rank() <= v.Rank()
  }

  /** `worst` is the worst member, and the issue's severity follows from it. */
  ghost predicate SeverityFrom(issue: Issue, worst: Severity) {
    && (forall m | m in issue.members :: m.severity.Rank() <= worst.Rank())
    && (worst == Info || exists m :: m in issue.members && m.severity == worst)
    && (issue.escalated <==> |issue.categories| >= 2 && worst != Critical && worst != Unknown)
    && (issue.escalated ==> OneStepUp(worst, issue.severity))
    && (!issue.escalated ==> issue.severity == worst)
  }

  lemma {:induction false} SortedSetSize<T(!new)>(s: set<T>, less: (T, T) -> bool)
    requires TotalOrder(less)
    ensures |SortedSet(s, less)| == |s|
  {
    if s != {} {
      var m := SortedSet(s, less)[0];
      assert m in SortedSet(s, less);
      var rest := SortedSet(s, less)[1..];
      assert SortedSet(s, less) == [m] + rest;
      forall x ensures x in rest <==> x in s - {m} {
        if x in rest { assert less(m, x); }
        if x in s { assert x in SortedSet(s, less); }
      }
      IncreasingUnique(rest, SortedSet(s - {m}, less), less);
      SortedSetSize(s - {m}, less);
    }
  }

  lemma WorstMember(fs: seq<Finding>)
    ensures forall m | m in Members(fs) :: m.severity.Rank() <= Worst(fs).Rank()
    ensures Worst(fs) == Info || exists m :: m in Members(fs) && m.severity == Worst(fs)
  {
    WorstFacts(fs);
    forall m | m in Members(fs) ensures m.severity.Rank() <= Worst(fs).Rank() {
      var i :| 0 <= i < |fs| && Members(fs)[i] == m;
      assert fs[i] in fs;
    }
    if Worst(fs) != Info {
      var f :| f in fs && f.severity == Worst(fs);
      var i :| 0 <= i < |fs| && fs[i] == f;
      assert Members(fs)[i] in Members(fs) && Members(fs)[i].severity == Worst(fs);
    }
  }

  lemma IssueSeverityMeaning(k: Key, fs: seq<Finding>, inv: Inventory)
    requires IssueOf(k, fs, inv).Some?
    ensures SeverityFrom(IssueOf(k, fs, inv).value, Worst(fs))
  {
    StringLessIsTotal();
    SortedSetSize(CategoriesOf(fs), StringLess);
    WorstMember(fs);
    EscalationMeaning(fs);
  }

  lemma EscalationMeaning(fs: seq<Finding>)
    ensures var w, s := Worst(fs), IssueSeverity(fs);
      && (s.1 <==> |CategoriesOf(fs)| >= 2 && w != Critical && w != Unknown)
      && (s.1 ==> OneStepUp(w, s.0))
      && (!s.1 ==> s.0 == w)
  {
    WorstFacts(fs);
  }

  /** A member is a finding of the project that carries the issue's key. */
  ghost predicate MemberOf(m: Member, subjects: seq<Subject>, k: Key) {
    exists s :: s in subjects && k in ViewOf(s).keys && m == Member(s.f.fingerprint, s.f.scanner, s.f.severity)
  }

  lemma KeptMember(subjects: seq<Subject>, k: Key, limit: nat, m: Member)
    requires DistinctFingerprints(subjects) && m in Members(Kept(Ranked(subjects), k, limit))
    ensures MemberOf(m, subjects, k)
  {
    var fs := Kept(Ranked(subjects), k, limit);
    var i :| 0 <= i < |fs| && Members(fs)[i] == m;
    assert fs[i] in fs;
    var v := KeptCarrier(Ranked(subjects), k, limit, fs[i]);
    var s := RankedSource(subjects, v);
  }

  /**
   What an issue is: at least two members, each a finding of the project that
   carries the issue's key; its severity is the worst member's, raised one step
   exactly when two categories meet on a severity that can be raised.
   */
  lemma IssueMeaning(subjects: seq<Subject>, maxBucketSize: int, inv: Inventory, issue: Issue)
    requires DistinctFingerprints(subjects)
    requires issue in Correlate(subjects, maxBucketSize, inv).issues
    ensures |issue.members| >= 2
    ensures forall m | m in issue.members :: MemberOf(m, subjects, issue.key)
    ensures exists worst :: SeverityFrom(issue, worst)
  {
    var limit, vs := LimitOf(maxBucketSize), Ranked(subjects);
    IssuesFromBuckets(KeyList(vs), vs, limit, inv);
    var k :| k in KeyList(vs) && IssueOf(k, Kept(vs, k, limit), inv) == Some(issue);
    forall m | m in issue.members ensures MemberOf(m, subjects, issue.key) {
      KeptMember(subjects, k, limit, m);
    }
    IssueSeverityMeaning(k, Kept(vs, k, limit), inv);
  }

  /** Two kept carriers, and for a file two categories among them: what earns a key an issue. */
  ghost predicate EarnsIssue(kept: seq<Finding>, k: Key) {
    |kept| >= 2 && (k.kind == FileKey ==> |CategoriesOf(kept)| >= 2)
  }

  lemma KeptHasKey(vs: seq<View>, k: Key, limit: nat)
    requires Increasing(vs, ViewLess) && Kept(vs, k, limit) != []
    ensures k in KeyUnion(vs)
  {
    var f := Kept(vs, k, limit)[0];
    var v := KeptCarrier(vs, k, limit, f);
  }

  /** An issue exists exactly for the keys that earn one, and no two issues share a key. */
  lemma IssueOfKey(subjects: seq<Subject>, maxBucketSize: int, inv: Inventory, k: Key)
    requires DistinctFingerprints(subjects)
    ensures (exists i :: i in Correlate(subjects, maxBucketSize, inv).issues && i.key == k)
       <==> EarnsIssue(Kept(Ranked(subjects), k, LimitOf(maxBucketSize)), k)
    ensures forall i, j | i in Correlate(subjects, maxBucketSize, inv).issues
      && j in Correlate(subjects, maxBucketSize, inv).issues && i.key == j.key :: i == j
  {
    var limit, vs := LimitOf(maxBucketSize), Ranked(subjects);
    IssuesFromBuckets(KeyList(vs), vs, limit, inv);
    EarnedExactly(Kept(vs, k, limit), k, inv);
    if EarnsIssue(Kept(vs, k, limit), k) { KeptHasKey(vs, k, limit); }
  }

  lemma EarnedExactly(kept: seq<Finding>, k: Key, inv: Inventory)
    ensures IssueOf(k, kept, inv).Some? <==> EarnsIssue(kept, k)
    ensures IssueOf(k, kept, inv).Some? ==> IssueOf(k, kept, inv).value.key == k
  {
  }

  // ---- Deployment evidence ----------------------------------------------

  /** An issue without its deployment evidence. */
  function Judgement(i: Issue): Issue { i.(deployment := DeploymentUnknown, artifactScanId := "") }

  function Judgements(issues: seq<Issue>): (js: seq<Issue>)
    ensures |js| == |issues|
  {
    seq(|issues|, n requires 0 <= n < |issues| => Judgement(issues[n]))
  }

  lemma {:induction false} JudgementsIgnoreInventory(
    keys: seq<Key>, vs: seq<View>, limit: nat, inv: Inventory, inv': Inventory)
    ensures Judgements(IssuesFor(keys, vs, limit, inv)) == Judgements(IssuesFor(keys, vs, limit, inv'))
  {
    if keys != [] {
      var k := keys[|keys| - 1];
      JudgementsIgnoreInventory(keys[..|keys| - 1], vs, limit, inv, inv');
      var o, o' := IssueOf(k, Kept(vs, k, limit), inv), IssueOf(k, Kept(vs, k, limit), inv');
      if o.Some? { assert Judgement(o.value) == Judgement(o'.value); }
      AppendJudgement(IssuesFor(keys[..|keys| - 1], vs, limit, inv), o);
      AppendJudgement(IssuesFor(keys[..|keys| - 1], vs, limit, inv'), o');
    }
  }

  lemma AppendJudgement(issues: seq<Issue>, o: Option<Issue>)
    ensures Judgements(issues + if o.Some? then [o.value] else [])
         == Judgements(issues) + if o.Some? then [Judgement(o.value)] else []
  {
  }

  /** The artifact inventory is evidence only: nothing else in the result depends on it. */
  lemma InventoryIsEvidence(subjects: seq<Subject>, maxBucketSize: int, inv: Inventory, inv': Inventory)
    ensures Correlate(subjects, maxBucketSize, inv).links == Correlate(subjects, maxBucketSize, inv').links
    ensures Correlate(subjects, maxBucketSize, inv).truncated == Correlate(subjects, maxBucketSize, inv').truncated
    ensures Judgements(Correlate(subjects, maxBucketSize, inv).issues) ==
      Judgements(Correlate(subjects, maxBucketSize, inv').issues)
  {
    var vs := SortBy(Views(subjects), ViewLess);
    JudgementsIgnoreInventory(KeyList(vs), vs, LimitOf(maxBucketSize), inv, inv');
  }

  /**
   `not_deployed` is said exactly of a component missing from a complete
   inventory, `deployed` of one the inventory has, and either names its scan.
   */
  lemma NotDeployedNeedsCompleteInventory(subjects: seq<Subject>, maxBucketSize: int, inv: Inventory, issue: Issue)
    requires issue in Correlate(subjects, maxBucketSize, inv).issues
    ensures issue.deployment == NotDeployed <==>
      issue.key.kind == ComponentKey && !inv.Empty() && inv.complete && issue.key.value !in inv.purls
    ensures issue.deployment == Deployed <==> issue.key.kind == ComponentKey && issue.key.value in inv.purls
    ensures issue.artifactScanId == if issue.deployment == DeploymentUnknown then "" else inv.scanId
  {
    var vs := SortBy(Views(subjects), ViewLess);
    IssuesFromBuckets(KeyList(vs), vs, LimitOf(maxBucketSize), inv);
  }
}
