/**
 LinkTheorems: what a link says. Its relationship, confidence and evidence are
 read off the two findings it joins, cap or no cap, and the order in which keys
 are worked through decides only between shared files
 (internal/correlation/correlation.go, link.go).
 */
module LinkTheorems {
  import opened Ordering
  import opened Text
  import opened Model
  import opened Correlation
  import opened CorrelationTheorems

  /** One category, and neither names a vulnerability: two reports of one thing. */
  predicate LooksTwice(a: Finding, b: Finding) { a.category == b.category && a.cve == "" && b.cve == "" }

  /**
   What a link between two findings says, given whether a CVE and whether a
   component joins them, and which files do: the strongest ground, the first file.
   */
  ghost predicate Says(l: Link, s: Subject, t: Subject, cve: bool, component: bool, files: set<string>) {
    && l.from == s.f.fingerprint && l.to == t.f.fingerprint
    && (l.relationship == LikelyDuplicate <==> !cve && component && LooksTwice(s.f, t.f))
    && l.confidence == (if cve then Sure else if component then Likely else Weak)
    && (cve ==> l.evidence == SameVulnerability(TrimSpace(s.f.cve)))
    && (!cve && component && LooksTwice(s.f, t.f) ==>
          l.evidence == SameComponentAndCategory(TrimSpace(s.f.purl), s.f.category))
    && (!cve && component && !LooksTwice(s.f, t.f) ==> l.evidence == SameComponent(TrimSpace(s.f.purl)))
    && (!cve && !component ==>
          && s.f.category != t.f.category && l.evidence.SameFile? && l.evidence.path in files
          && l.evidence.left == s.f.category && l.evidence.right == t.f.category
          && forall q | q in files && q != l.evidence.path :: StringLess(l.evidence.path, q))
  }

  /** Both findings carry the key and both are within the cap of its bucket. */
  ghost predicate Together(vs: seq<View>, limit: nat, k: Key, s: Subject, t: Subject) {
    s.f in Kept(vs, k, limit) && t.f in Kept(vs, k, limit)
  }

  ghost predicate TogetherByCve(vs: seq<View>, limit: nat, s: Subject, t: Subject) {
    SharesCve(s.f, t.f) && Together(vs, limit, Key(CveKey, TrimSpace(s.f.cve)), s, t)
  }

  ghost predicate TogetherByComponent(vs: seq<View>, limit: nat, s: Subject, t: Subject) {
    SharesComponent(s.f, t.f) && Together(vs, limit, Key(ComponentKey, TrimSpace(s.f.purl)), s, t)
  }

  ghost function FilesTogether(vs: seq<View>, limit: nat, s: Subject, t: Subject): set<string> {
    set p | p in SharedFiles(s, t) && Together(vs, limit, Key(FileKey, p), s, t)
  }

  lemma KeptHas(vs: seq<View>, limit: nat, k: Key, s: Subject)
    requires Increasing(vs, ViewLess) && ViewOf(s) in vs && s.f in Kept(vs, k, limit)
    ensures k in ViewOf(s).keys && k in KeyList(vs)
  {
    var v := KeptCarrier(vs, k, limit, s.f);
    SameView(vs, v, ViewOf(s));
  }

  lemma TogetherShares(vs: seq<View>, limit: nat, k: Key, s: Subject, t: Subject)
    requires Increasing(vs, ViewLess) && ViewOf(s) in vs && ViewOf(t) in vs && Together(vs, limit, k, s, t)
    ensures Shared(s, t, k) && k in KeyList(vs)
  {
    KeptHas(vs, limit, k, s);
    KeptHas(vs, limit, k, t);
    SharedKeys(s, t, k);
  }

  /** The claim of any key both are together for is no stronger than the survivor, and as strong only later. */
  lemma NoBetterKey(vs: seq<View>, limit: nat, s: Subject, t: Subject, i: nat, l: Link, k: Key)
    requires Increasing(vs, ViewLess) && ViewOf(s) in vs && ViewOf(t) in vs && Together(vs, limit, k, s, t)
    requires IsFirstStrongest(i, OfferList(KeyList(vs), vs, limit, s.f, t.f), l)
    requires LinkFor(k, s.f, t.f).Some? && k != KeyList(vs)[i]
    ensures Strength(LinkFor(k, s.f, t.f).value) <= Strength(l)
    ensures Strength(LinkFor(k, s.f, t.f).value) == Strength(l) ==> KeyLess(KeyList(vs)[i], k)
  {
    var keys := KeyList(vs);
    var os := OfferList(keys, vs, limit, s.f, t.f);
    TogetherShares(vs, limit, k, s, t);
    var j :| 0 <= j < |keys| && keys[j] == k;
    assert os[j] == LinkFor(k, s.f, t.f);
  }

  lemma SurvivorByCve(vs: seq<View>, limit: nat, s: Subject, t: Subject, i: nat, l: Link)
    requires Increasing(vs, ViewLess) && ViewOf(s) in vs && ViewOf(t) in vs
    requires IsFirstStrongest(i, OfferList(KeyList(vs), vs, limit, s.f, t.f), l)
    ensures TogetherByCve(vs, limit, s, t) <==> KeyList(vs)[i].kind == CveKey
  {
    var k := KeyList(vs)[i];
    TogetherShares(vs, limit, k, s, t);
    LinkStrength(k, s.f, t.f);
    if TogetherByCve(vs, limit, s, t) && k.kind != CveKey {
      LinkStrength(Key(CveKey, TrimSpace(s.f.cve)), s.f, t.f);
      NoBetterKey(vs, limit, s, t, i, l, Key(CveKey, TrimSpace(s.f.cve)));
      assert false;
    }
  }

  lemma SurvivorByComponent(vs: seq<View>, limit: nat, s: Subject, t: Subject, i: nat, l: Link)
    requires Increasing(vs, ViewLess) && ViewOf(s) in vs && ViewOf(t) in vs
    requires IsFirstStrongest(i, OfferList(KeyList(vs), vs, limit, s.f, t.f), l)
    requires KeyList(vs)[i].kind != CveKey
    ensures TogetherByComponent(vs, limit, s, t) <==> KeyList(vs)[i].kind == ComponentKey
  {
    var k := KeyList(vs)[i];
    TogetherShares(vs, limit, k, s, t);
    LinkStrength(k, s.f, t.f);
    if TogetherByComponent(vs, limit, s, t) && k.kind != ComponentKey {
      LinkStrength(Key(ComponentKey, TrimSpace(s.f.purl)), s.f, t.f);
      NoBetterKey(vs, limit, s, t, i, l, Key(ComponentKey, TrimSpace(s.f.purl)));
      assert false;
    }
  }

  lemma SurvivorByFile(vs: seq<View>, limit: nat, s: Subject, t: Subject, i: nat, l: Link)
    requires Increasing(vs, ViewLess) && ViewOf(s) in vs && ViewOf(t) in vs
    requires IsFirstStrongest(i, OfferList(KeyList(vs), vs, limit, s.f, t.f), l)
    requires KeyList(vs)[i].kind == FileKey
    ensures var p, files := KeyList(vs)[i].value, FilesTogether(vs, limit, s, t);
      p in files && forall q | q in files && q != p :: StringLess(p, q)
  {
    var k := KeyList(vs)[i];
    TogetherShares(vs, limit, k, s, t);
    LinkStrength(k, s.f, t.f);
    forall q | q in FilesTogether(vs, limit, s, t) && q != k.value ensures StringLess(k.value, q) {
      LinkStrength(Key(FileKey, q), s.f, t.f);
      NoBetterKey(vs, limit, s, t, i, l, Key(FileKey, q));
      FileKeyOrder(k.value, q);
    }
  }

  lemma SurvivorSays(vs: seq<View>, limit: nat, s: Subject, t: Subject, l: Link)
    requires Increasing(vs, ViewLess) && ViewOf(s) in vs && ViewOf(t) in vs
    requires Best(OfferList(KeyList(vs), vs, limit, s.f, t.f)) == Some(l)
    ensures Says(l, s, t, TogetherByCve(vs, limit, s, t), TogetherByComponent(vs, limit, s, t),
      FilesTogether(vs, limit, s, t))
  {
    var os := OfferList(KeyList(vs), vs, limit, s.f, t.f);
    BestIsFirstStrongest(os);
    var i: nat :| IsFirstStrongest(i, os, l);
    var k := KeyList(vs)[i];
    TogetherShares(vs, limit, k, s, t);
    SurvivorByCve(vs, limit, s, t, i, l);
    if k.kind != CveKey { SurvivorByComponent(vs, limit, s, t, i, l); }
    if k.kind == FileKey { SurvivorByFile(vs, limit, s, t, i, l); }
  }

  lemma LinkIsSurvivor(subjects: seq<Subject>, limit: nat, s: Subject, t: Subject, l: Link)
    requires DistinctFingerprints(subjects) && s in subjects && t in subjects && SubjectLess(s, t)
    requires l in LinksFor(Ranked(subjects), limit) && l.Pair() == (s.f.fingerprint, t.f.fingerprint)
    ensures Best(OfferList(KeyList(Ranked(subjects)), Ranked(subjects), limit, s.f, t.f)) == Some(l)
  {
    var vs := Ranked(subjects);
    RankedHas(subjects, s);
    RankedHas(subjects, t);
    CollectedKeyed(KeyList(vs), vs, limit);
    LinkListFacts(Collected(KeyList(vs), vs, limit));
    LookupCollected(KeyList(vs), vs, limit, ViewOf(s), ViewOf(t));
  }

  /** Cap or no cap, every link says exactly what still joins its two findings within the caps. */
  lemma LinksSayWhatIsKept(subjects: seq<Subject>, maxBucketSize: int, inv: Inventory, l: Link)
    returns (s: Subject, t: Subject)
    requires DistinctFingerprints(subjects) && l in Correlate(subjects, maxBucketSize, inv).links
    ensures s in subjects && t in subjects && SubjectLess(s, t)
    ensures var vs, limit := Ranked(subjects), LimitOf(maxBucketSize);
      Says(l, s, t,
        TogetherByCve(vs, limit, s, t), TogetherByComponent(vs, limit, s, t), FilesTogether(vs, limit, s, t))
  {
    s, t := LinksAreConnected(subjects, maxBucketSize, inv, l);
    RankedHas(subjects, s);
    RankedHas(subjects, t);
    LinkIsSurvivor(subjects, LimitOf(maxBucketSize), s, t, l);
    SurvivorSays(Ranked(subjects), LimitOf(maxBucketSize), s, t, l);
  }

  /**
   Cap or no cap, a link calls two findings duplicates exactly when they share a
   component and no CVE, have one category, and neither names a vulnerability.
   */
  lemma DuplicatesExactly(subjects: seq<Subject>, maxBucketSize: int, inv: Inventory, l: Link)
    returns (s: Subject, t: Subject)
    requires DistinctFingerprints(subjects) && l in Correlate(subjects, maxBucketSize, inv).links
    ensures s in subjects && t in subjects && l.from == s.f.fingerprint && l.to == t.f.fingerprint
    ensures l.relationship == LikelyDuplicate <==>
      && SharesComponent(s.f, t.f) && !SharesCve(s.f, t.f)
      && s.f.category == t.f.category && s.f.cve == "" && t.f.cve == ""
  {
    s, t := LinksSayWhatIsKept(subjects, maxBucketSize, inv, l);
    assert TrimSpace("") == "";
  }

  lemma UncappedTogether(subjects: seq<Subject>, limit: nat, s: Subject, t: Subject)
    requires DistinctFingerprints(subjects) && AllKept(Ranked(subjects), limit) && s in subjects && t in subjects
    ensures TogetherByCve(Ranked(subjects), limit, s, t) <==> SharesCve(s.f, t.f)
    ensures TogetherByComponent(Ranked(subjects), limit, s, t) <==> SharesComponent(s.f, t.f)
    ensures FilesTogether(Ranked(subjects), limit, s, t) == SharedFiles(s, t)
  {
    var vs := Ranked(subjects);
    RankedHas(subjects, s);
    RankedHas(subjects, t);
    if SharesCve(s.f, t.f) { SharedIsTogether(vs, limit, s, t, Key(CveKey, TrimSpace(s.f.cve))); }
    if SharesComponent(s.f, t.f) { SharedIsTogether(vs, limit, s, t, Key(ComponentKey, TrimSpace(s.f.purl))); }
    forall p | p in SharedFiles(s, t) ensures Together(vs, limit, Key(FileKey, p), s, t) {
      SharedIsTogether(vs, limit, s, t, Key(FileKey, p));
    }
  }

  lemma SharedIsTogether(vs: seq<View>, limit: nat, s: Subject, t: Subject, k: Key)
    requires Increasing(vs, ViewLess) && AllKept(vs, limit) && ViewOf(s) in vs && ViewOf(t) in vs && Shared(s, t, k)
    ensures Together(vs, limit, k, s, t)
  {
    SharedKeys(s, t, k);
    InBucket(vs, k, s);
    InBucket(vs, k, t);
    assert k in KeyUnion(vs);
  }

  /** A link of two findings, smaller fingerprint first, saying why they are connected. */
  ghost predicate Explains(l: Link, subjects: seq<Subject>, s: Subject, t: Subject) {
    && s in subjects && t in subjects && SubjectLess(s, t) && Connected(s, t)
    && Says(l, s, t, SharesCve(s.f, t.f), SharesComponent(s.f, t.f), SharedFiles(s, t))
  }

  /** Nothing is left open: two links that say the same of the same findings are one. */
  lemma SaysAll(l: Link, m: Link, s: Subject, t: Subject, cve: bool, component: bool, files: set<string>)
    requires Says(l, s, t, cve, component, files) && Says(m, s, t, cve, component, files)
    ensures l == m
  {
    if !cve && !component { StringLessAsymmetric(l.evidence.path, m.evidence.path); }
  }

  /** With nothing truncated the links are exactly those that explain the connected pairs. */
  lemma LinksExplainExactly(subjects: seq<Subject>, maxBucketSize: int, inv: Inventory, l: Link)
    requires DistinctFingerprints(subjects) && Correlate(subjects, maxBucketSize, inv).truncated == []
    ensures l in Correlate(subjects, maxBucketSize, inv).links <==> exists s, t :: Explains(l, subjects, s, t)
  {
    var limit := LimitOf(maxBucketSize);
    NothingCapped(subjects, maxBucketSize, inv);
    if l in Correlate(subjects, maxBucketSize, inv).links {
      var s, t := LinksSayWhatIsKept(subjects, maxBucketSize, inv, l);
      UncappedTogether(subjects, limit, s, t);
      LinkedAreConnected(subjects, maxBucketSize, inv, l, s, t);
      assert Explains(l, subjects, s, t);
    } else if s, t :| Explains(l, subjects, s, t) {
      PairLinkMeaning(s, t);
      var m := PairLink(s, t).value;
      LinkOfPair(subjects, limit, s, t, m);
      LinkIsSurvivor(subjects, limit, s, t, m);
      RankedHas(subjects, s);
      RankedHas(subjects, t);
      SurvivorSays(Ranked(subjects), limit, s, t, m);
      UncappedTogether(subjects, limit, s, t);
      SaysAll(l, m, s, t, SharesCve(s.f, t.f), SharesComponent(s.f, t.f), SharedFiles(s, t));
    }
  }

  lemma LinkedAreConnected(subjects: seq<Subject>, maxBucketSize: int, inv: Inventory, l: Link, s: Subject, t: Subject)
    requires DistinctFingerprints(subjects) && l in Correlate(subjects, maxBucketSize, inv).links
    requires s in subjects && t in subjects && l.from == s.f.fingerprint && l.to == t.f.fingerprint
    ensures Connected(s, t)
  {
    var a, b := LinksAreConnected(subjects, maxBucketSize, inv, l);
    OneSubject(subjects, a, s);
    OneSubject(subjects, b, t);
  }

  lemma OneSubject(subjects: seq<Subject>, a: Subject, b: Subject)
    requires DistinctFingerprints(subjects) && a in subjects && b in subjects && a.f.fingerprint == b.f.fingerprint
    ensures a == b
  {
    var i :| 0 <= i < |subjects| && subjects[i] == a;
    var j :| 0 <= j < |subjects| && subjects[j] == b;
    assert Fingerprints(subjects)[i] == Fingerprints(subjects)[j];
  }
}
