/**
 Dedup: one scan's findings merged by fingerprint (internal/normalization/dedup.go),
 and what the merged result means for recording the scan.
 */
module Dedup {
  import opened Ordering
  import opened Model
  import Life = Lifecycle
  import LifecycleTheorems

  datatype Merged = Merged(f: Finding, sources: seq<string>)

  /**
   What one scanner's report was normalized to; `dropped` are the identities of
   the entries its mapper discarded with an error.
   */
  datatype Result = Result(findings: seq<Finding>, places: seq<Life.Place>, dropped: seq<string>)

  // ---- What merging means -----------------------------------------------

  /** The reports of one identity, in order. */
  function Of(fs: seq<Finding>, fp: string): seq<Finding> {
    Keep(fs, (f: Finding) => f.fingerprint == fp)
  }

  /** The identities, in the order of their first report. */
  function FirstSeen(fs: seq<Finding>): seq<string> {
    Distinct(seq(|fs|, i requires 0 <= i < |fs| => fs[i].fingerprint))
  }

  /** The severity of the first report that none outranks. */
  function Gravest(rs: seq<Finding>): Severity
    requires rs != []
  {
    if |rs| == 1 then rs[0].severity else
      var worst := Gravest(rs[..|rs| - 1]);
      if rs[|rs| - 1].severity.Rank() > worst.Rank() then rs[|rs| - 1].severity else worst
  }

  function Scanners(rs: seq<Finding>): set<string> { set r | r in rs :: r.scanner }

  ghost function MergeOf(rs: seq<Finding>): Merged
    requires rs != []
  {
    StringLessIsTotal();
    Merged(rs[0].(severity := Gravest(rs)), SortedSet(Scanners(rs), StringLess))
  }

  /** One merged finding per identity. */
  ghost function Deduplicated(fs: seq<Finding>): (r: seq<Merged>)
    ensures |r| == |FirstSeen(fs)|
  {
    FirstSeenIsReported(fs);
    seq(|FirstSeen(fs)|, i requires 0 <= i < |FirstSeen(fs)| => MergeOf(Of(fs, FirstSeen(fs)[i])))
  }

  lemma OfElements(fs: seq<Finding>, fp: string)
    ensures forall f :: f in Of(fs, fp) <==> f in fs && f.fingerprint == fp
  {
    KeepElements(fs, (f: Finding) => f.fingerprint == fp);
  }

  lemma OfAppend(fs: seq<Finding>, f: Finding, fp: string)
    ensures Of(fs + [f], fp) == if f.fingerprint == fp then Of(fs, fp) + [f] else Of(fs, fp)
  {
    assert (fs + [f])[..|fs|] == fs;
  }

  lemma FirstSeenAppend(fs: seq<Finding>, f: Finding)
    ensures FirstSeen(fs + [f]) == FirstSeen(fs) + if f.fingerprint in FirstSeen(fs) then [] else [f.fingerprint]
  {
    var a := seq(|fs|, i requires 0 <= i < |fs| => fs[i].fingerprint);
    var b := seq(|fs + [f]|, i requires 0 <= i < |fs + [f]| => (fs + [f])[i].fingerprint);
    assert b[..|b| - 1] == a;
  }

  lemma FirstSeenIsReported(fs: seq<Finding>)
    ensures NoDup(FirstSeen(fs))
    ensures forall fp :: fp in FirstSeen(fs) <==> Of(fs, fp) != []
    ensures forall i | 0 <= i < |FirstSeen(fs)| :: Of(fs, FirstSeen(fs)[i]) != []
  {
    var fps := seq(|fs|, i requires 0 <= i < |fs| => fs[i].fingerprint);
    DistinctElements(fps);
    forall fp ensures fp in fps <==> Of(fs, fp) != [] {
      OfElements(fs, fp);
      if fp in fps {
        var i :| 0 <= i < |fps| && fps[i] == fp;
        assert fs[i] in Of(fs, fp);
      }
      if Of(fs, fp) != [] {
        assert Of(fs, fp)[0] in Of(fs, fp);
        var i :| 0 <= i < |fs| && fs[i] == Of(fs, fp)[0];
        assert fps[i] == fp;
      }
    }
    forall i | 0 <= i < |FirstSeen(fs)| ensures Of(fs, FirstSeen(fs)[i]) != [] {
      assert FirstSeen(fs)[i] in FirstSeen(fs);
    }
  }

  lemma {:induction false} WorstIsReported(rs: seq<Finding>)
    requires rs != []
    ensures exists i :: 0 <= i < |rs| && rs[i].severity == Gravest(rs)
    ensures forall i | 0 <= i < |rs| :: rs[i].severity.Rank() <= Gravest(rs).Rank()
  {
    if |rs| == 1 {
      assert rs[0].severity == Gravest(rs);
    } else {
      WorstIsReported(rs[..|rs| - 1]);
      assert Gravest(rs) == rs[|rs| - 1].severity || Gravest(rs) == Gravest(rs[..|rs| - 1]);
      var i :| 0 <= i < |rs| - 1 && rs[..|rs| - 1][i].severity == Gravest(rs[..|rs| - 1]);
      assert rs[i].severity == Gravest(rs[..|rs| - 1]);
    }
  }

  // ---- The algorithm ----------------------------------------------------

  ghost predicate Gathered(m: Merged, rs: seq<Finding>) {
    && rs != [] && m.f == rs[0].(severity := Gravest(rs))
    && NoDup(m.sources) && forall s :: s in m.sources <==> s in Scanners(rs)
  }

  lemma GatherOne(m: Merged, rs: seq<Finding>, f: Finding, m': Merged)
    requires Gathered(m, rs)
    requires m'.f == if f.severity.Rank() > m.f.severity.Rank() then m.f.(severity := f.severity) else m.f
    requires m'.sources == if f.scanner in m.sources then m.sources else m.sources + [f.scanner]
    ensures Gathered(m', rs + [f])
  {
    assert (rs + [f])[..|rs|] == rs;
    assert Scanners(rs + [f]) == Scanners(rs) + {f.scanner};
    if f.scanner !in m.sources { NoDupAppend(m.sources, f.scanner); }
  }

  /** The table after the reports `fs`: one entry per identity. */
  ghost predicate Gathering(table: map<string, Merged>, fs: seq<Finding>) {
    forall fp :: GatheredFor(table, fs, fp)
  }

  ghost predicate GatheredFor(table: map<string, Merged>, fs: seq<Finding>, fp: string) {
    (fp in table <==> Of(fs, fp) != []) && (fp in table ==> Gathered(table[fp], Of(fs, fp)))
  }

  lemma GatheringKept(table: map<string, Merged>, fs: seq<Finding>, f: Finding, m: Merged)
    requires Gathering(table, fs) && Gathered(m, Of(fs, f.fingerprint) + [f])
    ensures Gathering(table[f.fingerprint := m], fs + [f])
  {
    var table', fs' := table[f.fingerprint := m], fs + [f];
    forall fp ensures GatheredFor(table', fs', fp) {
      OfAppend(fs, f, fp);
      assert GatheredFor(table, fs, fp);
    }
  }

  /** One report: a new entry, or its scanner and severity added to the existing one. */
  method Absorb(table: map<string, Merged>, f: Finding, ghost fs: seq<Finding>) returns (m: Merged)
    requires GatheredFor(table, fs, f.fingerprint)
    ensures Gathered(m, Of(fs, f.fingerprint) + [f])
  {
    if f.fingerprint !in table {
      m := Merged(f, [f.scanner]);
      assert Of(fs, f.fingerprint) + [f] == [f];
    } else {
      var existing := table[f.fingerprint];
      var sources := if f.scanner in existing.sources then existing.sources else existing.sources + [f.scanner];
      var worse := f.severity.Rank() > existing.f.severity.Rank();
      var merged := if worse then existing.f.(severity := f.severity) else existing.f;
      m := Merged(merged, sources);
      GatherOne(existing, Of(fs, f.fingerprint), f, m);
    }
  }

  method Gather(fs: seq<Finding>) returns (byFingerprint: map<string, Merged>, order: seq<string>)
    ensures order == FirstSeen(fs) && Gathering(byFingerprint, fs)
  {
    byFingerprint, order := map[], [];
    for i := 0 to |fs|
      invariant order == FirstSeen(fs[..i])
      invariant Gathering(byFingerprint, fs[..i])
    {
      var f := fs[i];
      assert fs[..i + 1] == fs[..i] + [f];
      FirstSeenAppend(fs[..i], f);
      assert f.fingerprint in byFingerprint <==> f.fingerprint in order by {
        FirstSeenIsReported(fs[..i]);
        assert GatheredFor(byFingerprint, fs[..i], f.fingerprint);
      }
      if f.fingerprint !in byFingerprint {
        order := order + [f.fingerprint];
      }
      var m := Absorb(byFingerprint, f, fs[..i]);
      GatheringKept(byFingerprint, fs[..i], f, m);
      byFingerprint := byFingerprint[f.fingerprint := m];
    }
    assert fs[..|fs|] == fs;
  }

  lemma SortedIsMerged(m: Merged, rs: seq<Finding>)
    requires Gathered(m, rs)
    ensures Merged(m.f, SortBy(m.sources, StringLess)) == MergeOf(rs)
  {
    StringLessIsTotal();
    SortedSetBySort(m.sources, Scanners(rs), StringLess);
  }

  method Deduplicate(fs: seq<Finding>) returns (out: seq<Merged>)
    ensures out == Deduplicated(fs)
  {
    var byFingerprint, order := Gather(fs);
    FirstSeenIsReported(fs);
    out := [];
    for k := 0 to |order|
      invariant out == Deduplicated(fs)[..k]
    {
      assert order[k] in order && GatheredFor(byFingerprint, fs, order[k]);
      var m := byFingerprint[order[k]];
      SortedIsMerged(m, Of(fs, order[k]));
      out := out + [Merged(m.f, SortBy(m.sources, StringLess))];
    }
  }

  function AllFindings(rs: seq<Result>): seq<Finding> {
    if rs == [] then [] else AllFindings(rs[..|rs| - 1]) + rs[|rs| - 1].findings
  }

  function AllPlaces(rs: seq<Result>): seq<Life.Place> {
    if rs == [] then [] else AllPlaces(rs[..|rs| - 1]) + rs[|rs| - 1].places
  }

  function AllDropped(rs: seq<Result>): seq<string> {
    if rs == [] then [] else AllDropped(rs[..|rs| - 1]) + rs[|rs| - 1].dropped
  }

  method Combine(results: seq<Result>)
    returns (found: seq<Merged>, places: seq<Life.Place>, dropped: seq<string>)
    ensures found == Deduplicated(AllFindings(results))
    ensures places == AllPlaces(results) && dropped == AllDropped(results)
  {
    var all: seq<Finding> := [];
    places, dropped := [], [];
    for i := 0 to |results|
      invariant all == AllFindings(results[..i])
      invariant places == AllPlaces(results[..i]) && dropped == AllDropped(results[..i])
    {
      assert results[..i + 1][..i] == results[..i];
      all := all + results[i].findings;
      places, dropped := places + results[i].places, dropped + results[i].dropped;
    }
    assert results[..|results|] == results;
    found := Deduplicate(all);
  }

  // ---- Which parts depend on the order of the reports -------------------

  /** The same reports, however arranged. */
  ghost predicate SameReports(fs: seq<Finding>, gs: seq<Finding>) { forall f :: f in fs <==> f in gs }

  /** Whatever their order, the reports give the same identities, each with the same rank and sources. */
  lemma OrderKeepsRankAndSources(fs: seq<Finding>, gs: seq<Finding>, fp: string)
    requires SameReports(fs, gs)
    ensures fp in FirstSeen(fs) <==> fp in FirstSeen(gs)
    ensures fp in FirstSeen(fs) ==> Of(fs, fp) != [] && Of(gs, fp) != []
    ensures fp in FirstSeen(fs) ==> Gravest(Of(fs, fp)).Rank() == Gravest(Of(gs, fp)).Rank()
    ensures fp in FirstSeen(fs) ==> MergeOf(Of(fs, fp)).sources == MergeOf(Of(gs, fp)).sources
  {
    var rs, ss := Of(fs, fp), Of(gs, fp);
    FirstSeenIsReported(fs);
    FirstSeenIsReported(gs);
    OfElements(fs, fp);
    OfElements(gs, fp);
    assert rs != [] ==> rs[0] in ss;
    assert ss != [] ==> ss[0] in rs;
    if rs != [] {
      RankBound(rs, ss);
      RankBound(ss, rs);
      assert Scanners(rs) == Scanners(ss);
    }
  }

  lemma RankBound(rs: seq<Finding>, ss: seq<Finding>)
    requires rs != [] && ss != [] && forall r | r in rs :: r in ss
    ensures Gravest(rs).Rank() <= Gravest(ss).Rank()
  {
    WorstIsReported(rs);
    WorstIsReported(ss);
    var i :| 0 <= i < |rs| && rs[i].severity == Gravest(rs);
    assert rs[i] in ss;
  }

  /** The first report of each identity, without its severity: what the output takes from the order. */
  function Heads(fs: seq<Finding>): (r: seq<Finding>)
    ensures |r| == |FirstSeen(fs)|
  {
    FirstSeenIsReported(fs);
    seq(|FirstSeen(fs)|, i requires 0 <= i < |FirstSeen(fs)| => Of(fs, FirstSeen(fs)[i])[0].(severity := Unknown))
  }

  lemma HeadFingerprint(fs: seq<Finding>, i: nat)
    requires i < |FirstSeen(fs)|
    ensures Heads(fs)[i].fingerprint == FirstSeen(fs)[i] == Deduplicated(fs)[i].f.fingerprint
    ensures Heads(fs)[i] == Deduplicated(fs)[i].f.(severity := Unknown)
  {
    FirstSeenIsReported(fs);
    OfElements(fs, FirstSeen(fs)[i]);
    assert Of(fs, FirstSeen(fs)[i])[0] in Of(fs, FirstSeen(fs)[i]);
  }

  lemma RankDecides(a: Severity, b: Severity)
    requires a.Valid() && b.Valid() && a.Rank() == b.Rank()
    ensures a == b
  {
  }

  lemma WorstValid(fs: seq<Finding>, fp: string)
    requires (forall f | f in fs :: f.severity.Valid()) && Of(fs, fp) != []
    ensures Gravest(Of(fs, fp)).Valid()
  {
    WorstIsReported(Of(fs, fp));
    OfElements(fs, fp);
    var i :| 0 <= i < |Of(fs, fp)| && Of(fs, fp)[i].severity == Gravest(Of(fs, fp));
    assert Of(fs, fp)[i] in fs;
  }

  /**
   Two arrangements of the same well-graded reports give the same output exactly
   when each identity has the same first report, in the same order, up to
   severity. Order does matter, against the comment on Deduplicate.
   */
  lemma OrderMattersThroughHeads(fs: seq<Finding>, gs: seq<Finding>)
    requires SameReports(fs, gs) && forall f | f in fs :: f.severity.Valid()
    ensures Deduplicated(fs) == Deduplicated(gs) <==> Heads(fs) == Heads(gs)
  {
    if Heads(fs) == Heads(gs) {
      forall i: nat | i < |Heads(fs)| ensures Deduplicated(fs)[i] == Deduplicated(gs)[i] {
        HeadFingerprint(fs, i);
        HeadFingerprint(gs, i);
        var fp := FirstSeen(fs)[i];
        assert fp in FirstSeen(fs);
        OrderKeepsRankAndSources(fs, gs, fp);
        WorstValid(fs, fp);
        WorstValid(gs, fp);
        RankDecides(Gravest(Of(fs, fp)), Gravest(Of(gs, fp)));
      }
    } else if Deduplicated(fs) == Deduplicated(gs) {
      forall i: nat | i < |Heads(fs)| ensures Heads(fs)[i] == Heads(gs)[i] {
        HeadFingerprint(fs, i);
        HeadFingerprint(gs, i);
      }
      assert false;
    }
  }

  lemma TwoSeen(f: Finding, g: Finding)
    requires f.fingerprint != g.fingerprint
    ensures FirstSeen([f, g]) == [f.fingerprint, g.fingerprint]
  {
    FirstSeenAppend([], f);
    FirstSeenAppend([f], g);
    assert [] + [f] == [f] && [f] + [g] == [f, g];
  }

  /** Two reports of different identities, exchanged: the output is exchanged too. */
  lemma ExchangedReports(f: Finding, g: Finding)
    requires f.fingerprint != g.fingerprint
    ensures SameReports([f, g], [g, f]) && Deduplicated([f, g]) != Deduplicated([g, f])
  {
    TwoSeen(f, g);
    TwoSeen(g, f);
    HeadFingerprint([f, g], 0);
    HeadFingerprint([g, f], 0);
  }

  // ---- The output, on the reports themselves ----------------------------

  /** Report `k` is the first of its identity. */
  predicate FirstAt(fs: seq<Finding>, k: nat, fp: string) {
    k < |fs| && fs[k].fingerprint == fp && forall j | 0 <= j < k :: fs[j].fingerprint != fp
  }

  /** Report `k` is of the identity, outranked by none, and the first of its rank. */
  predicate GravestAt(fs: seq<Finding>, k: nat, fp: string) {
    && k < |fs| && fs[k].fingerprint == fp
    && forall j | 0 <= j < |fs| && fs[j].fingerprint == fp ::
         fs[j].severity.Rank() <= fs[k].severity.Rank() && (j < k ==> fs[j].severity.Rank() < fs[k].severity.Rank())
  }

  lemma {:induction false} FirstOf(fs: seq<Finding>, fp: string) returns (k: nat)
    requires Of(fs, fp) != []
    ensures FirstAt(fs, k, fp) && fs[k] == Of(fs, fp)[0]
  {
    var rest, f := fs[..|fs| - 1], fs[|fs| - 1];
    assert fs == rest + [f];
    OfAppend(rest, f, fp);
    OfElements(rest, fp);
    if Of(rest, fp) != [] {
      k := FirstOf(rest, fp);
    } else {
      k := |rest|;
      forall j | 0 <= j < k ensures fs[j].fingerprint != fp { assert rest[j] in rest && rest[j] !in Of(rest, fp); }
    }
  }

  lemma {:induction false} GravestOf(fs: seq<Finding>, fp: string) returns (k: nat)
    requires Of(fs, fp) != []
    ensures GravestAt(fs, k, fp) && fs[k].severity == Gravest(Of(fs, fp))
  {
    var rest, f := fs[..|fs| - 1], fs[|fs| - 1];
    assert fs == rest + [f];
    OfAppend(rest, f, fp);
    OfElements(rest, fp);
    if Of(rest, fp) == [] {
      forall j | 0 <= j < |rest| ensures fs[j].fingerprint != fp { assert rest[j] in rest && rest[j] !in Of(rest, fp); }
      k := |rest|;
    } else {
      k := GravestOf(rest, fp);
      if f.fingerprint == fp {
        assert (Of(rest, fp) + [f])[..|Of(rest, fp)|] == Of(rest, fp);
        if f.severity.Rank() > rest[k].severity.Rank() { k := |rest|; }
      }
    }
  }

  /**
   What one entry of the output is: the first report of its identity, with the
   severity of the gravest, the earliest of several, and every scanner that
   reported it, by name.
   */
  lemma MergedExactly(fs: seq<Finding>, i: nat) returns (first: nat, gravest: nat)
    requires i < |Deduplicated(fs)|
    ensures var m := Deduplicated(fs)[i]; var fp := m.f.fingerprint;
      && FirstAt(fs, first, fp) && GravestAt(fs, gravest, fp)
      && m.f == fs[first].(severity := fs[gravest].severity)
      && Increasing(m.sources, StringLess)
      && forall x :: x in m.sources <==> exists j :: 0 <= j < |fs| && fs[j].fingerprint == fp && fs[j].scanner == x
  {
    HeadFingerprint(fs, i);
    FirstSeenIsReported(fs);
    var fp, m := FirstSeen(fs)[i], Deduplicated(fs)[i];
    OfElements(fs, fp);
    first := FirstOf(fs, fp);
    gravest := GravestOf(fs, fp);
    forall x ensures x in m.sources <==> exists j :: 0 <= j < |fs| && fs[j].fingerprint == fp && fs[j].scanner == x {
      SourceOf(fs, fp, x);
    }
  }

  lemma SourceOf(fs: seq<Finding>, fp: string, x: string)
    ensures x in Scanners(Of(fs, fp)) <==> exists j :: 0 <= j < |fs| && fs[j].fingerprint == fp && fs[j].scanner == x
  {
    OfElements(fs, fp);
    if x in Scanners(Of(fs, fp)) {
      var f :| f in Of(fs, fp) && f.scanner == x;
      var j :| 0 <= j < |fs| && fs[j] == f;
    }
    if j :| 0 <= j < |fs| && fs[j].fingerprint == fp && fs[j].scanner == x { assert fs[j] in Of(fs, fp); }
  }

  /** An identity is seen exactly if some report is of it. */
  lemma SeenExactly(fs: seq<Finding>, fp: string)
    ensures fp in FirstSeen(fs) <==> exists j :: 0 <= j < |fs| && fs[j].fingerprint == fp
  {
    FirstSeenIsReported(fs);
    OfElements(fs, fp);
    if fp in FirstSeen(fs) {
      assert Of(fs, fp)[0] in Of(fs, fp);
      var j :| 0 <= j < |fs| && fs[j] == Of(fs, fp)[0];
    }
    if j :| 0 <= j < |fs| && fs[j].fingerprint == fp { assert fs[j] in Of(fs, fp); }
  }

  lemma FirstBefore(rest: seq<Finding>, f: Finding, k: nat, fp: string)
    requires FirstAt(rest + [f], k, fp)
    ensures k < |rest| <==> fp in FirstSeen(rest)
    ensures k < |rest| ==> FirstAt(rest, k, fp)
  {
    SeenExactly(rest, fp);
    if k < |rest| { assert forall j | 0 <= j <= k :: rest[j] == (rest + [f])[j]; }
    if j :| 0 <= j < |rest| && rest[j].fingerprint == fp { assert (rest + [f])[j] == rest[j]; }
  }

  /** Entries come in the order of first reports. */
  lemma {:induction false} OrderOfFirstReports(fs: seq<Finding>, i: nat, j: nat, k: nat, l: nat)
    requires i < j < |FirstSeen(fs)| && FirstAt(fs, k, FirstSeen(fs)[i]) && FirstAt(fs, l, FirstSeen(fs)[j])
    ensures k < l
  {
    var rest, f := fs[..|fs| - 1], fs[|fs| - 1];
    assert fs == rest + [f];
    FirstSeenAppend(rest, f);
    var earlier := FirstSeen(rest);
    assert FirstSeen(fs)[i] == earlier[i] && earlier[i] in earlier;
    FirstBefore(rest, f, k, earlier[i]);
    FirstBefore(rest, f, l, FirstSeen(fs)[j]);
    if j < |earlier| {
      assert FirstSeen(fs)[j] == earlier[j] && earlier[j] in earlier;
      OrderOfFirstReports(rest, i, j, k, l);
    }
  }

  // ---- Recording what was combined --------------------------------------

  function ReportOf(m: Merged): Life.Report { Life.Report(m.f.fingerprint, m.f.scanner, m.f.severity) }

  /** The scan to record: its reports are the merged findings. */
  function ScanOf(
    project: string, scan: string, found: seq<Merged>, places: seq<Life.Place>, complete: set<string>, now: int)
    : Life.Scan
  {
    Life.Scan(project, scan,
      seq(|found|, i requires 0 <= i < |found| => ReportOf(found[i])),
      places, complete, now)
  }

  function Identities(fs: seq<Finding>): set<string> { set f | f in fs :: f.fingerprint }

  /** Each mapper writes a finding and its sighting together. */
  predicate PairedResult(r: Result) { Identities(r.findings) == Life.SightedFingerprints(r.places) }

  lemma {:induction false} AllPaired(rs: seq<Result>)
    requires forall r | r in rs :: PairedResult(r)
    ensures Identities(AllFindings(rs)) == Life.SightedFingerprints(AllPlaces(rs))
  {
    if rs != [] {
      var rest, r := rs[..|rs| - 1], rs[|rs| - 1];
      AllPaired(rest);
      assert PairedResult(r);
      assert Identities(AllFindings(rs)) == Identities(AllFindings(rest)) + Identities(r.findings);
      assert Life.SightedFingerprints(AllPlaces(rs)) ==
        Life.SightedFingerprints(AllPlaces(rest)) + Life.SightedFingerprints(r.places);
    }
  }

  /** Merging loses no identity and invents none. */
  lemma MergedIdentities(
    fs: seq<Finding>, sc: Life.Scan, project: string, scan: string, places: seq<Life.Place>, complete: set<string>,
    now: int)
    requires sc == ScanOf(project, scan, Deduplicated(fs), places, complete, now)
    ensures Life.ReportedFingerprints(sc.reports) == Identities(fs)
  {
    var found := Deduplicated(fs);
    forall fp ensures fp in Life.ReportedFingerprints(sc.reports) <==> fp in Identities(fs) {
      FirstSeenIsReported(fs);
      OfElements(fs, fp);
      if fp in Life.ReportedFingerprints(sc.reports) {
        var r :| r in sc.reports && r.fingerprint == fp;
        var i: nat :| i < |found| && sc.reports[i] == r;
        HeadFingerprint(fs, i);
        assert Of(fs, fp)[0] in Of(fs, fp);
      }
      if fp in Identities(fs) {
        var f :| f in fs && f.fingerprint == fp;
        assert f in Of(fs, fp) && fp in FirstSeen(fs);
        var i: nat :| i < |FirstSeen(fs)| && FirstSeen(fs)[i] == fp;
        HeadFingerprint(fs, i);
        assert sc.reports[i] in sc.reports;
      }
    }
  }

  /** Combining paired results gives a scan that records: no sighting is of an unknown finding. */
  lemma CombinedRecords(rs: seq<Result>, project: string, scan: string, complete: set<string>, now: int)
    requires forall r | r in rs :: PairedResult(r)
    ensures var sc := ScanOf(project, scan, Deduplicated(AllFindings(rs)), AllPlaces(rs), complete, now);
      Life.Coherent(sc) && Life.Paired(sc)
  {
    var sc := ScanOf(project, scan, Deduplicated(AllFindings(rs)), AllPlaces(rs), complete, now);
    AllPaired(rs);
    MergedIdentities(AllFindings(rs), sc, project, scan, AllPlaces(rs), complete, now);
  }

  /** Nothing any scanner of the scan reported is resolved by that scan, whatever was stored before. */
  lemma CombinedIsNotResolved(t: Life.Tables, rs: seq<Result>, e: Life.Event, f: Finding)
    requires forall r | r in rs :: PairedResult(r)
    requires e.Recorded? && e.sc.reports == ScanOf("", "", Deduplicated(AllFindings(rs)), [], {}, 0).reports
    requires e.sc.places == AllPlaces(rs) && f in AllFindings(rs)
    requires Life.Enabled(t, e)
    ensures var id := Life.Id(e.sc.project, f.fingerprint);
      id in Life.Next(t, e).findings && !Life.Next(t, e).findings[id].status.Resolved?
  {
    CombinedRecords(rs, e.sc.project, e.sc.scan, e.sc.complete, e.sc.now);
    MergedIdentities(AllFindings(rs), e.sc, e.sc.project, e.sc.scan, e.sc.places, e.sc.complete, e.sc.now);
    assert f.fingerprint in Life.ReportedFingerprints(e.sc.reports);
    LifecycleTheorems.ReportedIsNotResolved(t, e, Life.Id(e.sc.project, f.fingerprint));
  }
}
