/**
 Text: the string operations identity depends on (internal/normalization/fingerprint.go).
 Trimming, joining on a separator, and the lexical path cleaning of `path.Clean`.
 */
module Text {

  /** unicode.IsSpace. */
  predicate IsSpace(c: char) {
    || '\t' <= c <= '\r'
    || c == ' '
    || c in {'\U{0085}', '\U{00A0}', '\U{1680}', '\U{2028}', '\U{2029}', '\U{202F}', '\U{205F}', '\U{3000}'}
    || '\U{2000}' <= c <= '\U{200A}'
  }

  function TrimLeft(s: string): string {
    if s != [] && IsSpace(s[0]) then TrimLeft(s[1..]) else s
  }

  function TrimRight(s: string): string {
    if s != [] && IsSpace(s[|s| - 1]) then TrimRight(s[..|s| - 1]) else s
  }

  /** strings.TrimSpace. */
  function TrimSpace(s: string): string {
    TrimRight(TrimLeft(s))
  }

  /** Neither end is white space. */
  predicate NoEdgeSpace(s: string) {
    s != [] ==> !IsSpace(s[0]) && !IsSpace(s[|s| - 1])
  }

  lemma {:induction false} TrimLeftFacts(s: string)
    ensures |TrimLeft(s)| <= |s|
    ensures TrimLeft(s) == s <==> (s == [] || !IsSpace(s[0]))
    ensures TrimLeft(s) == [] || !IsSpace(TrimLeft(s)[0])
    ensures forall c | c in TrimLeft(s) :: c in s
  {
    if s != [] && IsSpace(s[0]) { TrimLeftFacts(s[1..]); }
  }

  lemma {:induction false} TrimRightFacts(s: string)
    ensures |TrimRight(s)| <= |s|
    ensures TrimRight(s) == s <==> (s == [] || !IsSpace(s[|s| - 1]))
    ensures TrimRight(s) == [] || (TrimRight(s)[0] == s[0] && !IsSpace(TrimRight(s)[|TrimRight(s)| - 1]))
    ensures forall c | c in TrimRight(s) :: c in s
  {
    if s != [] && IsSpace(s[|s| - 1]) { TrimRightFacts(s[..|s| - 1]); }
  }

  /** TrimSpace leaves exactly the strings without white space at an end alone, and shortens the rest. */
  lemma TrimSpaceFacts(s: string)
    ensures TrimSpace(s) == s <==> NoEdgeSpace(s)
    ensures TrimSpace(s) != s ==> |TrimSpace(s)| < |s|
    ensures NoEdgeSpace(TrimSpace(s))
    ensures forall c | c in TrimSpace(s) :: c in s
  {
    TrimLeftFacts(s);
    TrimRightFacts(TrimLeft(s));
    if TrimLeft(s) != s {
      assert |TrimLeft(s)| < |s| by { if |TrimLeft(s)| == |s| { TrimLeftShorter(s); } }
    } else if TrimRight(s) != s {
      TrimRightShorter(s);
    }
  }

  predicate Blank(s: string) { forall c | c in s :: IsSpace(c) }

  lemma {:induction false} TrimLeftSplit(s: string) returns (a: string)
    ensures s == a + TrimLeft(s) && Blank(a)
  {
    if s != [] && IsSpace(s[0]) {
      var b := TrimLeftSplit(s[1..]);
      a := [s[0]] + b;
      assert s == [s[0]] + s[1..];
    } else {
      a := [];
    }
  }

  lemma {:induction false} TrimRightSplit(s: string) returns (b: string)
    ensures s == TrimRight(s) + b && Blank(b)
  {
    if s != [] && IsSpace(s[|s| - 1]) {
      var c := TrimRightSplit(s[..|s| - 1]);
      b := c + [s[|s| - 1]];
      assert s == s[..|s| - 1] + [s[|s| - 1]];
    } else {
      b := [];
    }
  }

  /** Trimming takes white space off both ends, all of it and nothing else. */
  lemma TrimSpaceExactly(s: string) returns (a: string, b: string)
    ensures s == a + TrimSpace(s) + b && Blank(a) && Blank(b) && NoEdgeSpace(TrimSpace(s))
  {
    a := TrimLeftSplit(s);
    b := TrimRightSplit(TrimLeft(s));
    TrimSpaceFacts(s);
  }

  lemma TrimLeftShorter(s: string)
    requires s != [] && IsSpace(s[0])
    ensures |TrimLeft(s)| < |s|
  {
    TrimLeftFacts(s[1..]);
  }

  lemma TrimRightShorter(s: string)
    requires s != [] && IsSpace(s[|s| - 1])
    ensures |TrimRight(s)| < |s|
  {
    TrimRightFacts(s[..|s| - 1]);
  }

  /** strings.Join with a one-character separator. */
  function Join(parts: seq<string>, sep: char): string {
    if parts == [] then [] else if |parts| == 1 then parts[0] else parts[0] + [sep] + Join(parts[1..], sep)
  }

  /** strings.Split on a one-character separator. */
  function Split(s: string, sep: char): (r: seq<string>)
    ensures |r| >= 1
    ensures forall p | p in r :: sep !in p
    ensures Join(r, sep) == s
  {
    if s == [] then [[]]
    else
      var rest := Split(s[1..], sep);
      assert s == [s[0]] + s[1..];
      if s[0] == sep then
        var r := [[]] + rest;
        assert r[1..] == rest;
        r
      else
        var r := [[s[0]] + rest[0]] + rest[1..];
        assert r[1..] == rest[1..];
        assert forall p | p in r :: p == r[0] || p in rest[1..];
        r
  }

  ghost predicate Free(parts: seq<string>, sep: char) {
    forall i | 0 <= i < |parts| :: sep !in parts[i]
  }

  lemma {:induction false} SplitPart(p: string, sep: char)
    requires sep !in p
    ensures Split(p, sep) == [p]
  {
    if p != [] {
      assert p == [p[0]] + p[1..];
      SplitPart(p[1..], sep);
    }
  }

  lemma {:induction false} SplitCons(p: string, rest: string, sep: char)
    requires sep !in p
    ensures Split(p + [sep] + rest, sep) == [p] + Split(rest, sep)
  {
    var s := p + [sep] + rest;
    if p == [] {
      assert s[1..] == rest;
    } else {
      assert s[1..] == p[1..] + [sep] + rest;
      assert p == [p[0]] + p[1..];
      SplitCons(p[1..], rest, sep);
    }
  }

  /** Splitting what was joined gives the parts back, as long as no part holds the separator. */
  lemma {:induction false} SplitJoin(parts: seq<string>, sep: char)
    requires parts != [] && Free(parts, sep)
    ensures Split(Join(parts, sep), sep) == parts
  {
    if |parts| == 1 {
      SplitPart(parts[0], sep);
    } else {
      SplitJoin(parts[1..], sep);
      SplitCons(parts[0], Join(parts[1..], sep), sep);
      assert parts == [parts[0]] + parts[1..];
    }
  }

  lemma {:induction false} JoinChars(parts: seq<string>, sep: char, c: char)
    requires c != sep
    requires c in Join(parts, sep)
    ensures exists i :: 0 <= i < |parts| && c in parts[i]
  {
    if |parts| == 1 {
      assert c in parts[0];
    } else if c !in parts[0] {
      JoinChars(parts[1..], sep, c);
      var i :| 0 <= i < |parts[1..]| && c in parts[1..][i];
      assert c in parts[i + 1];
    }
  }

  /** Leaving out a part never makes the joined text longer. */
  lemma {:induction false} JoinDrop(a: seq<string>, x: string, b: seq<string>, sep: char)
    ensures |Join(a + b, sep)| <= |Join(a + [x] + b, sep)|
  {
    if a == [] {
      assert a + b == b && a + [x] + b == [x] + b && ([x] + b)[1..] == b;
    } else {
      assert (a + b)[1..] == a[1..] + b && (a + [x] + b)[1..] == a[1..] + [x] + b;
      JoinDrop(a[1..], x, b, sep);
    }
  }

  /** What one segment does to the output so far. */
  function CleanStep(seg: string, done: seq<string>, rooted: bool): seq<string> {
    if seg == "" || seg == "." then done
    else if seg != ".." then done + [seg]
    else if done != [] && done[|done| - 1] != ".." then done[..|done| - 1]
    else if rooted then done
    else done + [seg]
  }

  /** One pass of `path.Clean` over the segments, `done` being the output so far. */
  function CleanSegments(todo: seq<string>, done: seq<string>, rooted: bool): seq<string>
    decreases |todo|
  {
    if todo == [] then done else CleanSegments(todo[1..], CleanStep(todo[0], done, rooted), rooted)
  }

  /** path.Clean. */
  function Clean(p: string): string {
    if p == "" then "."
    else if p[0] == '/' then "/" + Join(CleanSegments(Split(p, '/'), [], true), '/')
    else
      var segs := CleanSegments(Split(p, '/'), [], false);
      if segs == [] then "." else Join(segs, '/')
  }

  function TrimPrefix(s: string, p: string): string {
    if p <= s then s[|p|..] else s
  }

  function Slashes(s: string): (r: string)
    ensures |r| == |s|
    ensures '\\' !in r
    ensures '\\' !in s ==> r == s
  {
    seq(|s|, i requires 0 <= i < |s| => if s[i] == '\\' then '/' else s[i])
  }

  /** NormalizeLocation: the one spelling of a path that identity uses. */
  function NormalizeLocation(p: string): string {
    var t := TrimSpace(p);
    if t == "" then "" else TrimPrefix(TrimPrefix(Clean(Slashes(t)), "./"), "/")
  }

  /** A cleaned segment list: no empty or dot segments, and `..` only in a leading block. */
  ghost predicate CleanList(segs: seq<string>) {
    && Free(segs, '/')
    && (forall i | 0 <= i < |segs| :: segs[i] != "" && segs[i] != ".")
    && (forall i | 0 < i < |segs| && segs[i] == ".." :: segs[i - 1] == "..")
  }

  lemma CleanStepClean(seg: string, done: seq<string>, rooted: bool)
    requires '/' !in seg && CleanList(done)
    ensures CleanList(CleanStep(seg, done, rooted))
  {
  }

  /** Cleaning yields a clean list made of segments that were there. */
  lemma {:induction false} CleanSegmentsClean(todo: seq<string>, done: seq<string>, rooted: bool)
    requires Free(todo, '/')
    requires CleanList(done)
    ensures CleanList(CleanSegments(todo, done, rooted))
    ensures forall x | x in CleanSegments(todo, done, rooted) :: x in done || x in todo
    decreases |todo|
  {
    if todo != [] {
      var next := CleanStep(todo[0], done, rooted);
      CleanStepClean(todo[0], done, rooted);
      assert forall x | x in next :: x in done || x == todo[0];
      CleanSegmentsClean(todo[1..], next, rooted);
    }
  }

  lemma CleanStepLength(seg: string, done: seq<string>, rooted: bool, rest: seq<string>)
    ensures |Join(CleanStep(seg, done, rooted) + rest, '/')| <= |Join(done + [seg] + rest, '/')|
  {
    JoinDrop(done, seg, rest, '/');
    var next := CleanStep(seg, done, rooted);
    if next != done && next != done + [seg] {
      var last := done[|done| - 1];
      assert done + rest == next + [last] + rest;
      JoinDrop(next, last, rest, '/');
    }
  }

  /** Cleaning never makes a path longer. */
  lemma {:induction false} CleanSegmentsLength(todo: seq<string>, done: seq<string>, rooted: bool)
    ensures |Join(CleanSegments(todo, done, rooted), '/')| <= |Join(done + todo, '/')|
    decreases |todo|
  {
    if todo == [] {
      assert done + todo == done;
    } else {
      assert done + todo == done + [todo[0]] + todo[1..];
      CleanStepLength(todo[0], done, rooted, todo[1..]);
      CleanSegmentsLength(todo[1..], CleanStep(todo[0], done, rooted), rooted);
    }
  }

  /** Cleaning a clean list again changes nothing. */
  lemma {:induction false} CleanSegmentsStable(todo: seq<string>, done: seq<string>)
    requires CleanList(done + todo)
    ensures CleanSegments(todo, done, false) == done + todo
    decreases |todo|
  {
    if todo != [] {
      assert (done + todo)[|done|] == todo[0];
      assert done != [] && todo[0] == ".." ==> (done + todo)[|done| - 1] == "..";
      assert done + todo == (done + [todo[0]]) + todo[1..];
      CleanSegmentsStable(todo[1..], done + [todo[0]]);
    } else {
      assert done + todo == done;
    }
  }

  /** The segments NormalizeLocation keeps of a non-blank path. */
  function KeptSegments(p: string): seq<string> {
    var s := Slashes(TrimSpace(p));
    CleanSegments(Split(s, '/'), [], s != "" && s[0] == '/')
  }

  lemma JoinHead(segs: seq<string>)
    requires segs != [] && CleanList(segs)
    ensures Join(segs, '/') != "" && Join(segs, '/')[0] != '/' && !("./" <= Join(segs, '/'))
  {
    var j := Join(segs, '/');
    var h := segs[0];
    assert h <= j && j[0] == h[0] && h[0] in h;
    assert |h| > 1 ==> j[1] == h[1] && h[1] in h;
  }

  /** The characters of the kept segments are characters of the path. */
  lemma KeptSegmentsChars(p: string)
    ensures CleanList(KeptSegments(p))
    ensures forall x, c | x in KeptSegments(p) && c in x :: c in Slashes(TrimSpace(p))
  {
    var s := Slashes(TrimSpace(p));
    var parts := Split(s, '/');
    CleanSegmentsClean(parts, [], s != "" && s[0] == '/');
    forall x, c | x in KeptSegments(p) && c in x ensures c in s {
      var j :| 0 <= j < |parts| && parts[j] == x;
      PartChars(parts, j, '/', c);
    }
  }

  /** What NormalizeLocation returns, in terms of the segments it keeps. */
  lemma NormalizeLocationSegments(p: string)
    ensures NormalizeLocation(p) ==
      if TrimSpace(p) == "" then ""
      else if KeptSegments(p) != [] then Join(KeptSegments(p), '/')
      else if Slashes(TrimSpace(p))[0] == '/' then "" else "."
  {
    KeptSegmentsChars(p);
    var s := Slashes(TrimSpace(p));
    var j := Join(KeptSegments(p), '/');
    if KeptSegments(p) != [] { JoinHead(KeptSegments(p)); }
    if s != "" && s[0] == '/' {
      assert Clean(s) == "/" + j && ("/" + j)[0] == '/' && ("/" + j)[1..] == j;
    } else if KeptSegments(p) != [] {
      assert !("/" <= j);
      assert s != "" ==> Clean(s) == j;
    } else {
      assert s != "" ==> Clean(s) == ".";
      assert "/"[0] != "."[0];
      assert TrimPrefix(TrimPrefix(".", "./"), "/") == ".";
    }
  }

  /** NormalizeLocation never lengthens what is left after trimming. */
  lemma NormalizeLocationLength(p: string)
    ensures |NormalizeLocation(p)| <= |TrimSpace(p)|
  {
    NormalizeLocationSegments(p);
    var s := Slashes(TrimSpace(p));
    var parts := Split(s, '/');
    assert [] + parts == parts;
    CleanSegmentsLength(parts, [], s != "" && s[0] == '/');
  }

  lemma {:induction false} PartChars(parts: seq<string>, j: nat, sep: char, c: char)
    requires j < |parts| && c in parts[j]
    ensures c in Join(parts, sep)
  {
    if |parts| > 1 && j > 0 {
      assert parts[j] == parts[1..][j - 1];
      PartChars(parts[1..], j - 1, sep, c);
    }
  }

  lemma CleanJoined(segs: seq<string>)
    requires segs != [] && CleanList(segs)
    ensures Clean(Join(segs, '/')) == Join(segs, '/')
  {
    JoinHead(segs);
    SplitJoin(segs, '/');
    CleanSegmentsStable(segs, []);
    assert [] + segs == segs;
  }

  lemma NothingToCut(j: string)
    requires j != "" && j[0] != '/' && !("./" <= j)
    ensures TrimPrefix(TrimPrefix(j, "./"), "/") == j
  {
  }

  lemma JoinedHasNo(segs: seq<string>, c: char)
    requires c != '/' && forall i | 0 <= i < |segs| :: c !in segs[i]
    ensures c !in Join(segs, '/')
  {
    if c in Join(segs, '/') {
      JoinChars(segs, '/', c);
      assert false;
    }
  }

  /** A joined clean list without white space at an end is a fixed point. */
  lemma NormalizeLocationFixed(segs: seq<string>)
    requires segs != [] && CleanList(segs)
    requires forall i | 0 <= i < |segs| :: '\\' !in segs[i]
    requires NoEdgeSpace(Join(segs, '/'))
    ensures NormalizeLocation(Join(segs, '/')) == Join(segs, '/')
  {
    JoinHead(segs);
    TrimSpaceFacts(Join(segs, '/'));
    JoinedHasNo(segs, '\\');
    CleanJoined(segs);
    NothingToCut(Join(segs, '/'));
  }

  lemma NormalizeLocationDot()
    ensures NormalizeLocation(".") == "."
  {
    TrimSpaceFacts(".");
    SplitPart(".", '/');
    assert CleanSegments(["."], [], false) == CleanSegments([], [], false);
  }

  lemma KeptSegmentsBlank(p: string)
    requires TrimSpace(p) == ""
    ensures KeptSegments(p) == []
  {
    assert Split("", '/') == [""];
    assert CleanSegments([""], [], false) == CleanSegments([], [], false);
  }

  predicate SpaceFirst(s: string) { s != "" && IsSpace(s[0]) }

  predicate SpaceLast(s: string) { s != "" && IsSpace(s[|s| - 1]) }

  /** The first segment does not begin, and the last does not end, with white space. */
  predicate TidyEnds(segs: seq<string>) {
    segs != [] ==> !SpaceFirst(segs[0]) && !SpaceLast(segs[|segs| - 1])
  }

  lemma TidyEndsDecide(segs: seq<string>)
    requires CleanList(segs)
    ensures NoEdgeSpace(Join(segs, '/')) <==> TidyEnds(segs)
  {
    if segs != [] { JoinEnds(segs, '/'); }
  }

  /**
   NormalizeLocation is idempotent exactly on the paths of whose kept segments
   the first does not begin, and the last does not end, with white space;
   elsewhere a second pass strictly shortens it.
   */
  lemma NormalizeLocationIdempotent(p: string)
    ensures NormalizeLocation(NormalizeLocation(p)) == NormalizeLocation(p) <==> TidyEnds(KeptSegments(p))
  {
    var segs := KeptSegments(p);
    NormalizeLocationSegments(p);
    KeptSegmentsChars(p);
    TidyEndsDecide(segs);
    if TrimSpace(p) == "" {
      KeptSegmentsBlank(p);
    } else if segs == [] {
      NormalizeLocationDot();
    } else if TidyEnds(segs) {
      assert forall i | 0 <= i < |segs| :: segs[i] in segs;
      NormalizeLocationFixed(segs);
    } else {
      SecondPassShortens(Join(segs, '/'));
    }
  }

  lemma SecondPassShortens(r: string)
    requires !NoEdgeSpace(r)
    ensures |NormalizeLocation(r)| < |r|
  {
    TrimSpaceFacts(r);
    NormalizeLocationLength(r);
  }

  lemma SlashesChars(s: string, c: char)
    requires c in Slashes(s)
    ensures c in s || c == '/'
  {
    var i :| 0 <= i < |s| && Slashes(s)[i] == c;
    assert s[i] in s;
  }

  lemma KeptHasNoSpace(p: string, x: string, c: char)
    requires (forall c | c in p :: !IsSpace(c)) && x in KeptSegments(p) && c in x
    ensures !IsSpace(c)
  {
    KeptSegmentsChars(p);
    SlashesChars(TrimSpace(p), c);
    TrimSpaceFacts(p);
  }

  /** Paths without white space are normalized once and for all. */
  lemma NormalizeLocationStable(p: string)
    requires forall c | c in p :: !IsSpace(c)
    ensures NormalizeLocation(NormalizeLocation(p)) == NormalizeLocation(p)
  {
    var segs := KeptSegments(p);
    forall x | x in segs ensures !SpaceFirst(x) && !SpaceLast(x) {
      if x != "" {
        KeptHasNoSpace(p, x, x[0]);
        KeptHasNoSpace(p, x, x[|x| - 1]);
      }
    }
    assert segs != [] ==> segs[0] in segs && segs[|segs| - 1] in segs;
    NormalizeLocationIdempotent(p);
  }

  lemma NormalizeRootedSpace()
    ensures NormalizeLocation("/ x") == " x"
  {
    TrimSpaceFacts("/ x");
    SplitPart(" x", '/');
    SplitCons("", " x", '/');
    assert "/ x" == "" + ['/'] + " x";
    assert CleanSegments(["", " x"], [], true) == CleanSegments([" x"], [], true) == CleanSegments([], [" x"], true);
    NormalizeLocationSegments("/ x");
  }

  lemma NormalizeSpace()
    ensures NormalizeLocation(" x") == "x"
  {
    assert TrimLeft(" x") == "x" && TrimRight("x") == "x";
    SplitPart("x", '/');
    assert CleanSegments(["x"], [], false) == CleanSegments([], ["x"], false);
    NormalizeLocationSegments(" x");
  }

  /** The path `"/ x"` is the kind that is not: the first pass exposes a leading space. */
  lemma NormalizeLocationNotIdempotent()
    ensures NormalizeLocation(NormalizeLocation("/ x")) != NormalizeLocation("/ x")
  {
    NormalizeRootedSpace();
    NormalizeSpace();
    assert |"x"| != |" x"|;
  }

  // ---- Tidy paths -------------------------------------------------------

  /** No segment between slashes of either kind begins or ends with white space. */
  ghost predicate Tidy(p: string) {
    forall seg | seg in Split(Slashes(TrimSpace(p)), '/') :: NoEdgeSpace(seg)
  }

  lemma {:induction false} JoinEnds(parts: seq<string>, sep: char)
    requires parts != [] && parts[0] != "" && parts[|parts| - 1] != ""
    ensures var j := Join(parts, sep);
      j != "" && j[0] == parts[0][0] && j[|j| - 1] == parts[|parts| - 1][|parts[|parts| - 1]| - 1]
  {
    if |parts| == 2 {
      assert parts[1..] == [parts[1]];
      assert Join(parts[1..], sep) == parts[1];
    } else if |parts| > 2 {
      JoinTail(parts, sep);
    }
  }

  lemma {:induction false} JoinTail(parts: seq<string>, sep: char)
    requires parts != [] && parts[|parts| - 1] != ""
    ensures var j, last := Join(parts, sep), parts[|parts| - 1]; j != "" && j[|j| - 1] == last[|last| - 1]
  {
    if |parts| > 1 { JoinTail(parts[1..], sep); }
  }

  /** Tidy paths are normalized once and for all. */
  lemma TidyIsStable(p: string)
    requires Tidy(p)
    ensures NormalizeLocation(NormalizeLocation(p)) == NormalizeLocation(p)
  {
    var s, segs := Slashes(TrimSpace(p)), KeptSegments(p);
    NormalizeLocationIdempotent(p);
    KeptSegmentsChars(p);
    CleanSegmentsClean(Split(s, '/'), [], s != "" && s[0] == '/');
    if segs != [] {
      assert segs[0] in segs && segs[|segs| - 1] in segs;
    }
  }

  // ---- Which spellings are one path -------------------------------------

  /** Two non-blank paths normalize alike exactly when they keep the same segments (and agree on the root if none). */
  lemma SameLocation(p: string, q: string)
    requires TrimSpace(p) != "" && TrimSpace(q) != ""
    ensures NormalizeLocation(p) == NormalizeLocation(q) <==>
      KeptSegments(p) == KeptSegments(q) && (KeptSegments(p) == [] ==> (Rooted(p) <==> Rooted(q)))
  {
    NormalizeLocationSegments(p);
    NormalizeLocationSegments(q);
    KeptSegmentsChars(p);
    KeptSegmentsChars(q);
    KeptText(p);
    KeptText(q);
  }

  predicate Rooted(p: string) { TrimSpace(p) != "" && Slashes(TrimSpace(p))[0] == '/' }

  /** The kept segments can be read back from the normalized path. */
  lemma KeptText(p: string)
    ensures KeptSegments(p) != [] ==>
      && Split(Join(KeptSegments(p), '/'), '/') == KeptSegments(p)
      && Join(KeptSegments(p), '/') != "" && Join(KeptSegments(p), '/') != "."
  {
    var segs := KeptSegments(p);
    KeptSegmentsChars(p);
    if segs != [] {
      SplitJoin(segs, '/');
      JoinHead(segs);
      if Join(segs, '/') == "." { SplitPart(".", '/'); }
    }
  }

  lemma {:induction false} SlashesTrimLeft(s: string)
    ensures TrimLeft(Slashes(s)) == Slashes(TrimLeft(s))
  {
    if s != [] {
      assert Slashes(s)[1..] == Slashes(s[1..]);
      SlashesTrimLeft(s[1..]);
    }
  }

  lemma {:induction false} SlashesTrimRight(s: string)
    ensures TrimRight(Slashes(s)) == Slashes(TrimRight(s))
  {
    if s != [] {
      assert Slashes(s)[..|s| - 1] == Slashes(s[..|s| - 1]);
      SlashesTrimRight(s[..|s| - 1]);
    }
  }

  /** Backslashes are slashes. */
  lemma BackslashSpelling(p: string)
    ensures NormalizeLocation(Slashes(p)) == NormalizeLocation(p)
  {
    SlashesTrimLeft(p);
    SlashesTrimRight(TrimLeft(p));
    assert TrimSpace(Slashes(p)) == Slashes(TrimSpace(p));
  }

  /** Not blank and without white space at either end. */
  predicate Trimmed(p: string) { p != "" && NoEdgeSpace(p) }

  lemma {:induction false} SplitLast(s: string, sep: char)
    ensures Split(s + [sep], sep) == Split(s, sep) + [""]
  {
    var t := s + [sep];
    if s == "" {
      assert t[1..] == "";
    } else {
      assert t[1..] == s[1..] + [sep];
      SplitLast(s[1..], sep);
      var rest := Split(s[1..], sep);
      assert (rest + [""])[0] == rest[0] && (rest + [""])[1..] == rest[1..] + [""];
    }
  }

  lemma {:induction false} CleanAppend(a: seq<string>, b: seq<string>, done: seq<string>, rooted: bool)
    ensures CleanSegments(a + b, done, rooted) == CleanSegments(b, CleanSegments(a, done, rooted), rooted)
    decreases |a|
  {
    if a == [] {
      assert a + b == b;
    } else {
      assert (a + b)[0] == a[0] && (a + b)[1..] == a[1..] + b;
      CleanAppend(a[1..], b, CleanStep(a[0], done, rooted), rooted);
    }
  }

  lemma SlashesAppend(a: string, b: string)
    ensures Slashes(a + b) == Slashes(a) + Slashes(b)
  {
  }

  /** A trailing slash does not matter. */
  lemma TrailingSlashSpelling(p: string)
    requires Trimmed(p)
    ensures NormalizeLocation(p + "/") == NormalizeLocation(p)
  {
    var s := Slashes(p);
    TrimSpaceFacts(p);
    TrimSpaceFacts(p + "/");
    SlashesAppend(p, "/");
    SplitLast(s, '/');
    var rooted, segs := s[0] == '/', Split(s, '/');
    CleanAppend(segs, [""], [], rooted);
    assert CleanSegments([""], CleanSegments(segs, [], rooted), rooted) ==
      CleanSegments([], CleanSegments(segs, [], rooted), rooted);
    assert KeptSegments(p + "/") == KeptSegments(p);
    SameLocation(p + "/", p);
  }

  predicate Relative(p: string) { p != "" && p[0] != '/' && p[0] != '\\' }

  /** A leading "./" does not matter. */
  lemma DotSpelling(p: string)
    requires Trimmed(p) && Relative(p)
    ensures NormalizeLocation("./" + p) == NormalizeLocation(p)
  {
    var s := Slashes(p);
    TrimSpaceFacts(p);
    TrimSpaceFacts("./" + p);
    SlashesAppend("./", p);
    assert Slashes("./") == "./";
    SplitCons(".", s, '/');
    assert "./" + s == "." + ['/'] + s;
    assert ([ "." ] + Split(s, '/'))[1..] == Split(s, '/');
    assert KeptSegments("./" + p) == KeptSegments(p);
    SameLocation("./" + p, p);
  }

  /** A clean list without its leading ".." block. */
  function Inside(segs: seq<string>): seq<string> {
    if segs != [] && segs[0] == ".." then Inside(segs[1..]) else segs
  }

  lemma {:induction false} InsideAppend(done: seq<string>, seg: string)
    requires CleanList(done)
    ensures Inside(done + [seg]) == if Inside(done) == [] && seg == ".." then [] else Inside(done) + [seg]
  {
    if done == [] {
      assert done + [seg] == [seg];
    } else if done[0] == ".." {
      assert (done + [seg])[1..] == done[1..] + [seg];
      CleanRest(done);
      InsideAppend(done[1..], seg);
    }
  }

  lemma CleanRest(segs: seq<string>)
    requires segs != [] && CleanList(segs)
    ensures CleanList(segs[1..]) && CleanList(segs[..|segs| - 1])
  {
    forall i | 0 < i < |segs| - 1 && segs[1..][i] == ".." ensures segs[1..][i - 1] == ".." {
      assert segs[i + 1] == "..";
    }
  }

  lemma StepBack(rest: seq<string>, last: string, rooted: bool)
    requires last != ".."
    ensures CleanStep("..", rest + [last], rooted) == rest
  {
    var done := rest + [last];
    assert done[|done| - 1] == last && done[..|done| - 1] == rest;
  }

  lemma InsideStepUp(done: seq<string>)
    requires CleanList(done)
    ensures CleanStep("..", Inside(done), true) == Inside(CleanStep("..", done, false))
  {
    if done == [] {
      InsideAppend(done, "..");
    } else if done[|done| - 1] == ".." {
      AllDots(done);
      InsideAppend(done, "..");
    } else {
      var rest, last := done[..|done| - 1], done[|done| - 1];
      assert done == rest + [last];
      CleanRest(done);
      InsideAppend(rest, last);
      StepBack(rest, last, false);
      StepBack(Inside(rest), last, true);
    }
  }

  /** Rooted cleaning of the inside is the inside of unrooted cleaning. */
  lemma InsideStep(seg: string, done: seq<string>)
    requires CleanList(done) && '/' !in seg
    ensures CleanStep(seg, Inside(done), true) == Inside(CleanStep(seg, done, false))
  {
    if seg == ".." { InsideStepUp(done); } else { InsideAppend(done, seg); }
  }

  /** A clean list that ends in ".." has nothing else. */
  lemma {:induction false} AllDots(segs: seq<string>)
    requires segs != [] && CleanList(segs) && segs[|segs| - 1] == ".."
    ensures Inside(segs) == []
  {
    if |segs| > 1 {
      var rest := segs[..|segs| - 1];
      CleanRest(segs);
      AllDots(rest);
      InsideAppend(rest, "..");
      assert segs == rest + [".."];
    }
  }

  lemma {:induction false} InsideClean(todo: seq<string>, done: seq<string>)
    requires Free(todo, '/') && CleanList(done)
    ensures CleanSegments(todo, Inside(done), true) == Inside(CleanSegments(todo, done, false))
    decreases |todo|
  {
    if todo != [] {
      InsideStep(todo[0], done);
      CleanStepClean(todo[0], done, false);
      InsideClean(todo[1..], CleanStep(todo[0], done, false));
    }
  }

  /** The kept segments do not leave the target. */
  predicate StaysInside(p: string) { KeptSegments(p) != [] && KeptSegments(p)[0] != ".." }

  /** With a leading slash the leading ".." block is lost, and nothing else. */
  lemma RootedKept(p: string)
    requires Trimmed(p) && Relative(p)
    ensures KeptSegments("/" + p) == Inside(KeptSegments(p)) && TrimSpace("/" + p) == "/" + p && TrimSpace(p) == p
  {
    var s := Slashes(p);
    TrimSpaceFacts(p);
    TrimSpaceFacts("/" + p);
    SlashesAppend("/", p);
    assert Slashes("/") == "/";
    SplitCons("", s, '/');
    assert "/" + s == "" + ['/'] + s;
    assert ([""] + Split(s, '/'))[1..] == Split(s, '/');
    InsideClean(Split(s, '/'), []);
  }

  /** A leading slash does not matter exactly for paths that stay inside the target. */
  lemma RootedSpelling(p: string)
    requires Trimmed(p) && Relative(p)
    ensures NormalizeLocation("/" + p) == NormalizeLocation(p) <==> StaysInside(p)
  {
    RootedKept(p);
    SlashesAppend("/", p);
    InsideShorter(KeptSegments(p));
    SameLocation("/" + p, p);
  }

  lemma {:induction false} InsideShorter(segs: seq<string>)
    ensures |Inside(segs)| <= |segs| && (Inside(segs) == segs <==> segs == [] || segs[0] != "..")
  {
    if segs != [] && segs[0] == ".." { InsideShorter(segs[1..]); }
  }
}
