/**
 PathLaws: what normalization makes of a path one segment longer. A name is
 appended, a dot changes nothing, two dots undo the last name, and climb only
 where nothing is left to undo (internal/normalization/fingerprint.go). With the
 one-segment paths these laws determine every normalized path.
 */
module PathLaws {
  import opened Ordering
  import opened Text

  /** A segment that can follow a path without changing how it is read. */
  predicate Segment(seg: string) { seg != "" && NoEdgeSpace(seg) && '/' !in seg && '\\' !in seg }

  /** A segment that names something. */
  predicate Name(seg: string) { Segment(seg) && seg != "." && seg != ".." }

  function Below(p: string, seg: string): string { p + "/" + seg }

  /** The parts with one more character in front. */
  function Fronted(c: char, parts: seq<string>, sep: char): seq<string>
    requires parts != []
  {
    if c == sep then [[]] + parts else [[c] + parts[0]] + parts[1..]
  }

  lemma SplitHead(c: char, s: string, sep: char)
    ensures Split([c] + s, sep) == Fronted(c, Split(s, sep), sep)
  {
    assert ([c] + s)[1..] == s;
  }

  lemma FrontedAppend(c: char, a: seq<string>, b: seq<string>, sep: char)
    requires a != []
    ensures Fronted(c, a + b, sep) == Fronted(c, a, sep) + b
  {
    assert (a + b)[0] == a[0] && (a + b)[1..] == a[1..] + b;
  }

  lemma SplitAppendStep(c: char, tail: string, whole: string, b: seq<string>, sep: char)
    requires Split(whole, sep) == Split(tail, sep) + b
    ensures Split([c] + whole, sep) == Split([c] + tail, sep) + b
  {
    SplitHead(c, tail, sep);
    SplitHead(c, whole, sep);
    FrontedAppend(c, Split(tail, sep), b, sep);
  }

  lemma {:induction false} SplitAppend(s: string, t: string, sep: char)
    ensures Split(s + [sep] + t, sep) == Split(s, sep) + Split(t, sep)
  {
    if s == "" {
      SplitHead(sep, t, sep);
      assert s + [sep] + t == [sep] + t;
    } else {
      SplitAppend(s[1..], t, sep);
      SplitAppendStep(s[0], s[1..], s[1..] + [sep] + t, Split(t, sep), sep);
      assert [s[0]] + (s[1..] + [sep] + t) == s + [sep] + t && [s[0]] + s[1..] == s;
    }
  }

  lemma {:induction false} JoinAppend(parts: seq<string>, x: string, sep: char)
    ensures Join(parts + [x], sep) == if parts == [] then x else Join(parts, sep) + [sep] + x
  {
    if parts != [] {
      assert (parts + [x])[1..] == parts[1..] + [x];
      JoinAppend(parts[1..], x, sep);
      if |parts| == 1 { assert parts[1..] == []; }
    }
  }

  lemma BelowIsTrimmed(p: string, seg: string)
    requires Trimmed(p) && Segment(seg)
    ensures Trimmed(Below(p, seg)) && (Rooted(Below(p, seg)) <==> Rooted(p))
    ensures Slashes(Below(p, seg)) == Slashes(p) + "/" + seg
  {
    var q := Below(p, seg);
    assert q[0] == p[0] && q[|q| - 1] == seg[|seg| - 1];
    TrimSpaceFacts(p);
    TrimSpaceFacts(q);
    SlashesAppend(p + "/", seg);
    SlashesAppend(p, "/");
    assert Slashes("/") == "/";
    assert Slashes(q)[0] == Slashes(p)[0];
  }

  /** One more segment is one more step over what was kept. */
  lemma KeptBelow(p: string, seg: string)
    requires Trimmed(p) && Segment(seg)
    ensures KeptSegments(Below(p, seg)) == CleanStep(seg, KeptSegments(p), Rooted(p))
  {
    var s, rooted := Slashes(p), Rooted(p);
    TrimSpaceFacts(p);
    BelowIsTrimmed(p, seg);
    TrimSpaceFacts(Below(p, seg));
    SplitAppend(s, seg, '/');
    SplitPart(seg, '/');
    CleanAppend(Split(s, '/'), [seg], [], rooted);
    assert [seg][1..] == [];
    assert CleanSegments([seg], KeptSegments(p), rooted) == CleanStep(seg, KeptSegments(p), rooted);
  }

  /** Nothing kept is the root, or the current directory. */
  lemma NothingKept(p: string)
    requires Trimmed(p)
    ensures KeptSegments(p) == [] <==> NormalizeLocation(p) == "" || NormalizeLocation(p) == "."
    ensures KeptSegments(p) != [] ==> NormalizeLocation(p) == Join(KeptSegments(p), '/')
  {
    TrimSpaceFacts(p);
    NormalizeLocationSegments(p);
    KeptText(p);
  }

  /** A name below a path is appended to what the path normalizes to. */
  lemma NameBelow(p: string, name: string)
    requires Trimmed(p) && Name(name)
    ensures NormalizeLocation(Below(p, name)) ==
      if NormalizeLocation(p) == "" || NormalizeLocation(p) == "." then name
      else NormalizeLocation(p) + "/" + name
  {
    BelowIsTrimmed(p, name);
    KeptBelow(p, name);
    NothingKept(p);
    NothingKept(Below(p, name));
    JoinAppend(KeptSegments(p), name, '/');
  }

  /** A dot below a path changes nothing. */
  lemma DotBelow(p: string)
    requires Trimmed(p)
    ensures NormalizeLocation(Below(p, ".")) == NormalizeLocation(p)
  {
    BelowIsTrimmed(p, ".");
    KeptBelow(p, ".");
    TrimSpaceFacts(p);
    TrimSpaceFacts(Below(p, "."));
    SameLocation(Below(p, "."), p);
  }

  /** Two dots undo the name before them. */
  lemma ParentUndoes(p: string, name: string)
    requires Trimmed(p) && Name(name)
    ensures NormalizeLocation(Below(Below(p, name), "..")) == NormalizeLocation(p)
  {
    var q := Below(p, name);
    BelowIsTrimmed(p, name);
    BelowIsTrimmed(q, "..");
    KeptBelow(p, name);
    KeptBelow(q, "..");
    assert (KeptSegments(p) + [name])[..|KeptSegments(p)|] == KeptSegments(p);
    TrimSpaceFacts(p);
    TrimSpaceFacts(Below(q, ".."));
    SameLocation(Below(q, ".."), p);
  }

  /** Above the root is the root. */
  lemma NoParentOfRoot(p: string)
    requires Trimmed(p) && NormalizeLocation(p) == "" && Rooted(p)
    ensures NormalizeLocation(Below(p, "..")) == "" && Rooted(Below(p, ".."))
  {
    BelowIsTrimmed(p, "..");
    KeptBelow(p, "..");
    NothingKept(p);
    TrimSpaceFacts(Below(p, ".."));
    NormalizeLocationSegments(Below(p, ".."));
  }

  lemma ClimbsKept(p: string)
    requires Trimmed(p) && !Rooted(p) && (KeptSegments(p) == [] || KeptSegments(p)[|KeptSegments(p)| - 1] == "..")
    ensures KeptSegments(Below(p, "..")) == KeptSegments(p) + [".."]
  {
    KeptBelow(p, "..");
  }

  /** A relative path with nothing left to undo climbs, one level with each two dots. */
  lemma ParentClimbs(p: string)
    requires Trimmed(p) && !Rooted(p) && (KeptSegments(p) == [] || KeptSegments(p)[|KeptSegments(p)| - 1] == "..")
    ensures NormalizeLocation(Below(p, "..")) ==
      if NormalizeLocation(p) == "." then ".." else NormalizeLocation(p) + "/.."
  {
    BelowIsTrimmed(p, "..");
    ClimbsKept(p);
    NothingKept(p);
    NothingKept(Below(p, ".."));
    JoinAppend(KeptSegments(p), "..", '/');
    TrimSpaceFacts(p);
    NormalizeLocationSegments(p);
  }

  /** A single name is its own normal form. */
  lemma NameAlone(name: string)
    requires Name(name)
    ensures NormalizeLocation(name) == name
  {
    TrimSpaceFacts(name);
    SplitPart(name, '/');
    assert [name][1..] == [];
    assert CleanSegments([name], [], false) == CleanSegments([], [name], false);
    NormalizeLocationSegments(name);
  }
}
