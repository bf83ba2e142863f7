/**
 Fingerprint: the hash preimage of a finding's identity
 (internal/normalization/fingerprint.go). The hash itself and the letter case
 tables are outside the model; the case mapping is a parameter.
 */
module Fingerprint {
  import opened Ordering
  import opened Text

  /** The category, rule, location, package and vulnerability of a finding. */
  datatype Input = Input(
    category: string, ruleId: string, location: string, packageName: string, vulnerabilityId: string)

  /** strings.ToLower and strings.ToUpper. */
  datatype CaseMap = CaseMap(lower: string -> string, upper: string -> string)

  const SEPARATOR: char := '\U{001F}'

  function Fields(x: Input, cases: CaseMap): seq<string> {
    [cases.lower(TrimSpace(x.category)),
     cases.lower(TrimSpace(x.ruleId)),
     NormalizeLocation(x.location),
     cases.lower(TrimSpace(x.packageName)),
     cases.upper(TrimSpace(x.vulnerabilityId))]
  }

  /** The bytes that are hashed, or nothing when the input has no usable identity. */
  function Preimage(x: Input, cases: CaseMap): Option<string> {
    var fields := Fields(x, cases);
    if exists i | 0 <= i < |fields| :: SEPARATOR in fields[i] then None
    else if fields[1] == "" && fields[2] == "" && fields[3] == "" && fields[4] == "" then None
    else Some(Join(fields, SEPARATOR))
  }

  /**
   Two accepted inputs are hashed from the same bytes exactly when their five
   normalized fields agree, so the join cannot make two identities collide.
   */
  lemma PreimageIdentity(x: Input, y: Input, cases: CaseMap)
    requires Preimage(x, cases).Some? && Preimage(y, cases).Some?
    ensures Preimage(x, cases) == Preimage(y, cases) <==> Fields(x, cases) == Fields(y, cases)
  {
    SplitJoin(Fields(x, cases), SEPARATOR);
    SplitJoin(Fields(y, cases), SEPARATOR);
  }

  /** Two findings are one in every field that identity looks at, up to case, padding and spelling of the path. */
  ghost predicate SameIdentity(x: Input, y: Input, cases: CaseMap) {
    && cases.lower(TrimSpace(x.category)) == cases.lower(TrimSpace(y.category))
    && cases.lower(TrimSpace(x.ruleId)) == cases.lower(TrimSpace(y.ruleId))
    && NormalizeLocation(x.location) == NormalizeLocation(y.location)
    && cases.lower(TrimSpace(x.packageName)) == cases.lower(TrimSpace(y.packageName))
    && cases.upper(TrimSpace(x.vulnerabilityId)) == cases.upper(TrimSpace(y.vulnerabilityId))
  }

  /** Accepted inputs share their bytes exactly when they are one finding, field by field. */
  lemma SharedBytesExactly(x: Input, y: Input, cases: CaseMap)
    requires Preimage(x, cases).Some? && Preimage(y, cases).Some?
    ensures Preimage(x, cases) == Preimage(y, cases) <==> SameIdentity(x, y, cases)
  {
    PreimageIdentity(x, y, cases);
    var f, g := Fields(x, cases), Fields(y, cases);
    if SameIdentity(x, y, cases) { assert f == g; }
    if f == g { assert f[0] == g[0] && f[1] == g[1] && f[2] == g[2] && f[3] == g[3] && f[4] == g[4]; }
  }

  /** An input is refused exactly when a field holds the separator, or only the category says anything. */
  lemma RefusedExactly(x: Input, cases: CaseMap)
    ensures var rule, place := cases.lower(TrimSpace(x.ruleId)), NormalizeLocation(x.location);
      var package, id := cases.lower(TrimSpace(x.packageName)), cases.upper(TrimSpace(x.vulnerabilityId));
      Preimage(x, cases).None? <==>
        || SEPARATOR in cases.lower(TrimSpace(x.category)) || SEPARATOR in rule || SEPARATOR in place
        || SEPARATOR in package || SEPARATOR in id
        || (rule == place == package == id == "")
  {
    var fields := Fields(x, cases);
    if SEPARATOR in fields[0] || SEPARATOR in fields[1] || SEPARATOR in fields[2] || SEPARATOR in fields[3]
      || SEPARATOR in fields[4] {
      assert exists i | 0 <= i < |fields| :: SEPARATOR in fields[i];
    }
  }

  /** `q` is `p` with padding, other slashes, a trailing slash, or a leading "./" or "/". */
  predicate Respells(p: string, q: string) {
    || TrimSpace(q) == TrimSpace(p)
    || q == Slashes(p)
    || (Trimmed(p) && q == p + "/")
    || (Trimmed(p) && Relative(p) && q == "./" + p)
    || (Trimmed(p) && Relative(p) && StaysInside(p) && q == "/" + p)
  }

  lemma RespellingNormalizesAlike(p: string, q: string)
    requires Respells(p, q)
    ensures NormalizeLocation(q) == NormalizeLocation(p)
  {
    if q == Slashes(p) { BackslashSpelling(p); }
    if Trimmed(p) && q == p + "/" { TrailingSlashSpelling(p); }
    if Trimmed(p) && Relative(p) && q == "./" + p { DotSpelling(p); }
    if Trimmed(p) && Relative(p) && StaysInside(p) && q == "/" + p { RootedSpelling(p); }
  }

  /** Respelling the location keeps the identity. */
  lemma RespelledLocation(x: Input, spelling: string, cases: CaseMap)
    requires Respells(x.location, spelling)
    ensures Preimage(x.(location := spelling), cases) == Preimage(x, cases)
  {
    RespellingNormalizesAlike(x.location, spelling);
    assert Fields(x.(location := spelling), cases) == Fields(x, cases);
  }
}
