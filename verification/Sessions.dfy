/**
 Sessions: session tokens (internal/users/session.go). The signature is a
 parameter of which only its dot-free alphabet is used; times are nanoseconds
 since the Unix epoch.
 */
module Sessions {
  import opened Ordering
  import opened Text

  // ---- Decimal numbers --------------------------------------------------

  const MIN_INT64: int := -0x8000_0000_0000_0000
  const MAX_INT64: int := 0x7FFF_FFFF_FFFF_FFFF

  predicate Int64(n: int) { MIN_INT64 <= n <= MAX_INT64 }

  function Digit(d: nat): char
    requires d < 10
  {
    '0' + d as char
  }

  /** strconv.FormatInt in base 10. */
  function Format(n: int): string { if n < 0 then "-" + Digits(-n) else Digits(n) }

  function Digits(n: nat): (s: string)
    ensures s != []
  {
    (if n < 10 then "" else Digits(n / 10)) + [Digit(n % 10)]
  }

  /** The value of a string of digits. */
  function ParseDigits(s: string): Option<int> {
    if s == "" then Some(0)
    else
      var c, rest := s[|s| - 1], ParseDigits(s[..|s| - 1]);
      if rest.None? || !('0' <= c <= '9') then None else Some(10 * rest.value + (c - '0') as int)
  }

  /** strconv.ParseInt in base 10 for 64 bits. */
  function Parse(s: string): Option<int> {
    if s == "" then None
    else
      var signed := s[0] == '-' || s[0] == '+';
      var digits := if signed then s[1..] else s;
      if digits == "" || ParseDigits(digits).None? then None
      else
        var n: int := if s[0] == '-' then -ParseDigits(digits).value else ParseDigits(digits).value;
        if Int64(n) then Some(n) else None
  }

  predicate IsDigits(s: string) { forall i | 0 <= i < |s| :: '0' <= s[i] <= '9' }

  /** One more digit. */
  lemma ParseAppend(d: string, m: nat, k: nat)
    requires ParseDigits(d) == Some(m) && IsDigits(d) && k < 10
    ensures ParseDigits(d + [Digit(k)]) == Some(10 * m + k) && IsDigits(d + [Digit(k)])
  {
    assert (d + [Digit(k)])[..|d|] == d;
  }

  lemma {:induction false} DigitsParse(n: nat)
    ensures ParseDigits(Digits(n)) == Some(n) && IsDigits(Digits(n))
  {
    if n < 10 {
      ParseAppend("", 0, n);
      assert Digits(n) == "" + [Digit(n)];
    } else {
      DigitsParse(n / 10);
      ParseAppend(Digits(n / 10), n / 10, n % 10);
      assert n == 10 * (n / 10) + n % 10;
    }
  }

  lemma ParseUnsigned(d: string)
    requires d != "" && IsDigits(d) && ParseDigits(d).Some?
    ensures Parse(d) == if Int64(ParseDigits(d).value) then Some(ParseDigits(d).value) else None
  {
    assert '0' <= d[0] <= '9';
  }

  lemma ParseNegative(d: string)
    requires d != "" && ParseDigits(d).Some?
    ensures Parse("-" + d) == if Int64(-ParseDigits(d).value) then Some(-ParseDigits(d).value) else None
  {
    assert ("-" + d)[1..] == d;
  }

  lemma DigitsHaveNoDot(d: string)
    requires IsDigits(d)
    ensures '.' !in d && '.' !in "-" + d
  {
  }

  lemma NegatedParses(d: string, m: int)
    requires IsDigits(d) && d != "" && ParseDigits(d) == Some(m)
    ensures Parse("-" + d) == (if Int64(-m) then Some(-m) else None) && '.' !in "-" + d
  {
    ParseNegative(d);
    DigitsHaveNoDot(d);
  }

  lemma NegativeParses(n: int)
    requires n < 0
    ensures Parse("-" + Digits(-n)) == (if Int64(n) then Some(n) else None) && '.' !in "-" + Digits(-n)
  {
    DigitsParse(-n);
    NegatedParses(Digits(-n), -n);
  }

  lemma NaturalParses(n: nat)
    ensures Parse(Digits(n)) == (if Int64(n) then Some(n) else None) && '.' !in Digits(n)
  {
    var d := Digits(n);
    DigitsParse(n);
    ParseUnsigned(d);
    DigitsHaveNoDot(d);
  }

  /** Printing and parsing are inverse for every 64-bit integer, the negative ones included. */
  lemma FormatParses(n: int)
    ensures Parse(Format(n)) == if Int64(n) then Some(n) else None
    ensures '.' !in Format(n)
  {
    if n < 0 { NegativeParses(n); } else { NaturalParses(n); }
  }

  lemma {:induction false} DottedIsNoNumber(s: string)
    requires '.' in s
    ensures ParseDigits(s).None?
  {
    if s[|s| - 1] != '.' {
      assert s == s[..|s| - 1] + [s[|s| - 1]];
      DottedIsNoNumber(s[..|s| - 1]);
    }
  }

  lemma DottedDoesNotParse(s: string)
    requires '.' in s
    ensures Parse(s).None?
  {
    if s[0] == '-' || s[0] == '+' {
      assert s == [s[0]] + s[1..];
      DottedIsNoNumber(s[1..]);
    } else {
      DottedIsNoNumber(s);
    }
  }

  // ---- Splitting at dots ------------------------------------------------

  /** strings.Cut: around the first dot. */
  function CutFirst(s: string): (r: Option<(string, string)>)
    ensures r.None? <==> '.' !in s
    ensures r.Some? ==> s == r.value.0 + "." + r.value.1 && '.' !in r.value.0
  {
    if s == "" then None
    else if s[0] == '.' then Some(("", s[1..]))
    else
      var rest := CutFirst(s[1..]);
      assert s == [s[0]] + s[1..];
      if rest.None? then None else Some(([s[0]] + rest.value.0, rest.value.1))
  }

  /** Around the last dot. */
  function CutLast(s: string): (r: Option<(string, string)>)
    ensures r.None? <==> '.' !in s
    ensures r.Some? ==> s == r.value.0 + "." + r.value.1 && '.' !in r.value.1
  {
    if s == "" then None
    else
      var n := |s| - 1;
      assert s == s[..n] + [s[n]];
      if s[n] == '.' then Some((s[..n], ""))
      else
        var rest := CutLast(s[..n]);
        if rest.None? then None else Some((rest.value.0, rest.value.1 + [s[n]]))
  }

  lemma {:induction false} CutFirstUnique(a: string, b: string)
    requires '.' !in a
    ensures CutFirst(a + "." + b) == Some((a, b))
  {
    var s := a + "." + b;
    if a == "" {
      assert s[1..] == b;
    } else {
      assert s[1..] == a[1..] + "." + b && a == [a[0]] + a[1..];
      CutFirstUnique(a[1..], b);
    }
  }

  lemma {:induction false} CutLastUnique(a: string, b: string)
    requires '.' !in b
    ensures CutLast(a + "." + b) == Some((a, b))
    decreases |b|
  {
    var s := a + "." + b;
    if b == "" {
      assert s[..|s| - 1] == a;
    } else {
      var c := b[..|b| - 1];
      assert s[..|s| - 1] == a + "." + c && b == c + [b[|b| - 1]];
      CutLastUnique(a, c);
    }
  }

  // ---- Tokens -----------------------------------------------------------

  const PREFIX: string := "usr_"
  const SECOND: int := 1_000_000_000
  const SESSION_TTL: int := 8 * 3600 * SECOND

  datatype Verified = Accepted(user: string) | Invalid | Expired

  /** The last whole second of a session issued now. */
  function Expiry(now: int): int { (now + SESSION_TTL) / SECOND }

  function Payload(user: string, expiry: int): string { user + "." + Format(expiry) }

  function Issue(sign: string -> string, user: string, now: int): string {
    PREFIX + Payload(user, Expiry(now)) + "." + sign(Payload(user, Expiry(now)))
  }

  /** What a correctly signed payload says. */
  function Read(payload: string, now: int): Verified {
    var parts := CutFirst(payload);
    if parts.None? || TrimSpace(parts.value.0) == "" || Parse(parts.value.1).None? then Invalid
    else if now >= Parse(parts.value.1).value * SECOND then Expired
    else Accepted(parts.value.0)
  }

  function Verify(sign: string -> string, token: string, now: int): Verified {
    if !(PREFIX <= token) then Invalid
    else
      var parts := CutLast(token[|PREFIX|..]);
      if parts.None? || parts.value.1 != sign(parts.value.0) then Invalid else Read(parts.value.0, now)
  }

  ghost predicate DotFree(sign: string -> string) { forall p :: '.' !in sign(p) }

  lemma IssuedPayload(sign: string -> string, user: string, issued: int)
    requires DotFree(sign)
    ensures PREFIX <= Issue(sign, user, issued)
    ensures CutLast(Issue(sign, user, issued)[|PREFIX|..]) ==
      Some((Payload(user, Expiry(issued)), sign(Payload(user, Expiry(issued)))))
  {
    var p := Payload(user, Expiry(issued));
    var t := Issue(sign, user, issued);
    assert t == PREFIX + (p + "." + sign(p));
    assert t[|PREFIX|..] == p + "." + sign(p);
    CutLastUnique(p, sign(p));
  }

  lemma ReadPlain(user: string, expiry: int, now: int)
    requires '.' !in user && Int64(expiry)
    ensures Read(Payload(user, expiry), now) ==
      if TrimSpace(user) == "" then Invalid else if now < expiry * SECOND then Accepted(user) else Expired
  {
    FormatParses(expiry);
    CutFirstUnique(user, Format(expiry));
  }

  lemma ReadDotted(user: string, expiry: int, now: int)
    requires '.' in user
    ensures Read(Payload(user, expiry), now) == Invalid
  {
    var (a, b) := CutFirst(user).value;
    var rest := b + "." + Format(expiry);
    assert Payload(user, expiry) == a + "." + rest;
    CutFirstUnique(a, rest);
    assert rest[|b|] == '.';
    DottedDoesNotParse(rest);
  }

  /**
   An issued token names its user exactly when the id is not blank, has no dot
   and the whole-second expiry has not come; an id with a dot never verifies.
   */
  lemma IssuedVerifies(sign: string -> string, user: string, issued: int, now: int)
    requires DotFree(sign) && Int64(Expiry(issued))
    ensures Verify(sign, Issue(sign, user, issued), now) ==
      if '.' in user || TrimSpace(user) == "" then Invalid
      else if now < Expiry(issued) * SECOND then Accepted(user) else Expired
  {
    IssuedPayload(sign, user, issued);
    if '.' in user { ReadDotted(user, Expiry(issued), now); } else { ReadPlain(user, Expiry(issued), now); }
  }

  const HOUR: int := 3600 * SECOND

  /**
   The expiry lies within the last second of the session's eight hours: a token
   is good up to there, and for nobody after eight hours.
   */
  lemma ExpiryIsWithinASecond(sign: string -> string, user: string, issued: int, now: int)
    requires DotFree(sign) && Int64(Expiry(issued))
    ensures issued + 8 * HOUR - SECOND < Expiry(issued) * SECOND <= issued + 8 * HOUR
    ensures '.' !in user && TrimSpace(user) != "" && now <= issued + 8 * HOUR - SECOND ==>
      Verify(sign, Issue(sign, user, issued), now) == Accepted(user)
    ensures now >= issued + 8 * HOUR ==> !Verify(sign, Issue(sign, user, issued), now).Accepted?
  {
    IssuedVerifies(sign, user, issued, now);
  }

  /** Whatever is accepted was signed: the user and an expiry still to come, joined by a dot. */
  lemma AcceptedWasSigned(sign: string -> string, token: string, now: int) returns (text: string)
    requires Verify(sign, token, now).Accepted?
    ensures var user := Verify(sign, token, now).user;
      && token == PREFIX + (user + "." + text) + "." + sign(user + "." + text)
      && '.' !in user && TrimSpace(user) != ""
      && Parse(text).Some? && now < Parse(text).value * SECOND
  {
    var (payload, signature) := CutLast(token[|PREFIX|..]).value;
    text := CutFirst(payload).value.1;
    TokenParts(token, payload, signature);
  }

  lemma TokenParts(token: string, payload: string, signature: string)
    requires PREFIX <= token && token[|PREFIX|..] == payload + "." + signature
    ensures token == PREFIX + payload + "." + signature
  {
    assert token == PREFIX + token[|PREFIX|..];
  }

  /**
   A token accepted at one instant is accepted, for the same user, at every earlier one, and
   never again once expired.
   */
  lemma AcceptanceEndsOnce(sign: string -> string, token: string, earlier: int, later: int)
    requires earlier <= later
    ensures Verify(sign, token, later).Accepted? ==> Verify(sign, token, earlier) == Verify(sign, token, later)
    ensures Verify(sign, token, earlier).Expired? ==> Verify(sign, token, later).Expired?
  {
  }

  /** Tokens of different users, or of different expiries, differ. */
  lemma TokensIdentify(sign: string -> string, user: string, issued: int, other: string, otherIssued: int)
    requires DotFree(sign) && Int64(Expiry(issued)) && Int64(Expiry(otherIssued))
    requires '.' !in user && '.' !in other && Issue(sign, user, issued) == Issue(sign, other, otherIssued)
    ensures user == other && Expiry(issued) == Expiry(otherIssued)
  {
    IssuedPayload(sign, user, issued);
    IssuedPayload(sign, other, otherIssued);
    CutFirstUnique(user, Format(Expiry(issued)));
    CutFirstUnique(other, Format(Expiry(otherIssued)));
    FormatParses(Expiry(issued));
    FormatParses(Expiry(otherIssued));
  }
}
