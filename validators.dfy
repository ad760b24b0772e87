/** The two input validators: `validate_uuid` (pass a UUID through, parse text,
    reject what does not parse) and `validate_password_strength` (a regular
    expression over the password). */
module Validators {
  import opened Domain

  // ---------------- validate_uuid ----------------

  /** What a caller hands `validate_uuid`: an already parsed UUID, text, or `None`. */
  datatype UuidArg = AsUuid(id: Uuid) | AsText(text: string) | Absent

  /** `validate_uuid`: a UUID comes back unchanged, text is parsed and text that does
      not parse is a 400. `UUID(None)` raises `TypeError`, which the `except
      ValueError` does not catch, so `None` ends as a 500. */
  function ValidateUuid(parse: string -> Option<Uuid>, arg: UuidArg): (r: Result<Uuid>)
    ensures arg.AsUuid? ==> r == Ok(arg.id)
    ensures arg.AsText? ==> (r.Ok? <==> parse(arg.text).Some?)
    ensures arg.AsText? && r.Ok? ==> r.value == parse(arg.text).value
    ensures arg.AsText? && r.Err? ==> r.error == BadRequest
    ensures arg.Absent? ==> r == Err(InternalError)
  {
    match arg
    case AsUuid(id) => Ok(id)
    case AsText(text) =>
      (match parse(text)
       case Some(id) => Ok(id)
       case None => Err(BadRequest))
    case Absent => Err(InternalError)
  }

  // ---------------- validate_password_strength ----------------

  predicate IsLowerAscii(c: char) { 'a' <= c <= 'z' }
  predicate IsUpperAscii(c: char) { 'A' <= c <= 'Z' }
  predicate IsDigitAscii(c: char) { '0' <= c <= '9' }
  predicate IsSpecial(c: char) { c in "@$!%*?&" }

  /** The character class `[A-Za-z\d@$!%*?&]`. */
  predicate IsAllowed(c: char) {
    IsLowerAscii(c) || IsUpperAscii(c) || IsDigitAscii(c) || IsSpecial(c)
  }

  predicate AllAllowed(s: string) { forall i :: 0 <= i < |s| ==> IsAllowed(s[i]) }

  predicate HasLower(s: string) { exists i :: 0 <= i < |s| && IsLowerAscii(s[i]) }
  predicate HasUpper(s: string) { exists i :: 0 <= i < |s| && IsUpperAscii(s[i]) }
  predicate HasDigit(s: string) { exists i :: 0 <= i < |s| && IsDigitAscii(s[i]) }
  predicate HasSpecial(s: string) { exists i :: 0 <= i < |s| && IsSpecial(s[i]) }

  /** The rule the validator's message states: 8 to 64 characters, all from the
      class, with a small letter, a capital, a digit and a special character. */
  predicate IsStrongPassword(p: string) {
    && 8 <= |p| <= 64
    && AllAllowed(p)
    && HasLower(p) && HasUpper(p) && HasDigit(p) && HasSpecial(p)
  }

  /** The text before the first line feed: all that a `.*` lookahead at the start
      of the string can see, since `.` does not match a line feed. */
  function FirstLine(s: string): (r: string)
    ensures |r| <= |s| && r == s[..|r|]
    ensures '\n' !in r
    ensures |r| < |s| ==> s[|r|] == '\n'
  {
    if s == [] || s[0] == '\n' then [] else [s[0]] + FirstLine(s[1..])
  }

  /** Where `$` (no MULTILINE flag) matches: at the end, or just before a final line feed. */
  predicate DollarAt(s: string, k: nat) {
    k == |s| || (k + 1 == |s| && s[k] == '\n')
  }

  /** `re.match` of the pattern as written: the four lookaheads over the first
      line, then 8 to 64 characters of the class from the start, then `$`. */
  predicate PatternMatches(p: string) {
    var line := FirstLine(p);
    && HasLower(line) && HasUpper(line) && HasDigit(line) && HasSpecial(line)
    && exists k: nat :: 8 <= k <= 64 && k <= |p| && AllAllowed(p[..k]) && DollarAt(p, k)
  }

  /** `validate_password_strength` as written: `None` on success, a 400 otherwise. */
  function ValidatePasswordStrength(p: string): (r: Option<HttpError>)
    ensures r.None? <==> PatternMatches(p)
    ensures r.Some? ==> r.value == BadRequest
  {
    if PatternMatches(p) then None else Some(BadRequest)
  }

  /** What the pattern accepts: a strong password, or a strong password followed
      by one line feed, because `$` also matches before a final line feed. */
  lemma PatternMatchesIff(p: string)
    ensures PatternMatches(p) <==>
      IsStrongPassword(p) || (|p| > 0 && p[|p| - 1] == '\n' && IsStrongPassword(p[..|p| - 1]))
  {
    if PatternMatches(p) {
      var k: nat :| 8 <= k <= 64 && k <= |p| && AllAllowed(p[..k]) && DollarAt(p, k);
      // The first k characters are all from the class, so none is a line feed.
      assert p[..k] == FirstLine(p) by { FirstLineOfAllowed(p, k); }
      if k == |p| {
        assert p[..k] == p;
      }
    } else if IsStrongPassword(p) {
      FirstLineOfAllowed(p, |p|);
      assert p[..|p|] == p;
      assert DollarAt(p, |p|);
    } else if |p| > 0 && p[|p| - 1] == '\n' && IsStrongPassword(p[..|p| - 1]) {
      var k := |p| - 1;
      FirstLineOfAllowed(p, k);
      assert DollarAt(p, k);
    }
  }

  /** When the first k characters contain no line feed and the next one is one (or
      there is none), the first line is exactly those k characters. */
  lemma {:induction false} FirstLineOfAllowed(p: string, k: nat)
    requires k <= |p| && AllAllowed(p[..k])
    requires k == |p| || p[k] == '\n'
    ensures FirstLine(p) == p[..k]
  {
    if k > 0 {
      assert IsAllowed(p[..k][0]);
      assert p[1..][..k - 1] == p[..k][1..];
      FirstLineOfAllowed(p[1..], k - 1);
      assert p[..k] == [p[0]] + p[1..][..k - 1];
    }
  }

  /** The pattern as written lets a trailing line feed through. */
  lemma TrailingLineFeedAccepted()
    ensures PatternMatches("Abcdef1!\n") && !IsStrongPassword("Abcdef1!\n")
    ensures ValidatePasswordStrength("Abcdef1!\n").None?
  {
    var q := "Abcdef1!";
    var p := q + "\n";
    assert p == "Abcdef1!\n";
    assert IsLowerAscii(q[1]) && IsUpperAscii(q[0]) && IsDigitAscii(q[6]) && IsSpecial(q[7]);
    assert IsStrongPassword(q);
    assert p[..|p| - 1] == q;
    PatternMatchesIff(p);
    assert !IsAllowed(p[8]);
  }

  /** The intended check, a full match of the rule. */
  function StrictPasswordCheck(p: string): (r: Option<HttpError>)
    ensures r.None? <==> IsStrongPassword(p)
    ensures r.None? ==> 8 <= |p| <= 64 && '\n' !in p
    ensures r.Some? ==> r.value == BadRequest
  {
    if IsStrongPassword(p) then None else Some(BadRequest)
  }

  /** The two checks differ only on strong passwords with a line feed appended. */
  lemma StrictWhereAsWrittenAccepts(p: string)
    ensures StrictPasswordCheck(p).None? ==> ValidatePasswordStrength(p).None?
    ensures ValidatePasswordStrength(p).None? && StrictPasswordCheck(p).Some? ==>
      |p| > 0 && p[|p| - 1] == '\n' && IsStrongPassword(p[..|p| - 1])
  {
    PatternMatchesIff(p);
  }
}
