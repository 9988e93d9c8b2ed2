/**
 * The input rules of utils/validation.go: the username rules with their first-failure messages,
 * the password complexity check, and the email pattern
 * `^[a-zA-Z0-9._%+\-]+@[a-zA-Z0-9.\-]+\.[a-zA-Z]{2,}$`.
 */
module Validation {
  import opened Wrappers
  import opened GoText

  // ===========================================================================
  // Usernames
  // ===========================================================================

  const LengthMessage: string := "Username must be 3-30 characters long."
  const CharsetMessage: string := "Username can only contain letters, numbers, underscores (_), or hyphens (-)."
  const DigitStartMessage: string := "Username cannot start with a number."
  const SeparatorStartMessage: string := "Username cannot start with an underscore (_) or hyphen (-)."
  const SeparatorEndMessage: string := "Username cannot end with an underscore (_) or hyphen (-)."
  const ConsecutiveMessage: string := "Username cannot contain consecutive underscores (_) or hyphens (-)."

  /** One character of the class `[0-9A-Za-z_-]`. */
  predicate UsernameChar(c: char)
  {
    IsAsciiDigit(c) || IsAsciiLetter(c) || c == '_' || c == '-'
  }

  predicate IsSeparator(c: char)
  {
    c == '_' || c == '-'
  }

  /** Two separators next to each other somewhere in the name. */
  predicate AdjacentSeparators(u: string)
  {
    exists i :: 0 <= i < |u| - 1 && IsSeparator(u[i]) && IsSeparator(u[i + 1])
  }

  /** `^[0-9A-Za-z_-]+$`, checked character by character. */
  function MatchesUsernamePattern(u: string): (r: bool)
    ensures r <==> |u| > 0 && forall i :: 0 <= i < |u| ==> UsernameChar(u[i])
  {
    if |u| == 0 then false
    else if |u| == 1 then UsernameChar(u[0])
    else
      assert forall i :: 1 <= i < |u| ==> u[i] == u[1..][i - 1];
      UsernameChar(u[0]) && MatchesUsernamePattern(u[1..])
  }

  /** strings.Contains */
  predicate Contains(s: string, sub: string)
    decreases |s|
  {
    |sub| <= |s| && (s[..|sub|] == sub || (|s| > 0 && Contains(s[1..], sub)))
  }

  /** Containing a two-character string means having those characters adjacent somewhere. */
  lemma {:induction false} ContainsPair(s: string, a: char, b: char)
    ensures Contains(s, [a, b]) <==> exists i :: 0 <= i < |s| - 1 && s[i] == a && s[i + 1] == b
  {
    if |s| >= 2 {
      ContainsPair(s[1..], a, b);
      if s[..2] == [a, b] {
        assert s[..2][0] == s[0] && s[..2][1] == s[1];
      }
      if Contains(s[1..], [a, b]) {
        var i :| 0 <= i < |s[1..]| - 1 && s[1..][i] == a && s[1..][i + 1] == b;
        assert s[i + 1] == a && s[i + 2] == b;
      }
      if exists i :: 0 <= i < |s| - 1 && s[i] == a && s[i + 1] == b {
        var i :| 0 <= i < |s| - 1 && s[i] == a && s[i + 1] == b;
        if i > 0 {
          assert s[1..][i - 1] == a && s[1..][i] == b;
        } else {
          assert s[..2] == [a, b];
        }
      }
    }
  }

  /** The four `strings.Contains` tests of the source together mean two adjacent separators. */
  lemma ConsecutiveSeparators(u: string)
    ensures (Contains(u, "__") || Contains(u, "--") || Contains(u, "-_") || Contains(u, "_-"))
            <==> AdjacentSeparators(u)
  {
    ContainsPair(u, '_', '_');
    ContainsPair(u, '-', '-');
    ContainsPair(u, '-', '_');
    ContainsPair(u, '_', '-');
  }

  /**
   * IsValidUsername: `Pass` is Go's `(true, "")`; otherwise the message of the first rule that
   * fails, in the order length, character set, leading digit, leading separator, trailing
   * separator, consecutive separators. The length is Go's byte length.
   */
  function IsValidUsername(u: string): (r: Outcome)
    ensures r.Pass? <==>
              3 <= Utf8Len(u) <= 30 && (forall i :: 0 <= i < |u| ==> UsernameChar(u[i]))
              && !IsAsciiDigit(u[0]) && !IsSeparator(u[0]) && !IsSeparator(u[|u| - 1])
              && !AdjacentSeparators(u)
    ensures !(3 <= Utf8Len(u) <= 30) ==> r == Fail(LengthMessage)
    ensures 3 <= Utf8Len(u) <= 30 && (exists i :: 0 <= i < |u| && !UsernameChar(u[i])) ==> r == Fail(CharsetMessage)
    ensures 3 <= Utf8Len(u) <= 30 && (forall i :: 0 <= i < |u| ==> UsernameChar(u[i])) ==>
              (IsAsciiDigit(u[0]) ==> r == Fail(DigitStartMessage))
              && (!IsAsciiDigit(u[0]) && IsSeparator(u[0]) ==> r == Fail(SeparatorStartMessage))
              && (!IsAsciiDigit(u[0]) && !IsSeparator(u[0]) && IsSeparator(u[|u| - 1]) ==> r == Fail(SeparatorEndMessage))
              && (!IsAsciiDigit(u[0]) && !IsSeparator(u[0]) && !IsSeparator(u[|u| - 1]) && AdjacentSeparators(u) ==>
                    r == Fail(ConsecutiveMessage))
  {
    ConsecutiveSeparators(u);
    if Utf8Len(u) < 3 || Utf8Len(u) > 30 then Fail(LengthMessage)
    else if !MatchesUsernamePattern(u) then Fail(CharsetMessage)
    else if IsAsciiDigit(u[0]) then Fail(DigitStartMessage)
    else if u[0] == '_' || u[0] == '-' then Fail(SeparatorStartMessage)
    else if u[|u| - 1] == '_' || u[|u| - 1] == '-' then Fail(SeparatorEndMessage)
    else if Contains(u, "__") || Contains(u, "--") || Contains(u, "-_") || Contains(u, "_-") then Fail(ConsecutiveMessage)
    else Pass
  }

  /** An accepted username is ASCII, so its byte length is its character count: 3 to 30 characters. */
  lemma ValidUsernameLength(u: string)
    requires IsValidUsername(u).Pass?
    ensures 3 <= |u| <= 30
    ensures IsAscii(u)
  {
    AsciiUtf8Len(u);
  }

  // ===========================================================================
  // Passwords
  // ===========================================================================

  predicate HasUpper(p: string) { exists i :: 0 <= i < |p| && IsAsciiUpper(p[i]) }
  predicate HasLower(p: string) { exists i :: 0 <= i < |p| && IsAsciiLower(p[i]) }
  predicate HasDigit(p: string) { exists i :: 0 <= i < |p| && IsAsciiDigit(p[i]) }
  predicate HasSymbol(p: string) { exists i :: 0 <= i < |p| && IsAsciiPunctOrSymbol(p[i]) }

  /** The requirements a password misses, in the source's fixed order. */
  function MissingRequirements(p: string): seq<string>
  {
    (if Utf8Len(p) >= 8 then [] else ["at least 8 characters"])
    + (if HasUpper(p) then [] else ["at least one uppercase letter"])
    + (if HasLower(p) then [] else ["at least one lowercase letter"])
    + (if HasDigit(p) then [] else ["at least one number"])
    + (if HasSymbol(p) then [] else ["at least one special character"])
  }

  /** The message for a non-empty list of missing requirements. */
  function PasswordMessage(missing: seq<string>): string
  {
    "Password must contain " + Join(missing, ", ") + "."
  }

  /** A password passes exactly when it is at least 8 bytes and has all four kinds of character. */
  lemma PasswordAcceptedIff(p: string)
    ensures MissingRequirements(p) == [] <==>
              Utf8Len(p) >= 8 && HasUpper(p) && HasLower(p) && HasDigit(p) && HasSymbol(p)
  {
    var m := MissingRequirements(p);
    if !(Utf8Len(p) >= 8 && HasUpper(p) && HasLower(p) && HasDigit(p) && HasSymbol(p)) {
      assert |m| > 0;
    }
  }

  /** Each missing requirement adds exactly one entry, so the list is never longer than five. */
  lemma MissingRequirementsBound(p: string)
    ensures |MissingRequirements(p)| <= 5
    ensures Utf8Len(p) < 8 ==> MissingRequirements(p)[0] == "at least 8 characters"
  {
  }

  /** The character loop of IsValidPassword: the first matching case of the switch sets its flag. */
  method CharacterClasses(password: string) returns (hasUpper: bool, hasLower: bool, hasNumber: bool, hasSymbol: bool)
    ensures hasUpper == HasUpper(password) && hasLower == HasLower(password)
    ensures hasNumber == HasDigit(password) && hasSymbol == HasSymbol(password)
  {
    hasUpper, hasLower, hasNumber, hasSymbol := false, false, false, false;
    var i := 0;
    while i < |password|
      invariant 0 <= i <= |password|
      invariant hasUpper <==> exists j :: 0 <= j < i && IsAsciiUpper(password[j])
      invariant hasLower <==> exists j :: 0 <= j < i && IsAsciiLower(password[j])
      invariant hasNumber <==> exists j :: 0 <= j < i && IsAsciiDigit(password[j])
      invariant hasSymbol <==> exists j :: 0 <= j < i && IsAsciiPunctOrSymbol(password[j])
    {
      var c := password[i];
      if IsAsciiUpper(c) {
        hasUpper := true;
      } else if IsAsciiLower(c) {
        hasLower := true;
      } else if IsAsciiDigit(c) {
        hasNumber := true;
      } else if IsAsciiPunctOrSymbol(c) {
        hasSymbol := true;
      }
      i := i + 1;
    }
  }

  /**
   * IsValidPassword: one pass over the characters sets the four flags, then the missing
   * requirements are appended in order.
   */
  method IsValidPassword(password: string) returns (ok: bool, message: string)
    ensures ok <==> MissingRequirements(password) == []
    ensures ok ==> message == ""
    ensures !ok ==> message == PasswordMessage(MissingRequirements(password))
  {
    var hasMinLen := Utf8Len(password) >= 8;
    var hasUpper, hasLower, hasNumber, hasSymbol := CharacterClasses(password);
    ghost var m1 := if hasMinLen then [] else ["at least 8 characters"];
    ghost var m2 := if hasUpper then [] else ["at least one uppercase letter"];
    ghost var m3 := if hasLower then [] else ["at least one lowercase letter"];
    ghost var m4 := if hasNumber then [] else ["at least one number"];
    ghost var m5 := if hasSymbol then [] else ["at least one special character"];
    assert MissingRequirements(password) == m1 + m2 + m3 + m4 + m5;
    var errorMessages: seq<string> := [];
    if !hasMinLen {
      errorMessages := errorMessages + ["at least 8 characters"];
    }
    assert errorMessages == m1;
    if !hasUpper {
      errorMessages := errorMessages + ["at least one uppercase letter"];
    }
    assert errorMessages == m1 + m2;
    if !hasLower {
      errorMessages := errorMessages + ["at least one lowercase letter"];
    }
    assert errorMessages == m1 + m2 + m3;
    if !hasNumber {
      errorMessages := errorMessages + ["at least one number"];
    }
    assert errorMessages == m1 + m2 + m3 + m4;
    if !hasSymbol {
      errorMessages := errorMessages + ["at least one special character"];
    }
    assert errorMessages == m1 + m2 + m3 + m4 + m5;
    if |errorMessages| > 0 {
      return false, PasswordMessage(errorMessages);
    }
    return true, "";
  }

  // ===========================================================================
  // Email addresses
  // ===========================================================================

  /** `[a-zA-Z0-9._%+-]` */
  predicate LocalChar(c: char)
  {
    IsAsciiLetter(c) || IsAsciiDigit(c) || c == '.' || c == '_' || c == '%' || c == '+' || c == '-'
  }

  /** `[a-zA-Z0-9.-]` */
  predicate DomainChar(c: char)
  {
    IsAsciiLetter(c) || IsAsciiDigit(c) || c == '.' || c == '-'
  }

  /**
   * The whole string matches the email pattern with its `@` at `at` and the `.` before the
   * top-level domain at `dot`.
   */
  predicate EmailShape(s: string, at: int, dot: int)
  {
    0 < at && at + 1 < dot && dot + 2 < |s| && s[at] == '@' && s[dot] == '.'
    && (forall i :: 0 <= i < at ==> LocalChar(s[i]))
    && (forall i :: at < i < dot ==> DomainChar(s[i]))
    && (forall i :: dot < i < |s| ==> IsAsciiLetter(s[i]))
  }

  /** Index of the first `c`, or -1. */
  function IndexOf(s: string, c: char): (k: int)
    ensures -1 <= k < |s|
    ensures k >= 0 ==> s[k] == c && forall j :: 0 <= j < k ==> s[j] != c
    ensures k == -1 ==> forall j :: 0 <= j < |s| ==> s[j] != c
  {
    if |s| == 0 then -1
    else if s[0] == c then 0
    else
      var k := IndexOf(s[1..], c);
      assert forall j :: 1 <= j < |s| ==> s[j] == s[1..][j - 1];
      if k == -1 then -1 else k + 1
  }

  /** Index of the last `c`, or -1. */
  function LastIndexOf(s: string, c: char): (k: int)
    ensures -1 <= k < |s|
    ensures k >= 0 ==> s[k] == c && forall j :: k < j < |s| ==> s[j] != c
    ensures k == -1 ==> forall j :: 0 <= j < |s| ==> s[j] != c
  {
    if |s| == 0 then -1
    else if s[|s| - 1] == c then |s| - 1
    else LastIndexOf(s[..|s| - 1], c)
  }

  /**
   * In any match the `@` is the first one and the `.` is the last one: the local part has no
   * `@` and the top-level domain has no `.`.
   */
  lemma EmailSplitUnique(s: string, at: int, dot: int)
    requires EmailShape(s, at, dot)
    ensures at == IndexOf(s, '@') && dot == LastIndexOf(s, '.')
  {
    var a := IndexOf(s, '@');
    var d := LastIndexOf(s, '.');
    assert a >= 0 && a <= at;
    assert d >= dot;
  }

  /** A match exists only with the `@` and `.` found by IndexOf and LastIndexOf. */
  lemma EmailMatchUsesIndices(s: string)
    ensures (exists at, dot :: EmailShape(s, at, dot)) ==> EmailShape(s, IndexOf(s, '@'), LastIndexOf(s, '.'))
  {
    if exists at, dot :: EmailShape(s, at, dot) {
      var at, dot :| EmailShape(s, at, dot);
      EmailSplitUnique(s, at, dot);
    }
  }

  /** IsValidEmail: the string belongs to the language of the email pattern. */
  function IsValidEmail(s: string): (r: bool)
    ensures r <==> exists at, dot :: EmailShape(s, at, dot)
  {
    var at := IndexOf(s, '@');
    var dot := LastIndexOf(s, '.');
    EmailMatchUsesIndices(s);
    EmailShape(s, at, dot)
  }

  function CountChar(s: string, c: char): nat
  {
    if |s| == 0 then 0 else (if s[0] == c then 1 else 0) + CountChar(s[1..], c)
  }

  lemma {:induction false} CountCharSplit(s: string, k: nat, c: char)
    requires k <= |s|
    ensures CountChar(s, c) == CountChar(s[..k], c) + CountChar(s[k..], c)
  {
    if k > 0 {
      assert s[..k][1..] == s[1..][..k - 1];
      CountCharSplit(s[1..], k - 1, c);
    } else {
      assert s[..k] == [];
    }
  }

  lemma {:induction false} CountCharNone(s: string, c: char)
    requires forall i :: 0 <= i < |s| ==> s[i] != c
    ensures CountChar(s, c) == 0
  {
    if |s| > 0 {
      assert forall i :: 0 <= i < |s[1..]| ==> s[1..][i] == s[i + 1];
      CountCharNone(s[1..], c);
    }
  }

  /** A string whose only `@` is at `at` has one `@`. */
  lemma SingleAt(s: string, at: int)
    requires 0 <= at < |s| && s[at] == '@'
    requires forall i :: 0 <= i < |s| && i != at ==> s[i] != '@'
    ensures CountChar(s, '@') == 1
  {
    CountCharSplit(s, at, '@');
    CountCharNone(s[..at], '@');
    var t := s[at + 1..];
    forall i | 0 <= i < |t| ensures t[i] != '@' {
      assert t[i] == s[at + 1 + i];
    }
    CountCharNone(t, '@');
    var x := s[at..];
    assert x[0] == '@' && x[1..] == t;
  }

  /**
   * An accepted email has exactly one `@`, a non-empty local part before it, and ends in `.`
   * followed by at least two ASCII letters.
   */
  lemma ValidEmailParts(s: string)
    requires IsValidEmail(s)
    ensures CountChar(s, '@') == 1
    ensures exists at :: 0 < at < |s| && s[at] == '@'
    ensures exists dot :: 0 <= dot < |s| - 2 && s[dot] == '.' && forall i :: dot < i < |s| ==> IsAsciiLetter(s[i])
  {
    var at := IndexOf(s, '@');
    var dot := LastIndexOf(s, '.');
    assert EmailShape(s, at, dot);
    OnlyAt(s, at, dot);
    SingleAt(s, at);
    assert 0 < at < |s| && s[at] == '@';
    assert 0 <= dot < |s| - 2 && s[dot] == '.';
  }

  /** In a match, no character but the one at `at` is an `@`. */
  lemma OnlyAt(s: string, at: int, dot: int)
    requires EmailShape(s, at, dot)
    ensures forall i :: 0 <= i < |s| && i != at ==> s[i] != '@'
  {
    forall i | 0 <= i < |s| && i != at ensures s[i] != '@' {
      if i < at {
        assert LocalChar(s[i]);
      } else if i < dot {
        assert DomainChar(s[i]);
      } else if i > dot {
        assert IsAsciiLetter(s[i]);
      }
    }
  }
}
