/**
 * The parts of Go's `strings`, `unicode`, `encoding/hex` and string comparison that the
 * core relies on, stated over Dafny strings (sequences of Unicode scalar values).
 */
module GoText {

  newtype byte = x: int | 0 <= x < 256

  // ---------------------------------------------------------------------------
  // String order. Go's `<` on strings and SQLite's default BINARY collation both
  // compare the UTF-8 bytes; UTF-8 preserves code-point order, so comparing the
  // characters lexicographically gives the same answer.
  // ---------------------------------------------------------------------------

  predicate StrLess(a: string, b: string)
    decreases |a|
  {
    if |a| == 0 then |b| > 0
    else if |b| == 0 then false
    else if a[0] != b[0] then a[0] < b[0]
    else StrLess(a[1..], b[1..])
  }

  predicate StrLessEq(a: string, b: string)
  {
    a == b || StrLess(a, b)
  }

  lemma {:induction false} StrLessIrreflexive(a: string)
    ensures !StrLess(a, a)
  {
    if |a| > 0 {
      StrLessIrreflexive(a[1..]);
    }
  }

  lemma {:induction false} StrLessTransitive(a: string, b: string, c: string)
    requires StrLess(a, b) && StrLess(b, c)
    ensures StrLess(a, c)
  {
    if |a| > 0 && a[0] == b[0] && b[0] == c[0] {
      StrLessTransitive(a[1..], b[1..], c[1..]);
    }
  }

  lemma {:induction false} StrLessTotal(a: string, b: string)
    requires a != b
    ensures StrLess(a, b) || StrLess(b, a)
  {
    if |a| > 0 && |b| > 0 && a[0] == b[0] {
      assert a == [a[0]] + a[1..] && b == [b[0]] + b[1..];
      StrLessTotal(a[1..], b[1..]);
    }
  }

  lemma StrLessAsymmetric(a: string, b: string)
    requires StrLess(a, b)
    ensures !StrLess(b, a)
  {
    if StrLess(b, a) {
      StrLessTransitive(a, b, a);
      StrLessIrreflexive(a);
    }
  }

  /** The empty string is below every other string. */
  lemma EmptyIsLeast(b: string)
    ensures StrLess("", b) <==> b != ""
    ensures !StrLess(b, "")
  {
  }

  // ---------------------------------------------------------------------------
  // Byte length: Go's len(s) counts UTF-8 bytes, not characters.
  // ---------------------------------------------------------------------------

  function RuneLen(c: char): nat
  {
    if c as int < 0x80 then 1
    else if c as int < 0x800 then 2
    else if c as int < 0x10000 then 3
    else 4
  }

  function Utf8Len(s: string): (n: nat)
    ensures |s| <= n <= 4 * |s|
  {
    if |s| == 0 then 0 else RuneLen(s[0]) + Utf8Len(s[1..])
  }

  predicate IsAscii(s: string)
  {
    forall i :: 0 <= i < |s| ==> s[i] as int < 0x80
  }

  lemma {:induction false} AsciiUtf8Len(s: string)
    requires IsAscii(s)
    ensures Utf8Len(s) == |s|
  {
    if |s| > 0 {
      assert IsAscii(s[1..]) by {
        forall i | 0 <= i < |s[1..]| ensures s[1..][i] as int < 0x80 {
          assert s[1..][i] == s[i + 1];
        }
      }
      AsciiUtf8Len(s[1..]);
    }
  }

  // ---------------------------------------------------------------------------
  // Character classes (ASCII) and Go's unicode.IsSpace (its full list).
  // ---------------------------------------------------------------------------

  predicate IsAsciiUpper(c: char) { 'A' <= c <= 'Z' }
  predicate IsAsciiLower(c: char) { 'a' <= c <= 'z' }
  predicate IsAsciiDigit(c: char) { '0' <= c <= '9' }
  predicate IsAsciiLetter(c: char) { IsAsciiUpper(c) || IsAsciiLower(c) }

  /** unicode.IsPunct(c) || unicode.IsSymbol(c) on ASCII: every visible non-alphanumeric. */
  predicate IsAsciiPunctOrSymbol(c: char)
  {
    ('!' <= c <= '/') || (':' <= c <= '@') || ('[' <= c <= '`') || ('{' <= c <= '~')
  }

  /** unicode.IsSpace: the Unicode White_Space property. */
  predicate IsSpace(c: char)
  {
    var n := c as int;
    (9 <= n <= 13) || n == 32 || n == 0x85 || n == 0xA0 || n == 0x1680
    || (0x2000 <= n <= 0x200A) || n == 0x2028 || n == 0x2029 || n == 0x202F
    || n == 0x205F || n == 0x3000
  }

  function LeadingSpaces(s: string): (k: nat)
    ensures k <= |s|
    ensures forall i :: 0 <= i < k ==> IsSpace(s[i])
    ensures k < |s| ==> !IsSpace(s[k])
  {
    if |s| > 0 && IsSpace(s[0]) then 1 + LeadingSpaces(s[1..]) else 0
  }

  function TrailingSpaces(s: string): (k: nat)
    ensures k <= |s|
    ensures forall i :: |s| - k <= i < |s| ==> IsSpace(s[i])
    ensures k < |s| ==> !IsSpace(s[|s| - 1 - k])
  {
    if |s| > 0 && IsSpace(s[|s| - 1]) then 1 + TrailingSpaces(s[..|s| - 1]) else 0
  }

  /** strings.TrimSpace */
  function TrimSpace(s: string): (r: string)
    ensures |r| <= |s|
    ensures r != [] ==> !IsSpace(r[0]) && !IsSpace(r[|r| - 1])
    ensures r == [] <==> forall i :: 0 <= i < |s| ==> IsSpace(s[i])
    ensures LeadingSpaces(s) + |r| <= |s| && r == s[LeadingSpaces(s)..LeadingSpaces(s) + |r|]
    ensures forall i :: LeadingSpaces(s) + |r| <= i < |s| ==> IsSpace(s[i])
  {
    var a := LeadingSpaces(s);
    var t := s[a..];
    var k := TrailingSpaces(t);
    TrimSpaceEmpty(s, a, t, k);
    TrimSpaceSlice(s, a, t, k);
    t[..|t| - k]
  }

  lemma TrimSpaceSlice(s: string, a: nat, t: string, k: nat)
    requires a == LeadingSpaces(s) && t == s[a..] && k == TrailingSpaces(t)
    ensures a + |t[..|t| - k]| <= |s| && t[..|t| - k] == s[a..a + |t[..|t| - k]|]
    ensures forall i :: a + |t[..|t| - k]| <= i < |s| ==> IsSpace(s[i])
  {
    forall i | a + |t[..|t| - k]| <= i < |s|
      ensures IsSpace(s[i])
    {
      assert s[i] == t[i - a];
    }
  }

  /**
   * Trimming removes exactly the white space around a core whose ends are not white space:
   * TrimSpace(pre + u + post) is u.
   */
  lemma TrimSurrounded(pre: string, u: string, post: string)
    requires forall i :: 0 <= i < |pre| ==> IsSpace(pre[i])
    requires forall i :: 0 <= i < |post| ==> IsSpace(post[i])
    requires u == [] || (!IsSpace(u[0]) && !IsSpace(u[|u| - 1]))
    ensures TrimSpace(pre + u + post) == u
  {
    var s := pre + u + post;
    var r := TrimSpace(s);
    if u == [] {
      assert forall i :: 0 <= i < |s| ==> IsSpace(s[i]) by {
        forall i | 0 <= i < |s| ensures IsSpace(s[i]) {
          if i < |pre| { assert s[i] == pre[i]; } else { assert s[i] == post[i - |pre|]; }
        }
      }
    } else {
      var a := LeadingSpaces(s);
      assert s[|pre|] == u[0];
      assert a == |pre|;
      var e := |pre| + |u| - 1;
      assert s[e] == u[|u| - 1];
      assert a + |r| > e;
      assert |r| == |u|;
      assert r == s[|pre|..|pre| + |u|];
      assert s[|pre|..|pre| + |u|] == u;
    }
  }

  lemma TrimSpaceEmpty(s: string, a: nat, t: string, k: nat)
    requires a == LeadingSpaces(s) && t == s[a..] && k == TrailingSpaces(t)
    ensures t[..|t| - k] == [] <==> forall i :: 0 <= i < |s| ==> IsSpace(s[i])
  {
    if t[..|t| - k] == [] {
      assert a == |s|;
    } else {
      assert !IsSpace(s[a]) by {
        assert a < |s|;
      }
    }
  }

  /** strings.ToLower, on ASCII letters. */
  function LowerRune(c: char): char
  {
    if IsAsciiUpper(c) then (c as int + 32) as char else c
  }

  function ToLower(s: string): (r: string)
    ensures |r| == |s|
    ensures forall i :: 0 <= i < |s| ==> r[i] == LowerRune(s[i])
  {
    seq(|s|, i requires 0 <= i < |s| => LowerRune(s[i]))
  }

  /** strings.EqualFold, folding ASCII letters only. */
  predicate EqualFold(a: string, b: string)
  {
    |a| == |b| && forall i :: 0 <= i < |a| ==> LowerRune(a[i]) == LowerRune(b[i])
  }

  /** strings.Join */
  function Join(parts: seq<string>, sep: string): string
  {
    if |parts| == 0 then ""
    else if |parts| == 1 then parts[0]
    else parts[0] + sep + Join(parts[1..], sep)
  }

  // ---------------------------------------------------------------------------
  // encoding/hex with lowercase digits.
  // ---------------------------------------------------------------------------

  /** The lowercase hexadecimal digit for 0 <= d < 16. */
  function HexDigit(d: int): char
    requires 0 <= d < 16
  {
    if d < 10 then ('0' as int + d) as char else ('a' as int + d - 10) as char
  }

  predicate IsLowerHex(c: char)
  {
    IsAsciiDigit(c) || ('a' <= c <= 'f')
  }

  function HexByte(b: byte): (r: string)
    ensures |r| == 2 && IsLowerHex(r[0]) && IsLowerHex(r[1])
  {
    [HexDigit(b as int / 16), HexDigit(b as int % 16)]
  }

  /** hex.EncodeToString */
  function HexEncode(bs: seq<byte>): (r: string)
    ensures |r| == 2 * |bs|
    ensures forall i :: 0 <= i < |r| ==> IsLowerHex(r[i])
  {
    if |bs| == 0 then ""
    else
      var h := HexByte(bs[0]);
      var rest := HexEncode(bs[1..]);
      assert forall i :: 2 <= i < |h + rest| ==> (h + rest)[i] == rest[i - 2];
      h + rest
  }

  function HexValue(c: char): int
  {
    if IsAsciiDigit(c) then c as int - '0' as int
    else if 'a' <= c <= 'f' then c as int - 'a' as int + 10
    else 0
  }

  /** hex.DecodeString on well-formed lowercase input. */
  function HexDecode(s: string): seq<byte>
    requires |s| % 2 == 0
    requires forall i :: 0 <= i < |s| ==> IsLowerHex(s[i])
  {
    if |s| == 0 then []
    else [(HexValue(s[0]) * 16 + HexValue(s[1])) as byte] + HexDecode(s[2..])
  }

  lemma HexByteRoundTrip(b: byte)
    ensures var h := HexByte(b); HexValue(h[0]) * 16 + HexValue(h[1]) == b as int
  {
  }

  lemma {:induction false} HexRoundTrip(bs: seq<byte>)
    ensures HexDecode(HexEncode(bs)) == bs
  {
    if |bs| > 0 {
      var h := HexByte(bs[0]);
      var rest := HexEncode(bs[1..]);
      assert HexEncode(bs) == h + rest;
      assert (h + rest)[2..] == rest;
      HexByteRoundTrip(bs[0]);
      HexRoundTrip(bs[1..]);
    }
  }
}
