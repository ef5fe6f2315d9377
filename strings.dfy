/**
  The JavaScript string operations the handlers rely on: decimal rendering of
  numbers in template literals, `parseInt`, `trim`, `split`/`join`, ASCII
  lower-casing and substring search.
 */
module Strings {
  import opened Wrappers

  // ---------------------------------------------------------------- numbers

  predicate IsDecimalDigit(c: char)
  {
    '0' <= c <= '9'
  }

  /** `${n}` for a non-negative integer. */
  function NatToString(n: nat): (s: string)
    ensures |s| >= 1
    ensures forall i :: 0 <= i < |s| ==> IsDecimalDigit(s[i])
    decreases n
  {
    var d := [(('0' as int) + n % 10) as char];
    if n < 10 then d else NatToString(n / 10) + d
  }

  /** `${n}` for any integer. */
  function IntToString(n: int): string
  {
    if n < 0 then "-" + NatToString(-n) else NatToString(n)
  }

  /** Value of `c` as a digit, or 36 when it is no digit in any radix up to 16. */
  function DigitValue(c: char): nat
  {
    if '0' <= c <= '9' then c as int - '0' as int
    else if 'a' <= c <= 'f' then c as int - 'a' as int + 10
    else if 'A' <= c <= 'F' then c as int - 'A' as int + 10
    else 36
  }

  /** Length of the longest prefix of `s` made of digits of radix `radix`. */
  function DigitRun(s: string, radix: nat): (n: nat)
    ensures n <= |s|
    ensures forall i :: 0 <= i < n ==> DigitValue(s[i]) < radix
    ensures n < |s| ==> DigitValue(s[n]) >= radix
  {
    if s == [] || DigitValue(s[0]) >= radix then 0 else 1 + DigitRun(s[1..], radix)
  }

  /** The number written by the digits `s` in radix `radix`. */
  function DigitsValue(s: string, radix: nat): nat
    requires radix == 10 || radix == 16
    requires forall i :: 0 <= i < |s| ==> DigitValue(s[i]) < radix
  {
    if s == [] then 0
    else
      var high := DigitsValue(s[..|s| - 1], radix);
      (if radix == 16 then high * 16 else high * 10) + DigitValue(s[|s| - 1])
  }

  /**
    `parseInt(s)` with no radix argument: leading white space is skipped, one
    sign is read, a `0x`/`0X` prefix selects radix 16, and the longest run of
    digits that follows is the value; no digit at all is NaN, here `None`.
   */
  function ParseInt(s: string): (r: Option<int>)
    ensures r.None? <==> (var u := SignlessBody(s); DigitRun(HexStripped(u), RadixOf(u)) == 0)
  {
    ParseUnsigned(SignlessBody(s), IsNegated(s))
  }

  /** The value of the digit run at the start of `u` (after an optional `0x`), negated when a minus sign came before. */
  function ParseUnsigned(u: string, negated: bool): (r: Option<int>)
    ensures r.None? <==> DigitRun(HexStripped(u), RadixOf(u)) == 0
  {
    var radix := RadixOf(u);
    var body := HexStripped(u);
    if DigitRun(body, radix) == 0 then None
    else Some(Signed(RunValue(body, radix), negated))
  }

  /** The number written by the longest run of digits at the start of `body`. */
  function RunValue(body: string, radix: nat): nat
    requires radix == 10 || radix == 16
  {
    DigitsValue(body[..DigitRun(body, radix)], radix)
  }

  function Signed(magnitude: nat, negated: bool): int
  {
    var m: int := magnitude;
    if negated then -m else m
  }

  /** After the leading white space, `s` starts with a minus sign. */
  predicate IsNegated(s: string)
  {
    var t := TrimStart(s);
    |t| > 0 && t[0] == '-'
  }

  /** `s` without its leading white space and without one leading sign. */
  function SignlessBody(s: string): string
  {
    var t := TrimStart(s);
    if |t| > 0 && (t[0] == '-' || t[0] == '+') then t[1..] else t
  }

  predicate HasHexPrefix(u: string)
  {
    |u| >= 2 && u[0] == '0' && (u[1] == 'x' || u[1] == 'X')
  }

  function RadixOf(u: string): nat
  {
    if HasHexPrefix(u) then 16 else 10
  }

  function HexStripped(u: string): string
  {
    if HasHexPrefix(u) then u[2..] else u
  }

  lemma {:induction false} DecimalDigitsRun(s: string)
    requires forall i :: 0 <= i < |s| ==> IsDecimalDigit(s[i])
    ensures DigitRun(s, 10) == |s|
  {
    if s != [] {
      DecimalDigitsRun(s[1..]);
    }
  }

  lemma {:induction false} NatToStringValue(n: nat)
    ensures DigitsValue(NatToString(n), 10) == n
    decreases n
  {
    var s := NatToString(n);
    if n >= 10 {
      NatToStringValue(n / 10);
      assert s[..|s| - 1] == NatToString(n / 10);
    }
  }

  /** Parsing what a template literal prints gives the number back. */
  lemma ParseIntOfIntToString(n: int)
    ensures ParseInt(IntToString(n)) == Some(n)
  {
    var m: nat := if n < 0 then -n else n;
    var digits := NatToString(m);
    NatToStringValue(m);
    DecimalDigitsRun(digits);
    if n < 0 {
      ParseSignedDigits("-" + digits, digits, true);
    } else {
      ParseSignedDigits(digits, digits, false);
    }
  }

  /** A sign or a digit is no white space. */
  lemma SignOrDigitIsNoSpace(c: char)
    requires c == '-' || IsDecimalDigit(c)
    ensures !IsWhitespace(c)
  {
  }

  /** Text starting with a sign or a digit has nothing to trim at its start. */
  lemma NothingToTrimStart(s: string)
    requires |s| > 0 && (s[0] == '-' || IsDecimalDigit(s[0]))
    ensures TrimStart(s) == s
  {
    SignOrDigitIsNoSpace(s[0]);
  }

  /** Decimal digits, with an optional minus sign in front, parse to their value, negated after the sign. */
  lemma ParseSignedDigits(s: string, digits: string, negated: bool)
    requires |digits| >= 1 && DigitRun(digits, 10) == |digits|
    requires s == if negated then "-" + digits else digits
    ensures ParseInt(s) == Some(Signed(DigitsValue(digits, 10), negated))
  {
    assert IsDecimalDigit(digits[0]);
    if negated {
      SignOfNegatedDigits(digits);
    } else {
      SignOfDigits(digits);
    }
    DecimalDigitsAreNotHex(digits);
    WholeRunValue(digits);
    ParseOfSignlessDigits(digits, negated);
  }

  /** Reading the sign off digits leaves them, and finds no minus sign. */
  lemma SignOfDigits(digits: string)
    requires |digits| >= 1 && IsDecimalDigit(digits[0])
    ensures SignlessBody(digits) == digits && !IsNegated(digits)
  {
    NothingToTrimStart(digits);
  }

  /** Reading the sign off a minus sign followed by digits leaves the digits, and finds the minus sign. */
  lemma SignOfNegatedDigits(digits: string)
    requires |digits| >= 1 && IsDecimalDigit(digits[0])
    ensures SignlessBody("-" + digits) == digits && IsNegated("-" + digits)
  {
    var s := "-" + digits;
    NothingToTrimStart(s);
    assert s[1..] == digits;
  }

  lemma DecimalDigitsAreNotHex(digits: string)
    requires |digits| >= 1 && DigitRun(digits, 10) == |digits|
    ensures RadixOf(digits) == 10 && HexStripped(digits) == digits
  {
    assert IsDecimalDigit(digits[0]);
  }

  lemma WholeRunValue(digits: string)
    requires DigitRun(digits, 10) == |digits|
    ensures RunValue(digits, 10) == DigitsValue(digits, 10)
  {
    assert digits[..|digits|] == digits;
  }

  /** Once sign and radix are read off, the value is the value of the digit run. */
  lemma ParseOfSignlessDigits(digits: string, negated: bool)
    requires |digits| >= 1 && DigitRun(digits, 10) == |digits|
    requires RadixOf(digits) == 10 && HexStripped(digits) == digits
    requires RunValue(digits, 10) == DigitsValue(digits, 10)
    ensures ParseUnsigned(digits, negated) == Some(Signed(DigitsValue(digits, 10), negated))
  {
  }

  // ------------------------------------------------------------ white space

  /** The characters `String.prototype.trim` removes (WhiteSpace and LineTerminator). */
  predicate IsWhitespace(c: char)
  {
    var k := c as int;
    || (0x09 <= k <= 0x0D) || k == 0x20 || k == 0xA0 || k == 0x1680
    || (0x2000 <= k <= 0x200A) || k == 0x2028 || k == 0x2029 || k == 0x202F
    || k == 0x205F || k == 0x3000 || k == 0xFEFF
  }

  function TrimStart(s: string): (r: string)
    ensures |r| <= |s| && r == s[|s| - |r|..]
    ensures forall i :: 0 <= i < |s| - |r| ==> IsWhitespace(s[i])
    ensures r == [] || !IsWhitespace(r[0])
  {
    if s != [] && IsWhitespace(s[0]) then TrimStart(s[1..]) else s
  }

  function TrimEnd(s: string): (r: string)
    ensures |r| <= |s| && r == s[..|r|]
    ensures forall i :: |r| <= i < |s| ==> IsWhitespace(s[i])
    ensures r == [] || !IsWhitespace(r[|r| - 1])
  {
    if s != [] && IsWhitespace(s[|s| - 1]) then TrimEnd(s[..|s| - 1]) else s
  }

  /** `s.trim()`. */
  function Trim(s: string): string
  {
    TrimEnd(TrimStart(s))
  }

  predicate IsBlank(s: string)
  {
    forall i :: 0 <= i < |s| ==> IsWhitespace(s[i])
  }

  lemma {:induction false} TrimStartOfBlank(s: string)
    requires IsBlank(s)
    ensures TrimStart(s) == []
  {
    if s != [] {
      TrimStartOfBlank(s[1..]);
    }
  }

  /** `s.trim()` is empty exactly when `s` is white space only. */
  lemma TrimEmptyIffBlank(s: string)
    ensures Trim(s) == "" <==> IsBlank(s)
  {
    var t := TrimStart(s);
    if Trim(s) == "" {
      assert IsBlank(t);
    }
    if IsBlank(s) {
      TrimStartOfBlank(s);
    }
  }

  // --------------------------------------------------------- split and join

  /** Index of the last `c` in `s`, or -1. */
  function LastIndexOf(s: string, c: char): (r: int)
    ensures -1 <= r < |s|
    ensures r >= 0 ==> s[r] == c && c !in s[r + 1..]
    ensures r < 0 ==> c !in s
  {
    if s == [] then -1
    else if s[|s| - 1] == c then |s| - 1
    else LastIndexOf(s[..|s| - 1], c)
  }

  /** `s.split(sep)` for a one-character separator. */
  function Split(s: string, sep: char): (parts: seq<string>)
    ensures |parts| >= 1
    decreases |s|
  {
    var j := LastIndexOf(s, sep);
    if j < 0 then [s] else Split(s[..j], sep) + [s[j + 1..]]
  }

  /** No part of a split holds the separator. */
  lemma {:induction false} SplitPartsAreFree(s: string, sep: char)
    ensures forall i :: 0 <= i < |Split(s, sep)| ==> sep !in Split(s, sep)[i]
    decreases |s|
  {
    var j := LastIndexOf(s, sep);
    if j >= 0 {
      SplitPartsAreFree(s[..j], sep);
    }
  }

  /** `parts.join(sep)`. */
  function Join(parts: seq<string>, sep: char): string
  {
    if parts == [] then ""
    else if |parts| == 1 then parts[0]
    else Join(parts[..|parts| - 1], sep) + [sep] + parts[|parts| - 1]
  }

  lemma {:induction false} LastIndexOfAfter(a: string, c: char, b: string)
    requires c !in b
    ensures LastIndexOf(a + [c] + b, c) == |a|
    decreases |b|
  {
    var s := a + [c] + b;
    if b != [] {
      assert s[..|s| - 1] == a + [c] + b[..|b| - 1];
      assert s[|s| - 1] == b[|b| - 1];
      LastIndexOfAfter(a, c, b[..|b| - 1]);
    }
  }

  /** Splitting after a last separator peels off the text behind it. */
  lemma SplitAtLast(a: string, sep: char, b: string)
    requires sep !in b
    ensures Split(a + [sep] + b, sep) == Split(a, sep) + [b]
  {
    var s := a + [sep] + b;
    LastIndexOfAfter(a, sep, b);
    assert s[..|a|] == a;
    assert s[|a| + 1..] == b;
  }

  /** `join` undoes `split`. */
  lemma {:induction false} JoinSplit(s: string, sep: char)
    ensures Join(Split(s, sep), sep) == s
    decreases |s|
  {
    var j := LastIndexOf(s, sep);
    if j >= 0 {
      var parts := Split(s, sep);
      JoinSplit(s[..j], sep);
      assert parts[..|parts| - 1] == Split(s[..j], sep);
      assert s == s[..j] + [sep] + s[j + 1..];
    }
  }

  // ------------------------------------------------------ case and substrings

  /** ASCII lower-casing of one character. */
  function LowerChar(c: char): char
  {
    if 'A' <= c <= 'Z' then (c as int + 32) as char else c
  }

  function ToLower(s: string): (r: string)
    ensures |r| == |s| && forall i :: 0 <= i < |s| ==> r[i] == LowerChar(s[i])
  {
    seq(|s|, i requires 0 <= i < |s| => LowerChar(s[i]))
  }

  predicate StartsWith(s: string, prefix: string)
  {
    |prefix| <= |s| && s[..|prefix|] == prefix
  }

  /** `hay.includes(needle)`. */
  predicate Contains(hay: string, needle: string)
    decreases |hay|
  {
    StartsWith(hay, needle) || (hay != [] && Contains(hay[1..], needle))
  }

  /** `needle` occurs in `hay` at index `i`. */
  predicate OccursAt(hay: string, needle: string, i: int)
  {
    0 <= i && i + |needle| <= |hay| && hay[i..i + |needle|] == needle
  }

  /** The recursive `Contains` is substring occurrence at some index. */
  lemma {:induction false} ContainsAt(hay: string, needle: string)
    ensures Contains(hay, needle) <==> exists i :: OccursAt(hay, needle, i)
    decreases |hay|
  {
    if StartsWith(hay, needle) {
      assert OccursAt(hay, needle, 0);
    }
    if hay != [] {
      ContainsAt(hay[1..], needle);
      if exists i :: OccursAt(hay, needle, i) {
        var i :| OccursAt(hay, needle, i);
        if i > 0 {
          assert hay[1..][i - 1..i - 1 + |needle|] == hay[i..i + |needle|];
          assert OccursAt(hay[1..], needle, i - 1);
        }
      }
      if Contains(hay[1..], needle) {
        var i :| OccursAt(hay[1..], needle, i);
        assert hay[i + 1..i + 1 + |needle|] == hay[1..][i..i + |needle|];
        assert OccursAt(hay, needle, i + 1);
      }
    }
  }

  /** What the handlers mean by "contains, ignoring case". */
  predicate ContainsIgnoringCase(hay: string, needle: string)
  {
    Contains(ToLower(hay), ToLower(needle))
  }

  // ---------------------------------------------------------------- ordering

  /** Code-point order of strings: the order `order('name')` sorts names in. */
  predicate LexLe(a: string, b: string)
    decreases |a|
  {
    a == [] || (b != [] && (a[0] < b[0] || (a[0] == b[0] && LexLe(a[1..], b[1..]))))
  }

  lemma {:induction false} LexLeTotal(a: string, b: string)
    ensures LexLe(a, b) || LexLe(b, a)
    decreases |a|
  {
    if a != [] && b != [] && a[0] == b[0] {
      LexLeTotal(a[1..], b[1..]);
    }
  }

  lemma {:induction false} LexLeTransitive(a: string, b: string, c: string)
    requires LexLe(a, b) && LexLe(b, c)
    ensures LexLe(a, c)
    decreases |a|
  {
    if a != [] && a[0] == b[0] && b[0] == c[0] {
      LexLeTransitive(a[1..], b[1..], c[1..]);
    }
  }
}
