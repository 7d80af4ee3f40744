/** The JavaScript string operations the core relies on: ordinal comparison
    (standing in for `localeCompare` on month keys), `String(n)` for a
    non-negative integer, `padStart`, and `trim`. */
module Strings {

  /** Code-point order: `a` sorts strictly before `b`. It agrees with
      JavaScript's code-unit order on the ASCII month keys compared here. */
  predicate LexLess(a: string, b: string)
    decreases |a|
  {
    if a == [] then b != []
    else if b == [] then false
    else if a[0] != b[0] then a[0] < b[0]
    else LexLess(a[1..], b[1..])
  }

  lemma {:induction false} LexLessIrreflexive(a: string)
    ensures !LexLess(a, a)
  {
    if a != [] {
      LexLessIrreflexive(a[1..]);
    }
  }

  lemma {:induction false} LexLessAsymmetric(a: string, b: string)
    requires LexLess(a, b)
    ensures !LexLess(b, a)
  {
    if a != [] && b != [] && a[0] == b[0] {
      LexLessAsymmetric(a[1..], b[1..]);
    }
  }

  lemma {:induction false} LexLessTransitive(a: string, b: string, c: string)
    requires LexLess(a, b) && LexLess(b, c)
    ensures LexLess(a, c)
  {
    if a != [] && b != [] && c != [] && a[0] == b[0] && b[0] == c[0] {
      LexLessTransitive(a[1..], b[1..], c[1..]);
    }
  }

  /** Two different strings are always ordered one way or the other. */
  lemma {:induction false} LexLessTotal(a: string, b: string)
    requires a != b
    ensures LexLess(a, b) || LexLess(b, a)
  {
    if a != [] && b != [] && a[0] == b[0] {
      assert a == [a[0]] + a[1..] && b == [b[0]] + b[1..];
      LexLessTotal(a[1..], b[1..]);
    }
  }

  /** Comparing two strings with prefixes of equal length compares the
      prefixes first and the rest only when the prefixes are equal. */
  lemma {:induction false} LexLessConcat(a: string, b: string, c: string, d: string)
    requires |a| == |b|
    ensures LexLess(a + c, b + d) <==> LexLess(a, b) || (a == b && LexLess(c, d))
  {
    if a == [] {
      assert a + c == c && b + d == d;
    } else {
      assert (a + c)[0] == a[0] && (b + d)[0] == b[0];
      assert (a + c)[1..] == a[1..] + c && (b + d)[1..] == b[1..] + d;
      LexLessConcat(a[1..], b[1..], c, d);
      if a[0] == b[0] {
        assert a == b <==> a[1..] == b[1..] by {
          assert a == [a[0]] + a[1..] && b == [b[0]] + b[1..];
        }
      }
    }
  }

  predicate IsDigit(c: char) {
    '0' <= c <= '9'
  }

  /** The character of a decimal digit. */
  function DigitChar(d: int): (c: char)
    requires 0 <= d < 10
    ensures IsDigit(c)
  {
    (48 + d) as char
  }

  lemma DigitCharOrder(x: int, y: int)
    requires 0 <= x < 10 && 0 <= y < 10
    ensures DigitChar(x) < DigitChar(y) <==> x < y
  {
  }

  /** `String(n)` for a non-negative integer: its decimal digits without
      leading zeros. */
  function NatToString(n: nat): (s: string)
    ensures |s| >= 1
  {
    if n < 10 then [DigitChar(n)] else NatToString(n / 10) + [DigitChar(n % 10)]
  }

  /** The number a string of decimal digits denotes. */
  function DigitsValue(s: string): int
  {
    if s == [] then 0
    else DigitsValue(s[..|s| - 1]) * 10 + (s[|s| - 1] as int - 48)
  }

  /** Reading back what `NatToString` wrote gives the number again, so that
      different numbers are written differently. */
  lemma {:induction false} NatToStringRoundTrip(n: nat)
    ensures DigitsValue(NatToString(n)) == n
  {
    if n >= 10 {
      var s := NatToString(n);
      assert s[..|s| - 1] == NatToString(n / 10);
      NatToStringRoundTrip(n / 10);
    }
  }

  lemma NatToStringInjective(m: nat, n: nat)
    requires NatToString(m) == NatToString(n)
    ensures m == n
  {
    NatToStringRoundTrip(m);
    NatToStringRoundTrip(n);
  }

  function Pow10(w: nat): (p: nat)
    ensures p >= 1
  {
    if w == 0 then 1 else 10 * Pow10(w - 1)
  }

  /** The `w` lowest decimal digits of `n`, most significant first, with
      leading zeros: the fixed-width form of `n`. */
  function FixedDigits(n: nat, w: nat): (s: string)
    ensures |s| == w
  {
    if w == 0 then [] else FixedDigits(n / 10, w - 1) + [DigitChar(n % 10)]
  }

  /** Fixed-width decimal strings sort as the numbers they denote. */
  lemma {:induction false} FixedDigitsOrder(x: nat, y: nat, w: nat)
    requires x < Pow10(w) && y < Pow10(w)
    ensures LexLess(FixedDigits(x, w), FixedDigits(y, w)) <==> x < y
    ensures FixedDigits(x, w) == FixedDigits(y, w) <==> x == y
  {
    if w == 0 {
      assert x == 0 && y == 0;
    } else {
      var a, b := FixedDigits(x / 10, w - 1), FixedDigits(y / 10, w - 1);
      var c, d := [DigitChar(x % 10)], [DigitChar(y % 10)];
      FixedDigitsOrder(x / 10, y / 10, w - 1);
      LexLessConcat(a, b, c, d);
      DigitCharOrder(x % 10, y % 10);
      assert LexLess(c, d) <==> x % 10 < y % 10 by {
        assert c[1..] == [] && d[1..] == [];
      }
      assert x < y <==> x / 10 < y / 10 || (x / 10 == y / 10 && x % 10 < y % 10);
      if a + c == b + d {
        assert a == (a + c)[..w - 1] && b == (b + d)[..w - 1];
        assert c[0] == (a + c)[w - 1] && d[0] == (b + d)[w - 1];
      }
    }
  }

  /** A number with exactly `w` digits is written in its fixed-width form. */
  lemma {:induction false} NatToStringFixed(n: nat, w: nat)
    requires 1 <= w && Pow10(w - 1) <= n < Pow10(w)
    ensures NatToString(n) == FixedDigits(n, w)
  {
    if w == 1 {
      assert n < 10;
      assert FixedDigits(n / 10, 0) == [];
    } else {
      assert Pow10(w - 1) == 10 * Pow10(w - 2);
      assert n >= 10;
      assert Pow10(w - 2) <= n / 10 < Pow10(w - 1);
      NatToStringFixed(n / 10, w - 1);
    }
  }

  /** `s.padStart(width, fill)`: `fill` repeated in front of `s` up to
      `width` characters. */
  function PadStart(s: string, width: nat, fill: char): (r: string)
    ensures |r| == if |s| < width then width else |s|
    ensures forall i :: 0 <= i < |s| ==> r[|r| - |s| + i] == s[i]
    ensures forall i :: 0 <= i < |r| - |s| ==> r[i] == fill
  {
    if |s| >= width then s else seq(width - |s|, _ => fill) + s
  }

  /** Any number below 100 padded to two characters is its two-digit form. */
  lemma TwoDigitPad(n: nat)
    requires n < 100
    ensures PadStart(NatToString(n), 2, '0') == FixedDigits(n, 2)
  {
    if n < 10 {
      assert FixedDigits(n, 2) == FixedDigits(0, 1) + [DigitChar(n)];
      assert FixedDigits(0, 1) == ['0'];
    } else {
      NatToStringFixed(n, 2);
    }
  }

  /** The characters `String.prototype.trim` removes: ECMAScript's
      WhiteSpace (including every Unicode space separator) and
      LineTerminator code points. */
  predicate IsJsWhitespace(c: char) {
    || c == '\t' || c == '\U{000B}' || c == '\U{000C}' || c == ' '
    || c == '\U{00A0}' || c == '\U{FEFF}' || c == '\U{1680}'
    || ('\U{2000}' <= c <= '\U{200A}')
    || c == '\U{202F}' || c == '\U{205F}' || c == '\U{3000}'
    || c == '\n' || c == '\r' || c == '\U{2028}' || c == '\U{2029}'
  }

  predicate AllWhitespace(s: string) {
    forall i :: 0 <= i < |s| ==> IsJsWhitespace(s[i])
  }

  /** The index of the first character at or after `i` that is not
      whitespace, or `|s|` when there is none. */
  function SkipWhitespace(s: string, i: nat): (k: nat)
    requires i <= |s|
    ensures i <= k <= |s|
    ensures forall j :: i <= j < k ==> IsJsWhitespace(s[j])
    ensures k < |s| ==> !IsJsWhitespace(s[k])
    decreases |s| - i
  {
    if i < |s| && IsJsWhitespace(s[i]) then SkipWhitespace(s, i + 1) else i
  }

  /** The index just after the last character before `j` that is not
      whitespace, or 0 when there is none. */
  function SkipWhitespaceBack(s: string, j: nat): (k: nat)
    requires j <= |s|
    ensures k <= j
    ensures forall m :: k <= m < j ==> IsJsWhitespace(s[m])
    ensures 0 < k ==> !IsJsWhitespace(s[k - 1])
  {
    if 0 < j && IsJsWhitespace(s[j - 1]) then SkipWhitespaceBack(s, j - 1) else j
  }

  /** `s.trimStart()`: what is left after the leading whitespace. */
  function TrimStart(s: string): (r: string)
    ensures |r| <= |s|
    ensures r != [] ==> !IsJsWhitespace(r[0])
    ensures r == [] <==> AllWhitespace(s)
  {
    s[SkipWhitespace(s, 0)..]
  }

  /** `s.trimEnd()`: what is left before the trailing whitespace. */
  function TrimEnd(s: string): (r: string)
    ensures |r| <= |s|
    ensures r != [] ==> r[0] == s[0] && !IsJsWhitespace(r[|r| - 1])
    ensures r == [] <==> AllWhitespace(s)
  {
    s[..SkipWhitespaceBack(s, |s|)]
  }

  /** `trimStart` removes exactly a whitespace prefix: `s` is some
      whitespace followed by the result. */
  lemma TrimStartDropsLeadingWhitespace(s: string)
    ensures var k := |s| - |TrimStart(s)|; AllWhitespace(s[..k]) && s[..k] + TrimStart(s) == s
  {
    var k := SkipWhitespace(s, 0);
    assert s[..k] + s[k..] == s;
  }

  /** `trimEnd` removes exactly a whitespace suffix: `s` is the result
      followed by some whitespace. */
  lemma TrimEndDropsTrailingWhitespace(s: string)
    ensures var k := |TrimEnd(s)|; AllWhitespace(s[k..]) && TrimEnd(s) + s[k..] == s
  {
    var k := SkipWhitespaceBack(s, |s|);
    assert s[..k] + s[k..] == s;
  }

  /** `s.trim()`: the middle of `s` once the whitespace at both ends is
      removed. The result neither starts nor ends with whitespace, and it is
      empty exactly when `s` is all whitespace. */
  function Trim(s: string): (r: string)
    ensures |r| <= |s|
    ensures r != [] ==> !IsJsWhitespace(r[0]) && !IsJsWhitespace(r[|r| - 1])
    ensures r == [] <==> AllWhitespace(s)
  {
    var t := TrimStart(s);
    assert t != [] ==> !AllWhitespace(t) by {
      if t != [] { assert !IsJsWhitespace(t[0]); }
    }
    TrimEnd(t)
  }

  /** `trim` keeps the middle of `s`: what it drops is whitespace in front
      and whitespace behind. */
  lemma TrimKeepsMiddle(s: string)
    ensures var pre := |s| - |TrimStart(s)|; var post := pre + |Trim(s)|;
      AllWhitespace(s[..pre]) && AllWhitespace(s[post..]) && Trim(s) == s[pre..post]
  {
    var a := SkipWhitespace(s, 0);
    var t := s[a..];
    var b := SkipWhitespaceBack(t, |t|);
    assert Trim(s) == t[..b] == s[a..a + b];
    assert forall i :: a + b <= i < |s| ==> s[i] == t[i - a];
  }

  /** Trimming twice is trimming once. */
  lemma TrimIdempotent(s: string)
    ensures Trim(Trim(s)) == Trim(s)
  {
    var r := Trim(s);
    if r != [] {
      assert TrimStart(r) == r;
      assert TrimEnd(r) == r;
    }
  }
}
