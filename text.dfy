/**
 * The JavaScript string built-ins the validators rely on: `trim`, the
 * regular-expression classes `\s` and `\d`, `replace(/\D/g, "")`,
 * `toLowerCase` on host names, `endsWith` and `Number` on a run of digits.
 */
module Text {

  /** JavaScript white space: the WhiteSpace and LineTerminator code points of
      ECMAScript, which `trim` strips and the class `\s` matches. */
  predicate IsSpace(c: char) {
    || c == '\t' || c == '\n' || c == '\U{000B}' || c == '\U{000C}' || c == '\r' || c == ' '
    || c == '\U{00A0}' || c == '\U{1680}' || ('\U{2000}' <= c <= '\U{200A}')
    || c == '\U{2028}' || c == '\U{2029}' || c == '\U{202F}' || c == '\U{205F}'
    || c == '\U{3000}' || c == '\U{FEFF}'
  }

  /** `\d`: an ASCII digit only. */
  predicate IsDigit(c: char) {
    '0' <= c <= '9'
  }

  predicate IsAsciiLetter(c: char) {
    ('a' <= c <= 'z') || ('A' <= c <= 'Z')
  }

  /** A string made only of white space (the empty string included). */
  predicate IsBlank(s: string) {
    forall i :: 0 <= i < |s| ==> IsSpace(s[i])
  }

  predicate AllDigits(s: string) {
    forall i :: 0 <= i < |s| ==> IsDigit(s[i])
  }

  /** How many white-space characters `s` starts with. */
  function LeadingSpaces(s: string): (n: nat)
    ensures n <= |s| && IsBlank(s[..n])
    ensures n == |s| || !IsSpace(s[n])
  {
    if s != [] && IsSpace(s[0]) then
      var m := LeadingSpaces(s[1..]);
      assert s[..1 + m] == [s[0]] + s[1..][..m];
      BlankCons(s[0], s[1..][..m]);
      assert 1 + m == |s| || s[1 + m] == s[1..][m];
      1 + m
    else 0
  }

  /** How many white-space characters `s` ends with. */
  function TrailingSpaces(s: string): (n: nat)
    ensures n <= |s| && IsBlank(s[|s| - n..])
    ensures n == |s| || !IsSpace(s[|s| - n - 1])
  {
    if s != [] && IsSpace(s[|s| - 1]) then
      var p := s[..|s| - 1];
      var m := TrailingSpaces(p);
      assert s[|s| - (1 + m)..] == p[|p| - m..] + [s[|s| - 1]];
      BlankSnoc(p[|p| - m..], s[|s| - 1]);
      assert 1 + m == |s| || s[|s| - (1 + m) - 1] == p[|p| - m - 1];
      1 + m
    else 0
  }

  /** A string with one more character in front is blank iff that character is white space
      and the rest is blank. */
  lemma BlankCons(c: char, t: string)
    ensures IsBlank([c] + t) <==> IsSpace(c) && IsBlank(t)
  {
    var u := [c] + t;
    assert u[0] == c;
    assert forall k :: 0 <= k < |t| ==> u[k + 1] == t[k];
  }

  /** The same, for one more character at the end. */
  lemma BlankSnoc(t: string, c: char)
    ensures IsBlank(t + [c]) <==> IsBlank(t) && IsSpace(c)
  {
    var u := t + [c];
    assert u[|t|] == c;
    assert forall k :: 0 <= k < |t| ==> u[k] == t[k];
  }

  /** `String.prototype.trim`: starts and ends with a non-space character, and is
      empty exactly when `s` is blank (see TrimCutsBlankEnds for what it keeps). */
  function Trim(s: string): (r: string)
    ensures r == [] || (!IsSpace(r[0]) && !IsSpace(r[|r| - 1]))
    ensures r == [] <==> IsBlank(s)
  {
    var a := LeadingSpaces(s);
    var t := s[a..];
    var b := TrailingSpaces(t);
    var r := t[..|t| - b];
    assert r != [] ==> r[0] == s[a] && r[|r| - 1] == t[|t| - b - 1];
    assert r == [] ==> IsBlank(s) by {
      if r == [] {
        assert t[|t| - b..] == t;
        assert s == s[..a] + t;
      }
    }
    r
  }

  /** What `Trim` keeps is a middle piece of `s`, and what it cuts off is blank. */
  lemma TrimCutsBlankEnds(s: string)
    ensures exists i, j :: 0 <= i <= j <= |s| && Trim(s) == s[i..j] && IsBlank(s[..i]) && IsBlank(s[j..])
  {
    var a := LeadingSpaces(s);
    var t := s[a..];
    var b := TrailingSpaces(t);
    var k := |t| - b;
    assert Trim(s) == t[..k];
    SliceOfSuffix(s, a, k);
    assert IsBlank(s[a + k..]);
    assert 0 <= a <= a + k <= |s| && Trim(s) == s[a..a + k] && IsBlank(s[..a]) && IsBlank(s[a + k..]);
  }

  /** Slicing a suffix of `s` is slicing `s`. */
  lemma SliceOfSuffix(s: string, i: nat, n: nat)
    requires i + n <= |s|
    ensures s[i..][..n] == s[i..i + n] && s[i..][n..] == s[i + n..]
  {
  }

  /** Trim removes exactly blank padding: a piece with non-space ends, padded with white
      space on both sides, comes back as that piece. */
  lemma TrimOfPadded(a: string, m: string, b: string)
    requires IsBlank(a) && IsBlank(b)
    requires m == [] || (!IsSpace(m[0]) && !IsSpace(m[|m| - 1]))
    ensures Trim(a + m + b) == m
  {
    var s := a + m + b;
    if m == [] {
      assert IsBlank(s) by {
        forall k | 0 <= k < |s|
          ensures IsSpace(s[k])
        {
          if k < |a| { assert s[k] == a[k]; } else { assert s[k] == b[k - |a|]; }
        }
      }
    } else {
      LeadingBlankCount(a, m + b);
      assert s == a + (m + b);
      var t := s[|a|..];
      assert t == m + b;
      TrailingBlankCount(m, b);
      assert t[..|t| - |b|] == m;
    }
  }

  lemma LeadingBlankCount(a: string, x: string)
    requires IsBlank(a) && x != [] && !IsSpace(x[0])
    ensures LeadingSpaces(a + x) == |a|
  {
    var s := a + x;
    assert s[|a|] == x[0];
  }

  lemma TrailingBlankCount(y: string, b: string)
    requires IsBlank(b) && y != [] && !IsSpace(y[|y| - 1])
    ensures TrailingSpaces(y + b) == |b|
  {
    var s := y + b;
    var n := TrailingSpaces(s);
    assert s[|y| - 1] == y[|y| - 1];
    assert forall k :: |y| <= k < |s| ==> s[k] == b[k - |y|];
    assert n <= |b| by {
      assert forall k :: |s| - n <= k < |s| ==> IsSpace(s[k]) by {
        forall k | |s| - n <= k < |s|
          ensures IsSpace(s[k])
        {
          assert s[k] == s[|s| - n..][k - (|s| - n)];
        }
      }
    }
  }

  /** A string with no white space at either end is its own trim. */
  lemma TrimOfTrimmed(s: string)
    requires s == [] || (!IsSpace(s[0]) && !IsSpace(s[|s| - 1]))
    ensures Trim(s) == s
  {
    assert s == [] + s + [];
    TrimOfPadded([], s, []);
  }

  /** `replace(/\D/g, "")`: the ASCII digits of `s`, in order. */
  function Digits(s: string): (r: string)
    ensures AllDigits(r) && |r| <= |s|
    ensures AllDigits(s) ==> r == s
  {
    if s == [] then []
    else (if IsDigit(s[0]) then [s[0]] else []) + Digits(s[1..])
  }

  /** Taking the digits commutes with concatenation. */
  lemma {:induction false} DigitsConcat(a: string, b: string)
    ensures Digits(a + b) == Digits(a) + Digits(b)
  {
    if a == [] {
      assert a + b == b;
    } else {
      assert (a + b)[1..] == a[1..] + b;
      DigitsConcat(a[1..], b);
    }
  }

  /** Value of one ASCII digit. */
  function DigitValue(c: char): nat
    requires IsDigit(c)
  {
    c as int - '0' as int
  }

  /** `Number` applied to a run of ASCII digits: its decimal value. */
  function DecimalValue(s: string): (n: nat)
    requires AllDigits(s)
  {
    if s == [] then 0 else 10 * DecimalValue(s[..|s| - 1]) + DigitValue(s[|s| - 1])
  }

  /** A two-digit run read as a number. */
  lemma DecimalValueOfTwo(s: string)
    requires |s| == 2 && AllDigits(s)
    ensures DecimalValue(s) == 10 * DigitValue(s[0]) + DigitValue(s[1])
  {
    var t := s[..1];
    assert t[..0] == [] && t[0] == s[0];
    assert DecimalValue(t) == DigitValue(s[0]);
  }

  /** A four-digit run read as a number. */
  lemma DecimalValueOfFour(s: string)
    requires |s| == 4 && AllDigits(s)
    ensures DecimalValue(s) == 1000 * DigitValue(s[0]) + 100 * DigitValue(s[1]) + 10 * DigitValue(s[2]) + DigitValue(s[3])
  {
    DecimalValueOfTwo(s[..2]);
    assert s[..3][..2] == s[..2];
    assert s[..4] == s;
  }

  function LowerChar(c: char): char {
    if 'A' <= c <= 'Z' then (c as int + 32) as char else c
  }

  /** `toLowerCase` on the ASCII range (host names are ASCII once a URL is parsed). */
  function ToLower(s: string): string {
    seq(|s|, i requires 0 <= i < |s| => LowerChar(s[i]))
  }

  /** Lower-casing twice is lower-casing once. */
  lemma ToLowerIdempotent(s: string)
    ensures ToLower(ToLower(s)) == ToLower(s)
  {
    var t := ToLower(s);
    assert forall i :: 0 <= i < |t| ==> LowerChar(t[i]) == t[i];
  }

  predicate EndsWith(s: string, suffix: string) {
    |suffix| <= |s| && s[|s| - |suffix|..] == suffix
  }
}
