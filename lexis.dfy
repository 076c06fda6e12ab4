/**
 * Character classes, case mapping, whitespace splitting and decimal digits,
 * as bot.py uses them through Python's `str` and `re` modules.
 */
module Lexis {

  // ---------------------------------------------------------------- digits

  /** `\d` of the amount pattern, restricted to the ASCII digits. */
  predicate IsDigit(c: char) {
    '0' <= c <= '9'
  }

  predicate AllDigits(s: string) {
    forall k :: 0 <= k < |s| ==> IsDigit(s[k])
  }

  function DigitOf(c: char): (d: nat)
    requires IsDigit(c)
    ensures d < 10
  {
    c as int - '0' as int
  }

  function DigitChar(d: nat): (c: char)
    requires d < 10
    ensures IsDigit(c) && DigitOf(c) == d
  {
    ('0' as int + d) as char
  }

  /** The value of a string of decimal digits, most significant digit first. */
  function DigitsValue(s: string): nat
    requires AllDigits(s)
  {
    if s == [] then 0 else DigitsValue(s[..|s| - 1]) * 10 + DigitOf(s[|s| - 1])
  }

  /** A string of `n` digits is worth less than `10^n`. */
  lemma {:induction false} DigitsValueBelow(s: string)
    requires AllDigits(s)
    ensures DigitsValue(s) < Pow10(|s|)
  {
    if s != [] {
      var init := s[..|s| - 1];
      DigitsValueBelow(init);
      assert DigitsValue(s) == DigitsValue(init) * 10 + DigitOf(s[|s| - 1]);
      assert DigitsValue(init) * 10 <= (Pow10(|init|) - 1) * 10;
    }
  }

  function Pow10(n: nat): (p: nat)
    ensures p >= 1
  {
    if n == 0 then 1 else 10 * Pow10(n - 1)
  }

  /**
   * `str(n)` for a natural number: a non-empty digit string without a
   * leading zero (except for zero itself).
   */
  function NatText(n: nat): (s: string)
    ensures |s| > 0 && AllDigits(s)
    ensures s[0] == '0' ==> n == 0
  {
    if n < 10 then [DigitChar(n)] else NatText(n / 10) + [DigitChar(n % 10)]
  }

  /** Reading the rendered digits back gives the number again. */
  lemma {:induction false} NatTextValue(n: nat)
    ensures DigitsValue(NatText(n)) == n
  {
    if n >= 10 {
      NatTextValue(n / 10);
      var s := NatText(n);
      assert s[..|s| - 1] == NatText(n / 10);
    }
  }

  // ------------------------------------------------------------ whitespace

  /** The characters Python's `str.isspace` accepts, which `str.split()` separates on. */
  predicate IsSpace(c: char)
    ensures IsSpace(c) ==> !IsDigit(c) && c != '.' && !IsCased(c)
  {
    || c == ' '
    || '\t' <= c <= '\r'
    || '\U{1C}' <= c <= '\U{1F}'
    || c == '\U{85}' || c == '\U{A0}' || c == '\U{1680}'
    || '\U{2000}' <= c <= '\U{200A}'
    || c == '\U{2028}' || c == '\U{2029}' || c == '\U{202F}' || c == '\U{205F}' || c == '\U{3000}'
  }

  predicate NoSpace(s: string) {
    forall k :: 0 <= k < |s| ==> !IsSpace(s[k])
  }

  /** Length of the leading run of non-whitespace characters of `s`. */
  function WordLength(s: string): (n: nat)
    ensures n <= |s|
    ensures NoSpace(s[..n])
    ensures n == |s| || IsSpace(s[n])
  {
    if s == [] || IsSpace(s[0]) then 0 else 1 + WordLength(s[1..])
  }

  /** `s.split()`: the maximal runs of non-whitespace characters, left to right. */
  function Words(s: string): (ws: seq<string>)
    ensures forall k :: 0 <= k < |ws| ==> |ws[k]| > 0 && NoSpace(ws[k])
    decreases |s|
  {
    if s == [] then []
    else if IsSpace(s[0]) then Words(s[1..])
    else
      var n := WordLength(s);
      [s[..n]] + Words(s[n..])
  }

  /** `s` with every whitespace character removed. */
  function Squeeze(s: string): string {
    if s == [] then [] else (if IsSpace(s[0]) then [] else [s[0]]) + Squeeze(s[1..])
  }

  function Concat(ws: seq<string>): string {
    if ws == [] then [] else ws[0] + Concat(ws[1..])
  }

  lemma {:induction false} SqueezeAppend(a: string, b: string)
    ensures Squeeze(a + b) == Squeeze(a) + Squeeze(b)
  {
    if a == [] {
      assert a + b == b;
    } else {
      assert (a + b)[0] == a[0];
      assert (a + b)[1..] == a[1..] + b;
      SqueezeAppend(a[1..], b);
    }
  }

  lemma {:induction false} SqueezeNoSpace(w: string)
    requires NoSpace(w)
    ensures Squeeze(w) == w
  {
    if w != [] {
      SqueezeNoSpace(w[1..]);
    }
  }

  /** Splitting loses no character but the separators: the words, glued together, are `s` without its whitespace. */
  lemma {:induction false} WordsKeepEveryOtherChar(s: string)
    ensures Concat(Words(s)) == Squeeze(s)
    decreases |s|
  {
    if s == [] {
    } else if IsSpace(s[0]) {
      WordsKeepEveryOtherChar(s[1..]);
    } else {
      var n := WordLength(s);
      WordsKeepEveryOtherChar(s[n..]);
      SqueezeNoSpace(s[..n]);
      SqueezeAppend(s[..n], s[n..]);
      assert s[..n] + s[n..] == s;
      assert Words(s)[1..] == Words(s[n..]);
    }
  }

  /** A whitespace character always separates words: the words on either side of it are split independently. */
  lemma {:induction false} WordsAroundSpace(a: string, c: char, b: string)
    requires IsSpace(c)
    ensures Words(a + [c] + b) == Words(a) + Words(b)
    decreases |a|
  {
    var s := a + [c] + b;
    if a == [] {
      assert s[1..] == b;
    } else if IsSpace(a[0]) {
      assert s[1..] == a[1..] + [c] + b;
      WordsAroundSpace(a[1..], c, b);
    } else {
      var n := WordLength(a);
      WordLengthStopsAtSpace(a, c, b);
      assert s[..n] == a[..n];
      assert s[n..] == a[n..] + [c] + b;
      WordsAroundSpace(a[n..], c, b);
    }
  }

  lemma {:induction false} WordLengthStopsAtSpace(a: string, c: char, b: string)
    requires IsSpace(c)
    ensures WordLength(a + [c] + b) == WordLength(a)
    decreases |a|
  {
    var s := a + [c] + b;
    if a != [] && !IsSpace(a[0]) {
      assert s[1..] == a[1..] + [c] + b;
      WordLengthStopsAtSpace(a[1..], c, b);
    }
  }

  /** A non-empty string without whitespace is one word. */
  lemma {:induction false} SingleWord(w: string)
    requires |w| > 0 && NoSpace(w)
    ensures Words(w) == [w]
  {
    assert WordLength(w) == |w|;
    assert w[..|w|] == w;
    assert w[|w|..] == [];
    assert Words(w) == [w[..|w|]] + Words(w[|w|..]);
  }

  // ---------------------------------------------------------- case mapping

  /**
   * `str.upper` on one character, as far as it matters for matching the
   * category names: ASCII letters, and the two non-ASCII letters whose
   * upper case is a single ASCII letter (dotless i and long s).
   */
  function UpperChar(c: char): (r: char)
    ensures 'a' <= c <= 'z' ==> 'A' <= r <= 'Z' && LowerChar(r) == c
    ensures !IsCased(c) && c != '\U{131}' && c != '\U{17F}' ==> r == c
    ensures 'A' <= c <= 'Z' ==> r == c
    ensures 'A' <= r <= 'Z' || r == c
  {
    if 'a' <= c <= 'z' then (c as int - 32) as char
    else if c == '\U{131}' then 'I'
    else if c == '\U{17F}' then 'S'
    else c
  }

  /** `str.lower` on one ASCII character. */
  function LowerChar(c: char): char {
    if 'A' <= c <= 'Z' then (c as int + 32) as char else c
  }

  /** `upper` on a whole string: same length, and applying it again changes nothing. */
  function Upper(s: string): (r: string)
    ensures |r| == |s|
    ensures forall k :: 0 <= k < |r| ==> UpperChar(r[k]) == r[k]
  {
    seq(|s|, k requires 0 <= k < |s| => UpperChar(s[k]))
  }

  function Lower(s: string): string {
    seq(|s|, k requires 0 <= k < |s| => LowerChar(s[k]))
  }

  predicate IsCased(c: char) {
    'a' <= c <= 'z' || 'A' <= c <= 'Z'
  }

  /** `str.title` on ASCII text: a letter is upper-cased after a non-letter and lower-cased after a letter. */
  function Title(s: string): (r: string)
    ensures |r| == |s|
    ensures |s| > 0 ==> r[0] == UpperChar(s[0])
    ensures forall k :: 0 < k < |s| ==> r[k] == (if IsCased(s[k - 1]) then LowerChar(s[k]) else UpperChar(s[k]))
  {
    TitleAfter(s, false)
  }

  function TitleAfter(s: string, afterCased: bool): (r: string)
    ensures |r| == |s|
    ensures |s| > 0 ==> r[0] == (if afterCased then LowerChar(s[0]) else UpperChar(s[0]))
    ensures forall k :: 0 < k < |s| ==> r[k] == (if IsCased(s[k - 1]) then LowerChar(s[k]) else UpperChar(s[k]))
  {
    if s == [] then []
    else [if afterCased then LowerChar(s[0]) else UpperChar(s[0])] + TitleAfter(s[1..], IsCased(s[0]))
  }
}
