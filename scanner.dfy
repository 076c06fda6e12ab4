/**
 * The amount extraction of `echo`: the first match of the regular
 * expression `\d*\.?\d+` in a message, and the exact decimal value of the matched text.
 */
module Scanner {
  import opened Options
  import opened Lexis

  /** The half-open span [start, end) of a match inside the message. */
  datatype Span = Span(start: nat, end: nat)

  /**
   * The strings that `\d*\.?\d+` matches in full, described without
   * reference to how a matcher finds them: digits and at most one point,
   * ending in a digit.
   */
  ghost predicate IsNumeral(t: string) {
    && |t| > 0
    && IsDigit(t[|t| - 1])
    && (forall k :: 0 <= k < |t| ==> IsDigit(t[k]) || t[k] == '.')
    && (forall k, l :: 0 <= k < l < |t| && t[k] == '.' ==> t[l] != '.')
  }

  /** A match can begin at `i`: a digit, or a point followed by a digit. */
  predicate CanStart(s: string, i: nat) {
    i < |s| && (IsDigit(s[i]) || (s[i] == '.' && i + 1 < |s| && IsDigit(s[i + 1])))
  }

  /** The end of the maximal run of digits that begins at `i`. */
  function DigitRunEnd(s: string, i: nat): (k: nat)
    requires i <= |s|
    ensures i <= k <= |s|
    ensures forall m :: i <= m < k ==> IsDigit(s[m])
    ensures k == |s| || !IsDigit(s[k])
    decreases |s| - i
  {
    if i < |s| && IsDigit(s[i]) then DigitRunEnd(s, i + 1) else i
  }

  /**
   * Where the greedy match that begins at `i` ends: a maximal digit run,
   * then, only when a digit follows it, a point and a second maximal digit run.
   */
  function MatchEnd(s: string, i: nat): (e: nat)
    requires CanStart(s, i)
    ensures i < e <= |s|
    ensures e == |s| || !IsDigit(s[e])
  {
    var k := DigitRunEnd(s, i);
    if k + 1 < |s| && s[k] == '.' && IsDigit(s[k + 1]) then DigitRunEnd(s, k + 1) else k
  }

  /** The leftmost match at or after `i`. */
  function FirstMatchFrom(s: string, i: nat): (r: Option<Span>)
    requires i <= |s|
    ensures r.None? ==> forall m :: i <= m < |s| ==> !CanStart(s, m)
    ensures r.Some? ==>
              && i <= r.value.start
              && CanStart(s, r.value.start)
              && r.value.end == MatchEnd(s, r.value.start)
              && forall m :: i <= m < r.value.start ==> !CanStart(s, m)
    decreases |s| - i
  {
    if i == |s| then None
    else if CanStart(s, i) then Some(Span(i, MatchEnd(s, i)))
    else FirstMatchFrom(s, i + 1)
  }

  /** The first match of the amount pattern, as a span of `s`; `None` when `findall` finds nothing. */
  function FirstMatch(s: string): (r: Option<Span>)
    ensures r.None? <==> forall m :: 0 <= m < |s| ==> !CanStart(s, m)
    ensures r.Some? ==> r.value.start < r.value.end <= |s| && CanStart(s, r.value.start)
  {
    FirstMatchFrom(s, 0)
  }

  /** Every full match of the pattern begins where `CanStart` holds. */
  lemma NumeralBeginsAtStart(s: string, i: nat, j: nat)
    requires i <= j <= |s| && IsNumeral(s[i..j])
    ensures CanStart(s, i)
  {
    var t := s[i..j];
    assert t[0] == s[i];
    if s[i] == '.' {
      assert t[1] == s[i + 1];
    }
  }

  /** The greedy match is a full match of the pattern. */
  lemma MatchIsNumeral(s: string, i: nat)
    requires CanStart(s, i)
    ensures IsNumeral(s[i..MatchEnd(s, i)])
  {
    var k := DigitRunEnd(s, i);
    var e := MatchEnd(s, i);
    var t := s[i..e];
    assert forall m :: 0 <= m < |t| ==> t[m] == s[i + m];
    if k + 1 < |s| && s[k] == '.' && IsDigit(s[k + 1]) {
      assert forall m :: 0 <= m < |t| && m != k - i ==> IsDigit(t[m]);
    } else {
      assert forall m :: 0 <= m < |t| ==> IsDigit(t[m]);
    }
  }

  /** No longer match begins where the greedy match begins. */
  lemma MatchIsLongest(s: string, i: nat, j: nat)
    requires CanStart(s, i) && MatchEnd(s, i) < j <= |s|
    ensures !IsNumeral(s[i..j])
  {
    var k := DigitRunEnd(s, i);
    var e := MatchEnd(s, i);
    var t := s[i..j];
    if k + 1 < |s| && s[k] == '.' && IsDigit(s[k + 1]) {
      // the character after the second digit run is neither a digit nor a second point
      assert t[k - i] == '.' && t[e - i] == s[e];
    } else if s[k] != '.' {
      assert t[k - i] == s[k];
    } else if j == k + 1 {
      assert t[|t| - 1] == '.';
    } else {
      assert t[k - i] == '.' && t[k + 1 - i] == s[k + 1];
    }
  }

  /** Some substring of `s` is a full match of the pattern: `re.findall` returns a non-empty list. */
  ghost predicate HasNumeral(s: string) {
    exists i, j :: 0 <= i <= j <= |s| && IsNumeral(s[i..j])
  }

  /**
   * `s[i..j]` is the leftmost-longest full match: no full match begins
   * before `i`, and none that begins at `i` runs past `j`.
   */
  ghost predicate LeftmostLongest(s: string, i: nat, j: nat) {
    && i <= j <= |s|
    && IsNumeral(s[i..j])
    && (forall i', j' :: 0 <= i' < i && i' <= j' <= |s| ==> !IsNumeral(s[i'..j']))
    && (forall j' :: j < j' <= |s| ==> !IsNumeral(s[i..j']))
  }

  /**
   * The span `FirstMatch` picks is the leftmost-longest full match of the
   * pattern, and there is none at all exactly when it gives `None`.
   */
  lemma FirstMatchIsLeftmostLongest(s: string)
    ensures FirstMatch(s).None? <==> !HasNumeral(s)
    ensures FirstMatch(s).Some? ==> LeftmostLongest(s, FirstMatch(s).value.start, FirstMatch(s).value.end)
  {
    forall i, j | 0 <= i <= j <= |s| && IsNumeral(s[i..j])
      ensures CanStart(s, i)
    {
      NumeralBeginsAtStart(s, i, j);
    }
    if FirstMatch(s).Some? {
      var sp := FirstMatch(s).value;
      MatchIsNumeral(s, sp.start);
      forall j | sp.end < j <= |s|
        ensures !IsNumeral(s[sp.start..j])
      {
        MatchIsLongest(s, sp.start, j);
      }
    }
  }

  /** Conversely, the leftmost-longest full match is the one `FirstMatch` picks: the characterisation is exact. */
  lemma LeftmostLongestIsFirstMatch(s: string, i: nat, j: nat)
    requires LeftmostLongest(s, i, j)
    ensures FirstMatch(s) == Some(Span(i, j))
  {
    FirstMatchIsLeftmostLongest(s);
    var sp := FirstMatch(s).value;
    assert sp.start <= i;
    assert i <= sp.start;
    assert sp.end <= j;
    assert j <= sp.end;
  }

  /** The first amount of the message, as the exact decimal value of the first match; `None` when there is no match. */
  function FirstAmount(s: string): (r: Option<real>)
    ensures r.Some? ==> r.value >= 0.0
  {
    match FirstMatch(s)
    case None => None
    case Some(sp) =>
      MatchIsNumeral(s, sp.start);
      Some(NumeralValue(s[sp.start..sp.end]))
  }

  /** The amount read is present exactly when the message has a match, and it is the value of the leftmost-longest one. */
  lemma FirstAmountIsLeftmostLongest(s: string)
    ensures FirstAmount(s).Some? <==> HasNumeral(s)
    ensures forall i: nat, j: nat :: LeftmostLongest(s, i, j) ==> FirstAmount(s) == Some(NumeralValue(s[i..j]))
  {
    FirstMatchIsLeftmostLongest(s);
    forall i: nat, j: nat | LeftmostLongest(s, i, j)
      ensures FirstAmount(s) == Some(NumeralValue(s[i..j]))
    {
      LeftmostLongestIsFirstMatch(s, i, j);
    }
  }

  /** Index of the first point of `t`, or `|t|` when it has none. */
  function PointIndex(t: string): (p: nat)
    ensures p <= |t|
    ensures forall k :: 0 <= k < p ==> t[k] != '.'
    ensures p < |t| ==> t[p] == '.'
  {
    if t == [] || t[0] == '.' then 0 else 1 + PointIndex(t[1..])
  }

  lemma WholePlusFraction(w: nat, n: nat, d: nat)
    requires n < d
    ensures (w as real + n as real / d as real).Floor == w
  {
    assert 0.0 <= n as real / d as real < 1.0;
  }

  /**
   * The exact decimal value of a full match `t` (what `float` rounds to a
   * double): the integer part plus the fraction digits over a power of ten.
   */
  function NumeralValue(t: string): (v: real)
    requires IsNumeral(t)
    ensures v >= 0.0
    ensures AllDigits(t[..PointIndex(t)]) && v.Floor == DigitsValue(t[..PointIndex(t)])
  {
    var p := PointIndex(t);
    assert AllDigits(t[..p]);
    var whole := DigitsValue(t[..p]) as real;
    if p == |t| then whole
    else
      var f := t[p + 1..];
      assert AllDigits(f) by {
        forall m | 0 <= m < |f| ensures IsDigit(f[m]) {
          assert f[m] == t[p + 1 + m];
        }
      }
      DigitsValueBelow(f);
      WholePlusFraction(DigitsValue(t[..p]), DigitsValue(f), Pow10(|f|));
      whole + DigitsValue(f) as real / Pow10(|f|) as real
  }

  /** The rendering of a whole number is matched in full and read back as that number. */
  lemma {:induction false} NatTextIsNumeral(n: nat)
    ensures IsNumeral(NatText(n)) && NumeralValue(NatText(n)) == n as real
  {
    var t := NatText(n);
    assert PointIndex(t) == |t|;
    assert t[..|t|] == t;
    NatTextValue(n);
  }

  lemma Examples()
    ensures FirstMatch("1.2.3") == Some(Span(0, 3))
    ensures FirstMatch("5.") == Some(Span(0, 1))
    ensures FirstMatch("spent .5") == Some(Span(6, 8))
    ensures FirstMatch("lunch") == None
  {
  }

  lemma AmountExample()
    ensures FirstAmount("12.50 on food") == Some(12.5)
  {
    assert FirstMatch("12.50 on food") == Some(Span(0, 5));
    assert "12.50 on food"[0..5] == "12.50";
    assert PointIndex("12.50") == 2;
    assert "12.50"[..2] == "12" && "12.50"[3..] == "50";
    assert DigitsValue("12") == 12 && DigitsValue("50") == 50 && Pow10(2) == 100;
  }
}
