/**
 * `isNumeric` from src/helpers.ts: the whole text must match
 * `^[+-]?\d+(\.\d+)?([Ee][+-]?\d+)?$`. `isUrl` is the foreign `Host.isUrl`.
 *
 * `IsNumeric` is written as the greedy scanner a reader would write by hand;
 * `NumericGrammar` is the regular expression read as a grammar over split points,
 * and `IsNumericMatchesGrammar` proves the two agree on every text.
 */
module Helpers {

  predicate IsDigit(c: char) { '0' <= c <= '9' }
  predicate IsSign(c: char) { c == '+' || c == '-' }
  predicate IsExponentMark(c: char) { c == 'e' || c == 'E' }

  /** The end of the run of digits that starts at `i`. */
  function DigitsEnd(s: string, i: nat): (j: nat)
    requires i <= |s|
    ensures i <= j <= |s|
    ensures forall k :: i <= k < j ==> IsDigit(s[k])
    ensures j == |s| || !IsDigit(s[j])
    decreases |s| - i
  {
    if i < |s| && IsDigit(s[i]) then DigitsEnd(s, i + 1) else i
  }

  /** Where the optional `\.\d+` that may start at `j` ends (`j` itself when it is absent). */
  function FractionEnd(s: string, j: nat): (k: nat)
    requires j <= |s|
    ensures j <= k <= |s|
    ensures k > j ==> IsDigit(s[k - 1])
  {
    if j < |s| && s[j] == '.' && DigitsEnd(s, j + 1) > j + 1 then DigitsEnd(s, j + 1) else j
  }

  /** Where the optional `[Ee][+-]?\d+` that may start at `k` ends (`k` itself when it is absent). */
  function ExponentEnd(s: string, k: nat): (m: nat)
    requires k <= |s|
    ensures k <= m <= |s|
    ensures m > k ==> IsDigit(s[m - 1])
  {
    if k < |s| && IsExponentMark(s[k]) then
      var d := if k + 1 < |s| && IsSign(s[k + 1]) then k + 2 else k + 1;
      if DigitsEnd(s, d) > d then DigitsEnd(s, d) else k
    else k
  }

  /** `isNumeric(value)` for `value` already converted with `String(value)`. */
  predicate IsNumeric(s: string): (b: bool)
    ensures b ==> s != [] && (IsDigit(s[0]) || IsSign(s[0])) && IsDigit(s[|s| - 1])
  {
    var i := if |s| > 0 && IsSign(s[0]) then 1 else 0;
    var j := DigitsEnd(s, i);
    j > i && ExponentEnd(s, FractionEnd(s, j)) == |s|
  }

  // The regular expression, piece by piece.

  predicate AllDigits(t: string) { |t| >= 1 && forall k :: 0 <= k < |t| ==> IsDigit(t[k]) }
  predicate OptSign(t: string) { t == "" || (|t| == 1 && IsSign(t[0])) }
  predicate OptFraction(t: string) { t == "" || (t[0] == '.' && AllDigits(t[1..])) }
  predicate OptExponent(t: string) {
    t == "" ||
    (|t| >= 2 && IsExponentMark(t[0]) &&
     (AllDigits(t[1..]) || (IsSign(t[1]) && AllDigits(t[2..]))))
  }

  /** `s` splits at `a <= b <= c` into sign, integer digits, fraction and exponent. */
  predicate SplitsAsNumber(s: string, a: nat, b: nat, c: nat) {
    a <= b <= c <= |s| &&
    OptSign(s[..a]) && AllDigits(s[a..b]) && OptFraction(s[b..c]) && OptExponent(s[c..])
  }

  ghost predicate NumericGrammar(s: string) {
    exists a: nat, b: nat, c: nat :: SplitsAsNumber(s, a, b, c)
  }

  /** A digit run that stops at a non-digit (or the end) is exactly what `DigitsEnd` finds. */
  lemma {:induction false} DigitsEndExact(s: string, i: nat, j: nat)
    requires i <= j <= |s|
    requires forall k :: i <= k < j ==> IsDigit(s[k])
    requires j == |s| || !IsDigit(s[j])
    ensures DigitsEnd(s, i) == j
    decreases j - i
  {
    if i < j { DigitsEndExact(s, i + 1, j); }
  }

  /** Every text the scanner accepts splits as the regular expression demands. */
  lemma ScannerSound(s: string)
    requires IsNumeric(s)
    ensures NumericGrammar(s)
  {
    var a := if |s| > 0 && IsSign(s[0]) then 1 else 0;
    var b := DigitsEnd(s, a);
    var c := FractionEnd(s, b);
    DigitRun(s, a, b);
    FractionSound(s, b);
    ExponentSound(s, c);
    assert SplitsAsNumber(s, a, b, c);
  }

  /** A non-empty run of digits is `\d+`. */
  lemma DigitRun(s: string, i: nat, j: nat)
    requires i < j <= |s|
    requires forall k :: i <= k < j ==> IsDigit(s[k])
    ensures AllDigits(s[i..j])
  {
    forall k | 0 <= k < j - i ensures IsDigit(s[i..j][k]) { assert s[i..j][k] == s[i + k]; }
  }

  /** What the scanner takes as the fraction is `(\.\d+)?`. */
  lemma FractionSound(s: string, j: nat)
    requires j <= |s|
    ensures OptFraction(s[j..FractionEnd(s, j)])
  {
    var k := FractionEnd(s, j);
    if k > j {
      DigitRun(s, j + 1, k);
      assert s[j..k][1..] == s[j + 1..k];
    }
  }

  /** What the scanner takes as the exponent, when it reaches the end, is `([Ee][+-]?\d+)?`. */
  lemma ExponentSound(s: string, k: nat)
    requires k <= |s| && ExponentEnd(s, k) == |s|
    ensures OptExponent(s[k..])
  {
    if k < |s| {
      var d := if k + 1 < |s| && IsSign(s[k + 1]) then k + 2 else k + 1;
      DigitRun(s, d, |s|);
      assert s[k..][1..] == s[k + 1..];
      if d == k + 2 { assert s[k..][2..] == s[k + 2..]; }
    }
  }

  /** The integer digits of a split stop exactly where the scanner stops them. */
  lemma IntegerPartFound(s: string, a: nat, b: nat, c: nat)
    requires SplitsAsNumber(s, a, b, c)
    ensures a == (if |s| > 0 && IsSign(s[0]) then 1 else 0)
    ensures DigitsEnd(s, a) == b
  {
    assert s[a..b][0] == s[a];
    if a == 1 { assert s[..a][0] == s[0]; }
    forall k | a <= k < b ensures IsDigit(s[k]) { assert s[a..b][k - a] == s[k]; }
    if b < |s| {
      if b < c { assert s[b..c][0] == s[b]; } else { assert s[c..][0] == s[b]; }
    }
    DigitsEndExact(s, a, b);
  }

  /** The fraction of a split ends exactly where the scanner ends it. */
  lemma FractionPartFound(s: string, a: nat, b: nat, c: nat)
    requires SplitsAsNumber(s, a, b, c)
    ensures FractionEnd(s, b) == c
  {
    if b < c {
      assert s[b..c][0] == s[b];
      forall k | b + 1 <= k < c ensures IsDigit(s[k]) { assert s[b..c][1..][k - b - 1] == s[k]; }
      if c < |s| { assert s[c..][0] == s[c]; }
      DigitsEndExact(s, b + 1, c);
    } else if b < |s| {
      assert s[c..][0] == s[b];
    }
  }

  /** The exponent of a split runs to the end of the text, as the scanner finds. */
  lemma ExponentPartFound(s: string, a: nat, b: nat, c: nat)
    requires SplitsAsNumber(s, a, b, c)
    ensures ExponentEnd(s, c) == |s|
  {
    if c < |s| {
      var t := s[c..];
      assert t[0] == s[c] && t[1] == s[c + 1];
      if IsSign(s[c + 1]) {
        assert !IsDigit(t[1..][0]);
        forall k | c + 2 <= k < |s| ensures IsDigit(s[k]) { assert t[2..][k - c - 2] == s[k]; }
        DigitsEndExact(s, c + 2, |s|);
      } else {
        assert AllDigits(t[1..]);
        forall k | c + 1 <= k < |s| ensures IsDigit(s[k]) { assert t[1..][k - c - 1] == s[k]; }
        DigitsEndExact(s, c + 1, |s|);
      }
    }
  }

  /** The scanner accepts exactly the texts the regular expression matches. */
  lemma IsNumericMatchesGrammar(s: string)
    ensures IsNumeric(s) <==> NumericGrammar(s)
  {
    if IsNumeric(s) { ScannerSound(s); }
    if NumericGrammar(s) {
      var a: nat, b: nat, c: nat :| SplitsAsNumber(s, a, b, c);
      IntegerPartFound(s, a, b, c);
      FractionPartFound(s, a, b, c);
      ExponentPartFound(s, a, b, c);
    }
  }

  /** Texts the source's callers pass that are numeric. */
  lemma NumericAccepted()
    ensures IsNumeric("42") && IsNumeric("-1.5e+10") && IsNumeric("+0E7")
  {
    assert DigitsEnd("42", 0) == 2;
  }

  /** Texts that only come close: empty, a bare dot, a bare exponent, blanks around the digits, or a word. */
  lemma NumericRejected()
    ensures !IsNumeric("") && !IsNumeric("1.") && !IsNumeric(".5")
    ensures !IsNumeric(" 1") && !IsNumeric("1 ") && !IsNumeric("undefined") && !IsNumeric("1e")
  {
  }
}
