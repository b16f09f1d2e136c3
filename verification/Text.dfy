/** Searching, splitting and decimal numerals over byte strings.

    A byte string is a Dafny string whose characters stand for the byte values.
 */
module Text {
  datatype Option<+T> = None | Some(value: T)

  predicate OccursAt(s: string, pat: string, k: int) {
    0 <= k <= |s| - |pat| && s[k..k + |pat|] == pat
  }

  /** The first occurrence of `pat` at or after `from`, or -1. */
  function Find(s: string, pat: string, from: nat): (i: int)
    requires from <= |s|
    ensures i == -1 || (from <= i && OccursAt(s, pat, i))
    ensures forall k | from <= k && OccursAt(s, pat, k) :: 0 <= i <= k
    decreases |s| - from
  {
    if OccursAt(s, pat, from) then from
    else if from == |s| then -1
    else Find(s, pat, from + 1)
  }

  lemma OccursChars(s: string, pat: string)
    ensures forall k, j {:trigger OccursAt(s, pat, k), pat[j]} | OccursAt(s, pat, k) && 0 <= j < |pat| ::
        s[k + j] == pat[j]
  {
    forall k, j | OccursAt(s, pat, k) && 0 <= j < |pat| ensures s[k + j] == pat[j] {
      assert s[k..k + |pat|][j] == s[k + j];
    }
  }

  ghost predicate Free(s: string, c: char) {
    forall k | 0 <= k < |s| :: s[k] != c
  }

  /** A one-character search finds the end of the part free of that character. */
  lemma FindChar(left: string, c: char, right: string)
    requires Free(left, c)
    ensures Find(left + [c] + right, [c], 0) == |left|
  {
    var s := left + [c] + right;
    assert OccursAt(s, [c], |left|);
    OccursChars(s, [c]);
    forall k | 0 <= k && OccursAt(s, [c], k) ensures |left| <= k {
      assert s[k + 0] == [c][0];
    }
  }

  // --- Decimal numerals ------------------------------------------------------

  predicate IsDigit(c: char) { '0' <= c <= '9' }

  predicate AllDigits(s: string) { forall k | 0 <= k < |s| :: IsDigit(s[k]) }

  function DigitChar(d: nat): char
    requires d < 10
  {
    '0' + d as char
  }

  function DigitValue(c: char): nat
    requires IsDigit(c)
  {
    (c - '0') as nat
  }

  function Decimal(n: nat): (s: string)
    ensures |s| > 0 && AllDigits(s)
    ensures |s| > 1 ==> s[0] != '0'
    ensures n > 0 ==> s[0] != '0'
  {
    if n < 10 then [DigitChar(n)] else Decimal(n / 10) + [DigitChar(n % 10)]
  }

  function DecimalValue(s: string): nat
    requires AllDigits(s)
  {
    if s == "" then 0
    else 10 * DecimalValue(s[..|s| - 1]) + DigitValue(s[|s| - 1])
  }

  /** The canonical numeral grammar `0|[1-9][0-9]*`. */
  predicate CanonicalNumeral(s: string) {
    |s| > 0 && AllDigits(s) && (|s| > 1 ==> s[0] != '0')
  }

  lemma {:induction false} DecimalRoundTrip(n: nat)
    ensures DecimalValue(Decimal(n)) == n
  {
    var s := Decimal(n);
    if n < 10 {
      assert s[..|s| - 1] == "";
    } else {
      assert s[..|s| - 1] == Decimal(n / 10);
      DecimalRoundTrip(n / 10);
    }
  }

  /** Canonical numerals are exactly the printed ones. */
  lemma {:induction false} DecimalOfValue(s: string)
    requires CanonicalNumeral(s)
    ensures Decimal(DecimalValue(s)) == s
  {
    hide Decimal;
    var front, last := s[..|s| - 1], DigitValue(s[|s| - 1]);
    if |s| == 1 {
      assert front == "" && DecimalValue(s) == last;
      DecimalDigit(last);
    } else {
      DecimalOfValue(front);
      DecimalZero();
      assert Decimal(DecimalValue(front))[0] == s[0];
      DecimalAppend(DecimalValue(front), last);
      assert s == front + [s[|s| - 1]];
    }
  }

  lemma DecimalDigit(d: nat)
    requires d < 10
    ensures Decimal(d) == [DigitChar(d)]
  {
  }

  lemma DecimalZero()
    ensures Decimal(0) == "0"
  {
  }

  lemma DecimalAppend(n: nat, d: nat)
    requires n > 0 && d < 10
    ensures Decimal(10 * n + d) == Decimal(n) + [DigitChar(d)]
  {
  }

  function Pow10(k: nat): nat { if k == 0 then 1 else 10 * Pow10(k - 1) }

  lemma {:induction false} DecimalLength(n: nat, k: nat)
    requires k > 0 && n < Pow10(k)
    ensures |Decimal(n)| <= k
    decreases k
  {
    if n >= 10 {
      DecimalLength(n / 10, k - 1);
    }
  }
}
