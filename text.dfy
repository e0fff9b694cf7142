/**
 * Decimal text as the Python scripts produce and read it: `str(n)` of an
 * integer, `int(s)` of a string of digits, `s.isdigit()` and `s.zfill(width)`.
 * Only the ASCII digits '0'..'9' are digits here.
 */
module Text {

  predicate IsDigit(c: char) {
    '0' <= c <= '9'
  }

  predicate AllDigits(s: string) {
    forall i :: 0 <= i < |s| ==> IsDigit(s[i])
  }

  /** What `s.isdigit()` accepts: a non-empty string of digits. */
  predicate IsNumeral(s: string) {
    |s| > 0 && AllDigits(s)
  }

  function DigitValue(c: char): (d: nat)
    requires IsDigit(c)
    ensures d <= 9
  {
    c as int - '0' as int
  }

  function DigitChar(d: nat): (c: char)
    requires d <= 9
    ensures IsDigit(c) && DigitValue(c) == d
  {
    (d + '0' as int) as char
  }

  /**
   * `int(s)` for a string of digits, leading zeros allowed: a string of k
   * digits denotes a number below 10^k.
   */
  function Value(s: string): (v: nat)
    requires AllDigits(s)
    ensures v < Pow10(|s|)
  {
    if s == [] then 0 else 10 * Value(s[..|s| - 1]) + DigitValue(s[|s| - 1])
  }

  function Pow10(k: nat): (p: nat)
    ensures p >= 1
  {
    if k == 0 then 1 else 10 * Pow10(k - 1)
  }

  /** `str(n)` for a natural number: its decimal digits without leading zeros. */
  function NatToString(n: nat): (s: string)
    ensures IsNumeral(s) && Value(s) == n
    ensures s[0] == '0' ==> s == "0"
  {
    if n < 10 then [DigitChar(n)]
    else
      var init := NatToString(n / 10);
      var s := init + [DigitChar(n % 10)];
      assert s[..|s| - 1] == init;
      s
  }

  /** `str(i)` for any integer: a minus sign in front of a negative number. */
  function IntToString(i: int): (s: string)
    ensures i >= 0 ==> IsNumeral(s) && Value(s) == i
    ensures i < 0 ==> |s| >= 2 && s[0] == '-' && IsNumeral(s[1..]) && Value(s[1..]) == -i
    ensures i >= 0 ==> (s[0] == '0' ==> s == "0")
    ensures i < 0 ==> s[1] != '0'
  {
    if i < 0 then "-" + NatToString(-i) else NatToString(i)
  }

  function Zeros(k: nat): (z: string)
    ensures |z| == k && forall i :: 0 <= i < k ==> z[i] == '0'
  {
    seq(k, _ => '0')
  }

  predicate HasSign(s: string) {
    |s| > 0 && (s[0] == '+' || s[0] == '-')
  }

  /**
   * `s.zfill(width)`: a string shorter than `width` is filled with '0' on the
   * left up to `width` characters, and a leading '+' or '-' stays in front of
   * the fill; a string of `width` characters or more is returned as it is.
   */
  function ZFill(s: string, width: nat): (r: string)
    ensures |r| == if |s| >= width then |s| else width
  {
    if |s| >= width then s
    else if HasSign(s) then [s[0]] + Zeros(width - |s|) + s[1..]
    else Zeros(width - |s|) + s
  }

  /**
   * What `zfill` keeps and what it adds: a string already `width` long is
   * unchanged; otherwise the string ends the result and only '0's precede
   * it, except that a leading sign is moved in front of the '0's.
   */
  lemma ZFillShape(s: string, width: nat)
    ensures var r := ZFill(s, width);
      && (|s| >= width ==> r == s)
      && (!HasSign(s) ==> r[|r| - |s|..] == s && forall i :: 0 <= i < |r| - |s| ==> r[i] == '0')
      && (HasSign(s) ==> r[0] == s[0] && r[|r| - |s| + 1..] == s[1..]
                         && forall i :: 1 <= i < |r| - |s| + 1 ==> r[i] == '0')
  {
  }

  /** Appending a digit multiplies the value by ten and adds the digit. */
  lemma ValueSnoc(s: string, c: char)
    requires AllDigits(s) && IsDigit(c)
    ensures AllDigits(s + [c]) && Value(s + [c]) == 10 * Value(s) + DigitValue(c)
  {
    assert (s + [c])[..|s + [c]| - 1] == s;
  }

  /** Leading zeros do not change the value of a string of digits. */
  lemma {:induction false} ValueOfZeroPadded(k: nat, s: string)
    requires AllDigits(s)
    ensures AllDigits(Zeros(k) + s) && Value(Zeros(k) + s) == Value(s)
  {
    if s == [] {
      assert Zeros(k) + s == Zeros(k);
      ZerosValue(k);
    } else {
      var init := s[..|s| - 1];
      var c := s[|s| - 1];
      assert s == init + [c];
      ValueOfZeroPadded(k, init);
      assert Zeros(k) + s == (Zeros(k) + init) + [c];
      ValueSnoc(Zeros(k) + init, c);
      ValueSnoc(init, c);
    }
  }

  lemma {:induction false} ZerosValue(k: nat)
    ensures AllDigits(Zeros(k)) && Value(Zeros(k)) == 0
  {
    if k > 0 {
      assert Zeros(k)[..k - 1] == Zeros(k - 1);
      ZerosValue(k - 1);
    }
  }

  /** Padding a string of digits keeps it a string of digits with the same value. */
  lemma ZFillDigits(s: string, width: nat)
    requires AllDigits(s)
    ensures AllDigits(ZFill(s, width)) && Value(ZFill(s, width)) == Value(s)
  {
    if |s| < width {
      assert !HasSign(s);
      assert ZFill(s, width) == Zeros(width - |s|) + s;
      ValueOfZeroPadded(width - |s|, s);
    }
  }

  /** A number below 10^k is written with at most k digits. */
  lemma {:induction false} NatToStringLength(n: nat, k: nat)
    requires 1 <= k && n < Pow10(k)
    ensures |NatToString(n)| <= k
  {
    if n >= 10 {
      assert k >= 2;
      NatToStringLength(n / 10, k - 1);
    }
  }
}
