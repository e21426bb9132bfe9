/** Decimal digit strings: the parts of Go's fmt and strconv packages that the
    validators rely on, for non-negative numbers and a 64-bit `int`. */
module Decimal {
  import opened Results

  /** The largest value of Go's 64-bit `int`. */
  const MaxInt: int := 0x7FFF_FFFF_FFFF_FFFF

  function Pow10(k: nat): (r: nat)
    ensures r >= 1
  {
    if k == 0 then 1 else 10 * Pow10(k - 1)
  }

  predicate IsDigit(c: char) { '0' <= c <= '9' }

  predicate AllDigits(s: string) { forall i :: 0 <= i < |s| ==> IsDigit(s[i]) }

  function DigitValue(c: char): (d: nat)
    requires IsDigit(c)
    ensures d < 10
  {
    c as int - '0' as int
  }

  function DigitChar(d: nat): (c: char)
    requires d < 10
    ensures IsDigit(c) && DigitValue(c) == d
  {
    (d + '0' as int) as char
  }

  /** The number a digit string denotes, most significant digit first. */
  function Value(s: string): nat
    requires AllDigits(s)
  {
    if s == [] then 0 else Value(s[..|s| - 1]) * 10 + DigitValue(s[|s| - 1])
  }

  /** fmt.Sprint of a non-negative integer: its decimal digits, no leading zero. */
  function Format(v: nat): (s: string)
    ensures AllDigits(s) && s != []
  {
    if v < 10 then [DigitChar(v)] else Format(v / 10) + [DigitChar(v % 10)]
  }

  /** strconv.Atoi on a string of decimal digits: the empty string is a
      syntax error, a value above the 64-bit maximum is out of range. */
  function Atoi(s: string): Result<int>
    requires AllDigits(s)
  {
    if s == [] then Err(Syntax)
    else if Value(s) > MaxInt then Err(Overflow)
    else Ok(Value(s))
  }

  /** Formatting and parsing are inverse: Value(Format(v)) == v. */
  lemma {:induction false} FormatRoundTrip(v: nat)
    ensures Value(Format(v)) == v
  {
    if v >= 10 {
      FormatRoundTrip(v / 10);
      var s := Format(v);
      assert s[..|s| - 1] == Format(v / 10);
    }
  }

  /** Appending digits shifts the value of the prefix. */
  lemma {:induction false} ValueAppend(a: string, b: string)
    requires AllDigits(a) && AllDigits(b)
    ensures AllDigits(a + b)
    ensures Value(a + b) == Value(a) * Pow10(|b|) + Value(b)
  {
    assert AllDigits(a + b) by {
      forall i | 0 <= i < |a + b| ensures IsDigit((a + b)[i]) {
        if i < |a| { assert (a + b)[i] == a[i]; } else { assert (a + b)[i] == b[i - |a|]; }
      }
    }
    if b == [] {
      assert a + b == a;
    } else {
      var b' := b[..|b| - 1];
      var last := b[|b| - 1];
      assert (a + b)[..|a + b| - 1] == a + b';
      assert (a + b)[|a + b| - 1] == last;
      ValueAppend(a, b');
      var va, vb', d, p := Value(a), Value(b'), DigitValue(last), Pow10(|b'|);
      assert Value(a + b) == Value(a + b') * 10 + d;
      assert Value(a + b') == va * p + vb';
      MulShift(va, p, vb', d);
    }
  }

  lemma MulShift(va: int, p: int, vb: int, d: int)
    ensures (va * p + vb) * 10 + d == va * (p * 10) + (vb * 10 + d)
  {
  }
}
