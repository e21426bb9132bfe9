/** ValidLuhn of identifiers.go and its `checksum` closure: the Luhn formula of
    ISO/IEC 7812-1, Annex B, over the decimal digits of an integer. */
module Luhn {

  /** Go's `% 10` and `/ 10` on int truncate toward zero; Dafny's are Euclidean. */
  function GoRem10(a: int): (r: int)
    ensures a >= 0 ==> r == a % 10
    ensures -10 < r < 10 && (r == 0 <==> a % 10 == 0)
  {
    if a >= 0 || a % 10 == 0 then a % 10 else a % 10 - 10
  }

  function GoDiv10(a: int): (q: int)
    ensures a >= 0 ==> q == a / 10
    ensures a <= 0 ==> q <= 0
  {
    if a >= 0 || a % 10 == 0 then a / 10 else a / 10 + 1
  }

  /** A doubled digit above 9 is replaced by the sum of its two digits. */
  function Fold(x: nat): nat
  {
    if x > 9 then x % 10 + x / 10 else x
  }

  /** The contribution of digit d at position p, counted from the least
      significant (check) digit at position 0: odd positions are doubled. */
  function Term(d: nat, p: nat): nat
  {
    if p % 2 == 1 then Fold(2 * d) else d
  }

  /** The Luhn total of the digits of n when its least significant digit sits
      at position p. */
  function Total(n: nat, p: nat): nat
    decreases n
  {
    if n == 0 then 0 else Term(n % 10, p) + Total(n / 10, p + 1)
  }

  /** The Luhn condition: the total over all digits, the check digit included
      undoubled, is a multiple of 10. For a negative number the closure never
      runs, so only the (truncated) last digit counts. */
  predicate IsLuhnValid(n: int)
  {
    if n >= 0 then Total(n, 0) % 10 == 0 else n % 10 == 0
  }

  /** The `checksum` closure: the Luhn total of `number`'s digits with its least
      significant digit doubled, modulo 10; zero when the loop never runs. */
  method Checksum(number: int) returns (r: int)
    ensures r == if number <= 0 then 0 else Total(number, 1) % 10
  {
    var luhn := 0;
    var n := number;
    var i := 0;
    while n > 0
      invariant i >= 0
      invariant number <= 0 ==> n == number && luhn == 0
      invariant number > 0 ==> n >= 0 && luhn + Total(n, i + 1) == Total(number, 1)
      decreases if n > 0 then n else 0
    {
      var cur := n % 10;
      if i % 2 == 0 {
        cur := cur * 2;
        if cur > 9 {
          cur := cur % 10 + cur / 10;
        }
      }
      luhn := luhn + cur;
      n := n / 10;
      i := i + 1;
    }
    r := luhn % 10;
  }

  /** ValidLuhn: the last digit plus the checksum of the rest is 0 modulo 10. */
  method ValidLuhn(number: int) returns (ok: bool)
    ensures ok == IsLuhnValid(number)
  {
    var c := Checksum(GoDiv10(number));
    ok := GoRem10(GoRem10(number) + c) == 0;
    if number > 0 {
      AddMod(number % 10, Total(number / 10, 1));
    }
  }

  lemma AddMod(a: nat, b: nat)
    ensures (a + b % 10) % 10 == (a + b) % 10
  {
  }

  /** Total peels off its least significant digit for every n, zero included. */
  lemma TotalUnfold(n: nat, p: nat)
    ensures Total(n, p) == Term(n % 10, p) + Total(n / 10, p + 1)
  {
  }

  /** The k-th decimal digit of n, counted from the least significant. */
  function DigitAt(n: nat, k: nat): (d: nat)
    ensures d < 10
  {
    if k == 0 then n % 10 else DigitAt(n / 10, k - 1)
  }

  /** n with its k-th digit (from the least significant) replaced by e. */
  function ReplaceDigit(n: nat, k: nat, e: nat): nat
    requires e < 10
  {
    if k == 0 then n / 10 * 10 + e else ReplaceDigit(n / 10, k - 1, e) * 10 + n % 10
  }

  /** Replacing one digit changes the total by exactly the change of that digit's term. */
  lemma {:induction false} TotalReplace(n: nat, p: nat, k: nat, e: nat)
    requires e < 10
    ensures Total(ReplaceDigit(n, k, e), p) + Term(DigitAt(n, k), p + k)
         == Total(n, p) + Term(e, p + k)
    decreases k
  {
    var m := ReplaceDigit(n, k, e);
    TotalUnfold(m, p);
    TotalUnfold(n, p);
    if k == 0 {
      assert m % 10 == e && m / 10 == n / 10;
    } else {
      assert m % 10 == n % 10 && m / 10 == ReplaceDigit(n / 10, k - 1, e);
      TotalReplace(n / 10, p + 1, k - 1, e);
      assert p + 1 + (k - 1) == p + k;
    }
  }

  /** At a fixed position, distinct digits contribute distinct terms modulo 10. */
  lemma TermInjective(d: nat, e: nat, q: nat)
    requires d < 10 && e < 10 && d != e
    ensures Term(d, q) % 10 != Term(e, q) % 10
  {
    if q % 2 == 1 {
      assert forall x: nat :: x < 10 ==> Fold(2 * x) == if x <= 4 then 2 * x else 2 * x - 9;
    }
  }

  /** The Luhn formula detects every single-digit error: if n passes, changing
      any one of its digits (the check digit included) makes it fail. */
  lemma DetectsSingleDigitError(n: nat, k: nat, e: nat)
    requires e < 10 && e != DigitAt(n, k)
    ensures IsLuhnValid(n) ==> !IsLuhnValid(ReplaceDigit(n, k, e))
  {
    TotalReplace(n, 0, k, e);
    TermInjective(DigitAt(n, k), e, k);
    ShiftedSumsDiffer(Total(n, 0), Total(ReplaceDigit(n, k, e), 0), Term(DigitAt(n, k), k), Term(e, k));
  }

  lemma ShiftedSumsDiffer(t: nat, t': nat, a: nat, b: nat)
    requires t' + a == t + b && a % 10 != b % 10
    ensures !(t % 10 == 0 && t' % 10 == 0)
  {
  }

  /** For every payload m there is exactly one check digit that makes 10m + d pass. */
  lemma CheckDigitUnique(m: nat, d: nat)
    requires d < 10
    ensures IsLuhnValid(10 * m + d) <==> d == (10 - Total(m, 1) % 10) % 10
  {
    var n := 10 * m + d;
    assert n % 10 == d && n / 10 == m;
    TotalUnfold(n, 0);
    CheckDigitOfTotal(d, Total(m, 1));
  }

  lemma CheckDigitOfTotal(d: nat, t: nat)
    requires d < 10
    ensures (d + t) % 10 == 0 <==> d == (10 - t % 10) % 10
  {
  }

  /** The textbook example of ISO/IEC 7812-1 passes. */
  lemma TextbookExample()
    ensures IsLuhnValid(79927398713)
  {
    assert Total(7, 10) == 7;
    assert Total(79, 9) == 16;
    assert Total(799, 8) == 25;
    assert Total(7992, 7) == 29;
    assert Total(79927, 6) == 36;
    assert Total(799273, 5) == 42;
    assert Total(7992739, 4) == 51;
    assert Total(79927398, 3) == 58;
    assert Total(799273987, 2) == 65;
    assert Total(7992739871, 1) == 67;
    assert Total(79927398713, 0) == 70;
  }
}
