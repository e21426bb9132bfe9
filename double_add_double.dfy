/** Modulus10DoubleAddDouble of identifiers.go: the CUSIP check-digit rule.
    Each of the first eight characters is valued (digits as themselves, 'A' = 10,
    ..., 'Z' = 35), values at odd indices are doubled, and the digits of every
    value are added up; the ninth character must equal 10 minus the last digit
    of that sum. */
module DoubleAddDouble {
  import opened Decimal
  import opened Ascii

  /** q + q/10 + q/100 + ... : what the inner loop of identifiers.go:157 adds. */
  function Quotients(q: nat): nat
    decreases q
  {
    if q == 0 then 0 else q + Quotients(q / 10)
  }

  /** What one value adds to the sum: its last digit, then the quotients of the rest. */
  function Folded(v: nat): nat
  {
    v % 10 + Quotients(v / 10)
  }

  /** The true sum of the decimal digits of v. */
  function DigitSum(v: nat): nat
    decreases v
  {
    if v == 0 then 0 else v % 10 + DigitSum(v / 10)
  }

  /** A character's value, doubled at odd indices. */
  function Weighted(i: nat, c: char): nat
    requires Supported(c)
  {
    if i % 2 != 0 then 2 * CharNum(c) else CharNum(c)
  }

  /** The sum the loop accumulates over `body`, as identifiers.go computes it. */
  function Sum(body: string): nat
    requires AllSupported(body)
  {
    if body == [] then 0
    else Sum(body[..|body| - 1]) + Folded(Weighted(|body| - 1, body[|body| - 1]))
  }

  /** The sum the CUSIP rule asks for: the digit sums of the weighted values. */
  function StandardSum(body: string): nat
    requires AllSupported(body)
  {
    if body == [] then 0
    else StandardSum(body[..|body| - 1]) + DigitSum(Weighted(|body| - 1, body[|body| - 1]))
  }

  /** `cusip[8] - '0'` on a Go byte: unsigned 8-bit subtraction. */
  function CheckValue(c: char): (v: nat)
    requires c as int < 256
    ensures v < 256
    ensures IsDigit(c) ==> v == DigitValue(c)
  {
    (c as int - '0' as int) % 256
  }

  /** What the method needs of its input: supported data characters and a byte as check digit. */
  predicate CheckableCode(cusip: string)
  {
    |cusip| == 9 ==> AllSupported(cusip[..8]) && cusip[8] as int < 256
  }

  /** The verdict of Modulus10DoubleAddDouble as written: a code that is not nine
      characters long passes; otherwise the check value must equal 10 - Sum % 10,
      a number from 1 to 10 (there is no final `mod 10`). */
  predicate CheckDigitMatches(cusip: string)
    requires CheckableCode(cusip)
  {
    |cusip| != 9 || CheckValue(cusip[8]) == 10 - Sum(cusip[..8]) % 10
  }

  /** The loops of identifiers.go:135-162. */
  method Modulus10DoubleAddDouble(cusip: string) returns (ok: bool)
    requires CheckableCode(cusip)
    ensures ok == CheckDigitMatches(cusip)
    ensures |cusip| != 9 ==> ok
    ensures |cusip| == 9 && (forall i :: 0 <= i < 8 ==> CharNum(cusip[i]) < 50) ==>
              (ok <==> CheckValue(cusip[8]) == 10 - StandardSum(cusip[..8]) % 10)
  {
    if |cusip| != 9 {
      return true;
    }
    var checkdigit := (cusip[8] as int - '0' as int) % 256;
    ghost var body := cusip[..8];
    var sum := 0;
    for i := 0 to 8
      invariant sum == Sum(body[..i])
    {
      var c := cusip[i];
      assert c == body[i];
      SumPrefix(body, i);
      var intChar;
      if !IsDigit(c) {
        intChar := c as int - 'A' as int + 10;
      } else {
        intChar := c as int - '0' as int;
      }
      if i % 2 != 0 {
        intChar := intChar * 2;
      }
      ghost var v := intChar;
      assert v == Weighted(i, c);
      sum := sum + intChar % 10;
      intChar := intChar / 10;
      while intChar != 0
        invariant intChar >= 0
        invariant sum + Quotients(intChar) == Sum(body[..i]) + Folded(v)
        decreases intChar
      {
        sum := sum + intChar;
        intChar := intChar / 10;
      }
    }
    assert body[..8] == body;
    ok := checkdigit == 10 - sum % 10;
    BodySumIsStandard(cusip);
  }

  lemma BodySumIsStandard(cusip: string)
    requires |cusip| == 9 && AllSupported(cusip[..8])
    ensures (forall i :: 0 <= i < 8 ==> CharNum(cusip[i]) < 50) ==> Sum(cusip[..8]) == StandardSum(cusip[..8])
  {
    if forall i :: 0 <= i < 8 ==> CharNum(cusip[i]) < 50 {
      var body := cusip[..8];
      assert forall i :: 0 <= i < |body| ==> body[i] == cusip[i];
      SumIsStandard(body);
    }
  }

  /** Adding quotients equals adding digits for values below 100. */
  lemma FoldedIsDigitSum(v: nat)
    requires v < 100
    ensures Folded(v) == DigitSum(v)
  {
    var q := v / 10;
    assert q < 10;
    assert q / 10 == 0;
  }

  /** For digits and upper-case letters the loop computes the CUSIP digit sum. */
  lemma {:induction false} SumIsStandard(body: string)
    requires AllSupported(body)
    requires forall i :: 0 <= i < |body| ==> CharNum(body[i]) < 50
    ensures Sum(body) == StandardSum(body)
  {
    if body != [] {
      var init := body[..|body| - 1];
      assert forall i :: 0 <= i < |init| ==> init[i] == body[i];
      SumIsStandard(init);
      FoldedIsDigitSum(Weighted(|body| - 1, body[|body| - 1]));
    }
  }

  /** Lower-case letters break the equivalence: 'z' (value 67) doubled is 134,
      whose quotients add up to 18 while its digits add up to 8. */
  lemma LowercaseFoldsWrongly()
    ensures Weighted(1, 'z') == 134
    ensures Folded(134) == 18 && DigitSum(134) == 8
  {
  }

  /** The check value is 10 - Sum % 10, never 0, so a '0' check digit always fails. */
  lemma ZeroCheckDigitFails(body: string)
    requires AllSupported(body) && |body| == 8
    ensures !CheckDigitMatches(body + ['0'])
  {
    assert (body + ['0'])[..8] == body;
  }

  /** At most one check character passes: changing only the check digit of a
      passing code makes it fail. */
  lemma AlteredCheckDigitFails(cusip: string, c: char)
    requires |cusip| == 9 && CheckableCode(cusip) && c as int < 256 && c != cusip[8]
    requires CheckDigitMatches(cusip)
    ensures !CheckDigitMatches(cusip[8 := c])
  {
    assert cusip[8 := c][..8] == cusip[..8];
  }

  /** Sum over a prefix grows one character at a time. */
  lemma SumPrefix(s: string, k: nat)
    requires AllSupported(s) && k < |s|
    ensures AllSupported(s[..k]) && AllSupported(s[..k + 1])
    ensures Sum(s[..k + 1]) == Sum(s[..k]) + Folded(Weighted(k, s[k]))
  {
    assert s[..k + 1][..k] == s[..k];
    assert s[..k + 1][k] == s[k];
  }

  /** Sum grows one character at a time. */
  lemma SumSnoc(body: string, c: char, before: nat, after: nat)
    requires AllSupported(body) && Supported(c)
    requires Sum(body) == before && after == before + Folded(Weighted(|body|, c))
    ensures AllSupported(body + [c]) && Sum(body + [c]) == after
  {
    var s := body + [c];
    assert s[..|s| - 1] == body;
  }

  /** Apple's CUSIP 037833100: the sum is 30, the check value 10, and the real
      check digit '0' is rejected. */
  lemma AppleCusipRejected()
    ensures Sum("03783310") == 30
    ensures !CheckDigitMatches("037833100")
  {
    assert "037833100"[..8] == "03783310";
    AppleCusipHead();
    SumSnoc("0378", '3', 20, 23); assert "0378" + ['3'] == "03783";
    SumSnoc("03783", '3', 23, 29); assert "03783" + ['3'] == "037833";
    SumSnoc("037833", '1', 29, 30); assert "037833" + ['1'] == "0378331";
    SumSnoc("0378331", '0', 30, 30); assert "0378331" + ['0'] == "03783310";
  }

  lemma AppleCusipHead()
    ensures Sum("0378") == 20
  {
    SumSnoc("", '0', 0, 0); assert "" + ['0'] == "0";
    SumSnoc("0", '3', 0, 6); assert "0" + ['3'] == "03";
    SumSnoc("03", '7', 6, 13); assert "03" + ['7'] == "037";
    SumSnoc("037", '8', 13, 20); assert "037" + ['8'] == "0378";
  }

  /** Microsoft's CUSIP 594918104 passes: its sum is 36 and its check digit 4. */
  lemma MicrosoftCusipAccepted()
    ensures Sum("59491810") == 36
    ensures CheckDigitMatches("594918104")
  {
    MicrosoftSum();
    assert "594918104"[..8] == "59491810";
  }

  lemma MicrosoftSum()
    ensures Sum("59491810") == 36
  {
    MicrosoftSumHead();
    SumSnoc("5949", '1', 27, 28); assert "5949" + ['1'] == "59491";
    SumSnoc("59491", '8', 28, 35); assert "59491" + ['8'] == "594918";
    SumSnoc("594918", '1', 35, 36); assert "594918" + ['1'] == "5949181";
    SumSnoc("5949181", '0', 36, 36); assert "5949181" + ['0'] == "59491810";
  }

  lemma MicrosoftSumHead()
    ensures Sum("5949") == 27
  {
    SumSnoc("", '5', 0, 5); assert "" + ['5'] == "5";
    SumSnoc("5", '9', 5, 14); assert "5" + ['9'] == "59";
    SumSnoc("59", '4', 14, 18); assert "59" + ['4'] == "594";
    SumSnoc("594", '9', 18, 27); assert "594" + ['9'] == "5949";
  }

  /** The check digit the CUSIP rule intends: (10 - sum % 10) % 10, one decimal digit. */
  function IntendedCheckDigit(body: string): (d: nat)
    requires AllSupported(body)
    ensures d < 10
  {
    (10 - StandardSum(body) % 10) % 10
  }

  /** The corrected check: a nine-character code passes when its last character
      is the decimal digit IntendedCheckDigit of the first eight. */
  predicate IntendedCheckDigitMatches(cusip: string)
    requires CheckableCode(cusip)
  {
    |cusip| != 9 || (IsDigit(cusip[8]) && DigitValue(cusip[8]) == IntendedCheckDigit(cusip[..8]))
  }

  /** Every eight-character body has exactly one decimal check digit under the corrected rule. */
  lemma IntendedCheckDigitUnique(body: string, c: char)
    requires AllSupported(body) && |body| == 8 && IsDigit(c)
    ensures IntendedCheckDigitMatches(body + [c]) <==> DigitValue(c) == IntendedCheckDigit(body)
  {
    assert (body + [c])[..8] == body && (body + [c])[8] == c;
  }

  /** On digit and upper-case codes with a decimal check digit the written rule
      agrees with the corrected one, except when the sum ends in 0: then the
      written rule rejects every decimal check digit. */
  lemma AsWrittenVersusIntended(cusip: string)
    requires |cusip| == 9 && CheckableCode(cusip) && IsDigit(cusip[8])
    requires forall i :: 0 <= i < 8 ==> CharNum(cusip[i]) < 50
    ensures Sum(cusip[..8]) % 10 != 0 ==> (CheckDigitMatches(cusip) <==> IntendedCheckDigitMatches(cusip))
    ensures Sum(cusip[..8]) % 10 == 0 ==> !CheckDigitMatches(cusip)
  {
    BodySumIsStandard(cusip);
  }

  /** Apple's CUSIP passes the corrected rule. */
  lemma AppleCusipIntended()
    ensures IntendedCheckDigitMatches("037833100")
  {
    assert "037833100"[..8] == "03783310";
    SumIsStandard("03783310");
    AppleCusipRejected();
  }
}
