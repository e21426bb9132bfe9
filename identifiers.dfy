/** The three entry points of identifiers.go. Each one cuts its input down to
    the canonical code, may accept a vendor (Bloomberg) style code outright,
    and otherwise runs a checksum; it returns the canonical code or an error. */
module Identifiers {
  import opened Results
  import opened Decimal
  import opened Ascii
  import opened Luhn
  import opened DoubleAddDouble

  /** FIGI: at least 12 characters; the first 12 are the code, and the Luhn
      formula is applied to the letter expansion of characters 3 to 11 only. */
  function FIGI(figi: string): (r: Result<string>)
    requires |figi| >= 12 ==> AllSupported(figi[3..12])
    ensures r == if |figi| < 12 then Err(TooShort)
                 else if IsLuhnValid(NumValue(figi[3..12])) then Ok(figi[..12])
                 else Err(ChecksumFailed)
  {
    if |figi| < 12 then Err(TooShort)
    else
      var code := figi[..12];
      assert code[3..12] == figi[3..12];
      NineCharsConvert(code[3..12]);
      match AsciiValue(code[3..12])
      case Err(e) => Err(e)
      case Ok(n) => if !IsLuhnValid(n) then Err(ChecksumFailed) else Ok(code)
  }

  /** ISIN: at least 12 characters; the first 12 are the code. A code starting
      with "BBG" is accepted as is, and so is one whose letter expansion
      overflows int; otherwise the Luhn formula decides, over the expansion of
      all 12 characters as ISO 6166 prescribes. */
  function ISIN(isin: string): (r: Result<string>)
    requires |isin| >= 12 && isin[..3] != "BBG" ==> AllSupported(isin[..12])
    ensures r == if |isin| < 12 then Err(TooShort)
                 else if isin[..3] == "BBG" then Ok(isin[..12])
                 else if NumValue(isin[..12]) > MaxInt then Ok(isin[..12])
                 else if IsLuhnValid(NumValue(isin[..12])) then Ok(isin[..12])
                 else Err(ChecksumFailed)
  {
    if |isin| < 12 then Err(TooShort)
    else
      var code := isin[..12];
      assert code[..3] == isin[..3];
      if code[..3] == "BBG" then Ok(code)
      else
        AsciiMeaning(code);
        match AsciiValue(code)
        case Err(Overflow) => Ok(code)
        case Err(e) => Err(e)
        case Ok(n) => if !IsLuhnValid(n) then Err(ChecksumFailed) else Ok(code)
  }

  /** CUSIP: at least 8 characters; the code is the whole input when it has
      exactly 8, else its first 9. A code starting with "BL" is accepted as is;
      otherwise the Modulus 10 Double Add Double check decides, and it passes
      every 8-character code. */
  function CUSIP(cusip: string): (r: Result<string>)
    requires |cusip| >= 9 && cusip[..2] != "BL" ==> AllSupported(cusip[..8]) && cusip[8] as int < 256
    ensures |cusip| < 8 ==> r == Err(TooShort)
    ensures |cusip| == 8 ==> r == Ok(cusip)
    ensures |cusip| >= 9 ==>
              r == if cusip[..2] == "BL" || CheckValue(cusip[8]) == 10 - Sum(cusip[..8]) % 10
                   then Ok(cusip[..9]) else Err(ChecksumFailed)
  {
    if |cusip| < 8 then Err(TooShort)
    else
      var code := if |cusip| == 8 then cusip[..8] else cusip[..9];
      assert code[..2] == cusip[..2];
      assert |cusip| == 8 ==> code == cusip;
      assert |cusip| >= 9 ==> code[..8] == cusip[..8] && code[8] == cusip[8];
      if code[..2] == "BL" then Ok(code)
      else if !CheckDigitMatches(code) then Err(ChecksumFailed)
      else Ok(code)
  }

  /** Characters after the first 12 never change what FIGI returns. */
  lemma FigiIgnoresSuffix(figi: string, extra: string)
    requires |figi| >= 12 && AllSupported(figi[3..12])
    ensures (figi + extra)[3..12] == figi[3..12]
    ensures FIGI(figi + extra) == FIGI(figi) == FIGI(figi[..12])
  {
    assert (figi + extra)[3..12] == figi[3..12];
    assert (figi + extra)[..12] == figi[..12];
    assert figi[..12][3..12] == figi[3..12];
    assert figi[..12][..12] == figi[..12];
  }

  /** The first three characters of a FIGI never decide acceptance. */
  lemma FigiIgnoresPrefix(a: string, b: string)
    requires |a| >= 12 && |b| >= 12 && a[3..12] == b[3..12] && AllSupported(a[3..12])
    ensures FIGI(a).Ok? == FIGI(b).Ok?
    ensures FIGI(a).Err? ==> FIGI(b) == FIGI(a)
  {
  }

  /** Characters after the first 12 never change what ISIN returns. */
  lemma IsinIgnoresSuffix(isin: string, extra: string)
    requires |isin| >= 12 && (isin[..3] != "BBG" ==> AllSupported(isin[..12]))
    ensures (isin + extra)[..12] == isin[..12]
    ensures ISIN(isin + extra) == ISIN(isin) == ISIN(isin[..12])
  {
    assert (isin + extra)[..12] == isin[..12];
    assert isin[..12][..12] == isin[..12];
  }

  /** An ISIN made of upper-case letters is accepted whatever its check digit:
      its expansion overflows int and the overflow is taken as a pass. */
  lemma IsinLettersAccepted(isin: string)
    requires |isin| >= 12 && AllLetters(isin[..12])
    ensures ISIN(isin) == Ok(isin[..12])
  {
    TwelveLettersOverflow(isin[..12]);
  }

  /** Characters after the ninth never change what CUSIP returns. */
  lemma CusipIgnoresSuffix(cusip: string, extra: string)
    requires |cusip| >= 9 && (cusip[..2] != "BL" ==> AllSupported(cusip[..8]) && cusip[8] as int < 256)
    ensures (cusip + extra)[..9] == cusip[..9]
    ensures CUSIP(cusip + extra) == CUSIP(cusip) == CUSIP(cusip[..9])
  {
    assert (cusip + extra)[..9] == cusip[..9];
    assert (cusip + extra)[..8] == cusip[..8];
    assert (cusip + extra)[..2] == cusip[..2];
    assert cusip[..9][..8] == cusip[..8];
    assert cusip[..9][..2] == cusip[..2];
    assert cusip[..9][..9] == cusip[..9];
    assert cusip[..9][8] == cusip[8];
  }

  lemma ExpansionOf000B()
    ensures AllSupported("000B") && NumValue("000B") == 11
  {
    NumValueSnoc("", '0', 0, 0); assert "" + ['0'] == "0";
    NumValueSnoc("0", '0', 0, 0); assert "0" + ['0'] == "00";
    NumValueSnoc("00", '0', 0, 0); assert "00" + ['0'] == "000";
    NumValueSnoc("000", 'B', 0, 11); assert "000" + ['B'] == "000B";
  }

  /** The Luhn expansion of characters 3 to 11 of the FIGI BBG000BLNNH6. */
  lemma ExpansionOfBLNNH6(body: string)
    requires body == "000BLNNH6"
    ensures AllSupported(body) && NumValue(body) == 11212323176
  {
    ExpansionOf000B();
    NumValueSnoc("000B", 'L', 11, 1121); assert "000B" + ['L'] == "000BL";
    NumValueSnoc("000BL", 'N', 1121, 112123); assert "000BL" + ['N'] == "000BLN";
    NumValueSnoc("000BLN", 'N', 112123, 11212323); assert "000BLN" + ['N'] == "000BLNN";
    NumValueSnoc("000BLNN", 'H', 11212323, 1121232317); assert "000BLNN" + ['H'] == "000BLNNH";
    NumValueSnoc("000BLNNH", '6', 1121232317, 11212323176); assert "000BLNNH" + ['6'] == body;
  }

  /** The Luhn expansion of characters 3 to 11 of the FIGI BBG000B9XRY4. */
  lemma ExpansionOfB9XRY4(body: string)
    requires body == "000B9XRY4"
    ensures AllSupported(body) && NumValue(body) == 1193327344
  {
    ExpansionOf000B();
    NumValueSnoc("000B", '9', 11, 119); assert "000B" + ['9'] == "000B9";
    NumValueSnoc("000B9", 'X', 119, 11933); assert "000B9" + ['X'] == "000B9X";
    NumValueSnoc("000B9X", 'R', 11933, 1193327); assert "000B9X" + ['R'] == "000B9XR";
    NumValueSnoc("000B9XR", 'Y', 1193327, 119332734); assert "000B9XR" + ['Y'] == "000B9XRY";
    NumValueSnoc("000B9XRY", '4', 119332734, 1193327344); assert "000B9XRY" + ['4'] == body;
  }

  /** FIGI as written rejects the genuine FIGIs BBG000BLNNH6 and BBG000B9XRY4. */
  lemma FigiRejectsGenuineCodes(figi: string)
    requires figi == "BBG000BLNNH6" || figi == "BBG000B9XRY4"
    ensures AllSupported(figi[3..12]) && FIGI(figi) == Err(ChecksumFailed)
  {
    var body := figi[3..12];
    if figi == "BBG000BLNNH6" {
      assert body == "000BLNNH6";
      ExpansionOfBLNNH6(body);
      LuhnFails11212323176(NumValue(body));
    } else {
      assert body == "000B9XRY4";
      ExpansionOfB9XRY4(body);
      LuhnFails1193327344(NumValue(body));
    }
  }

  lemma LuhnFails11212323176(n: int)
    requires n == 11212323176
    ensures !IsLuhnValid(n)
  {
    assert Total(1, 10) == 1;
    assert Total(11, 9) == 3;
    assert Total(112, 8) == 5;
    assert Total(1121, 7) == 7;
    assert Total(11212, 6) == 9;
    assert Total(112123, 5) == 15;
    assert Total(1121232, 4) == 17;
    assert Total(11212323, 3) == 23;
    assert Total(112123231, 2) == 24;
    assert Total(1121232317, 1) == 29;
    assert Total(11212323176, 0) == 35;
  }

  lemma LuhnFails1193327344(n: int)
    requires n == 1193327344
    ensures !IsLuhnValid(n)
  {
    assert Total(1, 9) == 2;
    assert Total(11, 8) == 3;
    assert Total(119, 7) == 12;
    assert Total(1193, 6) == 15;
    assert Total(11933, 5) == 21;
    assert Total(119332, 4) == 23;
    assert Total(1193327, 3) == 28;
    assert Total(11933273, 2) == 31;
    assert Total(119332734, 1) == 39;
    assert Total(1193327344, 0) == 43;
  }

  /** FIGI's check as the FIGI standard defines it: the last of the 12
      characters is the decimal check digit of the double-add-double sum over
      the other 11 (the rule CUSIP uses, with the final mod 10). */
  function FigiIntended(figi: string): (r: Result<string>)
    requires |figi| >= 12 ==> AllSupported(figi[..11])
    ensures |figi| < 12 ==> r == Err(TooShort)
    ensures r.Ok? ==> r.value == figi[..12]
    ensures |figi| >= 12 ==>
              (r.Ok? <==> IsDigit(figi[11]) && DigitValue(figi[11]) == IntendedCheckDigit(figi[..11]))
  {
    if |figi| < 12 then Err(TooShort)
    else
      var code := figi[..12];
      var body := code[..11];
      assert body == figi[..11];
      if IsDigit(code[11]) && DigitValue(code[11]) == IntendedCheckDigit(body) then Ok(code)
      else Err(ChecksumFailed)
  }

  /** The standard FIGI check accepts both genuine codes that FIGI rejects. */
  lemma FigiIntendedAcceptsGenuineCodes()
    ensures FigiIntended("BBG000BLNNH6") == Ok("BBG000BLNNH6")
    ensures FigiIntended("BBG000B9XRY4") == Ok("BBG000B9XRY4")
  {
    GenuineFigiSums();
    assert "BBG000BLNNH6"[..12] == "BBG000BLNNH6" && "BBG000BLNNH6"[..11] == "BBG000BLNNH";
    assert "BBG000B9XRY4"[..12] == "BBG000B9XRY4" && "BBG000B9XRY4"[..11] == "BBG000B9XRY";
  }

  /** Under the standard FIGI check, the first 11 characters admit exactly one
      check character: two accepted codes that differ at most in their last
      character are equal. */
  lemma FigiIntendedCheckDigitUnique(a: string, b: string)
    requires |a| >= 12 && |b| >= 12 && a[..11] == b[..11] && AllSupported(a[..11])
    requires FigiIntended(a).Ok? && FigiIntended(b).Ok?
    ensures a[..12] == b[..12]
  {
    assert DigitValue(a[11]) == DigitValue(b[11]);
    assert a[..12] == a[..11] + [a[11]] && b[..12] == b[..11] + [b[11]];
  }

  /** The double-add-double sums of the first 11 characters of the two genuine FIGIs. */
  lemma GenuineFigiSums()
    ensures AllSupported("BBG000BLNNH") && StandardSum("BBG000BLNNH") == 44
    ensures AllSupported("BBG000B9XRY") && StandardSum("BBG000B9XRY") == 46
  {
    FigiSumBBG000B();
    FigiSumBLNNH();
    FigiSum9XRY();
    UpperCaseSumIsStandard("BBG000BLNNH");
    UpperCaseSumIsStandard("BBG000B9XRY");
  }

  lemma FigiSumBLNNH()
    requires Sum("BBG000B") == 15
    ensures Sum("BBG000BLNNH") == 44
  {
    SumSnoc("BBG000B", 'L', 15, 21); assert "BBG000B" + ['L'] == "BBG000BL";
    SumSnoc("BBG000BL", 'N', 21, 26); assert "BBG000BL" + ['N'] == "BBG000BLN";
    SumSnoc("BBG000BLN", 'N', 26, 36); assert "BBG000BLN" + ['N'] == "BBG000BLNN";
    SumSnoc("BBG000BLNN", 'H', 36, 44); assert "BBG000BLNN" + ['H'] == "BBG000BLNNH";
  }

  lemma FigiSum9XRY()
    requires Sum("BBG000B") == 15
    ensures Sum("BBG000B9XRY") == 46
  {
    SumSnoc("BBG000B", '9', 15, 24); assert "BBG000B" + ['9'] == "BBG000B9";
    SumSnoc("BBG000B9", 'X', 24, 30); assert "BBG000B9" + ['X'] == "BBG000B9X";
    SumSnoc("BBG000B9X", 'R', 30, 39); assert "BBG000B9X" + ['R'] == "BBG000B9XR";
    SumSnoc("BBG000B9XR", 'Y', 39, 46); assert "BBG000B9XR" + ['Y'] == "BBG000B9XRY";
  }

  lemma FigiSumBBG000B()
    ensures Sum("BBG000B") == 15
  {
    assert Folded(Weighted(0, 'B')) == 2;
    SumSnoc("", 'B', 0, 2); assert "" + ['B'] == "B";
    SumSnoc("B", 'B', 2, 6); assert "B" + ['B'] == "BB";
    SumSnoc("BB", 'G', 6, 13); assert "BB" + ['G'] == "BBG";
    SumSnoc("BBG", '0', 13, 13); assert "BBG" + ['0'] == "BBG0";
    SumSnoc("BBG0", '0', 13, 13); assert "BBG0" + ['0'] == "BBG00";
    SumSnoc("BBG00", '0', 13, 13); assert "BBG00" + ['0'] == "BBG000";
    SumSnoc("BBG000", 'B', 13, 15); assert "BBG000" + ['B'] == "BBG000B";
  }

  /** Sum and StandardSum agree on digits and upper-case letters. */
  lemma UpperCaseSumIsStandard(body: string)
    requires forall i :: 0 <= i < |body| ==> IsDigit(body[i]) || 'A' <= body[i] <= 'Z'
    ensures AllSupported(body) && Sum(body) == StandardSum(body)
  {
    SumIsStandard(body);
  }

  /** Apple's ISIN US0378331005 passes the Luhn check over its expansion. */
  lemma AppleIsinAccepted(isin: string)
    requires isin == "US0378331005"
    ensures ISIN(isin) == Ok(isin)
  {
    var code := isin[..12];
    assert code == isin && code[..3] == "US0";
    AppleIsinExpansion(code);
    AppleIsinLuhn(NumValue(code));
  }

  /** The Luhn expansion of Apple's ISIN. */
  lemma AppleIsinExpansion(code: string)
    requires code == "US0378331005"
    ensures AllSupported(code) && NumValue(code) == 30280378331005
  {
    AppleIsinExpansionHead();
    NumValueSnoc("US0378", '3', 30280378, 302803783); assert "US0378" + ['3'] == "US03783";
    NumValueSnoc("US03783", '3', 302803783, 3028037833); assert "US03783" + ['3'] == "US037833";
    NumValueSnoc("US037833", '1', 3028037833, 30280378331); assert "US037833" + ['1'] == "US0378331";
    NumValueSnoc("US0378331", '0', 30280378331, 302803783310); assert "US0378331" + ['0'] == "US03783310";
    NumValueSnoc("US03783310", '0', 302803783310, 3028037833100); assert "US03783310" + ['0'] == "US037833100";
    NumValueSnoc("US037833100", '5', 3028037833100, 30280378331005); assert "US037833100" + ['5'] == code;
  }

  lemma AppleIsinExpansionHead()
    ensures NumValue("US0378") == 30280378
  {
    NumValueSnoc("", 'U', 0, 30); assert "" + ['U'] == "U";
    NumValueSnoc("U", 'S', 30, 3028); assert "U" + ['S'] == "US";
    NumValueSnoc("US", '0', 3028, 30280); assert "US" + ['0'] == "US0";
    NumValueSnoc("US0", '3', 30280, 302803); assert "US0" + ['3'] == "US03";
    NumValueSnoc("US03", '7', 302803, 3028037); assert "US03" + ['7'] == "US037";
    NumValueSnoc("US037", '8', 3028037, 30280378); assert "US037" + ['8'] == "US0378";
  }

  lemma AppleIsinLuhn(n: int)
    requires n == 30280378331005
    ensures IsLuhnValid(n)
  {
    assert Total(3, 13) == 6;
    assert Total(30, 12) == 6;
    assert Total(302, 11) == 10;
    assert Total(3028, 10) == 18;
    assert Total(30280, 9) == 18;
    assert Total(302803, 8) == 21;
    assert Total(3028037, 7) == 26;
    assert Total(30280378, 6) == 34;
    assert Total(302803783, 5) == 40;
    assert Total(3028037833, 4) == 43;
    assert Total(30280378331, 3) == 45;
    assert Total(302803783310, 2) == 45;
    assert Total(3028037833100, 1) == 45;
    assert Total(30280378331005, 0) == 50;
  }

  /** CUSIP as written rejects Apple's genuine CUSIP 037833100, and it accepts
      Microsoft's 594918104 and the 8-character 03783310 without any check. */
  lemma CusipExamples()
    ensures CUSIP("037833100") == Err(ChecksumFailed)
    ensures CUSIP("037833101") == Err(ChecksumFailed)
    ensures CUSIP("594918104extra") == Ok("594918104")
    ensures CUSIP("03783310") == Ok("03783310")
  {
    AppleCusipRejected();
    MicrosoftCusipAccepted();
    assert "037833100"[..8] == "03783310" && "037833100"[..9] == "037833100" && "037833100"[..2] == "03";
    assert "037833101"[..8] == "03783310" && "037833101"[..9] == "037833101" && "037833101"[..2] == "03";
    assert "594918104extra"[..8] == "59491810" && "594918104extra"[..9] == "594918104";
    assert "594918104extra"[..2] == "59";
  }
}
