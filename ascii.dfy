/** The `ascii` helper of identifiers.go: each character is replaced by its
    decimal value (a digit by itself, any other character by its code minus 55,
    so 'A' is 10 and 'Z' is 35), the pieces are concatenated and the resulting
    digit string is parsed with strconv.Atoi. */
module Ascii {
  import opened Results
  import opened Decimal

  /** The characters this model covers: '0' (code 48) up to DEL (code 127).
      Every one of them expands to unsigned decimal digits. */
  predicate Supported(c: char) { 48 <= c as int <= 127 }

  predicate AllSupported(s: string) { forall i :: 0 <= i < |s| ==> Supported(s[i]) }

  /** The value a character stands for: digits are themselves, every other
      supported character is its code minus 55 ('A' = 10, ..., 'Z' = 35). */
  function CharNum(c: char): (v: nat)
    requires Supported(c)
    ensures IsDigit(c) ==> v == DigitValue(c)
    ensures 'A' <= c <= 'Z' ==> v == c as int - 'A' as int + 10
    ensures v < 100
  {
    if IsDigit(c) then DigitValue(c) else c as int - 55
  }

  /** The power of ten by which a character shifts the digits before it:
      10 when CharNum(c) takes one digit, 100 when it takes two. */
  function Scale(c: char): nat
    requires Supported(c)
  {
    if CharNum(c) < 10 then 10 else 100
  }

  /** Reference meaning of the expansion, by arithmetic alone: each character
      shifts what came before by its width and adds its value. */
  function NumValue(s: string): nat
    requires AllSupported(s)
  {
    if s == [] then 0
    else NumValue(s[..|s| - 1]) * Scale(s[|s| - 1]) + CharNum(s[|s| - 1])
  }

  /** The digits the loop of `ascii` appends for one character. */
  function Piece(c: char): (p: string)
    requires Supported(c)
    ensures AllDigits(p)
  {
    if IsDigit(c) then [c] else Format(c as int - 55)
  }

  /** The digit string `ascii` builds before parsing it. */
  function Expansion(s: string): (e: string)
    requires AllSupported(s)
    ensures AllDigits(e)
  {
    if s == [] then []
    else
      var e := Expansion(s[..|s| - 1]);
      ValueAppend(e, Piece(s[|s| - 1]));
      e + Piece(s[|s| - 1])
  }

  /** What `ascii` returns. */
  function AsciiValue(s: string): Result<int>
    requires AllSupported(s)
  {
    Atoi(Expansion(s))
  }

  /** One character's piece denotes CharNum and takes the digits Scale allows for. */
  lemma PieceValue(c: char)
    requires Supported(c)
    ensures Value(Piece(c)) == CharNum(c) && Pow10(|Piece(c)|) == Scale(c)
  {
    if !IsDigit(c) {
      var v := c as int - 55;
      FormatRoundTrip(v);
      if v >= 10 {
        assert Format(v) == Format(v / 10) + [DigitChar(v % 10)];
        assert |Format(v / 10)| == 1;
      }
    } else {
      assert Piece(c)[..0] == [];
    }
  }

  /** The expansion denotes NumValue, and it is empty only for the empty input. */
  lemma {:induction false} ExpansionValue(s: string)
    requires AllSupported(s)
    ensures Value(Expansion(s)) == NumValue(s)
    ensures |Expansion(s)| >= |s|
  {
    if s != [] {
      var init, last := s[..|s| - 1], s[|s| - 1];
      ExpansionValue(init);
      PieceValue(last);
      ValueAppend(Expansion(init), Piece(last));
    }
  }

  /** `ascii` on supported input fails with a syntax error exactly on the empty
      string and with an overflow exactly when the value exceeds the int maximum;
      otherwise it returns NumValue. */
  lemma AsciiMeaning(s: string)
    requires AllSupported(s)
    ensures AsciiValue(s) == if s == [] then Err(Syntax)
                             else if NumValue(s) > MaxInt then Err(Overflow)
                             else Ok(NumValue(s))
  {
    ExpansionValue(s);
  }

  /** Every character takes at most two digits, so k characters stay below 10^(2k). */
  lemma {:induction false} NumValueBound(s: string)
    requires AllSupported(s)
    ensures NumValue(s) < Pow10(2 * |s|)
  {
    if s != [] {
      var init, last := s[..|s| - 1], s[|s| - 1];
      NumValueBound(init);
      var x, p, v := NumValue(init), Scale(last), CharNum(last);
      assert Pow10(2 * |s|) == Pow10(2 * |init|) * 100;
      ShiftBound(x, Pow10(2 * |init|), p, v);
    }
  }

  lemma ShiftBound(x: nat, b: nat, p: nat, v: nat)
    requires x < b && (p == 10 || p == 100) && v < p
    ensures x * p + v < b * 100
  {
  }

  lemma Pow10Eighteen()
    ensures Pow10(18) == 1_000_000_000_000_000_000
  {
    assert Pow10(6) == 1_000_000;
    assert Pow10(12) == 1_000_000_000_000;
  }

  /** Nine characters (the part of a FIGI that is converted) never overflow. */
  lemma NineCharsConvert(s: string)
    requires AllSupported(s) && |s| == 9
    ensures AsciiValue(s) == Ok(NumValue(s))
  {
    NumValueBound(s);
    AsciiMeaning(s);
    assert 2 * |s| == 18;
    assert Pow10(18) <= MaxInt by { Pow10Eighteen(); }
  }

  /** NumValue grows one character at a time. */
  lemma NumValueSnoc(s: string, c: char, before: nat, after: nat)
    requires AllSupported(s) && Supported(c)
    requires NumValue(s) == before && after == before * Scale(c) + CharNum(c)
    ensures AllSupported(s + [c]) && NumValue(s + [c]) == after
  {
    var t := s + [c];
    assert t[..|t| - 1] == s && t[|t| - 1] == c;
    assert AllSupported(t) by {
      forall i | 0 <= i < |t| ensures Supported(t[i]) {
        if i < |s| { assert t[i] == s[i]; }
      }
    }
    assert NumValue(t) == NumValue(s) * Scale(c) + CharNum(c);
  }

  predicate AllLetters(s: string) { forall i :: 0 <= i < |s| ==> 'A' <= s[i] <= 'Z' }

  /** A non-empty string of upper-case letters expands to exactly 2k digits, the first non-zero. */
  lemma {:induction false} LettersLowerBound(s: string)
    requires AllLetters(s) && s != []
    ensures AllSupported(s) && NumValue(s) >= Pow10(2 * |s| - 1)
  {
    var init, last := s[..|s| - 1], s[|s| - 1];
    assert Supported(last) && Scale(last) == 100;
    if init == [] {
      assert s == [last];
    } else {
      LettersLowerBound(init);
      assert Pow10(2 * |s| - 1) == Pow10(2 * |init| - 1) * 100;
    }
  }

  lemma {:induction false} Pow10Monotonic(j: nat, k: nat)
    requires j <= k
    ensures Pow10(j) <= Pow10(k)
    decreases k - j
  {
    if j < k {
      Pow10Monotonic(j + 1, k);
    }
  }

  /** Twelve upper-case letters expand to 24 digits, beyond the 64-bit maximum. */
  lemma TwelveLettersOverflow(s: string)
    requires AllLetters(s) && |s| == 12
    ensures AllSupported(s) && NumValue(s) > MaxInt
  {
    LettersLowerBound(s);
    Pow10Eighteen();
    Pow10Monotonic(19, 23);
  }

  /** The loop of `ascii`: append each character's piece, then parse. */
  method Ascii(str: string) returns (r: Result<int>)
    requires AllSupported(str)
    ensures r == AsciiValue(str)
    ensures r == if str == [] then Err(Syntax)
                 else if NumValue(str) > MaxInt then Err(Overflow)
                 else Ok(NumValue(str))
  {
    var digits := "";
    for i := 0 to |str|
      invariant digits == Expansion(str[..i])
    {
      var c := str[i];
      assert str[..i + 1][..i] == str[..i];
      if !IsDigit(c) {
        digits := digits + Format(c as int - 55);
        continue;
      }
      digits := digits + [c];
    }
    assert str[..|str|] == str;
    r := Atoi(digits);
    AsciiMeaning(str);
  }
}
