# Security identifier validators, modelled in Dafny

This project models `identifiers.go`, a small Go library that finds and
checks financial security identifiers in strings that may carry trailing
noise. It has three entry points:

- `FIGI` keeps the first 12 characters. It applies the Luhn formula to the
  letter expansion of characters 3 to 11.
- `ISIN` keeps the first 12 characters. It accepts Bloomberg-style `BBG…`
  codes outright, and also accepts codes whose letter expansion overflows
  a 64-bit `int`. Otherwise it applies the Luhn formula to the expansion of
  all 12 characters.
- `CUSIP` keeps the whole input when it is 8 characters long, otherwise the
  first 9. It accepts `BL…` codes outright. Otherwise it applies the
  Modulus 10 Double Add Double check.

They rely on three helpers:

- `ascii` expands letters to two-digit numbers and parses the digit string.
- `ValidLuhn` is the Luhn formula of ISO/IEC 7812-1, Annex B. Its inner
  `checksum` closure is modelled separately.
- `Modulus10DoubleAddDouble` is the CUSIP check-digit rule.

Layout, one module per component:

- `results.dfy` (`Results`): the `Result` type, with the error kinds
  `TooShort`, `Overflow`, `Syntax` and `ChecksumFailed`.
- `decimal.dfy` (`Decimal`): decimal digit strings. This covers the parts of
  `fmt.Sprint` and `strconv.Atoi` that the code uses, with Go's 64-bit `int`
  maximum.
- `ascii.dfy` (`Ascii`): the expansion, and the method `Ascii` with its loop.
  `NumValue` is an independent arithmetic definition of what the expansion
  denotes.
- `luhn.dfy` (`Luhn`): the methods `Checksum` (the closure) and `ValidLuhn`.
  Both are proved against `IsLuhnValid`, the Luhn condition stated over
  digit positions.
- `double_add_double.dfy` (`DoubleAddDouble`): the method
  `Modulus10DoubleAddDouble`, with both of its loops. It is proved against
  `CheckDigitMatches`, which is tied to the digit-sum rule of the CUSIP
  standard.
- `identifiers.dfy` (`Identifiers`): `FIGI`, `ISIN` and `CUSIP` as functions
  returning `Result`, with their properties and the two findings below.

How inputs are modelled:

- A Go string is a sequence of bytes. It is modelled as a `string` with one
  character per byte.
- Characters that `ascii` or `Modulus10DoubleAddDouble` actually process
  must have codes 48 to 127. That is `'0'` up to DEL, including lower-case
  letters and `:;<=>?@`, which the code handles like letters.
- Everything else in the input (the trailing noise, the `BBG`/`BL` prefix
  tests, the unchecked 8-character CUSIP) is unrestricted.

The CUSIP check value at identifiers.go:162 is `10 - sum % 10`, without the
final `mod 10` that the usual statement of the rule has. The model follows
the code. So `CUSIP` rejects every `'0'` check digit, and it accepts `':'`
where the value 10 is required.

## Model

| member | source | states |
|---|---|---|
| Decimal.FormatRoundTrip | identifiers.go:97 | parsing the decimal text that fmt.Sprint prints for a non-negative number gives the number back |
| Decimal.ValueAppend | identifiers.go:97-103 | appending digits to the string being built multiplies the earlier value by 10^(digits appended) and adds the new digits' value |
| Ascii.CharNum | identifiers.go:97 | a digit stands for itself and an upper-case letter c for c - 'A' + 10 (the same value the CUSIP loop uses at line 147); every value is below 100 |
| Ascii.PieceValue | identifiers.go:95-100 | the text appended for one character denotes its value in one digit (values below 10) or two |
| Ascii.ExpansionValue | identifiers.go:94-101 | the digit string built by the loop denotes NumValue of the input, and it is at least as long as the input |
| Ascii.AsciiMeaning | identifiers.go:93-108 | ascii fails with a syntax error exactly on empty input, with overflow exactly when NumValue exceeds the 64-bit maximum, and otherwise returns NumValue |
| Ascii.NumValueBound | identifiers.go:95-101 | k characters expand to a number below 10^(2k) |
| Ascii.NineCharsConvert | identifiers.go:23 | the 9 characters FIGI converts never fail conversion |
| Ascii.TwelveLettersOverflow | identifiers.go:49-53 | twelve upper-case letters expand beyond the 64-bit maximum |
| Ascii.Ascii | identifiers.go:93-108 | the loop plus strconv.Atoi returns exactly the outcome AsciiMeaning describes: Syntax, Overflow or Ok(NumValue) |
| Luhn.Checksum | identifiers.go:112-129 | the closure returns the Luhn total of its argument's digits (least significant doubled, then every second, doubled values above 9 folded) modulo 10, and 0 for a non-positive argument |
| Luhn.ValidLuhn | identifiers.go:111-132 | true exactly when the Luhn total of all digits, the check digit undoubled, is a multiple of 10; for a negative number, with Go's truncating %, exactly when it is a multiple of 10 |
| Luhn.TotalReplace | identifiers.go:115-127 | replacing one digit changes the Luhn total by exactly the change in that digit's own term |
| Luhn.TermInjective | identifiers.go:118-123 | at any position, distinct digits contribute terms that differ modulo 10 |
| Luhn.DetectsSingleDigitError | identifiers.go:111-132 | if a number passes ValidLuhn, changing any single digit makes it fail |
| Luhn.CheckDigitUnique | identifiers.go:131 | for every payload m, 10m + d passes for exactly one check digit d, namely (10 - total(m) % 10) % 10 |
| Luhn.TextbookExample | identifiers.go:111-132 | 79927398713 passes |
| DoubleAddDouble.CheckValue | identifiers.go:140 | the check byte minus '0' wraps modulo 256; for a decimal digit it is the digit's value |
| DoubleAddDouble.Modulus10DoubleAddDouble | identifiers.go:135-163 | a code that is not 9 characters long passes; otherwise it passes exactly when the check value equals 10 - S % 10, where S adds the quotient-folded, odd-index-doubled values of the first 8 characters; for digits and upper-case letters S is the CUSIP digit sum |
| DoubleAddDouble.FoldedIsDigitSum | identifiers.go:156-159 | adding the last digit and then the successive quotients equals the digit sum for values below 100 |
| DoubleAddDouble.LowercaseFoldsWrongly | identifiers.go:147-159 | for 'z' at an odd index (134) the loop adds 18 where the digit sum is 8 |
| DoubleAddDouble.SumIsStandard | identifiers.go:143-160 | over characters whose values are below 50 the loop's sum equals the sum of digit sums of the weighted values |
| DoubleAddDouble.ZeroCheckDigitFails | identifiers.go:162 | no 8-character body followed by '0' passes |
| DoubleAddDouble.AlteredCheckDigitFails | identifiers.go:140-162 | changing only the check character of a passing code makes it fail |
| DoubleAddDouble.AppleCusipRejected | identifiers.go:140-162 | 037833100 has S = 30 and is rejected |
| DoubleAddDouble.MicrosoftCusipAccepted | identifiers.go:140-162 | 594918104 has S = 36 and passes |
| DoubleAddDouble.IntendedCheckDigit | identifiers.go:162 | the corrected check digit (10 - S % 10) % 10 is a single decimal digit |
| DoubleAddDouble.IntendedCheckDigitUnique | identifiers.go:162 | under the corrected rule a body is completed by exactly one decimal check digit |
| DoubleAddDouble.AsWrittenVersusIntended | identifiers.go:162 | on digit and upper-case codes the written rule agrees with the corrected one unless S ends in 0, in which case it rejects every decimal check digit |
| DoubleAddDouble.AppleCusipIntended | identifiers.go:162 | 037833100 passes the corrected rule |
| Identifiers.FIGI | identifiers.go:16-34 | inputs shorter than 12 fail with TooShort; otherwise the result is Ok(first 12 characters) when the Luhn condition holds for NumValue of characters 3 to 11, and ChecksumFailed otherwise (conversion never fails) |
| Identifiers.ISIN | identifiers.go:38-64 | inputs shorter than 12 fail with TooShort; a BBG prefix, an expansion above the 64-bit maximum, or a Luhn pass over the 12-character expansion gives Ok(first 12 characters); anything else is ChecksumFailed |
| Identifiers.CUSIP | identifiers.go:68-90 | inputs shorter than 8 fail with TooShort; an 8-character input is returned unchanged; a longer input gives Ok(first 9) when it starts with BL or its check value is 10 - S % 10, and ChecksumFailed otherwise |
| Identifiers.FigiIgnoresSuffix | identifiers.go:21-33 | characters after the 12th never change FIGI's result, which equals FIGI of the 12-character prefix |
| Identifiers.FigiIgnoresPrefix | identifiers.go:23-31 | two inputs that agree on characters 3 to 11 are accepted or rejected together |
| Identifiers.IsinIgnoresSuffix | identifiers.go:43-63 | characters after the 12th never change ISIN's result |
| Identifiers.IsinLettersAccepted | identifiers.go:49-53 | an ISIN whose first 12 characters are upper-case letters is accepted without a checksum, through the overflow fallback |
| Identifiers.CusipIgnoresSuffix | identifiers.go:73-89 | for inputs of 9 or more characters, characters after the 9th never change CUSIP's result |
| Identifiers.AppleIsinAccepted | identifiers.go:49-63 | US0378331005 expands to 30280378331005, which passes the Luhn check |
| Identifiers.CusipExamples | identifiers.go:68-90 | 037833100 and 037833101 fail with ChecksumFailed; 594918104extra gives 594918104; the 8-character 03783310 is accepted unchecked |
| Identifiers.FigiRejectsGenuineCodes | identifiers.go:23-31 | FIGI rejects BBG000BLNNH6 and BBG000B9XRY4 |
| Identifiers.FigiIntended | identifiers.go:16-34 | corrected FIGI: TooShort below 12 characters; Ok(first 12) exactly when the 12th character is the decimal check digit (10 - S % 10) % 10 of the first 11 |
| Identifiers.FigiIntendedAcceptsGenuineCodes | identifiers.go:23-31 | the corrected FIGI check accepts BBG000BLNNH6 and BBG000B9XRY4 |
| Identifiers.FigiIntendedCheckDigitUnique | identifiers.go:23-31 | under the corrected FIGI check two accepted codes with the same first 11 characters have the same 12th |

## Findings

| source | as written | input that shows it | evidently intended | confidence | as-written member | corrected member |
|---|---|---|---|---|---|---|
| identifiers.go:162 | the check value is `10 - sum % 10`, which lies in 1..10, so a `'0'` check digit can never pass | `037833100` (Apple Inc.): sum 30, expected value 10, check digit 0, rejected | `(10 - sum % 10) % 10`, under which `037833100` passes | high; not executed | DoubleAddDouble.AppleCusipRejected | DoubleAddDouble.IntendedCheckDigitMatches |
| identifiers.go:23-28 | FIGI applies the Luhn formula to the digit expansion of characters 3 to 11 | `BBG000BLNNH6` and `BBG000B9XRY4` are rejected (totals 35 and 43), yet their check digits 6 and 4 follow from the double-add-double sums 44 and 46 of their first 11 characters | the FIGI check digit: double-add-double over all 11 preceding characters, then `(10 - sum % 10) % 10` | medium; not executed | Identifiers.FigiRejectsGenuineCodes | Identifiers.FigiIntended |

The entry points `FIGI` and `CUSIP` keep the behaviour as written. The
corrected definitions sit beside them with their properties proved. Nothing
else in the model calls them.

## Left out

- The `errs.Log` calls (identifiers.go:85, 137) write to an external logging package and do not affect results. They are omitted.
- Error messages built with `fmt.Errorf` are not modelled. Errors are the kinds `TooShort`, `Overflow`, `Syntax` and `ChecksumFailed`.
- The test for the text "value out of range" (identifiers.go:51) is modelled as a match on the `Overflow` kind.
- Identifiers.FIGI: requires characters 3 to 11 of a long-enough input to have codes 48..127. Lower codes make `ascii` emit a `-`, and Go's `Atoi` sign handling is not modelled.
- Identifiers.ISIN: requires the first 12 characters of a long-enough, non-`BBG` input to have codes 48..127, for the same reason.
- Identifiers.CUSIP: requires, for a non-`BL` input of 9 or more characters, the first 8 characters to have codes 48..127 and the 9th to be a byte. Lower codes make Go's truncating `/` and `%` act on negative values at identifiers.go:147-158.
- Ascii.Ascii: requires every character to have a code in 48..127, for the same reason as FIGI.
- DoubleAddDouble.Modulus10DoubleAddDouble: requires the same as CUSIP for a 9-character input.
- Multi-byte UTF-8 characters are not modelled. `range` decodes them as runes while `len` and slicing count bytes, so strings are modelled as one character per byte.
- Go's `int` is fixed at 64 bits.
- `ValidLuhn` takes an unbounded integer. This is a superset of Go's 64-bit inputs, and its result does not depend on the width.
- The 8-character CUSIP and the ISIN overflow fallback are not reported as a separate "accepted without verification" outcome. The source returns a plain success in both cases, and so does the model.
