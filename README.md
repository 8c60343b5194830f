# Roman/Arabic calculator: a Dafny model

A Go command-line calculator reads one line with two operands and an
operator. Operands are integers 1–10 or strings of the letters I V X L C
that decode to 1–10; the decoding is the program's own, so "VV" is 10,
"IIIII" is 5 and "IX" is 2. The operator is
`+`, `-`, `/` or `*`. It prints the result in the operands' numeral system or
stops with an error. This project models:

- the numeral table `tableArabicRoman`;
- both conversions, `toRoman` and `toArabic`, as the imperative loops they
  are, each proved against a recursive specification function;
- operand classification (`buildInputValue`) and expression building
  (`buildExpression`, `checkRangeValue`);
- the operator map;
- the decision part of `main`.

Modules:

| file | module | models |
|---|---|---|
| `outcomes.dfy` | `Outcomes` | `Option` and `Result`, standing in for Go's `error` returns and `panic`s |
| `numerals.dfy` | `Numerals` | the table exactly as written; sums and symbol strings of table entry choices |
| `to_roman.dfy` | `RomanWriter` | `toRoman`: the loops `FirstFit` and `ConvertToRoman`, and the specification `RomanChoice` / `RomanNumeral` |
| `to_arabic.dfy` | `RomanReader` | `toArabic`: the filter loops `MatchesSymbol` / `CountMatches`, the decomposition loops `FindEntry` / `SumDecomposition`, and the specification `Decompose` / `ParseRoman` |
| `round_trip.dfy` | `RoundTrip` | what the table as written makes the two conversions do on 1–10 |
| `decimal.dfy` | `Decimal` | `strconv.Atoi` with base 10 and the `%v` rendering of an `int` |
| `expression.dfy` | `Expression` | the operator map on 64-bit `int`, `buildInputValue`, `checkRangeValue`, `buildExpression` |
| `calculator.dfy` | `Calculator` | `main` after the line is split: `Evaluate` (specification) and `Calculate` (which calls the `ToRoman` method) |

The table is modelled as the source has it:

- index 3 is `{9, "IV"}`;
- the entry for 50 comes before the one for 40.

The model proves what that means:

- 4 is written "IV" and reads back as 9;
- "IX" reads as 2;
- 9 is written "IV";
- 50 is written "XLX";
- "III + IV" gives "XII".

The loop methods take the table as a parameter `t` that satisfies
`WellFormed(t)`. The `ToRoman` and `ToArabic` methods pass them the program's
table. The concrete facts are proved for any `t` with `IsProgramTable(t)` and
then applied to the table.

Three consequences of the code as written:

- **The decomposition cannot loop forever.** Its inner loop stops at index 0,
  and index 0's entry `{1, "I"}` is then added without comparing the character
  (main.go:156, 166). Every pass therefore advances `p` by 1 or 2, and the loop
  ends with `p` exactly at `len + 1` (`DecomposeCovers`).
- **"III + IV" gives "XII", not the conventional "VII", and "III - IV" is -6.**
  The table as written makes "IV" read as 9 (`ScenarioRomanSum`,
  `ScenarioRomanNegative`).
- **The divisor is always at least 1.** The range check at main.go:100 runs
  before the operator is applied.

## Model

| member | source | states |
|---|---|---|
| Numerals.TableWellFormed | main.go:36-46 | the table has nine entries, entry 0 is {1, "I"}, and every entry has a value of at least 1 and a symbol of one or two characters no longer than its value |
| Numerals.ProgramTable | main.go:36-46 | a table is the program's exactly when its nine entries are, in order, 1 I, 4 IV, 5 V, 9 IV, 10 X, 50 L, 40 XL, 90 XC, 100 C; such a table is well formed |
| Numerals.SymbolCharLetters | main.go:141-147 | a character equals a one-character symbol of the table exactly when it is one of I V X L C |
| Numerals.PrependDescends | main.go:125-130 | one more choice at an index no higher than the current one keeps the chosen indices non-increasing and bounded |
| RomanWriter.Fall | main.go:128-130 | the inner loop stops at an index no higher than where it started, at an entry whose value is between 1 and what remains |
| RomanWriter.FallFirstFit | main.go:128-130 | every entry the inner loop walks past is worth more than what remains |
| RomanWriter.RomanChoiceSum | main.go:123-136 | for a number up to 0 nothing is appended; otherwise the appended entries are non-empty and their values add up to the number |
| RomanWriter.RomanChoiceDescends | main.go:125-130 | the table index never increases: every chosen index is at most the starting one and the choices are non-increasing |
| RomanWriter.RomanNumeralValue | main.go:123-136 | toRoman of a number up to 0 is ""; for a number of at least 1 it is non-empty and the chosen entries add up to it |
| RomanWriter.ChoiceStep | main.go:127-133 | one outer pass appends the symbol of the entry the inner loop stops at and subtracts its value |
| RomanWriter.FirstFit | main.go:128-130 | the inner loop returns the index `Fall` describes |
| RomanWriter.ConvertToRoman | main.go:123-136 | the outer loop's result is the string of symbols of the choices `RomanChoice` describes, for any well-formed table |
| RomanWriter.ToRoman | main.go:123-136 | toRoman returns `RomanNumeral(number)` |
| RomanReader.MatchCountFull | main.go:139-151 | the filter's count is at most the length, and equals it exactly when every character equals a one-character symbol |
| RomanReader.SymbolAtChars | main.go:157-158 | comparing a one- or two-character symbol with the string at a position is comparing its characters one by one, within the string's length |
| RomanReader.Pick | main.go:156-163 | the inner loop stops at an index no higher than where it started; above 0, that entry's symbol occurs at the current position |
| RomanReader.PickFirstFit | main.go:156-163 | no entry the inner loop walks past has its symbol at the current position, so a stop at 0 means no entry in 1 .. i matches there |
| RomanReader.DecomposeStep | main.go:154-166 | one outer pass adds the value of the entry the inner loop stops at and advances `p` by its symbol length without passing `len + 1` |
| RomanReader.DecomposeCovers | main.go:154-166 | the decomposition ends with `p` exactly at `len + 1`: the chosen symbol lengths add up to what remains of the string, the value is at least that length, and no entry is chosen exactly when nothing remains |
| RomanReader.DecomposeDescends | main.go:154-163 | the table index never increases during the decomposition |
| RomanReader.DecomposeMatches | main.go:156-160 | every chosen entry above 0 has its symbol in the string where it is taken, each one starting where the previous symbol ends |
| RomanReader.DecomposeFromZero | main.go:156-166 | once the index is 0, every remaining character is taken alone as {1, "I"}, adding 1 each |
| RomanReader.ParseRomanAccepts | main.go:138-152 | toArabic succeeds exactly when every character is one of I V X L C |
| RomanReader.ParseRomanValue | main.go:138-170 | the empty string reads as 0; a successful reading is at least the string's length, so at least 1 for a non-empty string |
| RomanReader.MatchesSymbol | main.go:141-147 | the table scan finds a match exactly when the character equals a one-character symbol |
| RomanReader.CountMatches | main.go:139-148 | the filter loop counts the characters that pass, as `MatchCount` does |
| RomanReader.FindEntry | main.go:156-163 | the inner loop returns the index `Pick` describes |
| RomanReader.SumDecomposition | main.go:153-169 | the outer loop's sum is the value `Decompose` describes, for any well-formed table |
| RomanReader.ConvertToArabic | main.go:138-170 | an error with value 0 unless every character passes the filter; otherwise the decomposition's sum |
| RomanReader.ToArabic | main.go:138-170 | toArabic succeeds exactly when `ParseRoman` does, with its value, and returns 0 on error |
| RoundTrip.RoundTripOnOperands | main.go:123-170 | for 1, 2, 3 and 5 to 10, reading back the numeral toRoman writes gives the number again |
| RoundTrip.RoundTripFailsAtFour | main.go:36-46 | 4 is written "IV", which reads back as 9 |
| RoundTrip.NineWrittenIXReadsTwo | main.go:36-46 | "IX" reads as 2, and 9 is not written "IX" |
| RoundTrip.NumeralOne | main.go:123-136 | toRoman(1) is "I" |
| RoundTrip.NumeralTwo | main.go:123-136 | toRoman(2) is "II" |
| RoundTrip.NumeralThree | main.go:123-136 | toRoman(3) is "III" |
| RoundTrip.NumeralFour | main.go:123-136 | toRoman(4) is "IV" |
| RoundTrip.NumeralFive | main.go:123-136 | toRoman(5) is "V" |
| RoundTrip.NumeralSix | main.go:123-136 | toRoman(6) is "VI" |
| RoundTrip.NumeralSeven | main.go:123-136 | toRoman(7) is "VII" |
| RoundTrip.NumeralEight | main.go:123-136 | toRoman(8) is "VIII" |
| RoundTrip.NumeralNine | main.go:123-136 | toRoman(9) is "IV", the symbol the table gives 9 |
| RoundTrip.NumeralTen | main.go:123-136 | toRoman(10) is "X" |
| RoundTrip.NumeralTwelve | main.go:123-136 | toRoman(12) is "XII" |
| RoundTrip.NumeralFifty | main.go:123-136 | toRoman(50) is "XLX": walking down from the top, the entry for 40 at index 6 fits before the entry for 50 at index 5 is reached |
| RoundTrip.ParsesEmpty | main.go:138-170 | toArabic("") is 0 without error |
| RoundTrip.ParsesI | main.go:138-170 | toArabic("I") is 1 |
| RoundTrip.ParsesII | main.go:138-170 | toArabic("II") is 2 |
| RoundTrip.ParsesIII | main.go:138-170 | toArabic("III") is 3 |
| RoundTrip.ParsesIV | main.go:138-170 | toArabic("IV") is 9 |
| RoundTrip.ParsesV | main.go:138-170 | toArabic("V") is 5 |
| RoundTrip.ParsesVI | main.go:138-170 | toArabic("VI") is 6 |
| RoundTrip.ParsesVII | main.go:138-170 | toArabic("VII") is 7 |
| RoundTrip.ParsesVIII | main.go:138-170 | toArabic("VIII") is 8 |
| RoundTrip.ParsesX | main.go:138-170 | toArabic("X") is 10 |
| RoundTrip.ParsesIX | main.go:138-170 | toArabic("IX") is 2 |
| RoundTrip.ParsesXII | main.go:138-170 | toArabic("XII") is 12 |
| RoundTrip.ParsesXLX | main.go:138-170 | toArabic("XLX") is 50 |
| Decimal.ParseInt | main.go:112 | a successful Atoi gives a value in the 64-bit range, from text that is an optional sign followed by digits |
| Decimal.ParseDigits | main.go:112 | Atoi accepts every digit run in the 64-bit range, bare or after '+' or '-', with its value: leading zeros and a sign are allowed, and "-0" is 0 |
| Decimal.FormatNat | main.go:69 | a natural number prints as a non-empty run of digits with no leading zero |
| Decimal.FormatInt | main.go:69 | an int prints as non-empty text that starts with '-' exactly when it is negative |
| Decimal.FormatThenParse | main.go:69 | Atoi of what is printed for any 64-bit int gives that int back |
| Expression.Wrap64 | main.go:48-53 | a result wrapped to 64 bits is in range, congruent to the exact result, and is the exact result when that fits |
| Expression.Quotient | main.go:51 | Go's `/`: the remainder is smaller than the divisor in magnitude and is 0 or has the dividend's sign |
| Expression.Apply | main.go:48-53 | each operator yields a 64-bit int; division needs a non-zero divisor |
| Expression.ApplyOnOperands | main.go:48-53 | on operands in 1–10 nothing wraps: the four operators give a + b, a - b, a * b and a / b (which rounds down), all in -9 .. 100 |
| Expression.ParseOperator | main.go:89-93 | the operator map has an entry exactly for "+", "-", "/" and "*", and the entry found is for that symbol |
| Expression.SymbolParses | main.go:48-53 | looking up each operator's symbol gives that operator |
| Expression.IntegerIsNotNumeral | main.go:112-116 | text Atoi accepts is never text toArabic accepts |
| Expression.BuildInputValue | main.go:111-121 | an operand is Arabic exactly when Atoi accepts it, with that value; Roman exactly when every character is one of I V X L C, with toArabic's value; otherwise Unknown with value 0 |
| Expression.EmptyTokenIsRomanZero | main.go:111-121 | an empty token is the Roman operand 0 |
| Expression.CheckRangeValue | main.go:107-109 | a value is inside the accepted range exactly when it is one of 1 .. 10 |
| Expression.BuildExpression | main.go:81-105 | the errors come in the order operator, unknown operand, mixed systems, range, each exactly when every earlier check passed; on success the two operands are those of tokens 0 and 2, of one known system, in 1–10, with the operator of token 1 |
| Calculator.ResultValue | main.go:66 | applying the operator to operands in 1–10 gives a result in -9 .. 100 |
| Calculator.Evaluate | main.go:61-78 | the line is malformed exactly when it has other than three tokens; an expression error is passed on; the output's system is that of both operands and is never Unknown |
| Calculator.Calculate | main.go:61-78 | the run of main computes what `Evaluate` describes, using the `ToRoman` loop |
| Calculator.NoRomanResultExactly | main.go:70-73 | a Roman expression fails exactly when its result is below 1 |
| Calculator.ArabicOutputReadsBack | main.go:68-69 | Arabic output is the raw result, which reads back with Atoi as the operator applied to the operands and lies in -9 .. 100 |
| Calculator.RomanOutputDenotesResult | main.go:70-74 | Roman output is toRoman of a result in 1 .. 100: a non-empty numeral whose chosen entries add up to the result |
| Calculator.Evaluates | main.go:65-75 | a well-formed expression of either system prints or fails as main decides on the operator's result |
| Calculator.DigitOperand | main.go:111-114 | a one-digit token is the Arabic operand of that digit |
| Calculator.TwoDigitOperand | main.go:111-114 | a two-digit token is the Arabic operand of that number |
| Calculator.ScenarioArabicSum | main.go:61-78 | "3 + 4" prints 7 |
| Calculator.ScenarioArabicNegative | main.go:61-78 | "1 - 5" prints -4 |
| Calculator.ScenarioArabicDivision | main.go:61-78 | "7 / 2" prints 3 |
| Calculator.ScenarioRomanSum | main.go:61-78 | "III + IV" prints XII |
| Calculator.ScenarioRomanProduct | main.go:61-78 | "V * X" prints XLX |
| Calculator.ScenarioRomanNegative | main.go:61-78 | "III - IV" fails with no Roman result |
| Calculator.ScenarioMixedSystems | main.go:61-78 | "3 + IV" fails with mixed numeral systems |
| Calculator.ScenarioOutOfRange | main.go:61-78 | "11 + 1" fails with an operand out of range |
| Calculator.ScenarioInvalidOperator | main.go:61-78 | "3 % 4" fails with an invalid operator |
| Calculator.ScenarioInvalidOperand | main.go:61-78 | "3 + a" fails with an invalid operand |
| Calculator.ScenarioEmptyOperand | main.go:61-78 | an empty first operand, as a leading space produces, is the Roman 0 and fails the range check |
| Calculator.ScenarioMalformed | main.go:61-62 | a line with two or four tokens is malformed |

## Left out

- Reading the line from standard input and printing the result are left out. `Evaluate` returns the output text, or the error, in place of printing it or panicking.
- `panic` is modelled as an `Err` result. The diagnostic messages' text is not modelled.
- `strings.Split(input, " ")` is not modelled. The tokens come in as a sequence of strings; an empty operand token stands for a leading or trailing space (two adjacent spaces would give a fourth token or an empty operator).
- `strconv.Atoi` is modelled only as the grammar it accepts with base 10: an optional sign, one or more ASCII digits, and a value within 64 bits. Its error values and its fast and slow paths are not modelled.
- Go's `int` is taken to be 64 bits wide, with wrap-around on overflow (`Wrap64`). On operands in 1–10 nothing overflows (`ApplyOnOperands`).
- Go strings are byte sequences. The model uses sequences of characters. Both accept the same operands, because only the ASCII letters I V X L C, ASCII digits and a leading `+` or `-` pass either reading.
- The operator map holds functions in Go. The model has an `Operator` datatype, and `Apply` stands for calling the map's function.
- The nested loops of `toRoman` and `toArabic` are each split: the inner loop is its own method (`FirstFit`, `MatchesSymbol`, `FindEntry`), which the outer loop calls. The loop methods read the table from a parameter, which `ToRoman` and `ToArabic` set to the program's table.
