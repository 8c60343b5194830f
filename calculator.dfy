/** One run of the calculator without its terminal: the tokens of the input
    line go in, and either the text the program prints or the reason it
    stops comes out. */
module Calculator {
  import opened Outcomes
  import opened Decimal
  import opened Numerals
  import opened RomanWriter
  import opened RomanReader
  import opened Expression
  import opened RoundTrip

  /** What the program prints, and in which numeral system. */
  datatype Output = Output(system: OperandType, text: string)

  /** The value the operator gives on the operands of a well-formed
      expression: the range check keeps the divisor away from zero and
      the result inside a 64-bit int. */
  function ResultValue(ex: Expression): (v: int)
    requires 1 <= ex.operand1.value <= 10 && 1 <= ex.operand2.value <= 10
    ensures -9 <= v <= 100
  {
    ApplyOnOperands(ex.operator, ex.operand1.value, ex.operand2.value);
    Apply(ex.operator, ex.operand1.value, ex.operand2.value)
  }

  /** Exactly three tokens, a well-formed expression, and for numerals a
      result of at least 1: the integer result is printed in decimal, the
      numeral one with the numeral writer. */
  function Evaluate(tokens: seq<string>): (r: Result<Output, Error>)
    ensures r == Err(MalformedInput) <==> |tokens| != 3
    ensures |tokens| == 3 && BuildExpression(tokens).Err? ==> r == Err(BuildExpression(tokens).error)
    ensures r.Ok? ==> |tokens| == 3 && BuildExpression(tokens).Ok?
    ensures r.Ok? ==> r.value.system == BuildInputValue(tokens[0]).kind == BuildInputValue(tokens[2]).kind
    ensures r.Ok? ==> r.value.system != Unknown
  {
    if |tokens| != 3 then Err(MalformedInput)
    else
      match BuildExpression(tokens)
      case Err(e) => Err(e)
      case Ok(ex) =>
        var result := ResultValue(ex);
        if ex.operand1.kind == Arabic then Ok(Output(Arabic, FormatInt(result)))
        else if result < 1 then Err(NoRomanResult)
        else Ok(Output(Roman, RomanNumeral(result)))
  }

  /** The calculation with the numeral writer's loops. */
  method Calculate(tokens: seq<string>) returns (r: Result<Output, Error>)
    ensures r == Evaluate(tokens)
  {
    if |tokens| != 3 {
      return Err(MalformedInput);
    }
    var built := BuildExpression(tokens);
    if built.Err? {
      return Err(built.error);
    }
    var ex := built.value;
    var result := ResultValue(ex);
    if ex.operand1.kind == Arabic {
      r := Ok(Output(Arabic, FormatInt(result)));
    } else if result < 1 {
      r := Err(NoRomanResult);
    } else {
      var text := ToRoman(result);
      r := Ok(Output(Roman, text));
    }
  }

  /** A numeral expression stops exactly when its result is below 1. */
  lemma NoRomanResultExactly(tokens: seq<string>)
    requires |tokens| == 3
    ensures Evaluate(tokens) == Err(NoRomanResult) <==>
      && BuildExpression(tokens).Ok?
      && BuildExpression(tokens).value.operand1.kind == Roman
      && ResultValue(BuildExpression(tokens).value) < 1
  {
  }

  /** Integer output reads back, with Atoi, as the result of the operation
      on the two operands, which lies in -9 .. 100. */
  lemma ArabicOutputReadsBack(tokens: seq<string>)
    requires Evaluate(tokens).Ok? && Evaluate(tokens).value.system == Arabic
    ensures var ex := BuildExpression(tokens).value;
      && ParseInt(Evaluate(tokens).value.text) == Some(ResultValue(ex))
      && -9 <= ResultValue(ex) <= 100
  {
    var ex := BuildExpression(tokens).value;
    FormatThenParse(ResultValue(ex));
  }

  /** Numeral output is a non-empty string of the letters I V X L C whose
      chosen table entries add up to the result, which lies in 1 .. 100. */
  lemma RomanOutputDenotesResult(tokens: seq<string>)
    requires Evaluate(tokens).Ok? && Evaluate(tokens).value.system == Roman
    ensures var ex := BuildExpression(tokens).value;
      var text := Evaluate(tokens).value.text;
      && 1 <= ResultValue(ex) <= 100
      && text == RomanNumeral(ResultValue(ex))
      && |text| >= 1
      && Sum(Table, Chosen(ResultValue(ex))) == ResultValue(ex)
  {
    var ex := BuildExpression(tokens).value;
    RomanNumeralValue(ResultValue(ex));
  }

  // Whole input lines, as the program's users see them.

  /** A one-digit operand token. */
  lemma DigitOperand(c: char)
    requires '0' <= c <= '9'
    ensures BuildInputValue([c]) == Operand(c as int - '0' as int, Arabic)
  {
    var s := [c];
    assert s[..0] == [];
    assert DigitsValue(s) == DigitValue(c);
    assert AllDigits(s);
  }

  /** A two-digit operand token. */
  lemma TwoDigitOperand(c: char, d: char)
    requires '0' <= c <= '9' && '0' <= d <= '9'
    ensures BuildInputValue([c, d]) == Operand(10 * (c as int - '0' as int) + (d as int - '0' as int), Arabic)
  {
    var s := [c, d];
    assert s[..1] == [c] && [c][..0] == [];
    assert DigitsValue([c]) == DigitValue(c);
    assert DigitsValue(s) == 10 * DigitValue(c) + DigitValue(d);
    assert AllDigits(s);
  }

  /** The tokens of a well-formed expression and what the operator gives. */
  lemma Evaluates(tokens: seq<string>, ex: Expression, v: int)
    requires |tokens| == 3 && BuildExpression(tokens) == Ok(ex)
    requires Apply(ex.operator, ex.operand1.value, ex.operand2.value) == v
    ensures ex.operand1.kind == Arabic ==> Evaluate(tokens) == Ok(Output(Arabic, FormatInt(v)))
    ensures ex.operand1.kind == Roman && v < 1 ==> Evaluate(tokens) == Err(NoRomanResult)
    ensures ex.operand1.kind == Roman && v >= 1 ==> Evaluate(tokens) == Ok(Output(Roman, RomanNumeral(v)))
  {
  }

  lemma ScenarioArabicSum()
    ensures Evaluate(["3", "+", "4"]) == Ok(Output(Arabic, "7"))
  {
    DigitOperand('3');
    DigitOperand('4');
    var ex := Expression(Operand(3, Arabic), Operand(4, Arabic), Add);
    assert BuildExpression(["3", "+", "4"]) == Ok(ex);
    Evaluates(["3", "+", "4"], ex, 7);
  }

  lemma ScenarioArabicNegative()
    ensures Evaluate(["1", "-", "5"]) == Ok(Output(Arabic, "-4"))
  {
    DigitOperand('1');
    DigitOperand('5');
    var ex := Expression(Operand(1, Arabic), Operand(5, Arabic), Sub);
    assert BuildExpression(["1", "-", "5"]) == Ok(ex);
    Evaluates(["1", "-", "5"], ex, -4);
    assert FormatInt(-4) == "-4";
  }

  /** Division truncates. */
  lemma ScenarioArabicDivision()
    ensures Evaluate(["7", "/", "2"]) == Ok(Output(Arabic, "3"))
  {
    DigitOperand('7');
    DigitOperand('2');
    var ex := Expression(Operand(7, Arabic), Operand(2, Arabic), Div);
    assert BuildExpression(["7", "/", "2"]) == Ok(ex);
    ApplyOnOperands(Div, 7, 2);
    Evaluates(["7", "/", "2"], ex, 3);
  }

  /** "IV" reads as 9, so the sum is 12. */
  lemma ScenarioRomanSum()
    ensures Evaluate(["III", "+", "IV"]) == Ok(Output(Roman, "XII"))
  {
    ParsesIII();
    ParsesIV();
    var ex := Expression(Operand(3, Roman), Operand(9, Roman), Add);
    assert BuildExpression(["III", "+", "IV"]) == Ok(ex);
    Evaluates(["III", "+", "IV"], ex, 12);
    NumeralTwelve();
  }

  /** 50 is written "XLX": the entry for 40 comes after the one for 50. */
  lemma ScenarioRomanProduct()
    ensures Evaluate(["V", "*", "X"]) == Ok(Output(Roman, "XLX"))
  {
    ParsesV();
    ParsesX();
    var ex := Expression(Operand(5, Roman), Operand(10, Roman), Mul);
    assert BuildExpression(["V", "*", "X"]) == Ok(ex);
    ApplyOnOperands(Mul, 5, 10);
    Evaluates(["V", "*", "X"], ex, 50);
    NumeralFifty();
  }

  /** 3 - 9 is below 1. */
  lemma ScenarioRomanNegative()
    ensures Evaluate(["III", "-", "IV"]) == Err(NoRomanResult)
  {
    ParsesIII();
    ParsesIV();
    var ex := Expression(Operand(3, Roman), Operand(9, Roman), Sub);
    assert BuildExpression(["III", "-", "IV"]) == Ok(ex);
    Evaluates(["III", "-", "IV"], ex, -6);
  }

  lemma ScenarioMixedSystems()
    ensures Evaluate(["3", "+", "IV"]) == Err(MixedSystems)
  {
    DigitOperand('3');
    ParsesIV();
  }

  lemma ScenarioOutOfRange()
    ensures Evaluate(["11", "+", "1"]) == Err(OutOfRange)
  {
    TwoDigitOperand('1', '1');
    DigitOperand('1');
  }

  lemma ScenarioInvalidOperator()
    ensures Evaluate(["3", "%", "4"]) == Err(InvalidOperator)
  {
  }

  lemma ScenarioInvalidOperand()
    ensures Evaluate(["3", "+", "a"]) == Err(InvalidOperand)
  {
    DigitOperand('3');
    ParseRomanAccepts("a");
  }

  /** A leading space gives an empty first operand, which is the numeral 0. */
  lemma ScenarioEmptyOperand()
    ensures Evaluate(["", "+", "I"]) == Err(OutOfRange)
  {
    EmptyTokenIsRomanZero();
    ParsesI();
  }

  lemma ScenarioMalformed()
    ensures Evaluate(["1", "+"]) == Err(MalformedInput)
    ensures Evaluate(["1", "+", "2", ""]) == Err(MalformedInput)
  {
  }
}
