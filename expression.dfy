/** Reading the three tokens of an expression into two operands and an
    operator, and the four operators themselves. */
module Expression {
  import opened Outcomes
  import opened Decimal
  import opened RomanReader

  datatype OperandType = Roman | Arabic | Unknown

  datatype Operand = Operand(value: int, kind: OperandType)

  datatype Operator = Add | Sub | Div | Mul

  datatype Expression = Expression(operand1: Operand, operand2: Operand, operator: Operator)

  /** The ways the program gives up on an input line. */
  datatype Error =
    | MalformedInput          // not exactly two operands and one operator
    | InvalidOperator         // the middle token is not + - / *
    | InvalidOperand          // an operand is neither an integer nor a numeral
    | MixedSystems            // an integer and a numeral together
    | OutOfRange              // an operand outside 1 .. 10
    | NoRomanResult           // a numeral expression whose result is below 1

  // Go's int is taken to be 64 bits wide.

  const Modulus64: int := 0x1_0000_0000_0000_0000

  /** Two's-complement wrap-around of an int result. */
  function Wrap64(x: int): (r: int)
    ensures MinInt64 <= r <= MaxInt64
    ensures (x - r) % Modulus64 == 0
    ensures MinInt64 <= x <= MaxInt64 ==> r == x
  {
    (x - MinInt64) % Modulus64 + MinInt64
  }

  function Abs(x: int): nat {
    if x < 0 then -x else x
  }

  /** Go's integer division, which truncates toward zero: the remainder is
      smaller than the divisor and has the sign of the dividend. */
  function Quotient(a: int, b: int): (q: int)
    requires b != 0
    ensures Abs(a - q * b) < Abs(b)
    ensures a - q * b == 0 || (a - q * b < 0 <==> a < 0)
  {
    var m := Abs(a) / Abs(b);
    QuotientBound(a, b, m);
    if (a < 0) == (b < 0) then m else -m
  }

  lemma QuotientBound(a: int, b: int, m: int)
    requires b != 0 && m == Abs(a) / Abs(b)
    ensures 0 <= Abs(a) - m * Abs(b) < Abs(b)
    ensures (a < 0) == (b < 0) ==> Abs(a - m * b) == Abs(a) - m * Abs(b)
    ensures (a < 0) != (b < 0) ==> Abs(a + m * b) == Abs(a) - m * Abs(b)
  {
    if b < 0 {
      assert m * Abs(b) == -(m * b);
    }
  }

  /** The four entries of the operator map, on Go's 64-bit int. */
  function Apply(op: Operator, a: int, b: int): (r: int)
    requires op == Div ==> b != 0
    ensures MinInt64 <= r <= MaxInt64
  {
    match op
    case Add => Wrap64(a + b)
    case Sub => Wrap64(a - b)
    case Mul => Wrap64(a * b)
    case Div => Wrap64(Quotient(a, b))
  }

  /** On operands of the accepted range nothing wraps: results lie in
      -9 .. 100 and division rounds down. */
  lemma ApplyOnOperands(op: Operator, a: int, b: int)
    requires 1 <= a <= 10 && 1 <= b <= 10
    ensures -9 <= Apply(op, a, b) <= 100
    ensures op == Add ==> Apply(op, a, b) == a + b
    ensures op == Sub ==> Apply(op, a, b) == a - b
    ensures op == Mul ==> Apply(op, a, b) == a * b
    ensures op == Div ==> Apply(op, a, b) == a / b && 0 <= Apply(op, a, b) <= 10
  {
    if op == Mul {
      ProductBound(a, b);
    } else if op == Div {
      QuotientOfPositives(a, b);
    }
  }

  lemma ProductBound(a: int, b: int)
    requires 1 <= a <= 10 && 1 <= b <= 10
    ensures 1 <= a * b <= 100
  {
    assert a * b <= 10 * b;
  }

  /** On non-negative operands truncation and Dafny's division agree. */
  lemma QuotientOfPositives(a: int, b: int)
    requires 0 <= a && 1 <= b
    ensures Quotient(a, b) == a / b
    ensures 0 <= a / b <= a
  {
    assert Abs(a) == a && Abs(b) == b;
  }

  const OperatorSymbols: set<string> := {"+", "-", "/", "*"}

  function Symbol(op: Operator): string {
    match op
    case Add => "+"
    case Sub => "-"
    case Div => "/"
    case Mul => "*"
  }

  /** The lookup of the middle token in the operator map. */
  function ParseOperator(tok: string): (r: Option<Operator>)
    ensures r.Some? <==> tok in OperatorSymbols
    ensures r.Some? ==> Symbol(r.value) == tok
  {
    if tok == "+" then Some(Add)
    else if tok == "-" then Some(Sub)
    else if tok == "/" then Some(Div)
    else if tok == "*" then Some(Mul)
    else None
  }

  lemma SymbolParses(op: Operator)
    ensures ParseOperator(Symbol(op)) == Some(op)
  {
  }

  /** Text Atoi accepts is never a numeral: it ends in a digit. */
  lemma IntegerIsNotNumeral(tok: string)
    requires ParseInt(tok).Some?
    ensures ParseRoman(tok).None?
  {
    ParseRomanAccepts(tok);
    assert !(tok[|tok| - 1] in "IVXLC");
  }

  /** An operand token: an integer if Atoi accepts it, else a numeral if the
      numeral reader accepts it, else unknown with value 0. */
  function BuildInputValue(tok: string): (r: Operand)
    ensures r.kind == Arabic <==> ParseInt(tok).Some?
    ensures r.kind == Arabic ==> r.value == ParseInt(tok).value
    ensures r.kind == Roman <==> forall k :: 0 <= k < |tok| ==> tok[k] in "IVXLC"
    ensures r.kind == Roman ==> r.value == ArabicValue(tok)
    ensures r.kind == Unknown ==> r.value == 0
  {
    ParseRomanAccepts(tok);
    if ParseInt(tok).Some? then
      IntegerIsNotNumeral(tok);
      Operand(ParseInt(tok).value, Arabic)
    else if ParseRoman(tok).Some? then
      Operand(ParseRoman(tok).value, Roman)
    else
      Operand(0, Unknown)
  }

  /** An empty token, which a leading or trailing space produces, is the
      numeral 0. */
  lemma EmptyTokenIsRomanZero()
    ensures BuildInputValue("") == Operand(0, Roman)
  {
    ParseRomanValue("");
  }

  /** Whether an operand value is outside the accepted range 1 .. 10. */
  function CheckRangeValue(value: int): (outside: bool)
    ensures !outside <==> value in {1, 2, 3, 4, 5, 6, 7, 8, 9, 10}
  {
    value < 1 || value > 10
  }

  /** The tokens at 0 and 2 are the operands and the one at 1 the operator;
      the checks come in the order operator, unknown operand, mixed systems,
      range, and the first that fails names the error. */
  function BuildExpression(tokens: seq<string>): (r: Result<Expression, Error>)
    requires |tokens| >= 3
    ensures var v1, v2 := BuildInputValue(tokens[0]), BuildInputValue(tokens[2]);
      && (r == Err(InvalidOperator) <==> tokens[1] !in OperatorSymbols)
      && (r == Err(InvalidOperand) <==>
            tokens[1] in OperatorSymbols && (v1.kind == Unknown || v2.kind == Unknown))
      && (r == Err(MixedSystems) <==>
            tokens[1] in OperatorSymbols && v1.kind != Unknown && v2.kind != Unknown
            && v1.kind != v2.kind)
      && (r == Err(OutOfRange) <==>
            tokens[1] in OperatorSymbols && v1.kind != Unknown && v1.kind == v2.kind
            && !(1 <= v1.value <= 10 && 1 <= v2.value <= 10))
      && (r.Ok? <==>
            tokens[1] in OperatorSymbols && v1.kind != Unknown && v1.kind == v2.kind
            && 1 <= v1.value <= 10 && 1 <= v2.value <= 10)
    ensures r.Err? ==> r.error in {InvalidOperator, InvalidOperand, MixedSystems, OutOfRange}
    ensures r.Ok? ==>
              && r.value.operand1 == BuildInputValue(tokens[0])
              && r.value.operand2 == BuildInputValue(tokens[2])
              && Symbol(r.value.operator) == tokens[1]
  {
    var value1 := BuildInputValue(tokens[0]);
    var value2 := BuildInputValue(tokens[2]);
    match ParseOperator(tokens[1])
    case None => Err(InvalidOperator)
    case Some(op) =>
      if value1.kind == Unknown || value2.kind == Unknown then Err(InvalidOperand)
      else if value1.kind != value2.kind then Err(MixedSystems)
      else if CheckRangeValue(value1.value) || CheckRangeValue(value2.value) then Err(OutOfRange)
      else Ok(Expression(value1, value2, op))
  }
}
