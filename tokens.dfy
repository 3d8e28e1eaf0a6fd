/** Tokens, errors and operator metadata shared by the infix-to-postfix converter
    and the postfix evaluator of the calculator (class MathEvaluator). The source
    keeps every token as a string; here each kind of string is a constructor. */
module Tokens {

  /** The five binary operators `+ - * / ^`. */
  datatype BinOp = Add | Sub | Mul | Div | Pow

  /** A token of the operator stack or of the postfix output queue:
      a digit/dot run, a binary operator, the unary minus `~`, the function
      name `abs`, or an opening parenthesis (a closing one is never stored). */
  datatype Token = Num(text: string) | Op(op: BinOp) | Neg | Abs | LParen

  /** The runtime errors the calculator throws, without their message text. */
  datatype CalcError =
    | EmptyExpression
    | MismatchedParentheses
    | UnknownIdentifier(name: string)
    | InsufficientOperands
    | DivisionByZero
    | MalformedExpression

  /** A value, or the error that was thrown instead of computing it. */
  datatype Result<T> = Ok(value: T) | Err(error: CalcError)

  // ---------------------------------------------------------------------------
  // Character classes (C locale: ASCII only)
  // ---------------------------------------------------------------------------

  predicate IsDigit(c: char) { '0' <= c <= '9' }

  predicate IsAlpha(c: char) { 'a' <= c <= 'z' || 'A' <= c <= 'Z' }

  /** `isspace`: blank, tab, line feed, vertical tab, form feed, carriage return. */
  predicate IsSpace(c: char) { c == ' ' || '\t' <= c <= '\r' }

  /** A character that continues a number run. */
  predicate IsNumberChar(c: char) { IsDigit(c) || c == '.' }

  /** A one-character operator of the input, `isOperator(std::string(1, c))`. */
  predicate IsOperatorChar(c: char) {
    c == '+' || c == '-' || c == '*' || c == '/' || c == '^' || c == '~'
  }

  function Symbol(op: BinOp): (c: char)
    ensures IsOperatorChar(c) && c != '~'
  {
    match op
    case Add => '+'
    case Sub => '-'
    case Mul => '*'
    case Div => '/'
    case Pow => '^'
  }

  /** The token an operator character stands for when it is not a unary minus. */
  function OperatorToken(c: char): (t: Token)
    requires IsOperatorChar(c)
    ensures c == '~' <==> t == Neg
    ensures c != '~' ==> t.Op? && Symbol(t.op) == c
  {
    match c
    case '+' => Op(Add)
    case '-' => Op(Sub)
    case '*' => Op(Mul)
    case '/' => Op(Div)
    case '^' => Op(Pow)
    case '~' => Neg
  }

  // ---------------------------------------------------------------------------
  // Operator metadata
  // ---------------------------------------------------------------------------

  /** `getPrecedence`: 0 for anything that is not an operator. */
  function Precedence(t: Token): int {
    match t
    case Op(Add) => 1
    case Op(Sub) => 1
    case Op(Mul) => 2
    case Op(Div) => 2
    case Op(Pow) => 3
    case Neg => 4
    case _ => 0
  }

  predicate IsRightAssociative(t: Token) { t == Op(Pow) || t == Neg }

  /** `isOperator`: the binary operators and `~`, but neither `(` nor `abs`. */
  predicate IsOperator(t: Token) { t.Op? || t.Neg? }

  /** `isParenthesis`: only `(` is ever pushed on the operator stack. */
  predicate IsParenthesis(t: Token) { t.LParen? }

  /** `isFunction`: `abs` is the only function. */
  predicate IsFunction(name: string) { name == "abs" }

  /** The pop rule of the shunting-yard loop: the top of the operator stack is
      moved to the output before `incoming` is pushed. */
  predicate ShouldPop(incoming: Token, top: Token) {
    IsOperator(top) &&
    ((!IsRightAssociative(incoming) && Precedence(incoming) <= Precedence(top)) ||
     (IsRightAssociative(incoming) && Precedence(incoming) < Precedence(top)))
  }

  /** The pop rule spelled out as a table, operator by operator. */
  lemma PopTable(top: Token)
    ensures !ShouldPop(Neg, top)
    ensures ShouldPop(Op(Pow), top) <==> top == Neg
    ensures ShouldPop(Op(Mul), top) <==> top in {Neg, Op(Pow), Op(Mul), Op(Div)}
    ensures ShouldPop(Op(Div), top) <==> top in {Neg, Op(Pow), Op(Mul), Op(Div)}
    ensures ShouldPop(Op(Add), top) <==> IsOperator(top)
    ensures ShouldPop(Op(Sub), top) <==> IsOperator(top)
    ensures top == LParen || top == Abs ==> forall t :: !ShouldPop(t, top)
  {
  }

  // ---------------------------------------------------------------------------
  // Number literals
  // ---------------------------------------------------------------------------

  function CountDigits(s: string): nat {
    if s == [] then 0 else (if IsDigit(s[0]) then 1 else 0) + CountDigits(s[1..])
  }

  function CountPoints(s: string): nat {
    if s == [] then 0 else (if s[0] == '.' then 1 else 0) + CountPoints(s[1..])
  }

  /** `isNumber` on a digit/dot run: `strtod` consumes the whole run exactly when
      it holds at least one digit and at most one decimal point. */
  predicate IsNumber(text: string) {
    (forall i :: 0 <= i < |text| ==> IsNumberChar(text[i])) &&
    CountDigits(text) >= 1 && CountPoints(text) <= 1
  }

  function DigitValue(c: char): nat
    requires IsDigit(c)
  {
    c as int - '0' as int
  }

  /** The value of a string of decimal digits, most significant first. */
  function DigitsValue(ds: string): nat
    requires forall i :: 0 <= i < |ds| ==> IsDigit(ds[i])
  {
    if ds == [] then 0 else DigitsValue(ds[..|ds| - 1]) * 10 + DigitValue(ds[|ds| - 1])
  }

  function Pow10(n: nat): (p: nat)
    ensures p >= 1
  {
    if n == 0 then 1 else 10 * Pow10(n - 1)
  }

  /** The digits of a run, with its decimal point left out. */
  function WithoutPoint(s: string): (ds: string)
    requires forall i :: 0 <= i < |s| ==> IsNumberChar(s[i])
    ensures forall i :: 0 <= i < |ds| ==> IsDigit(ds[i])
    ensures |ds| == CountDigits(s)
  {
    if s == [] then []
    else if s[0] == '.' then WithoutPoint(s[1..])
    else assert IsNumberChar(s[0]); [s[0]] + WithoutPoint(s[1..])
  }

  /** The number of digits after the decimal point (0 when there is none). */
  function FractionDigits(s: string): nat {
    if s == [] then 0 else if s[0] == '.' then |s| - 1 else FractionDigits(s[1..])
  }

  /** `std::stod` of a well-formed run, as an exact decimal. */
  function LiteralValue(text: string): real
    requires IsNumber(text)
  {
    DigitsValue(WithoutPoint(text)) as real / Pow10(FractionDigits(text)) as real
  }

  // ---------------------------------------------------------------------------
  // `isNumber` against how far `strtod` reads
  // ---------------------------------------------------------------------------

  /** How many digits `s` starts with. */
  function LeadingDigits(s: string): (n: nat)
    ensures n <= |s|
    ensures forall k :: 0 <= k < n ==> IsDigit(s[k])
    ensures n == |s| || !IsDigit(s[n])
  {
    if s != [] && IsDigit(s[0]) then 1 + LeadingDigits(s[1..]) else 0
  }

  /** How much of a digit/dot run `strtod` reads as a decimal number: digits,
      then optionally a point and more digits, provided it read a digit at
      all; nothing otherwise. */
  function StrtodLength(s: string): nat {
    var a := LeadingDigits(s);
    if a < |s| && s[a] == '.' then
      var b := LeadingDigits(s[a + 1..]);
      if a + b == 0 then 0 else a + 1 + b
    else a
  }

  /** `isNumber` holds of a nonempty digit/dot run exactly when `strtod`
      reads all of it. */
  lemma IsNumberIsFullRead(s: string)
    requires forall k :: 0 <= k < |s| ==> IsNumberChar(s[k])
    ensures IsNumber(s) <==> s != [] && StrtodLength(s) == |s|
  {
    var a := LeadingDigits(s);
    if a == |s| {
      AllDigitsCounts(s);
    } else {
      var r := s[a + 1..];
      assert s == s[..a] + ([s[a]] + r);
      CountsAppend(s[..a], [s[a]] + r);
      CountsAppend([s[a]], r);
      AllDigitsCounts(s[..a]);
      var b := LeadingDigits(r);
      if b == |r| {
        AllDigitsCounts(r);
      } else {
        PointCounted(r, b);
      }
    }
  }

  lemma {:induction false} CountsAppend(a: string, b: string)
    ensures CountDigits(a + b) == CountDigits(a) + CountDigits(b)
    ensures CountPoints(a + b) == CountPoints(a) + CountPoints(b)
  {
    if a == [] {
      assert a + b == b;
    } else {
      assert (a + b)[1..] == a[1..] + b;
      CountsAppend(a[1..], b);
    }
  }

  lemma {:induction false} AllDigitsCounts(d: string)
    requires forall k :: 0 <= k < |d| ==> IsDigit(d[k])
    ensures CountDigits(d) == |d| && CountPoints(d) == 0
  {
    if d != [] {
      AllDigitsCounts(d[1..]);
    }
  }

  lemma {:induction false} PointCounted(r: string, k: nat)
    requires k < |r| && r[k] == '.'
    ensures CountPoints(r) >= 1
  {
    if k > 0 {
      PointCounted(r[1..], k - 1);
    }
  }
}
