/** The postfix evaluator (`evaluateRPN`): a stack of values, one token at a
    time. Literals are exact decimals and arithmetic is exact; `^` is whatever
    power function the caller supplies. */
module Rpn {
  import opened Tokens

  /** `std::abs` on a value. */
  function AbsValue(x: real): (y: real)
    ensures y >= 0.0 && (y == x || y == -x)
  {
    if x < 0.0 then -x else x
  }

  /** A binary operator applied to its left and right operand. */
  function Combine(op: BinOp, l: real, r: real, pow: (real, real) -> real): real
    requires op == Div ==> r != 0.0
  {
    match op
    case Add => l + r
    case Sub => l - r
    case Mul => l * r
    case Div => l / r
    case Pow => pow(l, r)
  }

  /** How many values a token takes from the stack. */
  function Arity(t: Token): nat {
    match t
    case Op(_) => 2
    case Neg => 1
    case Abs => 1
    case _ => 0
  }

  /** One token applied to the value stack (its top at the end). A token that
      is none of a valid literal, `~`, `abs` or a binary operator is skipped. */
  function Apply(stack: seq<real>, t: Token, pow: (real, real) -> real): Result<seq<real>>
  {
    match t
    case Num(text) => if IsNumber(text) then Ok(stack + [LiteralValue(text)]) else Ok(stack)
    case Neg =>
      if stack == [] then Err(InsufficientOperands)
      else Ok(stack[..|stack| - 1] + [-stack[|stack| - 1]])
    case Abs =>
      if stack == [] then Err(InsufficientOperands)
      else Ok(stack[..|stack| - 1] + [AbsValue(stack[|stack| - 1])])
    case Op(op) =>
      if |stack| < 2 then Err(InsufficientOperands)
      else
        var r, l := stack[|stack| - 1], stack[|stack| - 2];
        if op == Div && r == 0.0 then Err(DivisionByZero)
        else Ok(stack[..|stack| - 2] + [Combine(op, l, r, pow)])
    case LParen => Ok(stack)
  }

  /** The loop over the postfix tokens; the first error stops it. */
  function Run(stack: seq<real>, rpn: seq<Token>, pow: (real, real) -> real): Result<seq<real>>
    decreases |rpn|
  {
    if rpn == [] then Ok(stack)
    else
      match Apply(stack, rpn[0], pow)
      case Err(e) => Err(e)
      case Ok(next) => Run(next, rpn[1..], pow)
  }

  /** The value of a postfix sequence: exactly one value must remain. */
  function RpnValue(rpn: seq<Token>, pow: (real, real) -> real): Result<real> {
    match Run([], rpn, pow)
    case Err(e) => Err(e)
    case Ok(stack) => if |stack| == 1 then Ok(stack[0]) else Err(MalformedExpression)
  }

  lemma RunCons(stack: seq<real>, t: Token, rpn: seq<Token>, pow: (real, real) -> real)
    ensures Run(stack, [t] + rpn, pow) ==
      if Apply(stack, t, pow).Err? then Err(Apply(stack, t, pow).error) else Run(Apply(stack, t, pow).value, rpn, pow)
  {
    assert ([t] + rpn)[0] == t;
    assert ([t] + rpn)[1..] == rpn;
  }

  /** `evaluateRPN` as the source writes it. */
  method EvaluateRpn(rpn: seq<Token>, pow: (real, real) -> real) returns (r: Result<real>)
    ensures r == RpnValue(rpn, pow)
  {
    var valueStack: seq<real> := [];
    for k := 0 to |rpn|
      invariant Run(valueStack, rpn[k..], pow) == Run([], rpn, pow)
    {
      var token := rpn[k];
      assert rpn[k..] == [token] + rpn[k + 1..];
      RunCons(valueStack, token, rpn[k + 1..], pow);
      ghost var before := valueStack;
      if token.Num? && IsNumber(token.text) {
        valueStack := valueStack + [LiteralValue(token.text)];
      } else if token == Neg {
        if valueStack == [] {
          return Err(InsufficientOperands);
        }
        var val := valueStack[|valueStack| - 1];
        valueStack := valueStack[..|valueStack| - 1];
        valueStack := valueStack + [-val];
      } else if token == Abs {
        if valueStack == [] {
          return Err(InsufficientOperands);
        }
        var val := valueStack[|valueStack| - 1];
        valueStack := valueStack[..|valueStack| - 1];
        valueStack := valueStack + [AbsValue(val)];
      } else if IsOperator(token) {
        if |valueStack| < 2 {
          return Err(InsufficientOperands);
        }
        var val2 := valueStack[|valueStack| - 1];
        valueStack := valueStack[..|valueStack| - 1];
        var val1 := valueStack[|valueStack| - 1];
        valueStack := valueStack[..|valueStack| - 1];
        var result := 0.0;
        if token.op == Add {
          result := val1 + val2;
        } else if token.op == Sub {
          result := val1 - val2;
        } else if token.op == Mul {
          result := val1 * val2;
        } else if token.op == Div {
          if val2 == 0.0 {
            return Err(DivisionByZero);
          }
          result := val1 / val2;
        } else if token.op == Pow {
          result := pow(val1, val2);
        }
        assert valueStack == before[..|before| - 2];
        assert val1 == before[|before| - 2] && val2 == before[|before| - 1];
        assert result == Combine(token.op, val1, val2, pow);
        valueStack := valueStack + [result];
      }
      assert Apply(before, token, pow) == Ok(valueStack);
    }
    assert rpn[|rpn|..] == [];
    if |valueStack| != 1 {
      return Err(MalformedExpression);
    }
    r := Ok(valueStack[0]);
  }

  // ---------------------------------------------------------------------------
  // The loop composes, and it only ever works at the top of the stack
  // ---------------------------------------------------------------------------

  /** The three ways a token can fail, and what a successful token does to
      the height of the stack and to the values beneath its operands. */
  lemma ApplyOutcome(stack: seq<real>, t: Token, pow: (real, real) -> real)
    ensures var r := Apply(stack, t, pow);
      r.Err? <==>
        ((t == Neg || t == Abs) && stack == []) || (t.Op? && |stack| < 2) ||
        (t == Op(Div) && |stack| >= 2 && stack[|stack| - 1] == 0.0)
    ensures var r := Apply(stack, t, pow);
      r.Err? ==> r.error == if t.Op? && |stack| >= 2 then DivisionByZero else InsufficientOperands
    ensures var r := Apply(stack, t, pow);
      r.Ok? ==> |r.value| == |stack| + (if t.Num? && IsNumber(t.text) then 1 else if t.Op? then -1 else 0)
    ensures var r := Apply(stack, t, pow);
      r.Ok? ==> |stack| >= Arity(t) && r.value[..|stack| - Arity(t)] == stack[..|stack| - Arity(t)]
  {
  }

  /** What a successful token leaves on top: a valid literal its value, `~`
      and `abs` the negation and the absolute value of the old top, and a
      binary operator the second value from the top (left operand) combined
      with the top (right operand), the right one never zero under `/`. */
  lemma ApplyTopValue(stack: seq<real>, t: Token, pow: (real, real) -> real)
    requires Apply(stack, t, pow).Ok?
    ensures var s, n := Apply(stack, t, pow).value, |stack|;
      (t.Num? && IsNumber(t.text) ==> |s| == n + 1 && s[n] == LiteralValue(t.text)) &&
      (t == Neg ==> n >= 1 && |s| == n && s[n - 1] == -stack[n - 1]) &&
      (t == Abs ==> n >= 1 && |s| == n && s[n - 1] == AbsValue(stack[n - 1])) &&
      (t.Op? ==> n >= 2 && |s| == n - 1 && (t.op == Div ==> stack[n - 1] != 0.0) &&
                 s[n - 2] == Combine(t.op, stack[n - 2], stack[n - 1], pow))
  {
  }

  /** Running `a + b` is running `a`, then `b` from where `a` left the stack. */
  lemma {:induction false} RunAppend(stack: seq<real>, a: seq<Token>, b: seq<Token>, pow: (real, real) -> real)
    ensures Run(stack, a + b, pow) ==
      if Run(stack, a, pow).Err? then Err(Run(stack, a, pow).error) else Run(Run(stack, a, pow).value, b, pow)
    decreases |a|
  {
    if a == [] {
      assert a + b == b;
    } else {
      assert a + b == [a[0]] + (a[1..] + b);
      assert a == [a[0]] + a[1..];
      RunCons(stack, a[0], a[1..] + b, pow);
      RunCons(stack, a[0], a[1..], pow);
      if Apply(stack, a[0], pow).Ok? {
        RunAppend(Apply(stack, a[0], pow).value, a[1..], b, pow);
      }
    }
  }

  /** A token that succeeds on a stack succeeds the same way with more values
      beneath it. */
  lemma ApplyFrame(below: seq<real>, stack: seq<real>, t: Token, pow: (real, real) -> real)
    requires Apply(stack, t, pow).Ok?
    ensures Apply(below + stack, t, pow) == Ok(below + Apply(stack, t, pow).value)
  {
    match t
    case Num(text) =>
      if IsNumber(text) {
        assert (below + stack) + [LiteralValue(text)] == below + (stack + [LiteralValue(text)]);
      } else {
        assert Apply(below + stack, t, pow) == Ok(below + stack);
      }
    case Neg => UnaryFrame(below, stack, t, pow);
    case Abs => UnaryFrame(below, stack, t, pow);
    case Op(op) => BinaryFrame(below, stack, op, pow);
    case LParen =>
  }

  lemma UnaryFrame(below: seq<real>, stack: seq<real>, t: Token, pow: (real, real) -> real)
    requires t == Neg || t == Abs
    requires stack != []
    ensures Apply(below + stack, t, pow) == Ok(below + Apply(stack, t, pow).value)
  {
    var whole := below + stack;
    var n := |whole|;
    var x := stack[|stack| - 1];
    var y := if t == Neg then -x else AbsValue(x);
    assert Apply(stack, t, pow) == Ok(stack[..|stack| - 1] + [y]);
    assert whole[n - 1] == x;
    assert whole[..n - 1] == below + stack[..|stack| - 1];
    assert Apply(whole, t, pow) == Ok(whole[..n - 1] + [y]);
    assert whole[..n - 1] + [y] == below + (stack[..|stack| - 1] + [y]);
  }

  lemma BinaryFrame(below: seq<real>, stack: seq<real>, op: BinOp, pow: (real, real) -> real)
    requires Apply(stack, Op(op), pow).Ok?
    ensures Apply(below + stack, Op(op), pow) == Ok(below + Apply(stack, Op(op), pow).value)
  {
    var whole := below + stack;
    var n := |whole|;
    var r, l := stack[|stack| - 1], stack[|stack| - 2];
    assert whole[n - 1] == r && whole[n - 2] == l;
    assert whole[..n - 2] == below + stack[..|stack| - 2];
    var v := Combine(op, l, r, pow);
    assert Apply(stack, Op(op), pow) == Ok(stack[..|stack| - 2] + [v]);
    assert Apply(whole, Op(op), pow) == Ok(whole[..n - 2] + [v]);
    assert whole[..n - 2] + [v] == below + (stack[..|stack| - 2] + [v]);
  }

  /** A postfix sequence that succeeds on a stack succeeds the same way with
      more values beneath it. */
  lemma {:induction false} RunFrame(below: seq<real>, stack: seq<real>, rpn: seq<Token>, pow: (real, real) -> real)
    requires Run(stack, rpn, pow).Ok?
    ensures Run(below + stack, rpn, pow) == Ok(below + Run(stack, rpn, pow).value)
    decreases |rpn|
  {
    if rpn != [] {
      ApplyFrame(below, stack, rpn[0], pow);
      RunFrame(below, Apply(stack, rpn[0], pow).value, rpn[1..], pow);
    }
  }

  // ---------------------------------------------------------------------------
  // Which errors the evaluator can throw
  // ---------------------------------------------------------------------------

  /** The token loop fails only on too few operands or a division by zero. */
  lemma {:induction false} RunErrors(stack: seq<real>, rpn: seq<Token>, pow: (real, real) -> real)
    ensures Run(stack, rpn, pow).Err? ==>
      Run(stack, rpn, pow).error == InsufficientOperands || Run(stack, rpn, pow).error == DivisionByZero
    decreases |rpn|
  {
    if rpn != [] {
      ApplyOutcome(stack, rpn[0], pow);
      if Apply(stack, rpn[0], pow).Ok? {
        RunErrors(Apply(stack, rpn[0], pow).value, rpn[1..], pow);
      }
    }
  }

  /** The evaluator throws only too few operands, a division by zero, or a
      final stack that does not hold exactly one value. */
  lemma RpnValueErrors(rpn: seq<Token>, pow: (real, real) -> real)
    ensures RpnValue(rpn, pow).Err? ==>
      RpnValue(rpn, pow).error in {InsufficientOperands, DivisionByZero, MalformedExpression}
  {
    RunErrors([], rpn, pow);
  }
}
