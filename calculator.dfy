/** `MathEvaluator::evaluate`: strip whitespace, reject an empty expression,
    convert to postfix, evaluate the postfix. */
module Calculator {
  import opened Tokens
  import opened Scanner
  import opened Parser
  import opened ParserFacts
  import opened Rpn
  import opened ExprTree

  /** No `isspace` character anywhere in `s`. */
  predicate NoSpace(s: string) {
    forall k :: 0 <= k < |s| ==> !IsSpace(s[k])
  }

  /** The expression with every `isspace` character removed, the others kept
      in order. */
  function StripSpace(s: string): (r: string)
    ensures |r| <= |s|
    ensures NoSpace(r)
  {
    if s == [] then []
    else (if IsSpace(s[0]) then [] else [s[0]]) + StripSpace(s[1..])
  }

  /** What `evaluate` returns or throws for an expression. */
  function Calculate(expression: string, pow: (real, real) -> real): Result<real> {
    var cleaned := StripSpace(expression);
    if cleaned == [] then Err(EmptyExpression)
    else
      match Postfix(cleaned)
      case Err(e) => Err(e)
      case Ok(rpn) => RpnValue(rpn, pow)
  }

  /** `evaluate` as the source writes it. */
  method Evaluate(expression: string, pow: (real, real) -> real) returns (r: Result<real>)
    ensures r == Calculate(expression, pow)
  {
    var cleanedExpr := StripSpace(expression);
    if cleanedExpr == [] {
      return Err(EmptyExpression);
    }
    var rpn := ShuntingYard(cleanedExpr);
    if rpn.Err? {
      return Err(rpn.error);
    }
    r := EvaluateRpn(rpn.value, pow);
  }

  // ---------------------------------------------------------------------------
  // Whitespace
  // ---------------------------------------------------------------------------

  lemma {:induction false} StripSpaceAppend(a: string, b: string)
    ensures StripSpace(a + b) == StripSpace(a) + StripSpace(b)
  {
    if a == [] {
      assert a + b == b;
    } else {
      var head := if IsSpace(a[0]) then [] else [a[0]];
      assert (a + b)[0] == a[0];
      assert (a + b)[1..] == a[1..] + b;
      StripSpaceAppend(a[1..], b);
      calc {
        StripSpace(a + b);
        head + StripSpace(a[1..] + b);
        head + (StripSpace(a[1..]) + StripSpace(b));
        (head + StripSpace(a[1..])) + StripSpace(b);
        StripSpace(a) + StripSpace(b);
      }
    }
  }

  /** Text without whitespace is left as it is. */
  lemma {:induction false} StripSpaceKeeps(s: string)
    requires NoSpace(s)
    ensures StripSpace(s) == s
  {
    if s != [] {
      StripSpaceKeeps(s[1..]);
    }
  }

  /** Removing whitespace twice is removing it once. */
  lemma StripSpaceIdempotent(s: string)
    ensures StripSpace(StripSpace(s)) == StripSpace(s)
  {
    StripSpaceKeeps(StripSpace(s));
  }

  /** Only the non-space characters matter: an expression and its stripped
      form evaluate alike. */
  lemma CalculateIgnoresSpace(expression: string, pow: (real, real) -> real)
    ensures Calculate(StripSpace(expression), pow) == Calculate(expression, pow)
  {
    StripSpaceIdempotent(expression);
  }

  /** A space inserted anywhere changes nothing, even between two digits:
      `1 2` is read as `12`. */
  lemma SpaceInsertedAnywhere(a: string, b: string, pow: (real, real) -> real)
    ensures Calculate(a + " " + b, pow) == Calculate(a + b, pow)
  {
    StripSpaceAppend(a + " ", b);
    StripSpaceAppend(a, " ");
    StripSpaceAppend(a, b);
    assert StripSpace(" ") == [];
    assert StripSpace(a) + [] == StripSpace(a);
  }

  /** An expression of nothing but whitespace is the empty-expression error. */
  lemma BlankIsEmpty(expression: string, pow: (real, real) -> real)
    requires forall k :: 0 <= k < |expression| ==> IsSpace(expression[k])
    ensures Calculate(expression, pow) == Err(EmptyExpression)
  {
    BlankStrips(expression);
  }

  /** The empty-expression error comes from blank input and from nothing
      else: neither the converter nor the evaluator throws it. */
  lemma EmptyOnlyWhenBlank(expression: string, pow: (real, real) -> real)
    ensures Calculate(expression, pow) == Err(EmptyExpression) <==> StripSpace(expression) == []
  {
    var cleaned := StripSpace(expression);
    if cleaned != [] {
      PostfixErrors(cleaned);
      if Postfix(cleaned).Ok? {
        RpnValueErrors(Postfix(cleaned).value, pow);
      }
    }
  }

  lemma {:induction false} BlankStrips(s: string)
    requires forall k :: 0 <= k < |s| ==> IsSpace(s[k])
    ensures StripSpace(s) == []
  {
    if s != [] {
      BlankStrips(s[1..]);
    }
  }

  // ---------------------------------------------------------------------------
  // The calculator computes the value of every fully parenthesised expression
  // ---------------------------------------------------------------------------

  lemma CleanConcat(a: string, b: string)
    requires StripSpace(a) == a && StripSpace(b) == b
    ensures StripSpace(a + b) == a + b
  {
    StripSpaceAppend(a, b);
  }

  lemma CleanChar(c: char)
    requires !IsSpace(c)
    ensures StripSpace([c]) == [c]
  {
    StripSpaceKeeps([c]);
  }

  lemma {:induction false} PrintHasNoSpace(e: Expr)
    requires WellFormed(e)
    ensures StripSpace(Print(e)) == Print(e)
    decreases e
  {
    CleanChar('(');
    CleanChar(')');
    match e
    case Lit(t) =>
      StripSpaceKeeps(t);
    case Bin(op, l, r) =>
      PrintHasNoSpace(l);
      PrintHasNoSpace(r);
      CleanChar(Symbol(op));
      CleanConcat(Print(r), ")");
      CleanConcat([Symbol(op)], Print(r) + ")");
      CleanConcat(Print(l), [Symbol(op)] + (Print(r) + ")"));
      CleanConcat("(", Print(l) + ([Symbol(op)] + (Print(r) + ")")));
    case Negate(a) =>
      PrintHasNoSpace(a);
      CleanChar('-');
      CleanConcat(Print(a), ")");
      CleanConcat("-", Print(a) + ")");
      CleanConcat("(", "-" + (Print(a) + ")"));
    case AbsOf(a) =>
      PrintHasNoSpace(a);
      StripSpaceKeeps("abs");
      CleanConcat(Print(a), ")");
      CleanConcat("(", Print(a) + ")");
      CleanConcat("abs", "(" + (Print(a) + ")"));
  }

  /** The end-to-end theorem: for every tree, the calculator's result on the
      fully parenthesised text is the tree's value, error for error. */
  lemma CalculatePrint(e: Expr, pow: (real, real) -> real)
    requires WellFormed(e)
    ensures Calculate(Print(e), pow) == Eval(e, pow)
  {
    PrintHasNoSpace(e);
    if e.Lit? {
      LiteralNotEmpty(e.text);
    }
    PostfixOfPrint(e);
    RpnValueOfPostorder(e, pow);
  }
}
