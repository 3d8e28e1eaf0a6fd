/** Worked inputs: what the converter emits and what the calculator returns
    for a few characteristic expressions. */
module Examples {
  import opened Tokens
  import opened Scanner
  import opened Parser
  import opened ParserFacts
  import opened Rpn
  import opened ExprTree
  import opened Calculator

  // ---------------------------------------------------------------------------
  // `2^3^2`: `^` is right-associative
  // ---------------------------------------------------------------------------

  lemma LexPowChain()
    ensures Lex("2^3^2") == [LNumber("2")] + ([LSymbol('^')] + ([LNumber("3")] + ([LSymbol('^')] + [LNumber("2")])))
  {
    LexNumberThen("2", []);
    LexCharThen('^', "2");
    LexNumberThen("3", "^2");
    LexCharThen('^', "3^2");
    LexNumberThen("2", "^3^2");
    assert "2" + "^3^2" == "2^3^2";
    assert ['^'] + "3^2" == "^3^2";
    assert "3" + "^2" == "3^2";
    assert ['^'] + "2" == "^2";
    assert "2" + [] == "2";
  }

  lemma FeedPowChain()
    ensures Feed(Initial, [LNumber("2")] + ([LSymbol('^')] + ([LNumber("3")] + ([LSymbol('^')] + [LNumber("2")]))))
         == Ok(State([Op(Pow), Op(Pow)], [Num("2"), Num("3"), Num("2")], false))
  {
    var s1 := State([], [Num("2")], false);
    var s2 := State([Op(Pow)], [Num("2")], true);
    var s3 := State([Op(Pow)], [Num("2"), Num("3")], false);
    var s4 := State([Op(Pow), Op(Pow)], [Num("2"), Num("3")], true);
    var s5 := State([Op(Pow), Op(Pow)], [Num("2"), Num("3"), Num("2")], false);
    assert [] + [Num("2")] == [Num("2")];
    assert [Num("2")] + [Num("3")] == [Num("2"), Num("3")];
    assert [Num("2"), Num("3")] + [Num("2")] == [Num("2"), Num("3"), Num("2")];
    OperatorPushes(s1, '^');
    assert [] + [Op(Pow)] == [Op(Pow)];
    // the second `^` does not pop the first: `^` is right-associative
    OperatorPushes(s3, '^');
    assert [Op(Pow)] + [Op(Pow)] == [Op(Pow), Op(Pow)];
    FeedCons(s4, LNumber("2"), []);
    FeedCons(s3, LSymbol('^'), [LNumber("2")]);
    FeedCons(s2, LNumber("3"), [LSymbol('^')] + [LNumber("2")]);
    FeedCons(s1, LSymbol('^'), [LNumber("3")] + ([LSymbol('^')] + [LNumber("2")]));
    FeedCons(Initial, LNumber("2"), [LSymbol('^')] + ([LNumber("3")] + ([LSymbol('^')] + [LNumber("2")])));
  }

  /** `2^3^2` converts to `2 3 2 ^ ^`. */
  lemma PostfixPowChain()
    ensures Postfix("2^3^2") == Ok([Num("2"), Num("3"), Num("2"), Op(Pow), Op(Pow)])
  {
    LexPowChain();
    FeedPowChain();
    var ops := [Op(Pow), Op(Pow)];
    DrainSpec(ops, [Num("2"), Num("3"), Num("2")]);
    assert Pop(ops) == [Op(Pow)];
    assert Pop([Op(Pow)]) == [];
    assert Reversed(ops) == ops;
    assert LParen !in ops;
    assert [Num("2"), Num("3"), Num("2")] + ops == [Num("2"), Num("3"), Num("2"), Op(Pow), Op(Pow)];
  }

  // ---------------------------------------------------------------------------
  // Literals of one digit
  // ---------------------------------------------------------------------------

  /** A one-digit literal is a number worth its digit. */
  lemma OneDigit(c: char)
    requires IsDigit(c)
    ensures IsNumber([c]) && LiteralValue([c]) == DigitValue(c) as real
  {
    assert [c][1..] == [];
    assert c != '.';
    assert CountDigits([c]) == 1;
    assert CountPoints([c]) == CountPoints([c][1..]);
    assert WithoutPoint([c]) == [c];
    assert [c][..0] == [];
    assert DigitsValue([c]) == DigitValue(c);
    assert FractionDigits([c]) == 0;
  }

  /** The calculator on a text whose postfix form is a tree's postorder. */
  lemma CalculateByTree(expression: string, e: Expr, pow: (real, real) -> real)
    requires NoSpace(expression) && expression != [] && WellFormed(e)
    requires Postfix(expression) == Ok(Postorder(e))
    ensures Calculate(expression, pow) == Eval(e, pow)
  {
    StripSpaceKeeps(expression);
    RpnValueOfPostorder(e, pow);
  }

  lemma ExamplesHaveNoSpace()
    ensures NoSpace("2^3^2") && NoSpace("-2^2") && NoSpace("2+3*4")
  {
  }

  lemma EvalPowChain(pow: (real, real) -> real)
    ensures WellFormed(Bin(Pow, Lit("2"), Bin(Pow, Lit("3"), Lit("2"))))
    ensures Eval(Bin(Pow, Lit("2"), Bin(Pow, Lit("3"), Lit("2"))), pow) == Ok(pow(2.0, pow(3.0, 2.0)))
    ensures Postorder(Bin(Pow, Lit("2"), Bin(Pow, Lit("3"), Lit("2")))) == [Num("2"), Num("3"), Num("2"), Op(Pow), Op(Pow)]
  {
    OneDigit('2');
    OneDigit('3');
    assert Eval(Bin(Pow, Lit("3"), Lit("2")), pow) == Ok(pow(3.0, 2.0));
  }

  /** `2^3^2` is `2^(3^2)`. */
  lemma CalculatePowChain(pow: (real, real) -> real)
    ensures Calculate("2^3^2", pow) == Ok(pow(2.0, pow(3.0, 2.0)))
  {
    var e := Bin(Pow, Lit("2"), Bin(Pow, Lit("3"), Lit("2")));
    EvalPowChain(pow);
    PostfixPowChain();
    ExamplesHaveNoSpace();
    CalculateByTree("2^3^2", e, pow);
  }

  // ---------------------------------------------------------------------------
  // `-2^2`: the unary minus binds tighter than `^`
  // ---------------------------------------------------------------------------

  lemma LexNegPow()
    ensures Lex("-2^2") == [LSymbol('-')] + ([LNumber("2")] + ([LSymbol('^')] + [LNumber("2")]))
  {
    LexNumberThen("2", []);
    LexCharThen('^', "2");
    LexNumberThen("2", "^2");
    LexCharThen('-', "2^2");
    assert ['^'] + "2" == "^2";
    assert "2" + "^2" == "2^2";
    assert ['-'] + "2^2" == "-2^2";
    assert "2" + [] == "2";
  }

  lemma FeedNegPow()
    ensures Feed(Initial, [LSymbol('-')] + ([LNumber("2")] + ([LSymbol('^')] + [LNumber("2")])))
         == Ok(State([Op(Pow)], [Num("2"), Neg, Num("2")], false))
  {
    var s1 := State([Neg], [], true);
    var s2 := State([Neg], [Num("2")], false);
    var s3 := State([Op(Pow)], [Num("2"), Neg], true);
    var s4 := State([Op(Pow)], [Num("2"), Neg, Num("2")], false);
    // `-` at the start is the unary minus
    MinusStep(Initial);
    assert [] + [Neg] == [Neg];
    assert [] + [Num("2")] == [Num("2")];
    PowPopsNeg();
    assert [Num("2"), Neg] + [Num("2")] == [Num("2"), Neg, Num("2")];
    FeedCons(s3, LNumber("2"), []);
    FeedCons(s2, LSymbol('^'), [LNumber("2")]);
    FeedCons(s1, LNumber("2"), [LSymbol('^')] + [LNumber("2")]);
    FeedCons(Initial, LSymbol('-'), [LNumber("2")] + ([LSymbol('^')] + [LNumber("2")]));
  }

  /** `^` pops the `~` beneath it: precedence 3 is below 4. */
  lemma PowPopsNeg()
    ensures Step(State([Neg], [Num("2")], false), LSymbol('^')) == Ok(State([Op(Pow)], [Num("2"), Neg], true))
  {
    assert Top([Neg]) == Neg && Pop([Neg]) == [];
    assert ShouldPop(Op(Pow), Neg);
    assert [Num("2")] + [Neg] == [Num("2"), Neg];
    assert PopOperators(Op(Pow), [], [Num("2"), Neg]) == ([], [Num("2"), Neg]);
    assert PopOperators(Op(Pow), [Neg], [Num("2")]) == ([], [Num("2"), Neg]);
    assert [] + [Op(Pow)] == [Op(Pow)];
  }

  /** `-2^2` converts to `2 ~ 2 ^`. */
  lemma PostfixNegPow()
    ensures Postfix("-2^2") == Ok([Num("2"), Neg, Num("2"), Op(Pow)])
  {
    LexNegPow();
    FeedNegPow();
    DrainSpec([Op(Pow)], [Num("2"), Neg, Num("2")]);
    assert Reversed([Op(Pow)]) == [Op(Pow)];
    assert [Num("2"), Neg, Num("2")] + [Op(Pow)] == [Num("2"), Neg, Num("2"), Op(Pow)];
  }

  lemma EvalNegPow(pow: (real, real) -> real)
    ensures WellFormed(Bin(Pow, Negate(Lit("2")), Lit("2")))
    ensures Eval(Bin(Pow, Negate(Lit("2")), Lit("2")), pow) == Ok(pow(-2.0, 2.0))
    ensures Postorder(Bin(Pow, Negate(Lit("2")), Lit("2"))) == [Num("2"), Neg, Num("2"), Op(Pow)]
  {
    OneDigit('2');
    assert Eval(Negate(Lit("2")), pow) == Ok(-2.0);
  }

  /** `-2^2` is `(-2)^2`. */
  lemma CalculateNegPow(pow: (real, real) -> real)
    ensures Calculate("-2^2", pow) == Ok(pow(-2.0, 2.0))
  {
    var e := Bin(Pow, Negate(Lit("2")), Lit("2"));
    EvalNegPow(pow);
    PostfixNegPow();
    ExamplesHaveNoSpace();
    CalculateByTree("-2^2", e, pow);
  }

  // ---------------------------------------------------------------------------
  // `2+3*4`: `*` binds tighter than `+`
  // ---------------------------------------------------------------------------

  lemma LexSumProduct()
    ensures Lex("2+3*4") == [LNumber("2")] + ([LSymbol('+')] + ([LNumber("3")] + ([LSymbol('*')] + [LNumber("4")])))
  {
    LexNumberThen("4", []);
    LexCharThen('*', "4");
    LexNumberThen("3", "*4");
    LexCharThen('+', "3*4");
    LexNumberThen("2", "+3*4");
    assert "2" + "+3*4" == "2+3*4";
    assert ['+'] + "3*4" == "+3*4";
    assert "3" + "*4" == "3*4";
    assert ['*'] + "4" == "*4";
    assert "4" + [] == "4";
  }

  lemma FeedSumProduct()
    ensures Feed(Initial, [LNumber("2")] + ([LSymbol('+')] + ([LNumber("3")] + ([LSymbol('*')] + [LNumber("4")]))))
         == Ok(State([Op(Add), Op(Mul)], [Num("2"), Num("3"), Num("4")], false))
  {
    var s1 := State([], [Num("2")], false);
    var s2 := State([Op(Add)], [Num("2")], true);
    var s3 := State([Op(Add)], [Num("2"), Num("3")], false);
    var s4 := State([Op(Add), Op(Mul)], [Num("2"), Num("3")], true);
    assert [] + [Num("2")] == [Num("2")];
    assert [Num("2")] + [Num("3")] == [Num("2"), Num("3")];
    assert [Num("2"), Num("3")] + [Num("4")] == [Num("2"), Num("3"), Num("4")];
    OperatorPushes(s1, '+');
    assert [] + [Op(Add)] == [Op(Add)];
    // `*` does not pop `+`
    OperatorPushes(s3, '*');
    assert [Op(Add)] + [Op(Mul)] == [Op(Add), Op(Mul)];
    FeedCons(s4, LNumber("4"), []);
    FeedCons(s3, LSymbol('*'), [LNumber("4")]);
    FeedCons(s2, LNumber("3"), [LSymbol('*')] + [LNumber("4")]);
    FeedCons(s1, LSymbol('+'), [LNumber("3")] + ([LSymbol('*')] + [LNumber("4")]));
    FeedCons(Initial, LNumber("2"), [LSymbol('+')] + ([LNumber("3")] + ([LSymbol('*')] + [LNumber("4")])));
  }

  /** A binary operator that finds nothing to pop is pushed. */
  lemma OperatorPushes(st: State, c: char)
    requires IsOperatorChar(c) && c != '-' && c != '~'
    requires st.ops == [] || !ShouldPop(OperatorToken(c), Top(st.ops))
    ensures Step(st, LSymbol(c)) == Ok(State(st.ops + [OperatorToken(c)], st.out, true))
  {
  }

  /** `2+3*4` converts to `2 3 4 * +`. */
  lemma PostfixSumProduct()
    ensures Postfix("2+3*4") == Ok([Num("2"), Num("3"), Num("4"), Op(Mul), Op(Add)])
  {
    LexSumProduct();
    FeedSumProduct();
    var ops := [Op(Add), Op(Mul)];
    DrainSpec(ops, [Num("2"), Num("3"), Num("4")]);
    assert Pop(ops) == [Op(Add)];
    assert Pop([Op(Add)]) == [];
    assert Reversed(ops) == [Op(Mul), Op(Add)];
    assert LParen !in ops;
    assert [Num("2"), Num("3"), Num("4")] + [Op(Mul), Op(Add)] == [Num("2"), Num("3"), Num("4"), Op(Mul), Op(Add)];
  }

  lemma EvalSumProduct(pow: (real, real) -> real)
    ensures WellFormed(Bin(Add, Lit("2"), Bin(Mul, Lit("3"), Lit("4"))))
    ensures Eval(Bin(Add, Lit("2"), Bin(Mul, Lit("3"), Lit("4"))), pow) == Ok(14.0)
    ensures Postorder(Bin(Add, Lit("2"), Bin(Mul, Lit("3"), Lit("4")))) == [Num("2"), Num("3"), Num("4"), Op(Mul), Op(Add)]
  {
    OneDigit('2');
    OneDigit('3');
    OneDigit('4');
    assert Eval(Bin(Mul, Lit("3"), Lit("4")), pow) == Ok(12.0);
  }

  /** `2+3*4` is 14. */
  lemma CalculateSumProduct(pow: (real, real) -> real)
    ensures Calculate("2+3*4", pow) == Ok(14.0)
  {
    var e := Bin(Add, Lit("2"), Bin(Mul, Lit("3"), Lit("4")));
    EvalSumProduct(pow);
    PostfixSumProduct();
    ExamplesHaveNoSpace();
    CalculateByTree("2+3*4", e, pow);
  }

  // ---------------------------------------------------------------------------
  // `abs(-5)`: the `abs` beneath a closed `(` goes to the output
  // ---------------------------------------------------------------------------

  lemma LexAbsNeg()
    ensures Lex("abs(-5)") == [LWord("abs")] + ([LOpen] + ([LSymbol('-')] + ([LNumber("5")] + [LClose])))
  {
    LexCharThen(')', []);
    LexNumberThen("5", ")");
    LexCharThen('-', "5)");
    LexCharThen('(', "-5)");
    LexWordThen("abs", "(-5)");
    assert [')'] + [] == ")";
    assert "5" + ")" == "5)";
    assert ['-'] + "5)" == "-5)";
    assert ['('] + "-5)" == "(-5)";
    assert "abs" + "(-5)" == "abs(-5)";
  }

  /** `)` pops the `~`, discards the `(` and moves the `abs` beneath it. */
  lemma CloseAbs()
    ensures Step(State([Abs, LParen, Neg], [Num("5")], false), LClose) == Ok(State([], [Num("5"), Neg, Abs], false))
  {
    assert Top([Abs, LParen, Neg]) == Neg && Pop([Abs, LParen, Neg]) == [Abs, LParen];
    assert Top([Abs, LParen]) == LParen;
    assert PopToParen([Abs, LParen], [Num("5"), Neg]) == ([Abs, LParen], [Num("5"), Neg]);
    assert [Num("5")] + [Neg] == [Num("5"), Neg];
    assert PopToParen([Abs, LParen, Neg], [Num("5")]) == ([Abs, LParen], [Num("5"), Neg]);
    assert Pop([Abs, LParen]) == [Abs] && Top([Abs]) == Abs && Pop([Abs]) == [];
    assert [Num("5"), Neg] + [Abs] == [Num("5"), Neg, Abs];
  }

  /** `abs(` pushes `abs`, then `(`; the `-` after `(` is the unary minus. */
  lemma FeedAbsNegHead()
    ensures Feed(Initial, [LWord("abs")] + ([LOpen] + [LSymbol('-')]))
         == Ok(State([Abs, LParen, Neg], [], true))
  {
    var s1 := State([Abs], [], true);
    var s2 := State([Abs, LParen], [], true);
    var s3 := State([Abs, LParen, Neg], [], true);
    assert [] + [Abs] == [Abs];
    assert Step(Initial, LWord("abs")) == Ok(s1);
    assert [Abs] + [LParen] == [Abs, LParen];
    assert Step(s1, LOpen) == Ok(s2);
    MinusStep(s2);
    assert [Abs, LParen] + [Neg] == [Abs, LParen, Neg];
    assert Step(s2, LSymbol('-')) == Ok(s3);
    FeedCons(s2, LSymbol('-'), []);
    FeedCons(s1, LOpen, [LSymbol('-')]);
    FeedCons(Initial, LWord("abs"), [LOpen] + [LSymbol('-')]);
  }

  /** `5)`: the number, then the closing parenthesis. */
  lemma FeedAbsNegTail()
    ensures Feed(State([Abs, LParen, Neg], [], true), [LNumber("5")] + [LClose])
         == Ok(State([], [Num("5"), Neg, Abs], false))
  {
    var s3 := State([Abs, LParen, Neg], [], true);
    var s4 := State([Abs, LParen, Neg], [Num("5")], false);
    assert [] + [Num("5")] == [Num("5")];
    assert Step(s3, LNumber("5")) == Ok(s4);
    CloseAbs();
    FeedCons(s4, LClose, []);
    FeedCons(s3, LNumber("5"), [LClose]);
  }

  lemma FeedAbsNeg()
    ensures Feed(Initial, [LWord("abs")] + ([LOpen] + ([LSymbol('-')] + ([LNumber("5")] + [LClose]))))
         == Ok(State([], [Num("5"), Neg, Abs], false))
  {
    var head := [LWord("abs")] + ([LOpen] + [LSymbol('-')]);
    var tail := [LNumber("5")] + [LClose];
    assert [LWord("abs")] + ([LOpen] + ([LSymbol('-')] + ([LNumber("5")] + [LClose]))) == head + tail;
    FeedAbsNegHead();
    FeedAbsNegTail();
    FeedAppend(Initial, head, tail);
  }

  /** `abs(-5)` converts to `5 ~ abs`. */
  lemma PostfixAbsNeg()
    ensures Postfix("abs(-5)") == Ok([Num("5"), Neg, Abs])
  {
    LexAbsNeg();
    FeedAbsNeg();
    DrainSpec([], [Num("5"), Neg, Abs]);
    assert Reversed([]) == [];
    assert [Num("5"), Neg, Abs] + [] == [Num("5"), Neg, Abs];
  }

  lemma EvalAbsNeg(pow: (real, real) -> real)
    ensures WellFormed(AbsOf(Negate(Lit("5"))))
    ensures Eval(AbsOf(Negate(Lit("5"))), pow) == Ok(5.0)
    ensures Postorder(AbsOf(Negate(Lit("5")))) == [Num("5"), Neg, Abs]
  {
    OneDigit('5');
    assert Eval(Negate(Lit("5")), pow) == Ok(-5.0);
  }

  lemma MoreExamplesHaveNoSpace()
    ensures NoSpace("abs(-5)") && NoSpace("(2+3)*4") && NoSpace("1+")
  {
  }

  /** `abs(-5)` is 5. */
  lemma CalculateAbsNeg(pow: (real, real) -> real)
    ensures Calculate("abs(-5)", pow) == Ok(5.0)
  {
    EvalAbsNeg(pow);
    PostfixAbsNeg();
    MoreExamplesHaveNoSpace();
    CalculateByTree("abs(-5)", AbsOf(Negate(Lit("5"))), pow);
  }

  // ---------------------------------------------------------------------------
  // `(2+3)*4`: parentheses override precedence
  // ---------------------------------------------------------------------------

  lemma LexGroupedSum()
    ensures Lex("(2+3)*4") == [LOpen] + ([LNumber("2")] + ([LSymbol('+')] + ([LNumber("3")] +
      ([LClose] + ([LSymbol('*')] + [LNumber("4")])))))
  {
    LexGroupedSumMiddle();
    GroupedSumSpelling();
    LexNumberThen("2", "+3)*4");
    LexCharThen('(', "2+3)*4");
  }

  lemma GroupedSumSpelling()
    ensures "2" + "+3)*4" == "2+3)*4"
    ensures ['('] + "2+3)*4" == "(2+3)*4"
  {
  }

  lemma LexGroupedSumMiddle()
    ensures Lex("+3)*4") == [LSymbol('+')] + ([LNumber("3")] + ([LClose] + ([LSymbol('*')] + [LNumber("4")])))
  {
    LexGroupedSumTail();
    LexCharThen('+', "3)*4");
    assert ['+'] + "3)*4" == "+3)*4";
  }

  lemma LexGroupedSumTail()
    ensures Lex("3)*4") == [LNumber("3")] + ([LClose] + ([LSymbol('*')] + [LNumber("4")]))
  {
    LexNumberThen("4", []);
    assert "4" + [] == "4";
    LexCharThen('*', "4");
    assert ['*'] + "4" == "*4";
    LexCharThen(')', "*4");
    assert [')'] + "*4" == ")*4";
    LexNumberThen("3", ")*4");
    assert "3" + ")*4" == "3)*4";
  }

  /** `)` pops the `+` and discards the `(`; nothing is beneath it. */
  lemma CloseSum()
    ensures Step(State([LParen, Op(Add)], [Num("2"), Num("3")], false), LClose)
         == Ok(State([], [Num("2"), Num("3"), Op(Add)], false))
  {
    assert Top([LParen, Op(Add)]) == Op(Add) && Pop([LParen, Op(Add)]) == [LParen];
    assert Top([LParen]) == LParen && Pop([LParen]) == [];
    assert [Num("2"), Num("3")] + [Op(Add)] == [Num("2"), Num("3"), Op(Add)];
    assert PopToParen([LParen], [Num("2"), Num("3"), Op(Add)]) == ([LParen], [Num("2"), Num("3"), Op(Add)]);
    assert PopToParen([LParen, Op(Add)], [Num("2"), Num("3")]) == ([LParen], [Num("2"), Num("3"), Op(Add)]);
  }

  /** The first three lexemes: `(2+`. */
  lemma FeedGroupedSumHead()
    ensures Feed(Initial, [LOpen] + ([LNumber("2")] + [LSymbol('+')]))
         == Ok(State([LParen, Op(Add)], [Num("2")], true))
  {
    var s1 := State([LParen], [], true);
    var s2 := State([LParen], [Num("2")], false);
    assert [] + [LParen] == [LParen];
    assert [] + [Num("2")] == [Num("2")];
    OperatorPushes(s2, '+');
    assert [LParen] + [Op(Add)] == [LParen, Op(Add)];
    FeedCons(s2, LSymbol('+'), []);
    FeedCons(s1, LNumber("2"), [LSymbol('+')]);
    FeedCons(Initial, LOpen, [LNumber("2")] + [LSymbol('+')]);
  }

  /** The last four lexemes: `3)*4`. */
  lemma FeedGroupedSumTail()
    ensures Feed(State([LParen, Op(Add)], [Num("2")], true), [LNumber("3")] + ([LClose] + ([LSymbol('*')] + [LNumber("4")])))
         == Ok(State([Op(Mul)], [Num("2"), Num("3"), Op(Add), Num("4")], false))
  {
    var s3 := State([LParen, Op(Add)], [Num("2")], true);
    var s4 := State([LParen, Op(Add)], [Num("2"), Num("3")], false);
    var s5 := State([], [Num("2"), Num("3"), Op(Add)], false);
    var s6 := State([Op(Mul)], [Num("2"), Num("3"), Op(Add)], true);
    assert [Num("2")] + [Num("3")] == [Num("2"), Num("3")];
    CloseSum();
    OperatorPushes(s5, '*');
    assert [] + [Op(Mul)] == [Op(Mul)];
    assert [Num("2"), Num("3"), Op(Add)] + [Num("4")] == [Num("2"), Num("3"), Op(Add), Num("4")];
    FeedCons(s6, LNumber("4"), []);
    FeedCons(s5, LSymbol('*'), [LNumber("4")]);
    FeedCons(s4, LClose, [LSymbol('*')] + [LNumber("4")]);
    FeedCons(s3, LNumber("3"), [LClose] + ([LSymbol('*')] + [LNumber("4")]));
  }

  lemma FeedGroupedSum()
    ensures Feed(Initial, [LOpen] + ([LNumber("2")] + ([LSymbol('+')] + ([LNumber("3")] +
      ([LClose] + ([LSymbol('*')] + [LNumber("4")]))))))
         == Ok(State([Op(Mul)], [Num("2"), Num("3"), Op(Add), Num("4")], false))
  {
    var head := [LOpen] + ([LNumber("2")] + [LSymbol('+')]);
    var tail := [LNumber("3")] + ([LClose] + ([LSymbol('*')] + [LNumber("4")]));
    assert [LOpen] + ([LNumber("2")] + ([LSymbol('+')] + tail)) == head + tail;
    FeedGroupedSumHead();
    FeedGroupedSumTail();
    FeedAppend(Initial, head, tail);
  }

  /** `(2+3)*4` converts to `2 3 + 4 *`. */
  lemma PostfixGroupedSum()
    ensures Postfix("(2+3)*4") == Ok([Num("2"), Num("3"), Op(Add), Num("4"), Op(Mul)])
  {
    LexGroupedSum();
    FeedGroupedSum();
    var out := [Num("2"), Num("3"), Op(Add), Num("4")];
    DrainSpec([Op(Mul)], out);
    assert Reversed([Op(Mul)]) == [Op(Mul)];
    assert out + [Op(Mul)] == [Num("2"), Num("3"), Op(Add), Num("4"), Op(Mul)];
  }

  lemma EvalGroupedSum(pow: (real, real) -> real)
    ensures WellFormed(Bin(Mul, Bin(Add, Lit("2"), Lit("3")), Lit("4")))
    ensures Eval(Bin(Mul, Bin(Add, Lit("2"), Lit("3")), Lit("4")), pow) == Ok(20.0)
    ensures Postorder(Bin(Mul, Bin(Add, Lit("2"), Lit("3")), Lit("4"))) == [Num("2"), Num("3"), Op(Add), Num("4"), Op(Mul)]
  {
    OneDigit('2');
    OneDigit('3');
    OneDigit('4');
    assert Eval(Bin(Add, Lit("2"), Lit("3")), pow) == Ok(5.0);
  }

  /** `(2+3)*4` is 20. */
  lemma CalculateGroupedSum(pow: (real, real) -> real)
    ensures Calculate("(2+3)*4", pow) == Ok(20.0)
  {
    EvalGroupedSum(pow);
    PostfixGroupedSum();
    MoreExamplesHaveNoSpace();
    CalculateByTree("(2+3)*4", Bin(Mul, Bin(Add, Lit("2"), Lit("3")), Lit("4")), pow);
  }

  // ---------------------------------------------------------------------------
  // `1+`: a binary operator short of an operand
  // ---------------------------------------------------------------------------

  /** `1 +` leaves `+` with one operand. */
  lemma DanglingOperator(pow: (real, real) -> real)
    ensures RpnValue([Num("1"), Op(Add)], pow) == Err(InsufficientOperands)
  {
    OneDigit('1');
    assert DigitValue('1') == 1;
    assert [] + [1.0] == [1.0];
    assert Apply([], Num("1"), pow) == Ok([1.0]);
    assert Apply([1.0], Op(Add), pow) == Err(InsufficientOperands);
    RunCons([], Num("1"), [Op(Add)], pow);
    RunCons([1.0], Op(Add), [], pow);
  }

  /** `1+` converts to `1 +`. */
  lemma PostfixDangling()
    ensures Postfix("1+") == Ok([Num("1"), Op(Add)])
  {
    LexCharThen('+', []);
    LexNumberThen("1", "+");
    assert ['+'] + [] == "+";
    assert "1" + "+" == "1+";
    var s1 := State([], [Num("1")], false);
    assert [] + [Num("1")] == [Num("1")];
    assert Step(Initial, LNumber("1")) == Ok(s1);
    OperatorPushes(s1, '+');
    assert [] + [Op(Add)] == [Op(Add)];
    FeedCons(s1, LSymbol('+'), []);
    FeedCons(Initial, LNumber("1"), [LSymbol('+')]);
    DrainSpec([Op(Add)], [Num("1")]);
    assert Reversed([Op(Add)]) == [Op(Add)];
    assert [Num("1")] + [Op(Add)] == [Num("1"), Op(Add)];
  }

  /** `1+` fails in the evaluation, not in the conversion. */
  lemma CalculateDanglingOperator(pow: (real, real) -> real)
    ensures Calculate("1+", pow) == Err(InsufficientOperands)
  {
    PostfixDangling();
    MoreExamplesHaveNoSpace();
    StripSpaceKeeps("1+");
    DanglingOperator(pow);
  }

  // ---------------------------------------------------------------------------
  // Whitespace between digits, and the error cases
  // ---------------------------------------------------------------------------

  /** `12` is the number twelve. */
  lemma Twelve()
    ensures IsNumber("12") && LiteralValue("12") == 12.0
  {
    assert "12"[1..] == "2" && "2"[1..] == [];
    assert CountDigits("12") == 2;
    assert CountPoints("12") == 0;
    assert WithoutPoint("2") == "2";
    assert WithoutPoint("12") == "12";
    assert "12"[..1] == "1" && "1"[..0] == [];
    assert DigitsValue("1") == 1;
    assert DigitsValue("12") == 12;
    assert FractionDigits("2") == 0;
    assert FractionDigits("12") == 0;
  }

  /** `1 2` is read as `12`: whitespace goes before the digits are grouped. */
  lemma CalculateSpacedDigits(pow: (real, real) -> real)
    ensures Calculate("1 2", pow) == Ok(12.0)
  {
    SpaceInsertedAnywhere("1", "2", pow);
    assert "1" + " " + "2" == "1 2";
    assert "1" + "2" == "12";
    Twelve();
    CalculatePrint(Lit("12"), pow);
  }

  /** Dividing by zero is an error, not a value. */
  lemma CalculateDivisionByZero(pow: (real, real) -> real)
    ensures Calculate("(5/0)", pow) == Err(DivisionByZero)
  {
    var e := Bin(Div, Lit("5"), Lit("0"));
    OneDigit('5');
    OneDigit('0');
    assert Print(e) == "(5/0)";
    CalculatePrint(e, pow);
  }

  /** A word other than `abs` is an unknown identifier, wherever it stands. */
  lemma PostfixUnknownFunction()
    ensures Postfix("sin(1)") == Err(UnknownIdentifier("sin"))
  {
    LexWordThen("sin", "(1)");
    assert "sin" + "(1)" == "sin(1)";
    FeedCons(Initial, LWord("sin"), Lex("(1)"));
  }

  lemma CalculateUnknownFunction(pow: (real, real) -> real)
    ensures Calculate("sin(1)", pow) == Err(UnknownIdentifier("sin"))
  {
    PostfixUnknownFunction();
    StripSpaceKeeps("sin(1)");
  }

  lemma LexUnclosed()
    ensures Lex("(1+2") == [LOpen] + ([LNumber("1")] + ([LSymbol('+')] + [LNumber("2")]))
  {
    LexNumberThen("2", []);
    LexCharThen('+', "2");
    LexNumberThen("1", "+2");
    LexCharThen('(', "1+2");
    assert "2" + [] == "2";
    assert ['+'] + "2" == "+2";
    assert "1" + "+2" == "1+2";
    assert ['('] + "1+2" == "(1+2";
  }

  lemma FeedUnclosed()
    ensures Feed(Initial, [LOpen] + ([LNumber("1")] + ([LSymbol('+')] + [LNumber("2")])))
         == Ok(State([LParen, Op(Add)], [Num("1"), Num("2")], false))
  {
    var s1 := State([LParen], [], true);
    var s2 := State([LParen], [Num("1")], false);
    var s3 := State([LParen, Op(Add)], [Num("1")], true);
    assert [] + [LParen] == [LParen];
    assert [] + [Num("1")] == [Num("1")];
    OperatorPushes(s2, '+');
    assert [LParen] + [Op(Add)] == [LParen, Op(Add)];
    assert [Num("1")] + [Num("2")] == [Num("1"), Num("2")];
    FeedCons(s3, LNumber("2"), []);
    FeedCons(s2, LSymbol('+'), [LNumber("2")]);
    FeedCons(s1, LNumber("1"), [LSymbol('+')] + [LNumber("2")]);
    FeedCons(Initial, LOpen, [LNumber("1")] + ([LSymbol('+')] + [LNumber("2")]));
  }

  /** An `(` never closed is reported when the stack is drained. */
  lemma CalculateUnclosed(pow: (real, real) -> real)
    ensures Calculate("(1+2", pow) == Err(MismatchedParentheses)
  {
    LexUnclosed();
    FeedUnclosed();
    DrainSpec([LParen, Op(Add)], [Num("1"), Num("2")]);
    assert LParen in [LParen, Op(Add)];
    StripSpaceKeeps("(1+2");
  }

  /** A run with two points is skipped by the evaluation loop, which then
      finds no value. */
  lemma TwoPointsSkipped(pow: (real, real) -> real)
    ensures RpnValue([Num("1.2.3")], pow) == Err(MalformedExpression)
  {
    assert "1.2.3"[1..] == ".2.3" && ".2.3"[1..] == "2.3" && "2.3"[1..] == ".3";
    assert ".3"[1..] == "3" && "3"[1..] == [];
    assert CountPoints("1.2.3") == 2;
    assert !IsNumber("1.2.3");
    assert Apply([], Num("1.2.3"), pow) == Ok([]);
    assert [Num("1.2.3")][1..] == [];
  }
}
