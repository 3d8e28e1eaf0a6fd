/** Expression trees: the reference meaning the converter and the evaluator are
    measured against. A tree is printed fully parenthesised, so that every
    operator's operands are explicit in the text. */
module ExprTree {
  import opened Tokens
  import opened Scanner
  import opened Parser
  import opened ParserFacts
  import opened Rpn

  datatype Expr =
    | Lit(text: string)                        // a number literal
    | Bin(op: BinOp, left: Expr, right: Expr)  // `(left op right)`
    | Negate(arg: Expr)                        // `(-arg)`
    | AbsOf(arg: Expr)                         // `abs(arg)`

  /** Every literal is one `stod` accepts. */
  predicate WellFormed(e: Expr) {
    match e
    case Lit(t) => IsNumber(t)
    case Bin(_, l, r) => WellFormed(l) && WellFormed(r)
    case Negate(a) => WellFormed(a)
    case AbsOf(a) => WellFormed(a)
  }

  /** The value of a tree: the operands first, left before right. */
  function Eval(e: Expr, pow: (real, real) -> real): Result<real>
    requires WellFormed(e)
  {
    match e
    case Lit(t) => Ok(LiteralValue(t))
    case Negate(a) =>
      (match Eval(a, pow)
       case Err(x) => Err(x)
       case Ok(v) => Ok(-v))
    case AbsOf(a) =>
      (match Eval(a, pow)
       case Err(x) => Err(x)
       case Ok(v) => Ok(AbsValue(v)))
    case Bin(op, l, r) =>
      match Eval(l, pow)
      case Err(x) => Err(x)
      case Ok(u) =>
        match Eval(r, pow)
        case Err(x) => Err(x)
        case Ok(v) => if op == Div && v == 0.0 then Err(DivisionByZero) else Ok(Combine(op, u, v, pow))
  }

  /** The tree as calculator input, every operation in its own parentheses. */
  function Print(e: Expr): string {
    match e
    case Lit(t) => t
    case Bin(op, l, r) => "(" + (Print(l) + ([Symbol(op)] + (Print(r) + ")")))
    case Negate(a) => "(" + ("-" + (Print(a) + ")"))
    case AbsOf(a) => "abs" + ("(" + (Print(a) + ")"))
  }

  /** The lexemes of the printed tree. */
  function LexemesOf(e: Expr): seq<Lexeme> {
    match e
    case Lit(t) => [LNumber(t)]
    case Bin(op, l, r) => [LOpen] + (LexemesOf(l) + ([LSymbol(Symbol(op))] + (LexemesOf(r) + [LClose])))
    case Negate(a) => [LOpen] + ([LSymbol('-')] + (LexemesOf(a) + [LClose]))
    case AbsOf(a) => [LWord("abs")] + ([LOpen] + (LexemesOf(a) + [LClose]))
  }

  /** The tree in postfix order: operands first, then their operator. */
  function Postorder(e: Expr): seq<Token> {
    match e
    case Lit(t) => [Num(t)]
    case Bin(op, l, r) => Postorder(l) + (Postorder(r) + [Op(op)])
    case Negate(a) => Postorder(a) + [Neg]
    case AbsOf(a) => Postorder(a) + [Abs]
  }

  // ---------------------------------------------------------------------------
  // Scanning a printed tree
  // ---------------------------------------------------------------------------

  lemma LiteralNotEmpty(t: string)
    requires IsNumber(t)
    ensures t != []
  {
  }

  /** A printed tree, followed by anything that cannot extend a number,
      scans to the tree's lexemes. */
  lemma {:induction false} LexPrint(e: Expr, rest: string)
    requires WellFormed(e)
    requires rest == [] || !IsNumberChar(rest[0])
    ensures Lex(Print(e) + rest) == LexemesOf(e) + Lex(rest)
    decreases e, 1
  {
    match e
    case Lit(t) =>
      LiteralNotEmpty(t);
      LexNumberThen(t, rest);
    case Bin(op, l, r) =>
      LexBin(op, l, r, rest);
    case Negate(a) =>
      LexNegate(a, rest);
    case AbsOf(a) =>
      LexAbs(a, rest);
  }

  /** A printed tree followed by `)` and more. */
  lemma {:induction false} LexPrintClose(e: Expr, rest: string)
    requires WellFormed(e)
    ensures Lex(Print(e) + (")" + rest)) == LexemesOf(e) + ([LClose] + Lex(rest))
    decreases e, 2
  {
    assert (")" + rest)[0] == ')';
    LexPrint(e, ")" + rest);
    LexCharThen(')', rest);
  }

  lemma {:induction false} LexBin(op: BinOp, l: Expr, r: Expr, rest: string)
    requires WellFormed(l) && WellFormed(r)
    ensures Lex(Print(Bin(op, l, r)) + rest) == LexemesOf(Bin(op, l, r)) + Lex(rest)
    decreases Bin(op, l, r), 0
  {
    var c := Symbol(op);
    var tail := Print(r) + (")" + rest);
    calc {
      Lex(Print(Bin(op, l, r)) + rest);
      { assert Print(Bin(op, l, r)) + rest == ['('] + (Print(l) + ([c] + tail)); }
      Lex(['('] + (Print(l) + ([c] + tail)));
      { LexCharThen('(', Print(l) + ([c] + tail)); }
      [LOpen] + Lex(Print(l) + ([c] + tail));
      { assert ([c] + tail)[0] == c; LexPrint(l, [c] + tail); }
      [LOpen] + (LexemesOf(l) + Lex([c] + tail));
      { LexCharThen(c, tail); }
      [LOpen] + (LexemesOf(l) + ([LSymbol(c)] + Lex(tail)));
      { LexPrintClose(r, rest); }
      [LOpen] + (LexemesOf(l) + ([LSymbol(c)] + (LexemesOf(r) + ([LClose] + Lex(rest)))));
      LexemesOf(Bin(op, l, r)) + Lex(rest);
    }
  }

  lemma {:induction false} LexNegate(a: Expr, rest: string)
    requires WellFormed(a)
    ensures Lex(Print(Negate(a)) + rest) == LexemesOf(Negate(a)) + Lex(rest)
    decreases Negate(a), 0
  {
    var tail := Print(a) + (")" + rest);
    calc {
      Lex(Print(Negate(a)) + rest);
      { assert Print(Negate(a)) + rest == ['('] + (['-'] + tail); }
      Lex(['('] + (['-'] + tail));
      { LexCharThen('(', ['-'] + tail); LexCharThen('-', tail); }
      [LOpen] + ([LSymbol('-')] + Lex(tail));
      { LexPrintClose(a, rest); }
      [LOpen] + ([LSymbol('-')] + (LexemesOf(a) + ([LClose] + Lex(rest))));
      LexemesOf(Negate(a)) + Lex(rest);
    }
  }

  lemma {:induction false} LexAbs(a: Expr, rest: string)
    requires WellFormed(a)
    ensures Lex(Print(AbsOf(a)) + rest) == LexemesOf(AbsOf(a)) + Lex(rest)
    decreases AbsOf(a), 0
  {
    var tail := Print(a) + (")" + rest);
    calc {
      Lex(Print(AbsOf(a)) + rest);
      { assert Print(AbsOf(a)) + rest == "abs" + (['('] + tail); }
      Lex("abs" + (['('] + tail));
      { LexWordThen("abs", ['('] + tail); LexCharThen('(', tail); }
      [LWord("abs")] + ([LOpen] + Lex(tail));
      { LexPrintClose(a, rest); }
      [LWord("abs")] + ([LOpen] + (LexemesOf(a) + ([LClose] + Lex(rest))));
      LexemesOf(AbsOf(a)) + Lex(rest);
    }
  }

  // ---------------------------------------------------------------------------
  // Converting a printed tree
  // ---------------------------------------------------------------------------

  /** A state in which a tree's lexemes may start: a value is expected and
      the top of the stack is not an `abs` waiting for its `(`. */
  predicate ReadyFor(st: State) {
    st.expectValue && (st.ops == [] || Top(st.ops) != Abs)
  }

  lemma OperatorOfSymbol(op: BinOp)
    ensures OperatorToken(Symbol(op)) == Op(op)
  {
  }

  /** Feeding a tree's lexemes appends its postorder to the output and leaves
      the stack as it was. */
  lemma {:induction false} FeedTree(e: Expr, st: State)
    requires WellFormed(e) && ReadyFor(st)
    ensures Feed(st, LexemesOf(e)) == Ok(State(st.ops, st.out + Postorder(e), false))
    decreases e, 1
  {
    match e
    case Lit(t) =>
      FeedCons(st, LNumber(t), []);
    case Bin(op, l, r) =>
      FeedBin(op, l, r, st);
    case Negate(a) =>
      FeedNegate(a, st);
    case AbsOf(a) =>
      FeedAbs(a, st);
  }

  /** A tree's lexemes followed by more. */
  lemma {:induction false} FeedTreeThen(e: Expr, st: State, more: seq<Lexeme>)
    requires WellFormed(e) && ReadyFor(st)
    ensures Feed(st, LexemesOf(e) + more) == Feed(State(st.ops, st.out + Postorder(e), false), more)
    decreases e, 2
  {
    FeedAppend(st, LexemesOf(e), more);
    FeedTree(e, st);
  }

  /** `)` right after an operand closes the `(` beneath one pending operator. */
  lemma CloseAfterOperand(ops: seq<Token>, top: Token, out: seq<Token>)
    requires top != LParen && (ops == [] || Top(ops) != Abs)
    ensures Feed(State(ops + [LParen] + [top], out, false), [LClose]) == Ok(State(ops, out + [top], false))
  {
    FeedCons(State(ops + [LParen] + [top], out, false), LClose, []);
    CloseParenMatches(ops, [top], out, false);
    assert Reversed([top]) == [top];
  }

  lemma {:induction false} FeedBin(op: BinOp, l: Expr, r: Expr, st: State)
    requires WellFormed(l) && WellFormed(r) && ReadyFor(st)
    ensures Feed(st, LexemesOf(Bin(op, l, r))) == Ok(State(st.ops, st.out + Postorder(Bin(op, l, r)), false))
    decreases Bin(op, l, r), 0
  {
    var c := Symbol(op);
    var withParen := st.ops + [LParen];
    var afterRight := LexemesOf(r) + [LClose];
    var afterLeft := [LSymbol(c)] + afterRight;
    var out1 := st.out + Postorder(l);
    var out2 := out1 + Postorder(r);
    calc {
      Feed(st, LexemesOf(Bin(op, l, r)));
      { FeedCons(st, LOpen, LexemesOf(l) + afterLeft); }
      Feed(State(withParen, st.out, true), LexemesOf(l) + afterLeft);
      { FeedTreeThen(l, State(withParen, st.out, true), afterLeft); }
      Feed(State(withParen, out1, false), afterLeft);
      { // a value is not expected, so `-` is subtraction; `(` stops the pop loop
        OperatorOfSymbol(op);
        PopTable(Top(withParen));
        FeedCons(State(withParen, out1, false), LSymbol(c), afterRight); }
      Feed(State(withParen + [Op(op)], out1, true), afterRight);
      { FeedTreeThen(r, State(withParen + [Op(op)], out1, true), [LClose]); }
      Feed(State(withParen + [Op(op)], out2, false), [LClose]);
      { CloseAfterOperand(st.ops, Op(op), out2); }
      Ok(State(st.ops, out2 + [Op(op)], false));
      { assert out2 + [Op(op)] == st.out + Postorder(Bin(op, l, r)); }
      Ok(State(st.ops, st.out + Postorder(Bin(op, l, r)), false));
    }
  }

  lemma {:induction false} FeedNegate(a: Expr, st: State)
    requires WellFormed(a) && ReadyFor(st)
    ensures Feed(st, LexemesOf(Negate(a))) == Ok(State(st.ops, st.out + Postorder(Negate(a)), false))
    decreases Negate(a), 0
  {
    var withParen := st.ops + [LParen];
    var afterMinus := LexemesOf(a) + [LClose];
    var out1 := st.out + Postorder(a);
    calc {
      Feed(st, LexemesOf(Negate(a)));
      { FeedCons(st, LOpen, [LSymbol('-')] + afterMinus); }
      Feed(State(withParen, st.out, true), [LSymbol('-')] + afterMinus);
      { // a value is expected, so `-` is the unary minus
        MinusStep(State(withParen, st.out, true));
        FeedCons(State(withParen, st.out, true), LSymbol('-'), afterMinus); }
      Feed(State(withParen + [Neg], st.out, true), afterMinus);
      { FeedTreeThen(a, State(withParen + [Neg], st.out, true), [LClose]); }
      Feed(State(withParen + [Neg], out1, false), [LClose]);
      { CloseAfterOperand(st.ops, Neg, out1); }
      Ok(State(st.ops, out1 + [Neg], false));
      { assert out1 + [Neg] == st.out + Postorder(Negate(a)); }
      Ok(State(st.ops, st.out + Postorder(Negate(a)), false));
    }
  }

  lemma {:induction false} FeedAbs(a: Expr, st: State)
    requires WellFormed(a) && ReadyFor(st)
    ensures Feed(st, LexemesOf(AbsOf(a))) == Ok(State(st.ops, st.out + Postorder(AbsOf(a)), false))
    decreases AbsOf(a), 0
  {
    var called := st.ops + [Abs];
    var afterOpen := LexemesOf(a) + [LClose];
    var out1 := st.out + Postorder(a);
    calc {
      Feed(st, LexemesOf(AbsOf(a)));
      { WordStep(st, "abs");
        FeedCons(st, LWord("abs"), [LOpen] + afterOpen); }
      Feed(State(called, st.out, true), [LOpen] + afterOpen);
      { FeedCons(State(called, st.out, true), LOpen, afterOpen); }
      Feed(State(called + [LParen], st.out, true), afterOpen);
      { FeedTreeThen(a, State(called + [LParen], st.out, true), [LClose]); }
      Feed(State(called + [LParen], out1, false), [LClose]);
      { // `)` also moves the `abs` beneath the `(` to the output
        FeedCons(State(called + [LParen], out1, false), LClose, []);
        CloseParenMatches(called, [], out1, false);
        assert called + [LParen] + [] == called + [LParen];
        assert out1 + Reversed([]) == out1;
        assert Pop(called) == st.ops; }
      Ok(State(st.ops, out1 + [Abs], false));
      { assert out1 + [Abs] == st.out + Postorder(AbsOf(a)); }
      Ok(State(st.ops, st.out + Postorder(AbsOf(a)), false));
    }
  }

  /** A printed tree converts to the tree's postorder. */
  lemma PostfixOfPrint(e: Expr)
    requires WellFormed(e)
    ensures Postfix(Print(e)) == Ok(Postorder(e))
  {
    LexPrint(e, []);
    assert Print(e) + [] == Print(e);
    assert LexemesOf(e) + [] == LexemesOf(e);
    FeedTree(e, Initial);
    assert [] + Postorder(e) == Postorder(e);
    DrainSpec([], Postorder(e));
  }

  // ---------------------------------------------------------------------------
  // Evaluating a tree's postorder
  // ---------------------------------------------------------------------------

  /** Running a tree's postorder pushes the tree's value, or fails with the
      tree's error. */
  lemma {:induction false} RunPostorder(e: Expr, stack: seq<real>, pow: (real, real) -> real)
    requires WellFormed(e)
    ensures Run(stack, Postorder(e), pow) ==
      if Eval(e, pow).Err? then Err(Eval(e, pow).error) else Ok(stack + [Eval(e, pow).value])
    decreases e
  {
    match e
    case Lit(t) =>
      RunCons(stack, Num(t), [], pow);
    case Negate(a) =>
      RunPostorder(a, stack, pow);
      RunAppend(stack, Postorder(a), [Neg], pow);
      if Eval(a, pow).Ok? {
        var s := stack + [Eval(a, pow).value];
        RunCons(s, Neg, [], pow);
        assert s[..|s| - 1] == stack;
      }
    case AbsOf(a) =>
      RunPostorder(a, stack, pow);
      RunAppend(stack, Postorder(a), [Abs], pow);
      if Eval(a, pow).Ok? {
        var s := stack + [Eval(a, pow).value];
        RunCons(s, Abs, [], pow);
        assert s[..|s| - 1] == stack;
      }
    case Bin(op, l, r) =>
      RunPostorder(l, stack, pow);
      RunAppend(stack, Postorder(l), Postorder(r) + [Op(op)], pow);
      if Eval(l, pow).Ok? {
        var s1 := stack + [Eval(l, pow).value];
        RunPostorder(r, s1, pow);
        RunAppend(s1, Postorder(r), [Op(op)], pow);
        if Eval(r, pow).Ok? {
          var s2 := s1 + [Eval(r, pow).value];
          RunCons(s2, Op(op), [], pow);
          assert s2[..|s2| - 2] == stack;
          assert s2[|s2| - 2] == Eval(l, pow).value;
        }
      }
  }

  /** The evaluator computes a tree's value from its postorder. */
  lemma RpnValueOfPostorder(e: Expr, pow: (real, real) -> real)
    requires WellFormed(e)
    ensures RpnValue(Postorder(e), pow) == Eval(e, pow)
  {
    RunPostorder(e, [], pow);
    if Eval(e, pow).Ok? {
      assert [] + [Eval(e, pow).value] == [Eval(e, pow).value];
    }
  }
}
