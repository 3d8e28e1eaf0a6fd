/** The shunting-yard converter `MathEvaluator::shuntingYard`: it turns a
    whitespace-free infix expression into a postfix token sequence, with an
    operator stack, an output queue and the `expect_value` flag that tells a
    unary minus from a binary one.

    The specification is a fold of `Step` over the scanner's lexemes followed by
    `Drain`; the method `ShuntingYard` is the source's loop and is proved equal
    to it. The top of every stack is the LAST element of its sequence. */
module Parser {
  import opened Tokens
  import opened Scanner

  /** The converter's state between two lexemes. */
  datatype State = State(ops: seq<Token>, out: seq<Token>, expectValue: bool)

  /** Empty stack, empty queue, and a value is expected first. */
  const Initial: State := State([], [], true)

  function Top(ops: seq<Token>): Token
    requires ops != []
  {
    ops[|ops| - 1]
  }

  function Pop(ops: seq<Token>): seq<Token>
    requires ops != []
  {
    ops[..|ops| - 1]
  }

  /** The stack `ops` listed from its top down: the order in which popping
      everything moves it to the output. */
  function Reversed(ops: seq<Token>): (r: seq<Token>)
    ensures |r| == |ops|
  {
    if ops == [] then [] else [Top(ops)] + Reversed(Pop(ops))
  }

  /** The loop that runs before `incoming` is pushed: move the top to the
      output while the pop rule holds for it. */
  function PopOperators(incoming: Token, ops: seq<Token>, out: seq<Token>): (seq<Token>, seq<Token>)
    decreases |ops|
  {
    if ops != [] && ShouldPop(incoming, Top(ops)) then
      PopOperators(incoming, Pop(ops), out + [Top(ops)])
    else
      (ops, out)
  }

  /** The loop that runs on `)`: move the top to the output until `(` is on top
      or the stack is empty. */
  function PopToParen(ops: seq<Token>, out: seq<Token>): (seq<Token>, seq<Token>)
    decreases |ops|
  {
    if ops != [] && Top(ops) != LParen then PopToParen(Pop(ops), out + [Top(ops)]) else (ops, out)
  }

  /** On `)`: pop to the matching `(`, discard it, then move an `abs` found
      directly beneath it to the output. */
  function CloseParen(st: State): Result<State> {
    var (ops1, out1) := PopToParen(st.ops, st.out);
    if ops1 == [] then Err(MismatchedParentheses)
    else
      var ops2 := Pop(ops1);
      if ops2 != [] && Top(ops2) == Abs then Ok(State(Pop(ops2), out1 + [Abs], false))
      else Ok(State(ops2, out1, false))
  }

  /** On an operator character: `-` while a value is expected, or `~`, is the
      unary minus; pop what the pop rule selects, then push the operator. */
  function PushOperator(st: State, c: char): State
    requires IsOperatorChar(c)
  {
    var op1 := if c == '-' && st.expectValue then Neg else OperatorToken(c);
    var (ops1, out1) := PopOperators(op1, st.ops, st.out);
    State(ops1 + [op1], out1, true)
  }

  /** One pass of the scanning loop, on one lexeme. */
  function Step(st: State, l: Lexeme): Result<State> {
    match l
    case LNumber(t) => Ok(State(st.ops, st.out + [Num(t)], false))
    case LOpen => Ok(State(st.ops + [LParen], st.out, true))
    case LClose => CloseParen(st)
    // `Lex` only makes `LSymbol` of operator characters (`LexWellFormed`);
    // the `else` is the loop's fall-through for any other character
    case LSymbol(c) => if IsOperatorChar(c) then Ok(PushOperator(st, c)) else Ok(st)
    case LWord(w) =>
      if IsFunction(w) then Ok(State(st.ops + [Abs], st.out, st.expectValue))
      else Err(UnknownIdentifier(w))
  }

  /** The scanning loop over a sequence of lexemes; the first error stops it. */
  function Feed(st: State, ls: seq<Lexeme>): Result<State>
    decreases |ls|
  {
    if ls == [] then Ok(st)
    else
      match Step(st, ls[0])
      case Err(e) => Err(e)
      case Ok(st') => Feed(st', ls[1..])
  }

  /** The loop after the scan: pop everything to the output, failing on a `(`. */
  function Drain(ops: seq<Token>, out: seq<Token>): Result<seq<Token>>
    decreases |ops|
  {
    if ops == [] then Ok(out)
    else if IsParenthesis(Top(ops)) then Err(MismatchedParentheses)
    else Drain(Pop(ops), out + [Top(ops)])
  }

  function Finish(r: Result<State>): Result<seq<Token>> {
    match r
    case Err(e) => Err(e)
    case Ok(st) => Drain(st.ops, st.out)
  }

  /** The postfix form of `expression`, or the error the converter throws. */
  function Postfix(expression: string): Result<seq<Token>> {
    Finish(Feed(Initial, Lex(expression)))
  }

  // ---------------------------------------------------------------------------
  // The converter as the source writes it
  // ---------------------------------------------------------------------------

  /** The scanning loop from index `i` of the input on: the same fold as
      `Feed(st, Lex(s[i..]))`, walked by index as the source does. */
  function ScanFrom(s: string, i: nat, st: State): Result<State>
    requires i <= |s|
    decreases |s| - i
  {
    if i == |s| then Ok(st)
    else if !Recognised(s[i]) then ScanFrom(s, i + 1, st)
    else
      var (l, j) := LexemeAt(s, i);
      match Step(st, l)
      case Err(e) => Err(e)
      case Ok(next) => ScanFrom(s, j, next)
  }

  lemma FeedCons(st: State, l: Lexeme, ls: seq<Lexeme>)
    ensures Feed(st, [l] + ls) == if Step(st, l).Err? then Err(Step(st, l).error) else Feed(Step(st, l).value, ls)
  {
    assert ([l] + ls)[0] == l;
    assert ([l] + ls)[1..] == ls;
  }

  /** Feeding `a + b` is feeding `a`, then `b` from the state `a` left. */
  lemma {:induction false} FeedAppend(st: State, a: seq<Lexeme>, b: seq<Lexeme>)
    ensures Feed(st, a + b) == if Feed(st, a).Err? then Err(Feed(st, a).error) else Feed(Feed(st, a).value, b)
    decreases |a|
  {
    if a == [] {
      assert a + b == b;
    } else {
      assert a + b == [a[0]] + (a[1..] + b);
      assert a == [a[0]] + a[1..];
      FeedCons(st, a[0], a[1..] + b);
      FeedCons(st, a[0], a[1..]);
      if Step(st, a[0]).Ok? {
        FeedAppend(Step(st, a[0]).value, a[1..], b);
      }
    }
  }

  lemma {:induction false} ScanFromIsFeed(s: string, i: nat, st: State)
    requires i <= |s|
    ensures ScanFrom(s, i, st) == Feed(st, Lex(s[i..]))
    decreases |s| - i
  {
    if i == |s| {
      assert s[i..] == [];
    } else {
      LexAt(s, i);
      if !Recognised(s[i]) {
        ScanFromIsFeed(s, i + 1, st);
      } else {
        var (l, j) := LexemeAt(s, i);
        FeedCons(st, l, Lex(s[j..]));
        if Step(st, l).Ok? {
          ScanFromIsFeed(s, j, Step(st, l).value);
        }
      }
    }
  }

  // One pass of the scanning loop, branch by branch of the source's if/else chain

  lemma ScanNumber(s: string, i: nat, st: State)
    requires i < |s| && IsNumberChar(s[i])
    ensures var j := NumberEnd(s, i + 1);
      ScanFrom(s, i, st) == ScanFrom(s, j, State(st.ops, st.out + [Num(s[i..j])], false))
  {
  }

  lemma ScanOpen(s: string, i: nat, st: State)
    requires i < |s| && s[i] == '('
    ensures ScanFrom(s, i, st) == ScanFrom(s, i + 1, State(st.ops + [LParen], st.out, true))
  {
  }

  lemma ScanClose(s: string, i: nat, st: State)
    requires i < |s| && s[i] == ')'
    ensures ScanFrom(s, i, st) ==
      if CloseParen(st).Err? then Err(CloseParen(st).error) else ScanFrom(s, i + 1, CloseParen(st).value)
  {
  }

  lemma ScanOperator(s: string, i: nat, st: State)
    requires i < |s| && IsOperatorChar(s[i])
    ensures ScanFrom(s, i, st) == ScanFrom(s, i + 1, PushOperator(st, s[i]))
  {
  }

  lemma ScanWord(s: string, i: nat, st: State)
    requires i < |s| && IsAlpha(s[i])
    ensures var j := WordEnd(s, i + 1);
      ScanFrom(s, i, st) ==
        if IsFunction(s[i..j]) then ScanFrom(s, j, State(st.ops + [Abs], st.out, st.expectValue))
        else Err(UnknownIdentifier(s[i..j]))
  {
  }

  lemma ScanOther(s: string, i: nat, st: State)
    requires i < |s| && !Recognised(s[i])
    ensures ScanFrom(s, i, st) == ScanFrom(s, i + 1, st)
  {
  }

  /** The `)` loop: move the entries on top, `abs` included, to the output until `(` is on top. */
  method PopUntilOpen(ops: seq<Token>, out: seq<Token>) returns (ops': seq<Token>, out': seq<Token>)
    ensures (ops', out') == PopToParen(ops, out)
  {
    ops', out' := ops, out;
    while ops' != [] && Top(ops') != LParen
      invariant PopToParen(ops', out') == PopToParen(ops, out)
      decreases |ops'|
    {
      out' := out' + [Top(ops')];
      ops' := Pop(ops');
    }
  }

  /** The loop before pushing `op1`: move every operator the pop rule selects. */
  method PopDominated(op1: Token, ops: seq<Token>, out: seq<Token>) returns (ops': seq<Token>, out': seq<Token>)
    ensures (ops', out') == PopOperators(op1, ops, out)
  {
    ops', out' := ops, out;
    while ops' != []
      invariant PopOperators(op1, ops', out') == PopOperators(op1, ops, out)
      decreases |ops'|
    {
      var op2 := Top(ops');
      if ShouldPop(op1, op2) {
        out' := out' + [op2];
        ops' := Pop(ops');
      } else {
        break;
      }
    }
  }

  /** The inner scanning loop: collect the digits and points from `start` on. */
  method ReadNumberRun(expression: string, start: nat) returns (currentToken: string, i: nat)
    requires start < |expression| && IsNumberChar(expression[start])
    ensures i == NumberEnd(expression, start + 1) && currentToken == expression[start..i]
  {
    i := start;
    currentToken := "";
    while i < |expression| && IsNumberChar(expression[i])
      invariant start <= i <= |expression|
      invariant i == start || NumberEnd(expression, i) == NumberEnd(expression, start + 1)
      invariant currentToken == expression[start..i]
    {
      currentToken := currentToken + [expression[i]];
      i := i + 1;
    }
  }

  /** The inner scanning loop: collect the letters from `start` on. */
  method ReadWordRun(expression: string, start: nat) returns (currentToken: string, i: nat)
    requires start < |expression| && IsAlpha(expression[start])
    ensures i == WordEnd(expression, start + 1) && currentToken == expression[start..i]
  {
    i := start;
    currentToken := "";
    while i < |expression| && IsAlpha(expression[i])
      invariant start <= i <= |expression|
      invariant i == start || WordEnd(expression, i) == WordEnd(expression, start + 1)
      invariant currentToken == expression[start..i]
    {
      currentToken := currentToken + [expression[i]];
      i := i + 1;
    }
  }

  /** The loop after the scan: pop every remaining entry to the output;
      a `(` still on the stack is a mismatched parenthesis. */
  method DrainOperators(ops: seq<Token>, out: seq<Token>) returns (r: Result<seq<Token>>)
    ensures r == Drain(ops, out)
  {
    var operatorStack, outputQueue := ops, out;
    while operatorStack != []
      invariant Drain(operatorStack, outputQueue) == Drain(ops, out)
      decreases |operatorStack|
    {
      if IsParenthesis(Top(operatorStack)) {
        return Err(MismatchedParentheses);
      }
      outputQueue := outputQueue + [Top(operatorStack)];
      operatorStack := Pop(operatorStack);
    }
    return Ok(outputQueue);
  }

  method ShuntingYard(expression: string) returns (r: Result<seq<Token>>)
    ensures r == Postfix(expression)
  {
    var outputQueue: seq<Token> := [];
    var operatorStack: seq<Token> := [];
    var expectValue := true;
    ScanFromIsFeed(expression, 0, Initial);
    assert expression[0..] == expression;
    var i := 0;
    while i < |expression|
      invariant 0 <= i <= |expression|
      decreases |expression| - i
      invariant ScanFrom(expression, i, State(operatorStack, outputQueue, expectValue)) == ScanFrom(expression, 0, Initial)
    {
      var c := expression[i];
      ghost var st := State(operatorStack, outputQueue, expectValue);
      if IsNumberChar(c) {
        ScanNumber(expression, i, st);
        var currentToken;
        currentToken, i := ReadNumberRun(expression, i);
        i := i - 1;
        outputQueue := outputQueue + [Num(currentToken)];
        expectValue := false;
      } else if c == '(' {
        ScanOpen(expression, i, st);
        operatorStack := operatorStack + [LParen];
        expectValue := true;
      } else if c == ')' {
        ScanClose(expression, i, st);
        operatorStack, outputQueue := PopUntilOpen(operatorStack, outputQueue);
        if operatorStack != [] {
          operatorStack := Pop(operatorStack);
          if operatorStack != [] && Top(operatorStack) == Abs {
            outputQueue := outputQueue + [Top(operatorStack)];
            operatorStack := Pop(operatorStack);
          }
        } else {
          return Err(MismatchedParentheses);
        }
        expectValue := false;
      } else if IsOperatorChar(c) {
        ScanOperator(expression, i, st);
        // `-` while a value is expected, and a literal `~`, are the unary minus
        var op1 := if c == '-' && expectValue then Neg else OperatorToken(c);
        operatorStack, outputQueue := PopDominated(op1, operatorStack, outputQueue);
        operatorStack := operatorStack + [op1];
        expectValue := true;
      } else if IsAlpha(c) {
        ScanWord(expression, i, st);
        var currentToken;
        currentToken, i := ReadWordRun(expression, i);
        i := i - 1;
        if IsFunction(currentToken) {
          operatorStack := operatorStack + [Abs];
        } else {
          return Err(UnknownIdentifier(currentToken));
        }
      } else {
        ScanOther(expression, i, st);
      }
      // any other character matches no branch and is skipped
      i := i + 1;
    }
    r := DrainOperators(operatorStack, outputQueue);
  }
}

/** What the converter promises: the pop rule, the handling of parentheses and
    of `abs`, the unary minus, and an output free of parentheses. */
module ParserFacts {
  import opened Tokens
  import opened Scanner
  import opened Parser

  // ---------------------------------------------------------------------------
  // The two pop loops
  // ---------------------------------------------------------------------------

  lemma PopOfSuffix(ops: seq<Token>, m: nat)
    requires m < |ops|
    ensures Top(ops[m..]) == Top(ops) && Pop(ops[m..]) == Pop(ops)[m..]
  {
  }

  /** The pop loop moves the longest run of entries at the top of the stack
      that the pop rule selects, top first, and nothing else. */
  lemma {:induction false} PopOperatorsSpec(incoming: Token, ops: seq<Token>, out: seq<Token>)
    ensures var (ops1, out1) := PopOperators(incoming, ops, out);
      |ops1| <= |ops| && ops1 == ops[..|ops1|] &&
      out1 == out + Reversed(ops[|ops1|..]) &&
      (forall k :: |ops1| <= k < |ops| ==> ShouldPop(incoming, ops[k])) &&
      (ops1 == [] || !ShouldPop(incoming, Top(ops1)))
    decreases |ops|
  {
    if ops != [] && ShouldPop(incoming, Top(ops)) {
      PopOperatorsSpec(incoming, Pop(ops), out + [Top(ops)]);
      var (ops1, out1) := PopOperators(incoming, Pop(ops), out + [Top(ops)]);
      PopOfSuffix(ops, |ops1|);
      assert Reversed(ops[|ops1|..]) == [Top(ops)] + Reversed(Pop(ops)[|ops1|..]);
    } else {
      assert ops[|ops|..] == [];
    }
  }

  /** The unary minus never pops anything: it is pushed straight away. */
  lemma NegPopsNothing(ops: seq<Token>, out: seq<Token>)
    ensures PopOperators(Neg, ops, out) == (ops, out)
  {
    if ops != [] {
      PopTable(Top(ops));
    }
  }

  /** `)` pops down to the topmost `(`, moving the entries above it, top first. */
  lemma {:induction false} PopToParenSplit(below: seq<Token>, above: seq<Token>, out: seq<Token>)
    requires LParen !in above
    ensures PopToParen(below + [LParen] + above, out) == (below + [LParen], out + Reversed(above))
    decreases |above|
  {
    var ops := below + [LParen] + above;
    if above == [] {
      assert ops == below + [LParen];
      assert out + Reversed(above) == out;
    } else {
      assert Top(ops) == Top(above);
      assert Pop(ops) == below + [LParen] + Pop(above);
      assert LParen !in Pop(above) by { assert forall t :: t in Pop(above) ==> t in above; }
      PopToParenSplit(below, Pop(above), out + [Top(above)]);
      assert out + [Top(above)] + Reversed(Pop(above)) == out + Reversed(above);
    }
  }

  /** With no `(` on the stack, `)` empties it. */
  lemma {:induction false} PopToParenNone(ops: seq<Token>, out: seq<Token>)
    requires LParen !in ops
    ensures PopToParen(ops, out) == ([], out + Reversed(ops))
    decreases |ops|
  {
    if ops == [] {
      assert out + Reversed(ops) == out;
    } else {
      assert LParen !in Pop(ops) by { assert forall t :: t in Pop(ops) ==> t in ops; }
      PopToParenNone(Pop(ops), out + [Top(ops)]);
      assert out + [Top(ops)] + Reversed(Pop(ops)) == out + Reversed(ops);
    }
  }

  /** A stack holding `(` splits at its topmost `(`. */
  lemma {:induction false} SplitAtTopmostOpen(ops: seq<Token>) returns (below: seq<Token>, above: seq<Token>)
    requires LParen in ops
    ensures ops == below + [LParen] + above && LParen !in above
    decreases |ops|
  {
    if Top(ops) == LParen {
      below, above := Pop(ops), [];
    } else {
      assert ops == Pop(ops) + [Top(ops)];
      var b, a := SplitAtTopmostOpen(Pop(ops));
      below, above := b, a + [Top(ops)];
    }
  }

  // ---------------------------------------------------------------------------
  // Parentheses and `abs`
  // ---------------------------------------------------------------------------

  /** On `)`, the topmost `(` is discarded with everything above it moved to
      the output, top first; an `abs` directly beneath that `(` follows them. */
  lemma CloseParenMatches(below: seq<Token>, above: seq<Token>, out: seq<Token>, expectValue: bool)
    requires LParen !in above
    ensures CloseParen(State(below + [LParen] + above, out, expectValue)) ==
      if below != [] && Top(below) == Abs then Ok(State(Pop(below), out + Reversed(above) + [Abs], false))
      else Ok(State(below, out + Reversed(above), false))
  {
    PopToParenSplit(below, above, out);
    assert Pop(below + [LParen]) == below;
  }

  /** `)` fails with mismatched parentheses exactly when no `(` is pending. */
  lemma CloseFailsIffNoOpen(st: State)
    ensures Step(st, LClose).Err? <==> LParen !in st.ops
    ensures Step(st, LClose).Err? ==> Step(st, LClose).error == MismatchedParentheses
  {
    if LParen in st.ops {
      var below, above := SplitAtTopmostOpen(st.ops);
      CloseParenMatches(below, above, st.out, st.expectValue);
    } else {
      PopToParenNone(st.ops, st.out);
    }
  }

  /** At the end of input, any `(` still on the stack is an error; otherwise
      the stack goes to the output top first. */
  lemma {:induction false} DrainSpec(ops: seq<Token>, out: seq<Token>)
    ensures Drain(ops, out) == if LParen in ops then Err(MismatchedParentheses) else Ok(out + Reversed(ops))
    decreases |ops|
  {
    if ops == [] {
      assert out + Reversed(ops) == out;
    } else {
      assert ops == Pop(ops) + [Top(ops)];
      assert LParen in ops <==> LParen in Pop(ops) || Top(ops) == LParen;
      DrainSpec(Pop(ops), out + [Top(ops)]);
      assert out + [Top(ops)] + Reversed(Pop(ops)) == out + Reversed(ops);
    }
  }

  /** Any alphabetic run other than `abs` is an unknown identifier; `abs` is
      pushed and leaves the expect-value flag alone. */
  lemma WordStep(st: State, w: string)
    ensures Step(st, LWord(w)) ==
      if w == "abs" then Ok(State(st.ops + [Abs], st.out, st.expectValue)) else Err(UnknownIdentifier(w))
  {
  }

  // ---------------------------------------------------------------------------
  // Unary minus and the expect-value flag
  // ---------------------------------------------------------------------------

  /** `-` is pushed as the unary minus exactly when a value is expected, and
      as binary subtraction otherwise; either way a value is expected next. */
  lemma MinusStep(st: State)
    ensures Step(st, LSymbol('-')).Ok?
    ensures var next := Step(st, LSymbol('-')).value;
      next.ops != [] && Top(next.ops) == (if st.expectValue then Neg else Op(Sub)) && next.expectValue
    ensures st.expectValue ==> Step(st, LSymbol('-')) == Ok(State(st.ops + [Neg], st.out, true))
  {
    if st.expectValue {
      NegPopsNothing(st.ops, st.out);
    }
  }

  /** A literal `~` in the input is the unary minus whatever the flag says. */
  lemma TildeIsUnaryMinus(st: State)
    ensures Step(st, LSymbol('~')) == Step(st.(expectValue := true), LSymbol('-'))
  {
  }

  /** The flag after each kind of lexeme: false after a number or `)`, true
      after `(` and after any operator, unchanged by an identifier. */
  lemma ExpectValueAfter(st: State, l: Lexeme)
    requires Step(st, l).Ok?
    ensures l.LNumber? || l == LClose ==> !Step(st, l).value.expectValue
    ensures l == LOpen || (l.LSymbol? && IsOperatorChar(l.c)) ==> Step(st, l).value.expectValue
    ensures l.LWord? ==> Step(st, l).value.expectValue == st.expectValue
  {
  }

  // ---------------------------------------------------------------------------
  // No parenthesis ever reaches the output
  // ---------------------------------------------------------------------------

  lemma {:induction false} PopToParenClean(ops: seq<Token>, out: seq<Token>)
    requires LParen !in out
    ensures LParen !in PopToParen(ops, out).1
    decreases |ops|
  {
    if ops != [] && Top(ops) != LParen {
      PopToParenClean(Pop(ops), out + [Top(ops)]);
    }
  }

  lemma StepClean(st: State, l: Lexeme)
    requires LParen !in st.out
    ensures Step(st, l).Ok? ==> LParen !in Step(st, l).value.out
  {
    match l
    case LClose =>
      PopToParenClean(st.ops, st.out);
    case LSymbol(c) =>
      if IsOperatorChar(c) {
        var op1 := if c == '-' && st.expectValue then Neg else OperatorToken(c);
        PopOperatorsSpec(op1, st.ops, st.out);
        var (ops1, out1) := PopOperators(op1, st.ops, st.out);
        assert forall t :: t in Reversed(st.ops[|ops1|..]) ==> IsOperator(t) by {
          ReversedMembers(st.ops[|ops1|..]);
        }
      }
    case _ =>
  }

  lemma {:induction false} ReversedMembers(ops: seq<Token>)
    ensures forall t :: t in Reversed(ops) <==> t in ops
    decreases |ops|
  {
    if ops != [] {
      ReversedMembers(Pop(ops));
      assert ops == Pop(ops) + [Top(ops)];
    }
  }

  lemma {:induction false} FeedClean(st: State, ls: seq<Lexeme>)
    requires LParen !in st.out
    ensures Feed(st, ls).Ok? ==> LParen !in Feed(st, ls).value.out
    decreases |ls|
  {
    if ls != [] {
      StepClean(st, ls[0]);
      if Step(st, ls[0]).Ok? {
        FeedClean(Step(st, ls[0]).value, ls[1..]);
      }
    }
  }

  /** A successful conversion never emits a parenthesis. */
  lemma PostfixHasNoParenthesis(expression: string)
    ensures Postfix(expression).Ok? ==> LParen !in Postfix(expression).value
  {
    FeedClean(Initial, Lex(expression));
    var r := Feed(Initial, Lex(expression));
    if r.Ok? {
      DrainSpec(r.value.ops, r.value.out);
      ReversedMembers(r.value.ops);
    }
  }

  // ---------------------------------------------------------------------------
  // Which errors the converter can throw
  // ---------------------------------------------------------------------------

  /** A step fails only on a mismatched `)` or an unknown identifier. */
  lemma StepErrors(st: State, l: Lexeme)
    ensures Step(st, l).Err? ==>
      Step(st, l).error == MismatchedParentheses || Step(st, l).error.UnknownIdentifier?
  {
  }

  /** The scanning loop fails only on a mismatched `)` or an unknown identifier. */
  lemma {:induction false} FeedErrors(st: State, ls: seq<Lexeme>)
    ensures Feed(st, ls).Err? ==>
      Feed(st, ls).error == MismatchedParentheses || Feed(st, ls).error.UnknownIdentifier?
    decreases |ls|
  {
    if ls != [] {
      StepErrors(st, ls[0]);
      if Step(st, ls[0]).Ok? {
        FeedErrors(Step(st, ls[0]).value, ls[1..]);
      }
    }
  }

  /** The converter throws only mismatched parentheses or an unknown identifier. */
  lemma PostfixErrors(expression: string)
    ensures Postfix(expression).Err? ==>
      Postfix(expression).error == MismatchedParentheses || Postfix(expression).error.UnknownIdentifier?
  {
    var r := Feed(Initial, Lex(expression));
    FeedErrors(Initial, Lex(expression));
    if r.Ok? {
      DrainSpec(r.value.ops, r.value.out);
    }
  }
}
