# SM.AI calculator core in Dafny

This project models the arithmetic core of the SM.AI shell (`sm_ai.cpp`). The
core is the class `MathEvaluator`:

- `evaluate` removes whitespace and rejects an empty expression. It then
  converts the infix text to postfix and evaluates the postfix sequence.
- `shuntingYard` is the infix-to-postfix converter. It keeps an operator
  stack, an output queue and the `expect_value` flag that tells a unary minus
  from a binary one.
- `evaluateRPN` is the postfix evaluator. It works on a stack of values.
- The helpers `isNumber`, `isFunction`, `getPrecedence`, `isRightAssociative`,
  `isOperator` and `isParenthesis`.
- The unit-family dispatch of `evaluateConversion` (`CONVERT <value> <unit>
  TO <unit>`).
- The trailing-zero trim at the end of `format_double`.

Each module follows one part of the source:

| file | module | part of the source |
|---|---|---|
| `tokens.dfy` | `Tokens` | tokens, errors, operator metadata, the number-literal rule |
| `scanner.dfy` | `Scanner` | how the converter's loop cuts the text into runs and characters |
| `parser.dfy` | `Parser`, `ParserFacts` | `shuntingYard`, as a specification and as the source's loop |
| `rpn.dfy` | `Rpn` | `evaluateRPN`, as a specification and as the source's loop |
| `tree.dfy` | `ExprTree` | a reference semantics: expression trees, their printed form, their value |
| `calculator.dfy` | `Calculator` | `evaluate`, and the end-to-end theorem |
| `format.dfy` | `Format` | the trim in `format_double` |
| `conversion.dfy` | `Conversion` | the decision table of `evaluateConversion` |
| `examples.dfy` | `Examples` | worked inputs |

The loops of `shuntingYard`, `evaluateRPN`, `evaluate`, the trim in
`format_double` and `evaluateConversion` are methods here: `ShuntingYard`,
`EvaluateRpn`, `Evaluate`, `TrimZeros` and `EvaluateConversion`. Each is
proved equal to a specification function: `Postfix`, `RpnValue`,
`Calculate`, `Trimmed` and `Convert`. Two in-place library calls are
functions instead: `to_lower`'s `std::transform` is `Conversion.Lower`, and
the `remove_if`/`erase` in `evaluate` is `Calculator.StripSpace`. What the source
promises is then proved about those functions. Stacks are sequences whose top
is the last element.

The reference semantics is `ExprTree`. It has trees of literals, the five
binary operators, unary minus and `abs`. Each tree has a fully parenthesised
printed form, a postorder token sequence and a value. Its main results are:

- `PostfixOfPrint`: the converter turns every printed tree into its postorder.
- `RpnValueOfPostorder`: the evaluator computes the tree's value from that
  postorder.
- `Calculator.CalculatePrint`: the two combined, so the calculator computes
  the value of every printed tree, error for error.

Behaviour that follows the code:

- Whitespace is removed before anything else. So `1 2` is the literal `12`
  and evaluates to 12. It is not an error.
- A digit/dot run is a number only when it has at least one digit and at most
  one `.`. Only then does `strtod` consume the whole run. Any other run, such
  as `1.2.3` or `.`, reaches the output queue and is skipped without a word by
  the evaluator. It usually surfaces as the "extraneous values or operators"
  error.
- Characters that are not digits, `.`, letters, parentheses or one of
  `+ - * / ^ ~` are ignored by the converter.
- Unary minus binds tighter than `^`. So `-2^2` is `(-2)^2`.
- `^` is right-associative. So `2^3^2` is `2^(3^2)`.

## Model

| member | source | states |
|---|---|---|
| Tokens.IsSpace | sm_ai.cpp:68 | `isspace` in the C locale: blank, tab, line feed, vertical tab, form feed and carriage return |
| Tokens.IsOperatorChar | sm_ai.cpp:252 | the characters whose one-character string is an operator: `+ - * / ^ ~` |
| Tokens.IsFunction | sm_ai.cpp:173-175 | `abs` is the only function name |
| Tokens.Precedence | sm_ai.cpp:177-183 | `+` and `-` rank 1, `*` and `/` rank 2, `^` rank 3, `~` rank 4, and everything else 0 |
| Tokens.IsRightAssociative | sm_ai.cpp:185-187 | `^` and `~` are right-associative, and nothing else is |
| Tokens.IsOperator | sm_ai.cpp:189-191 | the five binary operators and `~` are operators; `(` and `abs` are not |
| Tokens.IsParenthesis | sm_ai.cpp:193-195 | of the tokens that can sit on the operator stack, only `(` is a parenthesis |
| Tokens.OperatorToken | sm_ai.cpp:252-253 | an operator character names `~` exactly when it is `~`; any other operator character is the binary operator that prints as that character |
| Tokens.ShouldPop | sm_ai.cpp:239-241 | the top of the stack is popped before a push when it is an operator and the incoming operator ranks no higher, or strictly lower if the incoming one is right-associative; the same test stands at lines 256-258 |
| Tokens.PopTable | sm_ai.cpp:177-191 | the pop rule, operator by operator: `~` pops nothing; `^` pops only `~`; `*` and `/` pop `~`, `^`, `*` and `/`; `+` and `-` pop every operator; `(` and `abs` are never popped |
| Tokens.IsNumber | sm_ai.cpp:165-170 | a token is a number when it is nonempty, made of digits and points only, with at least one digit and at most one point |
| Tokens.StrtodLength | sm_ai.cpp:168 | `strtod` on a digit/point run reads the leading digits, then a point and the digits after it, and reads nothing when that is no digit at all |
| Tokens.IsNumberIsFullRead | sm_ai.cpp:165-170 | on a digit/point run, `isNumber` holds exactly when the run is nonempty and `strtod` reads all of it, in both directions |
| Tokens.LiteralValue | sm_ai.cpp:303 | the value `stod` gives a number run: its digits without the point, read as an integer, divided by ten to the number of digits after the point |
| Scanner.Lex | sm_ai.cpp:204-284 | the text cut left to right into number runs, `(`, `)`, operator characters and letter runs, in the order of the branch chain, skipping any other character |
| Scanner.LexemeAt | sm_ai.cpp:207-283 | from a recognised character at index `i`, one pass reads the number run, `(`, `)`, the operator character or the letter run starting there, and moves past it |
| Scanner.NumberRun | sm_ai.cpp:209-212 | the number run is the longest prefix of digits and points |
| Scanner.WordRun | sm_ai.cpp:272-275 | the identifier run is the longest prefix of letters |
| Scanner.LexWellFormed | sm_ai.cpp:207-283 | every number lexeme is a nonempty digit/dot run, every word a nonempty run of letters, and every symbol an operator character |
| Scanner.SpellLex | sm_ai.cpp:204-284 | scanning loses nothing but the characters the loop ignores: the lexemes spell out the text with those characters removed |
| Scanner.LexAt | sm_ai.cpp:204-284 | from any index, the scan takes the number or word run starting there, or one recognised character, or skips one ignored character |
| Parser.Initial | sm_ai.cpp:200-202 | the converter starts with an empty stack, an empty queue, and a value expected |
| Parser.PopOperators | sm_ai.cpp:254-265 | before a push, the top of the stack goes to the queue while the pop rule holds for it; the same loop stands at lines 237-248 for `~` |
| Parser.PopToParen | sm_ai.cpp:220-223 | on `)`, the top of the stack goes to the queue, whatever it is, until `(` is on top or the stack is empty |
| Parser.CloseParen | sm_ai.cpp:219-234 | on `)`: pop to the nearest `(` and fail if there is none; drop the `(`; move an `abs` directly beneath it to the queue; a value is no longer expected |
| Parser.PushOperator | sm_ai.cpp:235-268 | `-` when a value is expected becomes `~`, any other operator character is itself; the pop rule runs; the operator is pushed and a value is expected |
| Parser.Step | sm_ai.cpp:204-283 | one pass of the loop: a number run goes to the queue, `(` is pushed, `)` closes, an operator is pushed, `abs` is pushed and any other letter run is an unknown identifier |
| Parser.Feed | sm_ai.cpp:204-284 | the loop is one step per lexeme from the empty state, stopping at the first error |
| Parser.Drain | sm_ai.cpp:286-292 | the final loop empties the stack top first into the queue and fails on a parenthesis |
| Parser.Postfix | sm_ai.cpp:199-295 | the conversion is the loop over the lexemes of the text, then the final loop |
| Parser.ScanFrom | sm_ai.cpp:204-284 | the loop as the source indexes it: from position `i`, read a run or one character and carry on from its end |
| Parser.ReadNumberRun | sm_ai.cpp:207-213 | the inner loop reads exactly the number run that starts at the index, and leaves the index at its end |
| Parser.ReadWordRun | sm_ai.cpp:270-276 | the inner loop reads exactly the letter run that starts at the index, and leaves the index at its end |
| Parser.PopDominated | sm_ai.cpp:254-265 | the popping loop before a push computes the pop rule on the stack and queue |
| Parser.PopUntilOpen | sm_ai.cpp:220-223 | the loop on `)` moves the entries on top of the stack, `abs` included, to the queue until `(` is on top or the stack is empty |
| Parser.DrainOperators | sm_ai.cpp:286-292 | the final loop fails on a parenthesis left on the stack, otherwise empties the stack into the queue |
| Parser.ShuntingYard | sm_ai.cpp:199-295 | the converter's result, queue or error, is `Postfix` of its input |
| Parser.ScanFromIsFeed | sm_ai.cpp:204-284 | the index-driven scan from any position is the fold of one step per lexeme of the remaining text |
| ParserFacts.PopOperatorsSpec | sm_ai.cpp:237-265 | the pop loop leaves a prefix of the stack; it moves the removed suffix to the queue top first; every removed entry satisfies the pop rule; the new top does not |
| ParserFacts.NegPopsNothing | sm_ai.cpp:235-250 | the unary minus is pushed without popping anything |
| ParserFacts.CloseParenMatches | sm_ai.cpp:219-234 | on `)`, all entries above the topmost `(`, `abs` included, go to the queue top first and the `(` is discarded; an `abs` directly beneath it follows them; a value is no longer expected |
| ParserFacts.CloseFailsIffNoOpen | sm_ai.cpp:219-233 | `)` fails exactly when no `(` is on the stack, and the error is mismatched parentheses |
| ParserFacts.DrainSpec | sm_ai.cpp:286-292 | at the end of input, a `(` anywhere on the stack is mismatched parentheses; otherwise the whole stack is appended top first |
| ParserFacts.WordStep | sm_ai.cpp:270-283 | `abs` is pushed and leaves the flag alone; any other letter run is an unknown identifier |
| ParserFacts.MinusStep | sm_ai.cpp:235-268 | `-` is the unary `~` exactly when a value is expected, and is then pushed at once; afterwards a value is expected |
| ParserFacts.TildeIsUnaryMinus | sm_ai.cpp:252-268 | a literal `~` acts as a `-` that finds a value expected |
| ParserFacts.ExpectValueAfter | sm_ai.cpp:202-283 | the flag is false after a number or `)`, true after `(` or an operator, and unchanged by `abs` |
| ParserFacts.PostfixHasNoParenthesis | sm_ai.cpp:199-295 | a successful conversion never emits a parenthesis token |
| ParserFacts.StepErrors | sm_ai.cpp:204-283 | one pass fails only with mismatched parentheses or an unknown identifier |
| ParserFacts.FeedErrors | sm_ai.cpp:204-284 | the loop fails only with mismatched parentheses or an unknown identifier |
| ParserFacts.PostfixErrors | sm_ai.cpp:199-295 | the conversion fails only with mismatched parentheses or an unknown identifier, never with an evaluation error |
| Rpn.Combine | sm_ai.cpp:332-339 | a binary operator on its left and right operand: sum, difference, product, quotient, or `pow` |
| Rpn.Apply | sm_ai.cpp:302-342 | one token on the value stack: a number pushes its value, `~` and `abs` replace the top, a binary operator replaces the top two; too few values or a zero divisor are errors; any other token is skipped |
| Rpn.Run | sm_ai.cpp:301-343 | the loop applies the tokens in order, stopping at the first error |
| Rpn.RpnValue | sm_ai.cpp:298-350 | the result is the single value left on the stack; any other number of values is the extraneous-values error |
| Rpn.AbsValue | sm_ai.cpp:319 | the absolute value is non-negative and equal to the value or its negation |
| Rpn.EvaluateRpn | sm_ai.cpp:298-350 | the evaluator's result, value or error, is `RpnValue` of the tokens |
| Rpn.ApplyOutcome | sm_ai.cpp:302-342 | a token fails exactly on too few operands (`~` and `abs` need one, a binary operator two) or on `/` by zero; division by zero is reported only once two operands exist; a valid literal grows the stack by one and a binary operator shrinks it by one; nothing beneath the operands changes |
| Rpn.ApplyTopValue | sm_ai.cpp:302-342 | a successful token leaves on top the literal's value, the negated or absolute old top, or left op right where the right operand was popped first and is never zero under `/` |
| Rpn.RunAppend | sm_ai.cpp:301-343 | evaluating two token sequences in a row is evaluating the second from the stack the first leaves |
| Rpn.RunFrame | sm_ai.cpp:301-343 | a token sequence that succeeds on a stack succeeds the same way with more values beneath |
| Rpn.RunErrors | sm_ai.cpp:301-343 | the loop fails only with too few operands or division by zero |
| Rpn.RpnValueErrors | sm_ai.cpp:298-350 | the evaluator fails only with too few operands, division by zero or extraneous values |
| ExprTree.LexPrint | sm_ai.cpp:204-284 | the printed form of a tree scans into the tree's lexemes |
| ExprTree.FeedTree | sm_ai.cpp:204-284 | fed to the converter when a value is expected and `abs` is not on top of the stack, a tree's lexemes append exactly its postorder to the queue and leave the stack as it was |
| ExprTree.PostfixOfPrint | sm_ai.cpp:199-295 | the converter turns every printed tree into its postorder |
| ExprTree.RunPostorder | sm_ai.cpp:301-343 | evaluating a tree's postorder pushes the tree's value on any stack, or fails with the tree's error |
| ExprTree.RpnValueOfPostorder | sm_ai.cpp:298-350 | the evaluator computes a tree's value, or its error, from the tree's postorder |
| Calculator.Calculate | sm_ai.cpp:66-76 | `evaluate`: strip whitespace, fail on an empty result, otherwise convert and evaluate, passing on the first error |
| Calculator.StripSpace | sm_ai.cpp:67-68 | the stripped text is no longer than the input and has no whitespace |
| Calculator.StripSpaceAppend | sm_ai.cpp:68 | stripping a concatenation strips each part: the characters kept stay in their order |
| Calculator.StripSpaceKeeps | sm_ai.cpp:68 | text without whitespace is kept unchanged |
| Calculator.Evaluate | sm_ai.cpp:66-76 | the entry point's result, value or error, is `Calculate` of the input |
| Calculator.StripSpaceIdempotent | sm_ai.cpp:67-68 | stripping whitespace twice is stripping it once |
| Calculator.CalculateIgnoresSpace | sm_ai.cpp:66-76 | an expression and its whitespace-free form give the same result |
| Calculator.SpaceInsertedAnywhere | sm_ai.cpp:67-68 | inserting a space anywhere, even between two digits, changes nothing |
| Calculator.BlankIsEmpty | sm_ai.cpp:67-72 | an expression of whitespace only is the empty-expression error |
| Calculator.EmptyOnlyWhenBlank | sm_ai.cpp:66-76 | the empty-expression error is returned exactly when the expression is whitespace only; neither the converter nor the evaluator produces it |
| Calculator.CalculatePrint | sm_ai.cpp:66-76 | on every fully parenthesised expression, the calculator returns the tree's value, error for error |
| Format.DropZeros | sm_ai.cpp:55 | erasing after the last non-`0` leaves a prefix, removes only zeros, and leaves no trailing `0` |
| Format.Trimmed | sm_ai.cpp:55-58 | the trim keeps a prefix; it removes only zeros and a point right after what it keeps; it ends in `0` or `.` only where it stopped at a point |
| Format.TrimZeros | sm_ai.cpp:54-59 | the erase-then-pop code computes `Trimmed` |
| Format.TrimFixed | sm_ai.cpp:54-59 | on fixed-notation text with one point: the integer part is kept, only zeros and the point are removed, no trailing `.` is left, and no trailing `0` after the point |
| Conversion.LowerChar | sm_ai.cpp:22-26 | upper-case ASCII letters map to lower case; every other character is unchanged |
| Conversion.Lower | sm_ai.cpp:22-26 | lower-casing keeps the length and lower-cases each character |
| Conversion.FamilyOf | sm_ai.cpp:110-132 | `km/h` and `m/s` are speed, `c`, `f` and `k` temperature, `kg` and `lb` mass; every other unit is unsupported |
| Conversion.ToBase | sm_ai.cpp:110-129 | a value in a source unit in metres per second, kelvin or kilograms, with the source's factors and offsets |
| Conversion.FromBase | sm_ai.cpp:136-154 | a value in metres per second, kelvin or kilograms in the target unit, with the source's factors and offsets |
| Conversion.Convert | sm_ai.cpp:86-157 | the checks in the source's order: word count, `to`, the number, the source unit, the target unit, the family match; then the value through the base unit, labelled with the target as spelled |
| Conversion.EvaluateConversion | sm_ai.cpp:84-159 | the flag-based code returns `Convert` of the words |
| Conversion.ConvertedExactly | sm_ai.cpp:86-157 | a value is converted exactly when there are five words, the fourth reads `to`, the number parses, and both units are supported and of the same family |
| Conversion.BaseRoundTrip | sm_ai.cpp:110-153 | for every supported unit, the to-base and from-base formulas are inverse |
| Conversion.ConvertBack | sm_ai.cpp:110-153 | converting a value to a unit of the same family and back returns it |
| Conversion.SameUnitIsIdentity | sm_ai.cpp:110-153 | converting to the same unit, in any letter case, returns the value unchanged |
| Conversion.KeywordCheckedBeforeNumber | sm_ai.cpp:90-98 | with five words and a fourth that is not `to`, the keyword error is returned whatever the value word is |
| Conversion.NumberCheckedBeforeUnits | sm_ai.cpp:94-132 | an unparsable value is reported whatever the two units are |
| Conversion.SourceCheckedBeforeTarget | sm_ai.cpp:110-157 | an unsupported source unit is reported even when the target is unsupported too |
| Conversion.UnsupportedTargetExactly | sm_ai.cpp:155-157 | the unsupported-target error comes exactly when everything before it, the source unit included, was accepted and the target names no unit; it quotes the target as spelled |
| Conversion.CannotConvertExactly | sm_ai.cpp:138-153 | the cannot-convert error comes exactly when both units are supported and of different families; it quotes both as spelled |
| Examples.OneDigit | sm_ai.cpp:165-170 | one digit is a number worth that digit |
| Examples.Twelve | sm_ai.cpp:165-170 | `12` is a number worth twelve |
| Examples.PostfixPowChain | sm_ai.cpp:254-266 | `2^3^2` converts to `2 3 2 ^ ^` |
| Examples.CalculatePowChain | sm_ai.cpp:66-76 | `2^3^2` is `2^(3^2)` |
| Examples.PostfixNegPow | sm_ai.cpp:235-266 | `-2^2` converts to `2 ~ 2 ^` |
| Examples.CalculateNegPow | sm_ai.cpp:66-76 | `-2^2` is `(-2)^2` |
| Examples.PostfixSumProduct | sm_ai.cpp:254-266 | `2+3*4` converts to `2 3 4 * +` |
| Examples.CalculateSumProduct | sm_ai.cpp:66-76 | `2+3*4` is 14 |
| Examples.PostfixAbsNeg | sm_ai.cpp:219-234 | `abs(-5)` converts to `5 ~ abs`: the `abs` beneath the closed `(` follows the `~` |
| Examples.CalculateAbsNeg | sm_ai.cpp:66-76 | `abs(-5)` is 5 |
| Examples.PostfixGroupedSum | sm_ai.cpp:216-234 | `(2+3)*4` converts to `2 3 + 4 *` |
| Examples.CalculateGroupedSum | sm_ai.cpp:66-76 | `(2+3)*4` is 20 |
| Examples.DanglingOperator | sm_ai.cpp:324-327 | the postfix `1 +` fails with too few operands |
| Examples.CalculateDanglingOperator | sm_ai.cpp:66-76 | `1+` converts, then fails in the evaluation with too few operands |
| Examples.CalculateSpacedDigits | sm_ai.cpp:67-68 | `1 2` is 12 |
| Examples.CalculateDivisionByZero | sm_ai.cpp:335-337 | `(5/0)` is the division-by-zero error |
| Examples.PostfixUnknownFunction | sm_ai.cpp:278-282 | `sin(1)` fails on the unknown identifier `sin` |
| Examples.CalculateUnclosed | sm_ai.cpp:286-289 | `(1+2` is mismatched parentheses |
| Examples.TwoPointsSkipped | sm_ai.cpp:301-347 | the run `1.2.3` is skipped, and the empty stack is the malformed-expression error |

## Left out

- The read-eval-print loop of `main`, `print_help` and `clear_screen`. They are console I/O and a call to `system`.
- The rewriting of `conv`, ` in ` and the Cyrillic keyword in `main`. It belongs to the loop and works on UTF-8 bytes.
- Floating point. Literals are exact decimals, arithmetic is exact on `real`, and `^` is a `pow` parameter. So `double` rounding, NaN, infinities, overflow and underflow of `stod` and `-0.0` are not modelled.
- The `std::fixed`/`setprecision(6)` rendering in `format_double`. The trim takes the rendered text as its input, and a converted value is returned as a number, not as text.
- Rpn.EvaluateRpn: `std::stod` of a valid literal is its exact decimal value (`Tokens.LiteralValue`), not the nearest `double`.
- Conversion.EvaluateConversion: `std::stod` of the value word is a parameter. Splitting the command into words with a string stream is replaced by the sequence of words.
- Conversion.BaseRoundTrip, Conversion.ConvertBack and Conversion.SameUnitIsIdentity hold for exact reals only. In `double` arithmetic the round trip through the base unit can be off in the last bits.
- Format.TrimZeros and Format.Trimmed require a character other than `0`. On an all-zero text the source reads the last character of an empty string, which is undefined behaviour. Fixed-notation text always has a `.`, so the requirement always holds there.
- The text of error messages. Each error is a constructor. The three "insufficient operands" messages (unary, function and binary) are one constructor.
- Characters outside ASCII. The character classes are those of the C locale.
