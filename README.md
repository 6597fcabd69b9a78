# equation_parser in Dafny

This project models `equation_parser.py`, an infix arithmetic evaluator, and
proves properties of that model. The evaluator takes a text such as
`(8 - sqrt(8^2 - 4*1*12))/(2*1)` and returns its value. It works as a
pipeline of transformations over a token list:

1. **Tokenizer** (`_separate_equation`, then `split(" ")` in
   `process_equation`). Every character that is neither a word character nor
   `.` is surrounded by blanks. Whitespace runs collapse to one blank, the
   ends are stripped, and the text is cut at the blanks.
2. **Block extractor** (`_handle_parenthesis`). It copies the tokens of a
   parenthesised block into the caller's list, counting `(` and `)`, and
   returns the index just past the matching `)`.
3. **Recursive evaluator** (`_parse_and_eval`). It scans the list. Every bare
   block, and every `name(block)` call, is evaluated recursively and replaced
   by one value. The flattened list then goes through the four stages below,
   in order.
4. **Constant substitution** (`substitute_vars`) overwrites `pi` and `e`
   with their values, in place.
5. **Unary minus** (`_parse_unary`) decides for every `-` whether it is a
   subtraction or a sign, from its two neighbours.
6. **Shunting Yard** (`construct_postfix_queue`) produces a postfix queue,
   using the precedence and associativity tables.
7. **Postfix evaluation** (`eval_equation`) runs the queue on an operand
   stack.

Representation choices:
- A list entry is a `Token`: `Str(s)` for a piece of text, `Val(v)` for a
  value that replaced a constant or a block.
- Every exception is an `Err` of the `Error` datatype; each aborts the whole
  evaluation.
- Values are exact `real`s. `+`, `-` and `*` are concrete. `^`, `/`, `%` and
  the named functions (`cos`, `sqrt`, ...) come from a `Numerics` record of
  function values, because the numeric library is not part of this model.
- The source keeps its stacks in deques whose top is `stack[0]`. Here every
  stack is a `seq` whose top is the LAST element.

Each imperative routine of the source is a Dafny method with the same loop:
- `HandleParenthesis`, `ParseAndEval`, `ParseUnary`, `ConstructPostfixQueue`
  and `EvalEquation` are each proved equal to a specification function.
- `SubstituteVars` updates an `array` in place.

Lemmas prove the promised properties about those functions. The main
result is `Agreement.ShuntingYardAgrees`: for a flat expression, conversion
to postfix followed by postfix evaluation gives the conventional value.
That value is defined independently, in `Infix`: `^` binds tightest and
groups to the right, `* / %` bind next, and `+ -` bind loosest, both groups
grouping to the left. `Pipeline.FlatExpressionValue` lifts the result to
the whole evaluator for a token list of numerals and operators, and
`Pipeline.TextValue` to the text itself: `Tokenizer.TokenizeJoin` shows
that blank-separated numerals and operator symbols come back from the
tokenizer exactly as written. Blocks and function calls are replaced by
their values (`Evaluator.BlockBecomesValue`, `Evaluator.CallBecomesValue`).

Behaviour of the source that the model keeps:
- A sign binds tighter than `^`. `_parse_unary` folds `-` into the number
  after it before the Shunting Yard sees the list, so `1 + -3 ^ 2` is
  `1 + (-3) ^ 2` (`Unary.SignBeforePower`), not `1 - 3 ^ 2` as in Python
  arithmetic.
- A `)` with an empty operator stack fails with "Mismatched parenthesis"
  (equation_parser.py:227-228). When the stack is not empty but holds no
  `(`, the popping loop at equation_parser.py:229-232 empties it and then
  reads `stack[0]`, which is an index error. That case is modelled as
  `StackUnderflow`.
- An unknown operator on the stack fails when the precedence table is
  consulted, with the top looked up first. It is modelled as
  `UnknownOperator`.
- A negative value prints with a leading `-`. The operator pattern
  therefore matches it, and `_parse_unary` treats it as an operator on
  either side of a `-` (`IsOperatorToken`).
- A term that merely contains a function name as a substring goes to the
  queue as text. It then fails in the postfix evaluator.
- An empty block (`()`) fails in the postfix evaluator with
  `StackUnderflow`.

## Model

| member | source | states |
|---|---|---|
| Tokens.ParseFloat | equation_parser.py:202 | the numeric conversion succeeds exactly on an optional sign, digits with at most one `.`, and at least one digit |
| Tokens.DigitsParse | equation_parser.py:202 | a non-empty string of digits converts to its decimal value |
| Tokens.PointParse | equation_parser.py:202 | `int.frac`, with a digit on at least one side of the dot, converts to int + frac / 10^(number of fraction digits) |
| Tokens.SignParse | equation_parser.py:202 | a leading `-` converts exactly when the rest does, to the negated value; a leading `+` changes nothing |
| Tokens.ParseExamples | equation_parser.py:202 | `12.5`, `.5` and `-7` convert to 12.5, 0.5 and -7 |
| Tokens.RealNumParses | equation_parser.py:54 | every text matching `real_num` converts to a number |
| Tokens.SymbolTextDoesNotParse | equation_parser.py:56 | a text starting with a symbol other than a sign never converts to a number |
| Tokens.OpOf | equation_parser.py:14-30 | a table lookup that succeeds returns the operator whose text is the key |
| Tokens.OpOfSymbol | equation_parser.py:14-30 | every table operator is found under its own one-character text, and that character is a symbol |
| Tokens.SymbolIsOperatorText | equation_parser.py:50-56 | an operator's text matches `operator` but not `term`, is not a parenthesis, and does not convert to a number |
| Tokenizer.PadEncloses | equation_parser.py:405 | after the first substitution every symbol has a blank on each side |
| Tokenizer.PadKeepsVisible | equation_parser.py:405 | the first substitution changes no visible character |
| Tokenizer.CollapseBlanks | equation_parser.py:407 | after the second substitution no whitespace but single blanks remains |
| Tokenizer.CollapseIsolates | equation_parser.py:407 | collapsing whitespace keeps every symbol between blanks or at an end |
| Tokenizer.CollapseKeepsVisible | equation_parser.py:407 | collapsing whitespace keeps the visible characters, in order |
| Tokenizer.StripKeeps | equation_parser.py:407 | `strip()` leaves no whitespace at either end and keeps blanks single and symbols isolated |
| Tokenizer.SeparateShape | equation_parser.py:403-409 | the separated text has no blank at either end, no two blanks in a row, and each symbol between blanks or at an end |
| Tokenizer.SeparateVisible | equation_parser.py:403-409 | separation changes whitespace only: the visible characters are those of the input, in order |
| Tokenizer.SeparateWords | equation_parser.py:403-409 | words (runs of word characters and `.`, or single symbols) joined by single blanks come out of the separation unchanged: a run is never split |
| Tokenizer.JoinSplit | equation_parser.py:427 | joining the pieces of `split(" ")` with blanks gives the text back |
| Tokenizer.SplitPiecesHaveNoBlank | equation_parser.py:427 | no piece of `split(" ")` holds a blank |
| Tokenizer.SplitPieces | equation_parser.py:427 | for a text with single blanks, no blank at the ends and isolated symbols, every piece is non-empty and a piece holding a symbol is that symbol alone |
| Tokenizer.SplitJoin | equation_parser.py:427 | cutting blank-joined pieces that hold no blank gives back exactly those pieces |
| Tokenizer.TokenizeShape | equation_parser.py:403-427 | the token list joins back to the separated text, holds no blank, and, when the text is not empty, has non-empty tokens with every symbol a token of its own |
| Tokenizer.TokenizeJoin | equation_parser.py:403-427 | a non-empty list of words joined by single blanks is tokenized back into exactly that list |
| Blocks.HandleParenthesis | equation_parser.py:60-98 | succeeds exactly when a matching `)` exists. On success it returns the index past that `)` and appends exactly the tokens before it. Otherwise it appends all the rest and fails with the malformed-parenthesis error naming the list |
| Blocks.ClosingIsMatch | equation_parser.py:78-94 | the index found closes the block exactly when the block holds as many `(` as `)`, no prefix closes more than it opens, and a `)` follows; both directions |
| Blocks.NoClosing | equation_parser.py:95-98 | no closing parenthesis is found exactly when every `)` of the rest is preceded by an unbalanced or over-closed prefix |
| Blocks.BlockCloses | equation_parser.py:78-94 | a block with as many `(` as `)` and no prefix that closes more than it opens, followed by `)`, is closed by that `)` |
| Blocks.MatchShift | equation_parser.py:78-94 | the search for the matching `)` looks only at the entries from where it starts |
| Evaluator.ParseAndEval | equation_parser.py:101-172 | the scan-and-stages method returns exactly the value of the list as defined by the flattening scan and the four stages |
| Evaluator.EvalBlock | equation_parser.py:151-157 | the shared block code returns the recursive value of the block and the index past its `)`, or the first error |
| Evaluator.Enclosed | equation_parser.py:151-157 | a block that is evaluated resumes the scan strictly after its start and within the list |
| Evaluator.ScanFails | equation_parser.py:170-172 | a failure at any point of the scan is the failure of the whole evaluation |
| Evaluator.FunctionNeedsParenthesis | equation_parser.py:132-136 | a function name at the end is a missing-token error, and one followed by anything but `(` is an unopened-parenthesis error |
| Evaluator.FlattenedHasNoBlocks | equation_parser.py:130-161 | the flattened list contains no `(` and no function name: every block became one value |
| Evaluator.FlatListCopied | equation_parser.py:159-161 | a list without `(` and function names is copied through unchanged, in order |
| Evaluator.FlattenShift | equation_parser.py:130-161 | the scan from a position gives the same list whatever came before that position |
| Evaluator.BlockBecomesValue | equation_parser.py:151-158 | after tokens without blocks, a balanced block in parentheses whose contents evaluate to `v` becomes the single value `v`, and the scan goes on after its `)` as if the list started there |
| Evaluator.CallBecomesValue | equation_parser.py:132-149 | the same for `f(block)`: the call becomes the single value of `f` at the block's value |
| Substitute.SubstituteVars | equation_parser.py:249-252 | the array afterwards is the substituted list of its old contents |
| Substitute.SubstitutedEntries | equation_parser.py:249-252 | the length is kept, exactly the constant names change, and each becomes its value |
| Substitute.NoConstantLeft | equation_parser.py:249-252 | no constant name is left after substitution |
| Substitute.SubstituteIdempotent | equation_parser.py:249-252 | substituting twice is substituting once |
| Substitute.SubstituteNoConstants | equation_parser.py:249-252 | a list without constant names is left as it is |
| Unary.ParseUnary | equation_parser.py:346-400 | the loop returns exactly the case-by-case resolution of every `-`: leading `0 -`, kept subtraction, folded sign, or the errors |
| Unary.ResolvedMinusIsBinary | equation_parser.py:362-400 | after resolution every `-` is a subtraction: never first, never last, always after a number |
| Unary.TrailingMinusFails | equation_parser.py:363-396 | a list ending in `-` fails |
| Unary.NoMinusUnchanged | equation_parser.py:397-399 | a list without `-` is copied unchanged |
| Unary.InfixUnchanged | equation_parser.py:370-379 | an alternation of numbers and operators is unchanged: every `-` in it is kept as a subtraction |
| Unary.SignBeforePower | equation_parser.py:381-387 | in `1 + -3 ^ 2` the sign is folded into `3` before `^` is seen, giving `1 + (-3) ^ 2` |
| Shunting.Binds | equation_parser.py:209-218 | the top is popped exactly when it binds tighter, or equally with a left-grouping operator; a key missing from the tables is an error |
| Shunting.Term | equation_parser.py:195-206 | a term fails, as an undefined variable, exactly when it is not a numeral, names no function and does not convert; a converted term carries the converted value, any other is kept as written |
| Shunting.PopOpsMoves | equation_parser.py:209-221 | the loop before a push moves stack tops to the queue, top first; every moved entry is an operator other than `(` that binds to the incoming one, and the loop stops at an empty stack, at `(`, or at a top that does not bind |
| Shunting.PopOpsFails | equation_parser.py:209-221 | the loop before a push fails exactly when, below tops that all bind, it reaches an entry other than `(` whose precedence lookup or the incoming operator's fails, and the error names a text missing from the table |
| Shunting.PopToOpenMoves | equation_parser.py:229-235 | the loop after `)` moves the entries above the topmost `(` to the queue, top first, and drops that `(` |
| Shunting.PopToOpenFails | equation_parser.py:229-232 | that loop fails, reading an empty stack, exactly when the stack holds no `(` |
| Shunting.FlushMoves | equation_parser.py:241-244 | the final loop moves the whole stack to the queue, top first, and fails with "Mismatched parenthesis" exactly when a parenthesis is left on the stack |
| Shunting.ConstructPostfixQueue | equation_parser.py:175-245 | the method returns exactly the postfix queue of the token list, or its first error |
| Shunting.PopOperators | equation_parser.py:209-221 | the popping loop before a push equals its specification |
| Shunting.PopToOpenParen | equation_parser.py:226-235 | the popping loop after `)` equals its specification |
| Shunting.ScanKeepsError | equation_parser.py:192-239 | once the scan fails on a prefix, the whole list fails with that error |
| Shunting.OperandsInOrder | equation_parser.py:190-245 | the operands reach the queue in their input order, and no parenthesis reaches it |
| Shunting.UnclosedParenthesis | equation_parser.py:241-243 | a `(` left on the stack after the scan makes the conversion fail with "Mismatched parenthesis" |
| Shunting.OperatorStays | equation_parser.py:209-244 | for any numerals `a`, `b`, `c` (texts matching `real_num`, signed or not), `a t b o c` with `o` binding tighter than `t` or grouping to the right at its level becomes `a b c o t` |
| Shunting.TighterOperatorStays | equation_parser.py:209-221 | `2 + 3 * 4` becomes `2 3 4 * +` |
| Shunting.PowerGroupsRight | equation_parser.py:209-221 | `2 ^ 3 ^ 2` becomes `2 3 2 ^ ^` |
| PostfixEval.EvalEquation | equation_parser.py:255-297 | the method returns exactly the value of the queue: the single value left on the operand stack, or the first error |
| PostfixEval.RunKeepsError | equation_parser.py:270-290 | once the run fails on a prefix, the whole queue fails with that error |
| PostfixEval.RunHeight | equation_parser.py:270-290 | a queue of numbers and operators in which every operator finds two operands runs without error and leaves numbers-minus-operators values on the stack |
| PostfixEval.EvalByHeight | equation_parser.py:292-297 | such a queue has a value exactly when that height is one, and more than one value left is "Malformatted Equation" |
| PostfixEval.UnderflowIsError | equation_parser.py:273-275 | an operator with fewer than two operands below it is an error |
| Infix.Reduce | test_equation_parser.py:24-32 | applying the operator the conventional reading applies next leaves the value of the expression unchanged, at every precedence level |
| Infix.ReduceValue | test_equation_parser.py:24-32 | the same, for the conventional value |
| Infix.PowRedexIsLast | equation_parser.py:23-30 | among `^` operators the one applied next is the last one (right grouping) |
| Agreement.ShuntingYardAgrees | equation_parser.py:164-168 | a flat expression of numbers and operators converts to postfix without error, and the queue evaluates to the conventional value |
| Agreement.ScanPrefix | equation_parser.py:192-221 | scanning the expression up to any operand leaves a queue and stack whose pending work has the value of the whole expression |
| Agreement.FlushAll | equation_parser.py:241-244 | the final loop empties the stack into the queue, which then evaluates to that value |
| Pipeline.ProcessEquation | equation_parser.py:421-423 | the empty text is refused with the empty-equation error before anything else runs |
| Pipeline.FlatExpressionValue | test_equation_parser.py:24-32 | the whole evaluator gives any expression of numerals and operators without parentheses its conventional value |
| Pipeline.WordsPassThrough | equation_parser.py:159-166 | scan, substitution and unary resolution leave such an expression as it is |
| Pipeline.TextValue | equation_parser.py:412-432 | the text of numerals and operators joined by single blanks evaluates to the conventional value of that expression |
| Pipeline.TextExample | equation_parser.py:412-432 | `2 + 3 * 4` evaluates to 14 |

## Left out

- `_eval_function` (equation_parser.py:300-343): the trigonometric, logarithm and square-root calls are numeric-library calls. Each is the `Numerics.func` parameter, which returns a value or fails.
- `^`, `/` and `%` (equation_parser.py:277-284) are the `Numerics.pow`, `div` and `mod` parameters. This includes division by zero and the sign of a remainder.
- Extended precision of `np.longdouble` and the final `np.round(ans, decimals=15)`: values are exact reals. `Pipeline.ProcessEquation` returns the unrounded value.
- Numeric conversion is restricted to plain decimals. Exponents, `inf` and `nan` are not modelled.
- The text form of a value is assumed to be a plain decimal, so a value always matches `real_num`.
- The constants `pi` and `e` are their 16-digit decimal expansions.
- The regular-expression engine: `\w` and `\s` are read as their ASCII classes. Unicode letters and spaces are not modelled.
- Every `print` diagnostic, and the swallowing of exceptions into `None` in `process_equation`: the model returns the error instead.
- Exception types are reduced to error kinds. An index error at the end of the list, the string-plus-int type error at equation_parser.py:136, an empty deque read, and a missing table key each become one `Error` constructor.
- The `,` branch and the final "Error at" branch inside the operator branch of `construct_postfix_queue` (equation_parser.py:222-223, 233-234, 236-237) cannot be reached. They are not modelled.
- `block_tokens` is shared between the scan and `_handle_parenthesis`. It is always empty when a block starts, so `EvalBlock` passes an empty list. `HandleParenthesis` itself takes any list and states what it appends.
- The `__main__` block and the test file: the test file is used only as the statement of the conventional value.
- Pipeline.FlatExpressionValue: it covers expressions without parentheses, functions or signs, and so does `Pipeline.TextValue`. Blocks and calls enter through `Evaluator.BlockBecomesValue` and `Evaluator.CallBecomesValue`, which replace each by its value; no lemma states the conventional value of an expression with blocks or signs.
