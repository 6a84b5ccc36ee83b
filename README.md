# A verified model of the calculator's evaluators

This project models two evaluators of the calculator repository in Dafny.

**The infix evaluator of the web page (`app.js`).**
- An operator table.
- A tokenizer that scans the typed expression left to right. It handles unary minus and decimal literals.
- The shunting-yard conversion to postfix.
- A stack machine that reduces the postfix form.
- The checks that `evaluateExpression` runs around these stages.
- The editing rule that guards every key press (`appendToExpression`).
- The history list: it is prepended to and capped at thirty, entries can be starred, and it is sorted for display.

The page's state (the expression field and the history) is the class `Page.Calculator`. The loops of `tokenize`, `toRPN`, `evaluateRPN` and `countParens` are methods with loop invariants. Each method is proved equal to a recursive specification function, and the properties are proved about those functions.

**Grouping.** Two independent references say what the conversion and the reduction must compute:
- `Trees.Expr`, an expression tree with its value (`Trees.Eval`), its postfix form and its fully parenthesised infix form.
- `Chains.Grouped`, the tree of a chain of numbers and operators without parentheses. It applies the operator of lowest precedence last: the rightmost one when that level groups to the left, the leftmost one when it groups to the right. It is defined from the operator table alone, not from the converter's pop rule.

**The command-line fold (`calculator.py`).** `evaluate` folds one named operation from the left over a list of operands. Its `for` loop is a method proved equal to a fold function. Sums, products, differences and quotients are proved about that fold, together with the cases of `tests/test_calculator.py`.

**Numbers.**
- Numbers are exact reals.
- `parseFloat` on a scanned literal is exact decimal reading (`Tokenizer.ParseDecimal`).
- `Math.pow` and Python's `operator.pow` are a power function the caller supplies (`pow`). Nothing is assumed about it.

**The literal check.** The literal check of `tokenize` (app.js:295) is a parameter, `Tokenizer.LiteralRule`:
- `AsWritten` is the regular expression exactly as the source writes it. Every literal fails it (see Findings).
- `Intended` is the pattern `-?\d*\.?\d+` the code evidently means.
- `Expression.Evaluate` and the page use `Intended`.

**Where the model follows the code rather than the prose description.**
- An input such as `3+(` reports "Mismatched parentheses.". The code counts parentheses before it looks at the last token (app.js:416-423).
- A single error, `BadEnding`, covers both "ends with an operator" and "ends with `(`". The code raises one message for both.

## Model

| member | source | states |
|---|---|---|
| Operators.OperatorOf | app.js:1-16 | exactly the five characters `+ - * / ^` name an operator, and the operator's symbol gives back the character |
| Operators.Apply | app.js:2-15 | applying an operator fails exactly for `/` with a zero right operand, and the error is division by zero; a difference plus the right operand gives the left one back, and so does a quotient times the right operand |
| Operators.SymbolRoundTrip | app.js:1-16 | the table maps each operator's symbol to that operator and to no other |
| Operators.PrecedenceOrder | app.js:2-15 | `+` and `-` bind equally and less tightly than `*` and `/`, which bind equally and less tightly than `^`; only `^` is right-associative |
| Tokens.NumbersConcat | app.js:327-331 | the number tokens of a concatenation are those of each part, in order |
| Tokens.NonParensConcat | app.js:327-379 | the operator and number tokens of a concatenation are those of each part, in order |
| Tokenizer.ScanNumber | app.js:278-299 | the literal branch: an optional unary `-`, the maximal run of digits and points, "multiple decimals" on a second point, "malformed number" when the literal check refuses the text, else a number token and the position after the run |
| Tokenizer.StepAt | app.js:263-317 | one pass of the loop body at a position: skip a space or tab, read a literal, emit or refuse an operator, emit a parenthesis, or fail on an unsupported character; an emitted token always moves the position on |
| Tokenizer.Scan | app.js:262-320 | the loop from a position on: stops at the end with the tokens so far, or at the first failing step with its error |
| Tokenizer.Tokenization | app.js:255-321 | `tokenize`: the scan from position 0 with no tokens |
| Tokenizer.LiteralEnd | app.js:285 | the literal loop stops at the end of the text or at the first character that is not a digit or point |
| Tokenizer.ReadRun | app.js:284-294 | the `dotCount` loop reads the maximal run of digits and points, appends it to the sign, and flags more than one point |
| Tokenizer.ReadLiteral | app.js:278-299 | the literal branch emits a number token or fails, as the specification function of one literal step says |
| Tokenizer.Tokenize | app.js:255-321 | the scanning loop yields the same tokens or the same first error as the recursive scan |
| Tokenizer.MinusDecision | app.js:270-281 | a `-` starts a literal exactly when it stands at the start or after an operator or `(` and a digit or point follows; otherwise it is an operator, refused in those same positions |
| Tokenizer.StepBranches | app.js:265-317 | spaces and tabs are skipped; an operator is refused at the start or after an operator or `(`, and emitted otherwise; a parenthesis is always emitted; every other character is unsupported |
| Tokenizer.SecondPointFails | app.js:286-290 | a run with two points fails with "multiple decimals" under either pattern |
| Tokenizer.BareLiteralFails | app.js:295-296 | the literals `-`, `.` and `-.` fail as malformed under either pattern |
| Tokenizer.ScanSequenced | app.js:302-305 | a scan that starts from sequenced tokens ends with sequenced tokens |
| Tokenizer.TokenizationSequenced | app.js:302-305 | in every successful tokenization, each operator follows a number or `)` |
| Tokenizer.ScanParens | app.js:311-315 | a scan adds one `(` token per `(` and one `)` token per `)` of the text it reads |
| Tokenizer.TokenizationParens | app.js:311-315 | the parenthesis tokens of a successful tokenization are the text's parentheses, one for one |
| Tokenizer.ScanForeign | app.js:317 | a scan succeeds only on text without unsupported characters, and an unsupported-character error names one of the text's characters |
| Tokenizer.TokenizationRejectsForeign | app.js:317 | a text with a character outside digits, points, operators, parentheses, spaces and tabs never tokenizes, and the error names such a character |
| Tokenizer.AsWrittenNeedsBackslash | app.js:295 | a string the pattern as written accepts contains a backslash |
| Tokenizer.AsWrittenRejectsEveryLiteral | app.js:295 | under the pattern as written, every literal step fails |
| Tokenizer.ScanAsWritten | app.js:295 | under the pattern as written, a scan succeeds only over text with no digit or point, and emits no number |
| Tokenizer.AsWrittenTokenizationHasNoNumbers | app.js:295 | under the pattern as written, a successful tokenization has no number token and its text has no digit or point |
| Tokenizer.IntendedBodyOnRun | app.js:295 | for a run of digits with at most one point, `\d*\.?\d+` matches exactly when the run ends in a digit (`.5` passes, `3.` fails) |
| Tokenizer.IntendedLiteral | app.js:295 | the intended check on a signed or unsigned run accepts exactly the runs that end in a digit |
| Tokenizer.PointsOnce | app.js:284-291 | a run whose point count stays at one or less never has a point after a point |
| Tokenizer.UnsignedLiteral | app.js:295 | for an unsigned run of digits and points with at most one point, the intended check accepts exactly the runs that end in a digit |
| Tokenizer.SignedLiteral | app.js:295 | the same for a run behind a unary minus: `-` then the run passes exactly when the run ends in a digit |
| Tokenizer.RunChars | app.js:285 | every character the literal loop reads is a digit or a point |
| Tokenizer.RunAccepted | app.js:284-297 | when the `dotCount` check lets a run through, the intended check accepts the literal text exactly when the run is non-empty and ends in a digit |
| Tokenizer.IntendedEmits | app.js:278-299 | with the intended pattern, a literal step emits a token exactly when its run has at most one point and ends in a digit |
| Tokenizer.OnePointEmits | app.js:295-298 | when the run holds at most one point, the intended pattern emits exactly when the run ends in a digit |
| Tokenizer.LiteralParenFree | app.js:285 | the text a literal step reads holds no parenthesis |
| Tokenizer.DigitLiteral | app.js:295-298 | a lone digit passes the intended check and parses to its own value |
| Tokenizer.NextMove | app.js:263-317 | one pass of the loop body skips, emits or fails as the specification of one scan step says |
| Tokenizer.IntendedLiteralStep | app.js:278-299 | with the intended pattern, a literal step succeeds exactly when its run has at most one point and ends in a digit, and the token carries the literal's value |
| Tokenizer.SingleDigitStep | app.js:278-299 | a lone digit becomes a number token under the intended pattern and fails as malformed under the pattern as written |
| Tokenizer.ScanSingleDigit | app.js:278-299 | scanning a lone digit appends its number token and moves one place on |
| Tokenizer.ScanOperatorAfterNumber | app.js:302-308 | an operator after a number token is appended and the scan moves one place on |
| ShuntingYard.ShouldPop | app.js:337-342 | the incoming operator pops the stack top when the top is an operator of higher precedence, or of equal precedence with the incoming operator left-associative |
| ShuntingYard.PopOperators | app.js:335-345 | the pop loop of an incoming operator: moves stack-top operators to the output while they should pop; the stack never grows |
| ShuntingYard.RpnFrom | app.js:327-378 | the conversion of the remaining tokens from an output and a stack: each token shifted in order, the first error stops it, the final drain at the end |
| ShuntingYard.Rpn | app.js:323-379 | `toRPN`: the conversion from an empty output and an empty stack |
| ShuntingYard.PopToOpen | app.js:354-367 | `)` succeeds exactly when a `(` is on the stack, fails with mismatched parentheses otherwise, and shrinks the stack |
| ShuntingYard.Drain | app.js:370-376 | the final drain succeeds exactly when no parenthesis is left on the stack, and then appends the stack to the output, top first |
| ShuntingYard.Shift | app.js:327-367 | one token fails exactly when it is `)` and no `(` is on the stack |
| ShuntingYard.ToRpn | app.js:323-379 | the loops over the output and the stack yield what the recursive conversion yields |
| ShuntingYard.PopCountStops | app.js:335-344 | the operators popped before an incoming operator are the top operators that should pop; popping stops at a non-operator or at one that should stay |
| ShuntingYard.PopOperatorsSplit | app.js:335-345 | an incoming operator moves the top `PopCount` entries to the output in stack order; each of them should pop and the next one, if any, should not |
| ShuntingYard.DepthToOpen | app.js:356-361 | the first `(` of a stack that holds one lies at this depth |
| ShuntingYard.DepthToOpenFirst | app.js:356-361 | no `(` lies above that depth |
| ShuntingYard.PopToOpenSplit | app.js:354-367 | `)` moves the entries above the first `(` to the output in stack order and drops the `(` |
| ShuntingYard.RpnFromBalanced | app.js:349-378 | from a well-shaped stack, the conversion succeeds exactly when the rest of the tokens balances the open groups on the stack, and its only error is mismatched parentheses |
| ShuntingYard.RpnBalanced | app.js:349-378 | the conversion succeeds exactly when the parentheses balance, and fails only with "Mismatched parentheses." |
| ShuntingYard.RpnFromTokens | app.js:327-379 | the conversion keeps the number and operator tokens it reads and those on the stack, and the numbers in order |
| ShuntingYard.RpnTokens | app.js:327-379 | a successful conversion has no parentheses, holds the input's numbers in their order, and holds exactly the input's number and operator tokens |
| ShuntingYard.RpnFromInfix | app.js:323-379 | converting the infix tokens of a tree followed by more tokens appends the tree's postfix tokens to the output and goes on |
| ShuntingYard.RpnOfInfix | app.js:323-379 | the infix tokens of any expression tree convert to its postfix tokens |
| ShuntingYard.TwoOperators | app.js:333-346 | `x o1 y o2 z` converts to `x y o1 z o2` when `o1` should pop before `o2` (higher precedence, or equal and `o2` left-associative), and to `x y z o2 o1` otherwise |
| ShuntingYard.ChainThen | app.js:333-346 | a chain without parentheses whose operators leave the stack top in place, followed by an operator that pops all of them, puts the postfix form of the chain's reference tree on the output and then reads that operator against the old stack |
| ShuntingYard.ChainEnd | app.js:333-378 | such a chain at the end of the input puts the postfix form of its reference tree on the output before the final drain |
| ShuntingYard.ChainRpn | app.js:323-379 | every chain of numbers and operators without parentheses, of any length, converts to the postfix form of the tree that ordinary grouping by precedence and associativity gives it |
| Postfix.ValueFrom | app.js:384-405 | the reduction of the remaining tokens from a value stack: each token reduced in order, the first error stops it, and at the end exactly one value must remain or the expression is malformed |
| Postfix.RpnValue | app.js:381-406 | `evaluateRPN`: the reduction from an empty stack |
| Postfix.Reduce | app.js:384-398 | a number is pushed; an operator pops the right operand and then the left one and pushes the operator applied to them; a step fails exactly on a parenthesis, on fewer than two values, or on division by zero |
| Postfix.EvaluateRpn | app.js:381-406 | the stack loop yields what the recursive reduction yields |
| Postfix.ValueFromArity | app.js:384-405 | a reduction that succeeds read no parenthesis and one more number than operators, counting the values already on the stack |
| Postfix.RpnArity | app.js:401-405 | a postfix list that reduces to one value has no parenthesis and one more number than operators |
| Postfix.ValueFromDivision | app.js:9-11 | a division-by-zero error comes only from a list with a `/` |
| Postfix.ValueFromErrors | app.js:390-403 | a reduction fails only as a malformed expression, a division by zero, or on a token that is not an operator |
| Postfix.ValueFromPostfix | app.js:384-399 | reducing the postfix tokens of a tree pushes the tree's value, or fails with its error |
| Postfix.PostfixValue | app.js:381-406 | the postfix tokens of a tree reduce to the tree's value, errors included |
| Postfix.InfixValue | app.js:323-406 | converting and reducing the infix tokens of any tree gives the tree's value |
| Postfix.ChainValue | app.js:323-406 | converting and reducing any chain without parentheses gives the value of its reference tree |
| Text.TrimEnd | app.js:205 | trimming the end keeps a prefix that is empty or ends in a non-space, and drops only white space |
| Text.TrimStart | app.js:409 | trimming the start keeps a suffix that is empty or starts with a non-space, and drops only white space |
| Text.TrimShape | app.js:409 | the trimmed text is a slice of the input with only white space before and after it |
| Text.TrimEmpty | app.js:409-412 | the trimmed text is empty exactly when the input is all white space |
| Text.TrimUntrimmedEdges | app.js:409 | a text without white space at either end trims to itself |
| Text.TrimIdempotent | app.js:409 | trimming twice is trimming once |
| Expression.Checked | app.js:416-424 | the checks after tokenizing, in order: unequal `(` and `)` counts in the text, then an ending on nothing, an operator or `(`, then conversion and reduction |
| Expression.Evaluation | app.js:408-425 | the checks of `evaluateExpression` in order: an all-blank input, then tokenizing, then the checks after tokenizing |
| Expression.Evaluate | app.js:408-425 | the evaluation with the intended literal check |
| Expression.CountParens | app.js:245-253 | the counting loop returns the number of `(` and of `)` in the text |
| Expression.CheckTokens | app.js:416-424 | the parenthesis count, the ending check and the two stages after tokenizing, run as statements, give what the checking function gives |
| Expression.CheckedEnding | app.js:420-423 | the checks after tokenizing never report an empty expression, and report a bad ending exactly when the text has as many `(` as `)` and the last token is missing, an operator or `(` |
| Expression.CheckedSuccess | app.js:416-424 | when the checks after tokenizing succeed, the tokens balance, end in a number or `)`, convert to postfix, and the result is the postfix value |
| Expression.CheckedMismatch | app.js:416-419 | when the tokens hold the text's parentheses, mismatched parentheses are reported only for unbalanced tokens, and unbalanced tokens fail on their parentheses or their ending |
| Expression.EvaluateExpression | app.js:408-425 | the checks and stages, run as statements, give what the evaluation function gives |
| Expression.BalancedCounts | app.js:416-419 | a token list that balances from a depth has that many more `)` than `(` |
| Expression.EmptyInput | app.js:409-412 | "Enter an expression" is the answer exactly when the input is all white space |
| Expression.ScanErrors | app.js:284-317 | a scan fails only with multiple decimals, a malformed number, an invalid sequence or an unsupported character |
| Expression.Ending | app.js:420-423 | the ending error is the answer exactly when the input tokenizes, has as many `(` as `)`, and its last token is an operator or `(` |
| Expression.Success | app.js:408-425 | a successful evaluation read a sequenced, balanced, finished token list and reduced its postfix form to the result |
| Expression.Mismatch | app.js:416-419 | mismatched parentheses are reported only when the tokens do not balance, and an unbalanced token list always fails, on its parentheses or on its ending |
| Expression.AsWrittenNeverEvaluates | app.js:295 | with the literal check as written, no input evaluates |
| Chains.Split | app.js:2-15 | the operator a chain applies last: the rightmost of the lowest precedence when that level is left-associative, else the leftmost |
| Chains.Grouped | app.js:2-15 | the reference tree of a chain without parentheses: split at that operator, each side grouped the same way |
| Chains.SplitLevels | app.js:2-15 | the operator split at binds no tighter than any to its left (strictly looser when it groups to the right) and strictly looser than any to its right unless they share its right-associative level |
| Chains.GroupedTwo | app.js:2-15 | on two operators the reference applies the second first exactly when it has higher precedence, or equal precedence at a right-associative level |
| Examples.DigitThenOperator | app.js:278-308 | a digit then an operator scan to a number token and an operator token |
| Examples.ScanDigitChain | app.js:255-321 | scanning one-digit numbers joined by operators emits the tokens of the chain |
| Examples.DigitChainTokens | app.js:255-321 | such a text tokenizes to its chain's tokens |
| Examples.DigitChainExpression | app.js:408-425 | any text of one-digit numbers joined by operators, of any length, evaluates to the value of its reference tree |
| Examples.ThreeDigitExpression | app.js:408-425 | a text of three digits and two operators evaluates to the value of its reference tree |
| Examples.DigitChainAsWritten | app.js:295 | with the pattern as written, every such text fails as a malformed number |
| Examples.LeadingDigitAsWritten | app.js:295 | with the pattern as written, a text that starts with a lone digit fails as a malformed number |
| Examples.TokenizationErrorEvaluation | app.js:414-415 | a trimmed, non-empty text that fails to tokenize fails to evaluate with the same error |
| Examples.LeadingDigitEvaluationAsWritten | app.js:295 | with the pattern as written, a text that starts with a lone digit and ends with a digit fails to evaluate as a malformed number |
| Examples.SubtractionGroupsLeft | app.js:339-341 | `8-4-2` evaluates to 2, because subtraction groups to the left |
| Examples.PowerGroupsRight | app.js:15 | `2^3^2` evaluates to `2^(3^2)`, because power groups to the right |
| Examples.ProductBindsTighter | app.js:2-4 | `2+3*4` evaluates to 14, because `*` binds more tightly than `+` |
| Examples.SubtractionAsWritten | app.js:295 | with the pattern as written, `8-4-2` fails as a malformed number |
| Editor.LastRun | app.js:231 | `trimmed.split(/[^\d.]/).pop()`: the digits and points after the last character that is neither |
| Editor.AppendToExpression | app.js:203-243 | the guards in source order on the end-trimmed text: a refusal with its reason, or the new value (`trimmed + "0."` for a point outside any number, `current + token` otherwise) |
| Editor.OperatorRule | app.js:211-215 | an operator is refused after empty text, after an operator or after `(`, and appended otherwise |
| Editor.CloseRule | app.js:217-222 | `)` is appended exactly when more groups are open than closed and it follows neither an operator nor `(` |
| Editor.OpenRule | app.js:224-228 | `(` is appended at the start or after an operator or `(`, and refused elsewhere |
| Editor.PointRule | app.js:230-239 | `.` is refused inside a number that has a point, becomes `0.` after the trimmed text when no number is being typed, and is appended otherwise |
| Editor.OtherRule | app.js:241 | a digit or any other token is appended to the untrimmed text |
| Editor.LastRunAppend | app.js:231 | the current number grows by a digit or point and is reset by any other character |
| Editor.TrimEndCounts | app.js:205-218 | trimming the end keeps the parenthesis counts |
| Editor.AppendShape | app.js:203-243 | every new value is the text plus the token, or the trimmed text plus `0.` |
| Editor.AppendKeepsBalance | app.js:217-222 | if no prefix of the input closes more groups than it opens, the same holds after any accepted token |
| Editor.AppendKeepsOneDecimal | app.js:230-239 | if no number in the input has two points, the same holds after any accepted token |
| History.Prepend | app.js:435 | the new entry goes first, followed by the newest old entries, thirty at most in all |
| History.PrependCapped | app.js:435 | prepending yields at most thirty entries, and a history shorter than thirty just gains the entry in front |
| History.ToggleFavorite | app.js:195-198 | each entry with the timestamp has its star flipped, and every other entry stays |
| History.ToggleKeepsEntries | app.js:195-198 | toggling changes only stars, only for that timestamp, and keeps the order |
| History.ToggleTwice | app.js:195-198 | toggling the same timestamp twice gives the history back |
| History.Compare | app.js:104 | the comparator: the difference of the stars, or when the stars agree the difference of the timestamps, newest first |
| History.CompareMeaning | app.js:104 | `a` may come before `b` exactly when `a` is starred and `b` is not, or both are alike and `a` is no older; swapping the arguments negates the result |
| History.PrecedesTransitive | app.js:104 | the display order is transitive |
| History.SortedCons | app.js:104 | an entry that may come before the head of a sorted list may come before all of it |
| History.Insert | app.js:104 | inserting into a sorted list keeps it sorted and adds exactly that entry |
| History.SortForDisplay | app.js:104 | the displayed list is sorted and holds exactly the history's entries |
| History.DisplayOrder | app.js:104 | in the displayed list, starred entries come before unstarred ones, and among alike entries newer ones come first |
| Page.Calculator.constructor | app.js:19 | the page starts with the given input and the stored history |
| Page.Calculator.EvaluateInput | app.js:408-443 | the result is the evaluation of the input, which is never changed; on success a new unstarred entry for the trimmed expression goes first and the history stays within thirty entries; on failure the history is unchanged |
| Page.Calculator.AppendToken | app.js:203-243 | the input takes the new value, or keeps its value when the token is refused; the history is unchanged; balanced prefixes and one point per number are kept |
| Page.Calculator.ToggleStar | app.js:195-198 | the history is toggled at the timestamp and the input is unchanged |
| Page.Calculator.Display | app.js:104 | the history list is in display order (starred first, then newest first) and shows exactly the history's entries |
| CommandLineCalculator.OperationOf | calculator.py:16-23 | exactly the names add, sub, mul, div and pow are supported |
| CommandLineCalculator.SafeDivide | calculator.py:26-29 | division fails exactly on a zero divisor, and the quotient times the divisor gives the dividend |
| CommandLineCalculator.Step | calculator.py:16-23 | one step of the fold: the named operation on the running result and the next operand, with division through the safe divide |
| CommandLineCalculator.FoldFrom | calculator.py:54-57 | the loop as a fold: each operand in turn, stopping at the first step that raises |
| CommandLineCalculator.Evaluation | calculator.py:32-57 | `evaluate`: unknown name first, then fewer than two operands, then the fold from the first operand |
| CommandLineCalculator.Evaluate | calculator.py:32-57 | the loop over the operands gives what the left fold gives, errors included |
| CommandLineCalculator.FoldAdd | calculator.py:54-57 | folding additions adds the sum of the remaining operands |
| CommandLineCalculator.FoldSub | calculator.py:54-57 | folding subtractions takes off the sum of the remaining operands |
| CommandLineCalculator.FoldMul | calculator.py:54-57 | folding multiplications multiplies by the product of the remaining operands |
| CommandLineCalculator.FoldDiv | calculator.py:26-29 | folding divisions fails exactly when a remaining operand is zero, and otherwise the result times their product gives the start back |
| CommandLineCalculator.UnknownOperation | calculator.py:46-48 | an unknown name raises, whatever the operands, even too few of them |
| CommandLineCalculator.TooFew | calculator.py:50-52 | a known name with fewer than two operands raises |
| CommandLineCalculator.Total | calculator.py:54-57 | `add` gives the sum of the operands |
| CommandLineCalculator.Multiple | calculator.py:54-57 | `mul` gives the product of the operands |
| CommandLineCalculator.Difference | calculator.py:54-57 | `sub` gives the first operand less the sum of the others |
| CommandLineCalculator.Quotient | calculator.py:55-56 | `div` raises exactly when an operand after the first is zero; otherwise the result times the product of those operands gives the first |
| CommandLineCalculator.Power | calculator.py:22 | `pow` on two operands raises the first to the second |
| CommandLineCalculator.Cases | tests/test_calculator.py:7-32 | the eight cases: 6, 3, 24, 12.5, `2^3` and the three errors |

## Left out

- The DOM, toasts, event binding and keyboard handling of `app.js` are user interface. This covers the result display, `renderHistory`'s elements, `showToast`, `bindEvents`, `isTextInputLike` and `tokenKeys`.
- `localStorage`, JSON and the clipboard are I/O. `loadHistory` is the constructor's `stored` argument, and the model does not cap it.
- `saveHistory`'s `history.slice(0, 30)` on save (app.js:85) is not modelled. Only the cap at app.js:435 is (`History.Prepend`). A page built from a longer stored history keeps all of it, and starring keeps the length.
- `formatTimestamp` is a locale call. `Date.now()` is the `now` argument of `Page.Calculator.EvaluateInput`.
- `clearExpression`, removing the last character, clearing the history and copying the expression are small handlers outside the evaluator. They are not modelled.
- IEEE floating point is out of scope: `parseFloat` rounding, the float results of `+ - * /`, and `Infinity` and `NaN`. Numbers are exact reals.
- `Math.pow` and `operator.pow` are an arbitrary caller-supplied function. Python's `pow` raising, or giving a complex number, is not modelled.
- `Page.Calculator.EvaluateInput`: uses the intended literal check. With the check as written, every evaluation fails (`Expression.AsWrittenNeverEvaluates`).
- `Postfix.Reduce`: a parenthesis token reaching the reducer is an error of its own (`NotAnOperator`). In JavaScript it would be a `TypeError` from the missing table entry. The conversion never lets one through (`ShuntingYard.RpnTokens`).
- `ShuntingYard.TwoOperators`: states the pop rule on two operators only; chains of any length are covered by `ShuntingYard.ChainRpn` against the independent reference `Chains.Grouped`, and expressions with parentheses only in the fully parenthesised form of `ShuntingYard.RpnOfInfix`. Mixed expressions that have some parentheses but are not fully parenthesised are not related to a reference tree.
- `History.SortForDisplay`: is an insertion sort specified by sortedness and the same multiset of entries. It does not state that the sort is stable, which `Array.prototype.sort` guarantees.
- `CommandLineCalculator.Cases`: states the test `assertAlmostEqual(…, 12.5)` as an exact equality, because the model computes with reals.
- `CommandLineCalculator.Evaluate`: takes the operands as a finite sequence. Converting an arbitrary iterable with `list(...)` is not modelled, and neither are the non-float operand types Python would accept.
- `Tokenizer.StepAt`: reads the text as Unicode characters. JavaScript indexes strings by UTF-16 code unit, so for a character outside the Basic Multilingual Plane (say an emoji in `1+😀`) the source reports an unsupported lone surrogate, while the model names the whole character. The error kind is the same.
- `assets/app.js`, `web/app.js`, `frontend/src/*` and `components/CalculatorPanel.tsx` are not part of this model. They are a second evaluator built on dynamic code execution, float folds over `Number()` parsing, and user interface.
- `parse_arguments` and `main` of `calculator.py` are command-line I/O.

## Findings

| source | as written | input that shows it | evidently intended | confidence | as-written member | corrected member |
|---|---|---|---|---|---|---|
| app.js:295 | the literal check is the regular expression literal `/^[-]?\\d*\\.?\\d+$/`, where `\\d` matches a backslash and then the letter `d`, so only strings with backslashes pass; the scanner builds literals from `-`, digits and points only, so every literal throws "Malformed number." and no expression evaluates | `8-4-2` | `/^-?\d*\.?\d+$/`, under which `8-4-2` evaluates to 2 | not executed | Tokenizer.AsWrittenRejectsEveryLiteral | Tokenizer.IntendedLiteralStep |
| app.js:295 | as above, seen from the whole evaluation | `8-4-2` | `8-4-2` evaluates to 2 | not executed | Examples.SubtractionAsWritten | Examples.SubtractionGroupsLeft |
