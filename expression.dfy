/** `countParens` and `evaluateExpression` of app.js: the checks the page runs on
    the input before and around the three stages, in the order it runs them. */
module Expression {
  import opened Results
  import opened Errors
  import opened Tokens
  import opened Tokenizer
  import opened ShuntingYard
  import opened Postfix
  import opened Text

  /** The `countParens` loop: counts the `(` and the `)` of a text. */
  method CountParens(s: string) returns (open: nat, close: nat)
    ensures open == multiset(s)['('] && close == multiset(s)[')']
  {
    open, close := 0, 0;
    for k := 0 to |s|
      invariant open == multiset(s[..k])['('] && close == multiset(s[..k])[')']
    {
      assert s[..k + 1] == s[..k] + [s[k]];
      if s[k] == '(' {
        open := open + 1;
      }
      if s[k] == ')' {
        close := close + 1;
      }
    }
    assert s[..|s|] == s;
  }

  /** The last token leaves the expression unfinished: there is none, or it is an
      operator or `(`. */
  predicate Unfinished(tokens: seq<Token>)
  {
    tokens == [] || tokens[|tokens| - 1].Operator? || tokens[|tokens| - 1] == Open
  }

  /** What the checks after tokenizing yield for the trimmed `expression` and its
      `tokens`: the text must hold as many `(` as `)`, the tokens must not end
      unfinished, and then they are converted to postfix and reduced. */
  function Checked(expression: string, tokens: seq<Token>, pow: (real, real) -> real): Result<real, Error>
  {
    if multiset(expression)['('] != multiset(expression)[')'] then Err(MismatchedParentheses)
    else if Unfinished(tokens) then Err(BadEnding)
    else
      match Rpn(tokens)
      case Err(e) => Err(e)
      case Ok(rpn) => RpnValue(rpn, pow)
  }

  /** What evaluating the page's input yields: the trimmed input must be non-empty,
      then tokenize, then pass the checks after tokenizing; the first failing check
      is the error. */
  function Evaluation(input: string, rule: LiteralRule, pow: (real, real) -> real): Result<real, Error>
  {
    var expression := Trim(input);
    if expression == [] then Err(EmptyExpression)
    else
      match Tokenization(expression, rule)
      case Err(e) => Err(e)
      case Ok(tokens) => Checked(expression, tokens, pow)
  }

  /** The evaluator with the literal check it evidently intends. */
  function Evaluate(input: string, pow: (real, real) -> real): Result<real, Error>
  {
    Evaluation(input, Intended, pow)
  }

  /** `evaluateExpression` without its display and history updates. */
  method EvaluateExpression(input: string, rule: LiteralRule, pow: (real, real) -> real) returns (r: Result<real, Error>)
    ensures r == Evaluation(input, rule, pow)
  {
    var expression := Trim(input);
    if expression == [] {
      return Err(EmptyExpression);
    }
    var tokenized := Tokenize(expression, rule);
    if tokenized.Err? {
      return Err(tokenized.error);
    }
    r := CheckTokens(expression, tokenized.value, pow);
  }

  /** The part of `evaluateExpression` after tokenizing. */
  method CheckTokens(expression: string, tokens: seq<Token>, pow: (real, real) -> real) returns (r: Result<real, Error>)
    ensures r == Checked(expression, tokens, pow)
  {
    var open, close := CountParens(expression);
    if open != close {
      return Err(MismatchedParentheses);
    }
    if |tokens| == 0 || tokens[|tokens| - 1].Operator? || tokens[|tokens| - 1] == Open {
      return Err(BadEnding);
    }
    var rpn := ToRpn(tokens);
    if rpn.Err? {
      return Err(rpn.error);
    }
    r := EvaluateRpn(rpn.value, pow);
  }

  // ---------------------------------------------------------------------------
  // What the checks guarantee

  /** Balanced parentheses, read from depth `depth`, close `depth` more than they
      open. */
  lemma {:induction false} BalancedCounts(ts: seq<Token>, depth: nat)
    requires BalancedFrom(ts, depth)
    ensures multiset(ts)[Open] + depth == multiset(ts)[Close]
    decreases |ts|
  {
    if ts != [] {
      assert ts == [ts[0]] + ts[1..];
      assert multiset(ts) == multiset([ts[0]]) + multiset(ts[1..]);
      if ts[0] == Open {
        BalancedCounts(ts[1..], depth + 1);
      } else if ts[0] == Close {
        BalancedCounts(ts[1..], depth - 1);
      } else {
        BalancedCounts(ts[1..], depth);
      }
    }
  }

  /** The checks after tokenizing never report an empty input; they report the
      ending error exactly when the parentheses count even and the tokens end
      unfinished. */
  lemma CheckedEnding(expression: string, tokens: seq<Token>, pow: (real, real) -> real)
    ensures Checked(expression, tokens, pow) != Err(EmptyExpression)
    ensures Checked(expression, tokens, pow) == Err(BadEnding) <==>
      multiset(expression)['('] == multiset(expression)[')'] && Unfinished(tokens)
  {
    if multiset(expression)['('] == multiset(expression)[')'] && !Unfinished(tokens) {
      match Rpn(tokens)
      case Err(e) =>
        RpnBalanced(tokens);
      case Ok(rpn) =>
        ValueFromErrors(rpn, [], pow);
    }
  }

  /** Checks after tokenizing that succeed saw balanced, finished tokens and
      reduced their postfix form to the result. */
  lemma CheckedSuccess(expression: string, tokens: seq<Token>, pow: (real, real) -> real)
    ensures Checked(expression, tokens, pow).Ok? ==>
      && Balanced(tokens) && !Unfinished(tokens) && Rpn(tokens).Ok?
      && Checked(expression, tokens, pow) == RpnValue(Rpn(tokens).value, pow)
  {
    RpnBalanced(tokens);
  }

  /** When the tokens hold the text's parentheses, the checks after tokenizing
      report mismatched parentheses only for unbalanced tokens, and unbalanced
      tokens always fail, on their parentheses or on their ending. */
  lemma CheckedMismatch(expression: string, tokens: seq<Token>, pow: (real, real) -> real)
    requires multiset(tokens)[Open] == multiset(expression)['('] && multiset(tokens)[Close] == multiset(expression)[')']
    ensures Checked(expression, tokens, pow) == Err(MismatchedParentheses) ==> !Balanced(tokens)
    ensures !Balanced(tokens) ==> Checked(expression, tokens, pow) in {Err(MismatchedParentheses), Err(BadEnding)}
  {
    RpnBalanced(tokens);
    if Balanced(tokens) {
      BalancedCounts(tokens, 0);
      if !Unfinished(tokens) && Rpn(tokens).Ok? {
        ValueFromErrors(Rpn(tokens).value, [], pow);
      }
    }
  }

  /** "Enter an expression to evaluate." is the answer exactly when the input is
      nothing but white space. */
  lemma EmptyInput(input: string, rule: LiteralRule, pow: (real, real) -> real)
    ensures Evaluation(input, rule, pow) == Err(EmptyExpression) <==> AllTrimmable(input)
  {
    TrimEmpty(input);
    var expression := Trim(input);
    if expression != [] {
      ScanErrors(expression, 0, [], rule);
      if Tokenization(expression, rule).Ok? {
        CheckedEnding(expression, Tokenization(expression, rule).value, pow);
      }
    }
  }

  /** The errors a scan can meet. */
  lemma {:induction false} ScanErrors(s: string, i: nat, acc: seq<Token>, rule: LiteralRule)
    requires i <= |s|
    ensures Scan(s, i, acc, rule).Err? ==>
      || Scan(s, i, acc, rule).error in {MultipleDecimals, MalformedNumber, InvalidSequence}
      || Scan(s, i, acc, rule).error.UnsupportedCharacter?
    decreases |s| - i
  {
    if i < |s| {
      match StepAt(s, i, acc, rule)
      case Skip =>
        ScanErrors(s, i + 1, acc, rule);
      case Emit(t, next) =>
        ScanErrors(s, next, acc + [t], rule);
      case Fail(_) =>
    }
  }

  /** A successful evaluation read a token list that is sequenced, balanced and
      finished, and reduced its postfix form to the result. */
  lemma Success(input: string, rule: LiteralRule, pow: (real, real) -> real)
    ensures Evaluation(input, rule, pow).Ok? ==>
      var tokenized := Tokenization(Trim(input), rule);
      && tokenized.Ok?
      && Sequenced(tokenized.value) && Balanced(tokenized.value) && !Unfinished(tokenized.value)
      && Rpn(tokenized.value).Ok?
      && Evaluation(input, rule, pow) == RpnValue(Rpn(tokenized.value).value, pow)
  {
    var expression := Trim(input);
    if expression != [] && Tokenization(expression, rule).Ok? {
      TokenizationSequenced(expression, rule);
      CheckedSuccess(expression, Tokenization(expression, rule).value, pow);
    }
  }

  /** "Expression cannot end with an operator or opening parenthesis." is the
      answer exactly when the input tokenizes, its parentheses count even, and its
      last token is an operator or `(`. */
  lemma Ending(input: string, rule: LiteralRule, pow: (real, real) -> real)
    ensures Evaluation(input, rule, pow) == Err(BadEnding) <==>
      && Trim(input) != [] && Tokenization(Trim(input), rule).Ok?
      && multiset(Trim(input))['('] == multiset(Trim(input))[')']
      && Unfinished(Tokenization(Trim(input), rule).value)
  {
    var expression := Trim(input);
    if expression != [] {
      ScanErrors(expression, 0, [], rule);
      if Tokenization(expression, rule).Ok? {
        CheckedEnding(expression, Tokenization(expression, rule).value, pow);
      }
    }
  }

  /** "Mismatched parentheses." is reported only for token lists whose parentheses
      do not balance; and an unbalanced token list always fails, on the
      parentheses or on its ending. */
  lemma Mismatch(input: string, rule: LiteralRule, pow: (real, real) -> real)
    ensures Evaluation(input, rule, pow) == Err(MismatchedParentheses) ==>
      Tokenization(Trim(input), rule).Ok? && !Balanced(Tokenization(Trim(input), rule).value)
    ensures Trim(input) != [] && Tokenization(Trim(input), rule).Ok? && !Balanced(Tokenization(Trim(input), rule).value) ==>
      Evaluation(input, rule, pow) in {Err(MismatchedParentheses), Err(BadEnding)}
  {
    var expression := Trim(input);
    if expression != [] {
      ScanErrors(expression, 0, [], rule);
      if Tokenization(expression, rule).Ok? {
        TokenizationParens(expression, rule);
        CheckedMismatch(expression, Tokenization(expression, rule).value, pow);
      }
    }
  }

  /** With the literal check as app.js writes it, no input evaluates: every literal
      fails the check, so a scan that succeeds has no number, and a postfix list
      without numbers never reduces to a value. */
  lemma AsWrittenNeverEvaluates(input: string, pow: (real, real) -> real)
    ensures Evaluation(input, AsWritten, pow).Err?
  {
    var expression := Trim(input);
    if expression != [] && Tokenization(expression, AsWritten).Ok? {
      var tokens := Tokenization(expression, AsWritten).value;
      AsWrittenTokenizationHasNoNumbers(expression);
      NumbersOfNoNumbers(tokens);
      if Rpn(tokens).Ok? {
        RpnTokens(tokens);
        RpnArity(Rpn(tokens).value, pow);
      }
    }
  }
}
