/** The tokenizer of app.js: one left-to-right scan that turns the expression
    into number, operator and parenthesis tokens, recognising a unary minus and
    counting the decimal points of each literal. */
module Tokenizer {
  import opened Results
  import opened Errors
  import opened Operators
  import opened Tokens

  /** `/\d/` on one character: an ASCII digit. */
  predicate IsDigit(c: char)
  {
    '0' <= c <= '9'
  }

  /** A character a number literal is made of. */
  predicate IsNumberChar(c: char)
  {
    IsDigit(c) || c == '.'
  }

  /** The characters the scan skips. */
  predicate IsBlank(c: char)
  {
    c == ' ' || c == '\t'
  }

  /** The characters of `t` from `a` up to but not including `b` are digits. */
  predicate DigitsIn(t: string, a: nat, b: nat)
    requires a <= b <= |t|
  {
    forall m :: a <= m < b ==> IsDigit(t[m])
  }

  // ---------------------------------------------------------------------------
  // The literal check

  /** Which regular expression decides whether a scanned literal is well formed:
      the one the source writes, or the one it evidently means. */
  datatype LiteralRule = AsWritten | Intended

  /** `\d*\.?\d+` matches `t` from `a` to its end: digits, then perhaps a point,
      then at least one digit. */
  predicate IntendedBody(t: string, a: nat)
    requires a <= |t|
  {
    || (a < |t| && DigitsIn(t, a, |t|))
    || exists k :: a <= k < |t| - 1 && t[k] == '.' && DigitsIn(t, a, k) && DigitsIn(t, k + 1, |t|)
  }

  /** `/^-?\d*\.?\d+$/`. */
  predicate MatchesIntended(lit: string)
  {
    IntendedBody(lit, 0) || (|lit| > 0 && lit[0] == '-' && IntendedBody(lit, 1))
  }

  /** The characters `.` does not match in a JavaScript regular expression. */
  predicate IsLineTerminator(c: char)
  {
    c == '\n' || c == '\r' || c == '\U{2028}' || c == '\U{2029}'
  }

  /** The characters of `t` from `a` up to but not including `b` are letters `d`. */
  predicate LettersDIn(t: string, a: nat, b: nat)
    requires a <= b <= |t|
  {
    forall m :: a <= m < b ==> t[m] == 'd'
  }

  /** `\\d*\\.?\\d+` read as a regular expression literal, matched against `t`
      from `a` to its end: a backslash, any number of letters `d`, a backslash, at
      most one character that is not a line terminator, a backslash, and one or
      more letters `d`. */
  predicate AsWrittenBody(t: string, a: nat)
    requires a <= |t|
  {
    exists i, j ::
      && a < i < j < |t| - 1
      && t[a] == '\\' && LettersDIn(t, a + 1, i) && t[i] == '\\'
      && (j == i + 1 || (j == i + 2 && !IsLineTerminator(t[i + 1])))
      && t[j] == '\\' && LettersDIn(t, j + 1, |t|)
  }

  /** `/^[-]?\\d*\\.?\\d+$/`, the pattern app.js tests literals against. */
  predicate MatchesAsWritten(lit: string)
  {
    AsWrittenBody(lit, 0) || (|lit| > 0 && lit[0] == '-' && AsWrittenBody(lit, 1))
  }

  /** The whole check on a scanned literal: the pattern, and the three literals
      the source rejects by name. */
  predicate LiteralAccepted(lit: string, rule: LiteralRule)
  {
    && (match rule
        case AsWritten => MatchesAsWritten(lit)
        case Intended => MatchesIntended(lit))
    && lit != "-" && lit != "." && lit != "-."
  }

  // ---------------------------------------------------------------------------
  // The value of a literal (`parseFloat` without rounding)

  function Pow10(n: nat): (r: nat)
    ensures r > 0
  {
    if n == 0 then 1 else 10 * Pow10(n - 1)
  }

  /** The digits of `t` read as a base-10 numeral; other characters are skipped. */
  function DigitsValue(t: string): nat
  {
    if t == [] then 0
    else if IsDigit(t[|t| - 1]) then 10 * DigitsValue(t[..|t| - 1]) + (t[|t| - 1] as int - '0' as int)
    else DigitsValue(t[..|t| - 1])
  }

  /** How many characters follow the first decimal point of `t` (0 without one). */
  function FractionDigits(t: string): nat
  {
    if t == [] then 0 else if t[0] == '.' then |t| - 1 else FractionDigits(t[1..])
  }

  /** The real number a decimal literal `-?digits.digits` denotes. */
  function ParseDecimal(lit: string): real
  {
    var negative := |lit| > 0 && lit[0] == '-';
    var t := if negative then lit[1..] else lit;
    var magnitude := DigitsValue(t) as real / Pow10(FractionDigits(t)) as real;
    if negative then -magnitude else magnitude
  }

  // ---------------------------------------------------------------------------
  // One step of the scan

  /** The previous token leaves room for a number but not for an operator: there is
      none, or it is an operator or `(`. */
  predicate UnaryContext(tokens: seq<Token>)
  {
    |tokens| == 0 || tokens[|tokens| - 1].Operator? || tokens[|tokens| - 1] == Open
  }

  /** The `-` at `i` starts a negative literal. */
  predicate UnaryMinusAt(s: string, i: nat, tokens: seq<Token>)
    requires i < |s|
  {
    s[i] == '-' && UnaryContext(tokens) && i + 1 < |s| && IsNumberChar(s[i + 1])
  }

  /** Where the run of digits and points that starts at `j` ends. */
  function LiteralEnd(s: string, j: nat): (e: nat)
    requires j <= |s|
    ensures j <= e <= |s|
    ensures e == |s| || !IsNumberChar(s[e])
    decreases |s| - j
  {
    if j < |s| && IsNumberChar(s[j]) then LiteralEnd(s, j + 1) else j
  }

  /** The number of decimal points in `s` from `a` up to but not including `b`. */
  function PointsIn(s: string, a: nat, b: nat): nat
    requires a <= b <= |s|
    decreases b - a
  {
    if a == b then 0 else PointsIn(s, a, b - 1) + (if s[b - 1] == '.' then 1 else 0)
  }

  lemma {:induction false} PointsMonotonic(s: string, start: nat, j: nat, end: nat)
    requires start <= j <= end <= |s|
    ensures PointsIn(s, start, end) >= PointsIn(s, start, j)
    decreases end - j
  {
    if j < end {
      PointsMonotonic(s, start, j, end - 1);
    }
  }

  /** What one scan step does at a position: skip it, emit a token and continue at
      `next`, or fail. */
  datatype Move = Skip | Emit(token: Token, next: nat) | Fail(error: Error)

  /** The literal branch: an optional unary `-`, then the maximal run of digits and
      points, which may hold at most one point and must pass the literal check. */
  function ScanNumber(s: string, i: nat, tokens: seq<Token>, rule: LiteralRule): (r: Move)
    requires i < |s| && (IsNumberChar(s[i]) || UnaryMinusAt(s, i, tokens))
    ensures r.Emit? ==> i < r.next <= |s| && r.token.Number?
    ensures r.Emit? ==> r.next == LiteralEnd(s, if UnaryMinusAt(s, i, tokens) then i + 1 else i)
    ensures !r.Skip?
  {
    var unary := UnaryMinusAt(s, i, tokens);
    var start := if unary then i + 1 else i;
    var end := LiteralEnd(s, start);
    var prefix := if unary then "-" else "";
    var lit := prefix + s[start..end];
    if PointsIn(s, start, end) > 1 then Fail(MultipleDecimals)
    else if !LiteralAccepted(lit, rule) then Fail(MalformedNumber)
    else Emit(Number(ParseDecimal(lit)), end)
  }

  function StepAt(s: string, i: nat, tokens: seq<Token>, rule: LiteralRule): (r: Move)
    requires i < |s|
    ensures r.Emit? ==> i < r.next <= |s|
  {
    var c := s[i];
    if IsBlank(c) then Skip
    else if IsNumberChar(c) || UnaryMinusAt(s, i, tokens) then ScanNumber(s, i, tokens, rule)
    else if IsOperatorChar(c) then
      if UnaryContext(tokens) then Fail(InvalidSequence) else Emit(Operator(OperatorOf(c).value), i + 1)
    else if c == '(' then Emit(Open, i + 1)
    else if c == ')' then Emit(Close, i + 1)
    else Fail(UnsupportedCharacter(c))
  }

  /** The scan from position `i` on, with `tokens` emitted so far. */
  function Scan(s: string, i: nat, tokens: seq<Token>, rule: LiteralRule): Result<seq<Token>, Error>
    requires i <= |s|
    decreases |s| - i
  {
    if i == |s| then Ok(tokens)
    else match StepAt(s, i, tokens, rule)
      case Skip => Scan(s, i + 1, tokens, rule)
      case Emit(t, next) => Scan(s, next, tokens + [t], rule)
      case Fail(e) => Err(e)
  }

  /** The tokens of an expression, or the first error the scan meets. */
  function Tokenization(s: string, rule: LiteralRule): Result<seq<Token>, Error>
  {
    Scan(s, 0, [], rule)
  }

  // ---------------------------------------------------------------------------
  // The scan as the source runs it

  /** The `dotCount` loop: appends the run of digits and points at `start` to
      `prefix`, and stops at the second point. */
  method ReadRun(s: string, start: nat, prefix: string) returns (numberStr: string, end: nat, tooManyDots: bool)
    requires start <= |s|
    ensures end == LiteralEnd(s, start)
    ensures tooManyDots <==> PointsIn(s, start, end) > 1
    ensures numberStr == prefix + s[start..end]
  {
    numberStr := prefix;
    var j := start;
    var dotCount := 0;
    while j < |s| && IsNumberChar(s[j])
      invariant start <= j <= LiteralEnd(s, start)
      invariant LiteralEnd(s, j) == LiteralEnd(s, start)
      invariant numberStr == prefix + s[start..j]
      invariant dotCount == PointsIn(s, start, j) <= 1
    {
      assert s[start..j + 1] == s[start..j] + [s[j]];
      if s[j] == '.' {
        dotCount := dotCount + 1;
        if dotCount > 1 {
          end := LiteralEnd(s, start);
          PointsMonotonic(s, start, j + 1, end);
          numberStr := prefix + s[start..end];
          return numberStr, end, true;
        }
      }
      numberStr := numberStr + [s[j]];
      j := j + 1;
    }
    end, tooManyDots := j, false;
  }

  /** The literal branch as the source runs it. */
  method ReadLiteral(s: string, i: nat, tokens: seq<Token>, rule: LiteralRule) returns (m: Move)
    requires i < |s| && (IsNumberChar(s[i]) || UnaryMinusAt(s, i, tokens))
    ensures m == ScanNumber(s, i, tokens, rule)
  {
    var unaryMinus := UnaryMinusAt(s, i, tokens);
    var numberStr, next, tooManyDots := ReadRun(s, if unaryMinus then i + 1 else i, if unaryMinus then "-" else "");
    if tooManyDots {
      return Fail(MultipleDecimals);
    }
    if !LiteralAccepted(numberStr, rule) {
      return Fail(MalformedNumber);
    }
    m := Emit(Number(ParseDecimal(numberStr)), next);
  }

  /** One pass of the scanning loop's body: what it does with the character at
      `i`, given the tokens pushed so far. */
  method NextMove(s: string, i: nat, tokens: seq<Token>, rule: LiteralRule) returns (m: Move)
    requires i < |s|
    ensures m == StepAt(s, i, tokens, rule)
  {
    var c := s[i];
    if IsBlank(c) {
      return Skip;
    }
    var prevIsOperator := |tokens| > 0 && tokens[|tokens| - 1].Operator?;
    var prevIsOpening := |tokens| > 0 && tokens[|tokens| - 1] == Open;
    var unaryMinus := c == '-' && (|tokens| == 0 || prevIsOperator || prevIsOpening)
                      && i + 1 < |s| && IsNumberChar(s[i + 1]);
    if IsNumberChar(c) || unaryMinus {
      m := ReadLiteral(s, i, tokens, rule);
      return;
    }
    if IsOperatorChar(c) {
      if |tokens| == 0 || prevIsOperator || prevIsOpening {
        return Fail(InvalidSequence);
      }
      return Emit(Operator(OperatorOf(c).value), i + 1);
    }
    if c == '(' || c == ')' {
      return Emit(if c == '(' then Open else Close, i + 1);
    }
    m := Fail(UnsupportedCharacter(c));
  }

  /** `tokenize`: the scanning loop over the expression. */
  method Tokenize(s: string, rule: LiteralRule) returns (r: Result<seq<Token>, Error>)
    ensures r == Tokenization(s, rule)
  {
    var tokens: seq<Token> := [];
    var i := 0;
    while i < |s|
      invariant i <= |s|
      invariant Scan(s, i, tokens, rule) == Tokenization(s, rule)
      decreases |s| - i
    {
      var m := NextMove(s, i, tokens, rule);
      match m
      case Skip =>
        i := i + 1;
      case Emit(t, next) =>
        tokens, i := tokens + [t], next;
      case Fail(e) =>
        return Err(e);
    }
    r := Ok(tokens);
  }

  // ---------------------------------------------------------------------------
  // What the scan guarantees

  /** Every operator token follows a token that is neither an operator nor `(`. */
  predicate Sequenced(ts: seq<Token>)
  {
    forall k :: 0 <= k < |ts| && ts[k].Operator? ==> k > 0 && !ts[k - 1].Operator? && ts[k - 1] != Open
  }

  /** A character no branch of the scan accepts. */
  predicate IsForeign(c: char)
  {
    !IsBlank(c) && !IsNumberChar(c) && !IsOperatorChar(c) && c != '(' && c != ')'
  }

  /** A step that read a literal: it emitted a number or failed on the literal. */
  predicate LiteralOutcome(m: Move)
  {
    (m.Emit? && m.token.Number?) || m == Fail(MultipleDecimals) || m == Fail(MalformedNumber)
  }

  /** A `-` is read as the sign of a literal exactly when it stands at the start, or
      after an operator or `(`, and a digit or point follows it; otherwise it goes to
      the operator branch. */
  lemma MinusDecision(s: string, i: nat, tokens: seq<Token>, rule: LiteralRule)
    requires i < |s| && s[i] == '-'
    ensures UnaryMinusAt(s, i, tokens) <==> LiteralOutcome(StepAt(s, i, tokens, rule))
    ensures !UnaryMinusAt(s, i, tokens) ==>
      StepAt(s, i, tokens, rule) == if UnaryContext(tokens) then Fail(InvalidSequence) else Emit(Operator(Sub), i + 1)
  {
  }

  /** The branches a character takes when it does not start a literal: spaces and
      tabs are skipped; an operator fails at the start, after an operator and after
      `(`, and is emitted otherwise; a parenthesis is always emitted; any other
      character is unsupported. */
  lemma StepBranches(s: string, i: nat, tokens: seq<Token>, rule: LiteralRule)
    requires i < |s| && !IsNumberChar(s[i]) && !UnaryMinusAt(s, i, tokens)
    ensures IsBlank(s[i]) ==> StepAt(s, i, tokens, rule) == Skip
    ensures IsOperatorChar(s[i]) ==>
      StepAt(s, i, tokens, rule) == if UnaryContext(tokens) then Fail(InvalidSequence) else Emit(Operator(OperatorOf(s[i]).value), i + 1)
    ensures s[i] == '(' ==> StepAt(s, i, tokens, rule) == Emit(Open, i + 1)
    ensures s[i] == ')' ==> StepAt(s, i, tokens, rule) == Emit(Close, i + 1)
    ensures IsForeign(s[i]) <==> StepAt(s, i, tokens, rule) == Fail(UnsupportedCharacter(s[i]))
  {
  }

  lemma {:induction false} ScanSequenced(s: string, i: nat, acc: seq<Token>, rule: LiteralRule)
    requires i <= |s| && Sequenced(acc)
    ensures Scan(s, i, acc, rule).Ok? ==> Sequenced(Scan(s, i, acc, rule).value)
    decreases |s| - i
  {
    if i < |s| {
      match StepAt(s, i, acc, rule)
      case Skip =>
        ScanSequenced(s, i + 1, acc, rule);
      case Emit(t, next) =>
        assert Sequenced(acc + [t]) by {
          if t.Operator? {
            assert !UnaryContext(acc);
          }
        }
        ScanSequenced(s, next, acc + [t], rule);
      case Fail(_) =>
    }
  }

  /** No operator token of a successful scan is first, or follows an operator or `(`. */
  lemma TokenizationSequenced(s: string, rule: LiteralRule)
    ensures Tokenization(s, rule).Ok? ==> Sequenced(Tokenization(s, rule).value)
  {
    ScanSequenced(s, 0, [], rule);
  }

  /** The run a literal is read from holds digits and points only. */
  lemma {:induction false} LiteralRunChars(s: string, j: nat, k: nat)
    requires j <= |s| && j <= k < LiteralEnd(s, j)
    ensures IsNumberChar(s[k])
    decreases k - j
  {
    if j < k {
      LiteralRunChars(s, j + 1, k);
    }
  }

  /** Counting a character over a split sequence. */
  lemma CountSplit(s: string, i: nat, n: nat, c: char)
    requires i <= n <= |s|
    ensures multiset(s[i..])[c] == multiset(s[i..n])[c] + multiset(s[n..])[c]
  {
    assert s[i..] == s[i..n] + s[n..];
  }

  /** A literal step consumes no parenthesis and no foreign character. */
  lemma LiteralStepChars(s: string, i: nat, tokens: seq<Token>, rule: LiteralRule, k: nat)
    requires i < |s| && (IsNumberChar(s[i]) || UnaryMinusAt(s, i, tokens))
    requires ScanNumber(s, i, tokens, rule).Emit?
    requires i <= k < ScanNumber(s, i, tokens, rule).next
    ensures IsNumberChar(s[k]) || s[k] == '-'
  {
    var start := if UnaryMinusAt(s, i, tokens) then i + 1 else i;
    assert k < LiteralEnd(s, start);
    if k >= start {
      LiteralRunChars(s, start, k);
    }
  }

  /** The position a step that does not fail continues at. */
  function NextAt(s: string, i: nat, tokens: seq<Token>, rule: LiteralRule): (n: nat)
    requires i < |s| && !StepAt(s, i, tokens, rule).Fail?
    ensures i < n <= |s|
  {
    match StepAt(s, i, tokens, rule)
    case Skip => i + 1
    case Emit(_, next) => next
  }

  /** A stretch without parentheses counts none. */
  lemma ParenFree(s: string, i: nat, n: nat)
    requires i <= n <= |s|
    requires forall k :: i <= k < n ==> s[k] != '(' && s[k] != ')'
    ensures multiset(s[i..n])['('] == 0 && multiset(s[i..n])[')'] == 0
  {
    assert '(' !in s[i..n] && ')' !in s[i..n];
  }

  /** A literal step consumes no parenthesis. */
  lemma LiteralParenFree(s: string, i: nat, tokens: seq<Token>, rule: LiteralRule)
    requires i < |s| && (IsNumberChar(s[i]) || UnaryMinusAt(s, i, tokens))
    requires ScanNumber(s, i, tokens, rule).Emit?
    ensures var n := ScanNumber(s, i, tokens, rule).next;
            multiset(s[i..n])['('] == 0 && multiset(s[i..n])[')'] == 0
  {
    var n := ScanNumber(s, i, tokens, rule).next;
    forall k | i <= k < n ensures s[k] != '(' && s[k] != ')' {
      LiteralStepChars(s, i, tokens, rule, k);
    }
    ParenFree(s, i, n);
  }

  /** What a step consumes holds a parenthesis exactly when it emits that parenthesis. */
  lemma StepParens(s: string, i: nat, tokens: seq<Token>, rule: LiteralRule)
    requires i < |s| && !StepAt(s, i, tokens, rule).Fail?
    ensures multiset(s[i..NextAt(s, i, tokens, rule)])['('] == if StepAt(s, i, tokens, rule) == Emit(Open, i + 1) then 1 else 0
    ensures multiset(s[i..NextAt(s, i, tokens, rule)])[')'] == if StepAt(s, i, tokens, rule) == Emit(Close, i + 1) then 1 else 0
  {
    if IsNumberChar(s[i]) || UnaryMinusAt(s, i, tokens) {
      LiteralParenFree(s, i, tokens, rule);
    } else {
      assert NextAt(s, i, tokens, rule) == i + 1;
      assert s[i..i + 1] == [s[i]];
    }
  }

  lemma {:induction false} ScanParens(s: string, i: nat, acc: seq<Token>, rule: LiteralRule)
    requires i <= |s|
    ensures Scan(s, i, acc, rule).Ok? ==>
      && multiset(Scan(s, i, acc, rule).value)[Open] == multiset(acc)[Open] + multiset(s[i..])['(']
      && multiset(Scan(s, i, acc, rule).value)[Close] == multiset(acc)[Close] + multiset(s[i..])[')']
    decreases |s| - i
  {
    if i < |s| && !StepAt(s, i, acc, rule).Fail? {
      var m := StepAt(s, i, acc, rule);
      var n := NextAt(s, i, acc, rule);
      var acc' := if m.Emit? then acc + [m.token] else acc;
      assert Scan(s, i, acc, rule) == Scan(s, n, acc', rule);
      ScanParens(s, n, acc', rule);
      StepParens(s, i, acc, rule);
      CountSplit(s, i, n, '(');
      CountSplit(s, i, n, ')');
    }
  }

  /** The parenthesis tokens of a successful scan are the parentheses of the text,
      one for one. */
  lemma TokenizationParens(s: string, rule: LiteralRule)
    ensures Tokenization(s, rule).Ok? ==>
      && multiset(Tokenization(s, rule).value)[Open] == multiset(s)['(']
      && multiset(Tokenization(s, rule).value)[Close] == multiset(s)[')']
  {
    ScanParens(s, 0, [], rule);
    assert s[0..] == s;
  }

  lemma {:induction false} ScanForeign(s: string, i: nat, acc: seq<Token>, rule: LiteralRule)
    requires i <= |s|
    ensures Scan(s, i, acc, rule).Ok? ==> forall k :: i <= k < |s| ==> !IsForeign(s[k])
    ensures Scan(s, i, acc, rule).Err? && Scan(s, i, acc, rule).error.UnsupportedCharacter? ==>
      exists k :: i <= k < |s| && s[k] == Scan(s, i, acc, rule).error.c && IsForeign(s[k])
    decreases |s| - i
  {
    if i < |s| {
      match StepAt(s, i, acc, rule)
      case Skip =>
        ScanForeign(s, i + 1, acc, rule);
      case Emit(t, next) =>
        ScanForeign(s, next, acc + [t], rule);
        if t.Number? {
          forall k | i <= k < next ensures !IsForeign(s[k]) {
            LiteralStepChars(s, i, acc, rule, k);
          }
        }
      case Fail(e) =>
        if e.UnsupportedCharacter? {
          assert s[i] == e.c && IsForeign(s[i]);
        }
    }
  }

  /** A text with a character outside digits, points, operators, parentheses, spaces
      and tabs never tokenizes, and the character an unsupported-character error
      names is one of those in the text. */
  lemma TokenizationRejectsForeign(s: string, rule: LiteralRule)
    ensures (exists k :: 0 <= k < |s| && IsForeign(s[k])) ==> Tokenization(s, rule).Err?
    ensures Tokenization(s, rule).Err? && Tokenization(s, rule).error.UnsupportedCharacter? ==>
      Tokenization(s, rule).error.c in s && IsForeign(Tokenization(s, rule).error.c)
  {
    ScanForeign(s, 0, [], rule);
  }

  // ---------------------------------------------------------------------------
  // The literal check as written, and as intended

  /** The pattern as written needs a backslash right after the optional sign. */
  lemma AsWrittenNeedsBackslash(lit: string)
    requires MatchesAsWritten(lit)
    ensures '\\' in lit
  {
    if AsWrittenBody(lit, 0) {
      assert lit[0] == '\\';
    } else {
      assert lit[1] == '\\';
    }
  }

  /** The literal text a literal step tests. */
  /** Where the run of digits and points of the literal at `i` begins: after the
      sign of a negative literal. */
  function RunStart(s: string, i: nat, tokens: seq<Token>): (j: nat)
    requires i < |s|
    ensures i <= j <= |s| && (j == i + 1 <==> UnaryMinusAt(s, i, tokens))
  {
    if UnaryMinusAt(s, i, tokens) then i + 1 else i
  }

  function LiteralText(s: string, i: nat, tokens: seq<Token>): (lit: string)
    requires i < |s| && (IsNumberChar(s[i]) || UnaryMinusAt(s, i, tokens))
    ensures |lit| > 0
  {
    var unary := UnaryMinusAt(s, i, tokens);
    var start := if unary then i + 1 else i;
    (if unary then "-" else "") + s[start..LiteralEnd(s, start)]
  }

  /** The literal text holds an optional sign and digits and points only. */
  lemma LiteralTextChars(s: string, i: nat, tokens: seq<Token>)
    requires i < |s| && (IsNumberChar(s[i]) || UnaryMinusAt(s, i, tokens))
    ensures forall k :: 0 <= k < |LiteralText(s, i, tokens)| ==>
      IsNumberChar(LiteralText(s, i, tokens)[k]) || LiteralText(s, i, tokens)[k] == '-'
  {
    var unary := UnaryMinusAt(s, i, tokens);
    var start := if unary then i + 1 else i;
    var end := LiteralEnd(s, start);
    forall k | start <= k < end ensures IsNumberChar(s[k]) {
      LiteralRunChars(s, start, k);
    }
  }

  /** Under the pattern as written, every literal step fails. */
  lemma AsWrittenRejectsEveryLiteral(s: string, i: nat, tokens: seq<Token>)
    requires i < |s| && (IsNumberChar(s[i]) || UnaryMinusAt(s, i, tokens))
    ensures ScanNumber(s, i, tokens, AsWritten).Fail?
  {
    var lit := LiteralText(s, i, tokens);
    LiteralTextChars(s, i, tokens);
    if MatchesAsWritten(lit) {
      AsWrittenNeedsBackslash(lit);
      assert false;
    }
  }

  lemma {:induction false} ScanAsWritten(s: string, i: nat, acc: seq<Token>)
    requires i <= |s| && NoNumbers(acc)
    ensures Scan(s, i, acc, AsWritten).Ok? ==>
      NoNumbers(Scan(s, i, acc, AsWritten).value) && forall k :: i <= k < |s| ==> !IsNumberChar(s[k])
    decreases |s| - i
  {
    if i < |s| {
      if IsNumberChar(s[i]) || UnaryMinusAt(s, i, acc) {
        AsWrittenRejectsEveryLiteral(s, i, acc);
      }
      match StepAt(s, i, acc, AsWritten)
      case Skip =>
        ScanAsWritten(s, i + 1, acc);
      case Emit(t, next) =>
        ScanAsWritten(s, next, acc + [t]);
      case Fail(_) =>
    }
  }

  /** With the pattern as written, a scan succeeds only on a text without a single
      digit or point, and then yields no number token. */
  lemma AsWrittenTokenizationHasNoNumbers(s: string)
    ensures Tokenization(s, AsWritten).Ok? ==>
      && NoNumbers(Tokenization(s, AsWritten).value)
      && forall k :: 0 <= k < |s| ==> !IsNumberChar(s[k])
  {
    ScanAsWritten(s, 0, []);
  }

  lemma {:induction false} PointsPositive(s: string, a: nat, b: nat, m: nat)
    requires a <= m < b <= |s| && s[m] == '.'
    ensures PointsIn(s, a, b) >= 1
    decreases b - a
  {
    if m < b - 1 {
      PointsPositive(s, a, b - 1, m);
    }
  }

  lemma {:induction false} PointsTwo(s: string, a: nat, b: nat, m: nat, n: nat)
    requires a <= m < n < b <= |s| && s[m] == '.' && s[n] == '.'
    ensures PointsIn(s, a, b) >= 2
    decreases b - a
  {
    if n == b - 1 {
      PointsPositive(s, a, b - 1, m);
    } else {
      PointsTwo(s, a, b - 1, m, n);
    }
  }

  /** On digits and points with no second point, the pattern `\d*\.?\d+` matches
      from `a` exactly when something follows `a` and the text ends in a digit:
      `.5` passes and `3.` does not. */
  lemma IntendedBodyOnRun(t: string, a: nat)
    requires a <= |t|
    requires forall m :: a <= m < |t| ==> IsNumberChar(t[m])
    requires forall m, n :: a <= m < n < |t| && t[m] == '.' ==> t[n] != '.'
    ensures IntendedBody(t, a) <==> a < |t| && IsDigit(t[|t| - 1])
  {
    if a < |t| && IsDigit(t[|t| - 1]) && !DigitsIn(t, a, |t|) {
      var k :| a <= k < |t| && !IsDigit(t[k]);
      assert t[k] == '.' && k < |t| - 1;
      assert DigitsIn(t, a, k) && DigitsIn(t, k + 1, |t|);
    }
  }

  /** A range with at most one point has no point after a point. */
  lemma PointsOnce(s: string, a: nat, b: nat)
    requires a <= b <= |s| && PointsIn(s, a, b) <= 1
    ensures forall m, n :: a <= m < n < b && s[m] == '.' ==> s[n] != '.'
  {
    forall m, n | a <= m < n < b && s[m] == '.' ensures s[n] != '.' {
      if s[n] == '.' {
        PointsTwo(s, a, b, m, n);
      }
    }
  }

  /** The intended check on an unsigned run of digits and points with no second
      point accepts exactly the runs that end in a digit. */
  lemma UnsignedLiteral(run: string)
    requires forall k :: 0 <= k < |run| ==> IsNumberChar(run[k])
    requires forall m, n :: 0 <= m < n < |run| && run[m] == '.' ==> run[n] != '.'
    ensures LiteralAccepted(run, Intended) <==> |run| > 0 && IsDigit(run[|run| - 1])
  {
    IntendedBodyOnRun(run, 0);
    if |run| > 0 {
      assert run[0] != '-';
    }
  }

  /** The same for the run behind a sign. */
  lemma SignedLiteral(run: string)
    requires forall k :: 0 <= k < |run| ==> IsNumberChar(run[k])
    requires forall m, n :: 0 <= m < n < |run| && run[m] == '.' ==> run[n] != '.'
    ensures LiteralAccepted("-" + run, Intended) <==> |run| > 0 && IsDigit(run[|run| - 1])
  {
    var lit := "-" + run;
    assert forall m :: 1 <= m < |lit| ==> lit[m] == run[m - 1];
    IntendedBodyOnRun(lit, 1);
    assert lit[0] == '-';
    if |run| > 0 {
      assert lit[|lit| - 1] == run[|run| - 1];
    }
  }

  /** The intended check on a run of digits and points with no second point,
      signed or not, accepts exactly the runs that end in a digit. */
  lemma IntendedLiteral(lit: string, negative: bool, run: string)
    requires lit == (if negative then "-" else "") + run
    requires forall k :: 0 <= k < |run| ==> IsNumberChar(run[k])
    requires forall m, n :: 0 <= m < n < |run| && run[m] == '.' ==> run[n] != '.'
    ensures LiteralAccepted(lit, Intended) <==> |run| > 0 && IsDigit(run[|run| - 1])
  {
    if negative {
      SignedLiteral(run);
    } else {
      assert lit == run;
      UnsignedLiteral(run);
    }
  }

  /** The run read from `start` holds digits and points only. */
  lemma RunChars(s: string, start: nat)
    requires start <= |s|
    ensures var run := s[start..LiteralEnd(s, start)];
            forall k :: 0 <= k < |run| ==> IsNumberChar(run[k])
  {
    var run := s[start..LiteralEnd(s, start)];
    forall k | 0 <= k < |run| ensures IsNumberChar(run[k]) {
      LiteralRunChars(s, start, start + k);
    }
  }

  /** The run read from `start` ends in a digit exactly when its last character in
      the text is one. */
  lemma RunLast(s: string, start: nat)
    requires start <= |s|
    ensures var end := LiteralEnd(s, start);
            var run := s[start..end];
            |run| > 0 && IsDigit(run[|run| - 1]) <==> start < end && IsDigit(s[end - 1])
  {
  }

  /** The intended check on the run read from `start`, signed or not, when the
      run holds at most one point. */
  lemma RunAccepted(s: string, start: nat, negative: bool, lit: string)
    requires start <= |s| && PointsIn(s, start, LiteralEnd(s, start)) <= 1
    requires lit == (if negative then "-" else "") + s[start..LiteralEnd(s, start)]
    ensures var end := LiteralEnd(s, start);
            LiteralAccepted(lit, Intended) <==> start < end && IsDigit(s[end - 1])
  {
    var end := LiteralEnd(s, start);
    var run := s[start..end];
    RunChars(s, start);
    RunLast(s, start);
    PointsOnce(s, start, end);
    assert forall m :: 0 <= m < |run| ==> run[m] == s[start + m];
    IntendedLiteral(lit, negative, run);
  }

  /** With the intended pattern a literal step succeeds exactly when its run of
      digits and points holds at most one point and ends in a digit; the token then
      carries the value of the literal text. */
  lemma IntendedLiteralStep(s: string, i: nat, tokens: seq<Token>)
    requires i < |s| && (IsNumberChar(s[i]) || UnaryMinusAt(s, i, tokens))
    ensures var start := RunStart(s, i, tokens);
            var end := LiteralEnd(s, start);
            && (ScanNumber(s, i, tokens, Intended).Emit? <==>
                  PointsIn(s, start, end) <= 1 && start < end && IsDigit(s[end - 1]))
            && (ScanNumber(s, i, tokens, Intended).Emit? ==>
                  ScanNumber(s, i, tokens, Intended) == Emit(Number(ParseDecimal(LiteralText(s, i, tokens))), end))
  {
    IntendedEmits(s, i, tokens);
    var start := RunStart(s, i, tokens);
    assert LiteralText(s, i, tokens) == (if UnaryMinusAt(s, i, tokens) then "-" else "") + s[start..LiteralEnd(s, start)];
  }

  lemma IntendedEmits(s: string, i: nat, tokens: seq<Token>)
    requires i < |s| && (IsNumberChar(s[i]) || UnaryMinusAt(s, i, tokens))
    ensures var start := RunStart(s, i, tokens);
            var end := LiteralEnd(s, start);
            ScanNumber(s, i, tokens, Intended).Emit? <==> PointsIn(s, start, end) <= 1 && start < end && IsDigit(s[end - 1])
  {
    var start := RunStart(s, i, tokens);
    if PointsIn(s, start, LiteralEnd(s, start)) <= 1 {
      OnePointEmits(s, i, tokens);
    } else {
      assert ScanNumber(s, i, tokens, Intended) == Fail(MultipleDecimals);
    }
  }

  /** With at most one point in the run, the intended pattern alone decides: the
      run must end in a digit. */
  lemma OnePointEmits(s: string, i: nat, tokens: seq<Token>)
    requires i < |s| && (IsNumberChar(s[i]) || UnaryMinusAt(s, i, tokens))
    requires PointsIn(s, RunStart(s, i, tokens), LiteralEnd(s, RunStart(s, i, tokens))) <= 1
    ensures var start := RunStart(s, i, tokens);
            var end := LiteralEnd(s, start);
            ScanNumber(s, i, tokens, Intended).Emit? <==> start < end && IsDigit(s[end - 1])
  {
    var unary := UnaryMinusAt(s, i, tokens);
    var start := RunStart(s, i, tokens);
    var lit := (if unary then "-" else "") + s[start..LiteralEnd(s, start)];
    assert ScanNumber(s, i, tokens, Intended).Emit? <==> LiteralAccepted(lit, Intended);
    RunAccepted(s, start, unary, lit);
  }

  /** A run holding two points fails on the second one, whatever the pattern. */
  lemma SecondPointFails(s: string, i: nat, tokens: seq<Token>, rule: LiteralRule, a: nat, b: nat)
    requires i < |s| && (IsNumberChar(s[i]) || UnaryMinusAt(s, i, tokens))
    requires var start := if UnaryMinusAt(s, i, tokens) then i + 1 else i;
             start <= a < b < LiteralEnd(s, start) && s[a] == '.' && s[b] == '.'
    ensures ScanNumber(s, i, tokens, rule) == Fail(MultipleDecimals)
  {
    var start := if UnaryMinusAt(s, i, tokens) then i + 1 else i;
    PointsTwo(s, start, LiteralEnd(s, start), a, b);
  }

  /** A literal that is only a sign, only a point, or a sign and a point fails as
      malformed, whatever the pattern. */
  lemma BareLiteralFails(s: string, i: nat, tokens: seq<Token>, rule: LiteralRule)
    requires i < |s| && (IsNumberChar(s[i]) || UnaryMinusAt(s, i, tokens))
    requires LiteralText(s, i, tokens) in ["-", ".", "-."]
    ensures ScanNumber(s, i, tokens, rule) == Fail(MalformedNumber)
  {
    var unary := UnaryMinusAt(s, i, tokens);
    var start := if unary then i + 1 else i;
    var run := s[start..LiteralEnd(s, start)];
    var lit := LiteralText(s, i, tokens);
    assert lit == (if unary then "-" else "") + run;
    assert lit == "-" || lit == "." || lit == "-.";
    assert |run| <= 1 by {
      if !unary {
        assert lit == run && run[0] == s[i];
      }
    }
    assert PointsIn(s, start, LiteralEnd(s, start)) <= 1;
  }

  // ---------------------------------------------------------------------------
  // Worked steps

  /** The value of one digit. */
  function DigitValue(c: char): real
  {
    (c as int - '0' as int) as real
  }

  /** The literal made of one digit. */
  lemma DigitLiteral(c: char)
    requires IsDigit(c)
    ensures ParseDecimal([c]) == DigitValue(c) && LiteralAccepted([c], Intended)
  {
    var lit := [c];
    assert lit[..0] == [] && lit[1..] == [];
    assert DigitsValue(lit) == c as int - '0' as int;
    assert FractionDigits(lit) == 0;
    assert Pow10(0) == 1;
    assert DigitsIn(lit, 0, 1);
  }

  /** A one-digit literal: the intended check reads its digit, the check as
      written fails it. */
  lemma SingleDigitStep(s: string, i: nat, tokens: seq<Token>, rule: LiteralRule)
    requires i < |s| && IsDigit(s[i]) && (i + 1 == |s| || !IsNumberChar(s[i + 1]))
    ensures rule == Intended ==> StepAt(s, i, tokens, rule) == Emit(Number(DigitValue(s[i])), i + 1)
    ensures rule == AsWritten ==> StepAt(s, i, tokens, rule) == Fail(MalformedNumber)
  {
    assert !UnaryMinusAt(s, i, tokens);
    assert StepAt(s, i, tokens, rule) == ScanNumber(s, i, tokens, rule);
    assert LiteralEnd(s, i + 1) == i + 1;
    assert LiteralEnd(s, i) == i + 1;
    assert "" + s[i..i + 1] == [s[i]];
    assert PointsIn(s, i, i + 1) == 0;
    DigitLiteral(s[i]);
    if rule == AsWritten {
      AsWrittenRejectsEveryLiteral(s, i, tokens);
    }
  }

  /** A one-digit literal read by the scan with the intended check. */
  lemma ScanSingleDigit(s: string, i: nat, tokens: seq<Token>)
    requires i < |s| && IsDigit(s[i]) && (i + 1 == |s| || !IsNumberChar(s[i + 1]))
    ensures Scan(s, i, tokens, Intended) == Scan(s, i + 1, tokens + [Number(DigitValue(s[i]))], Intended)
  {
    SingleDigitStep(s, i, tokens, Intended);
  }

  /** An operator character after a number is an operator token, `-` included. */
  lemma ScanOperatorAfterNumber(s: string, i: nat, tokens: seq<Token>, rule: LiteralRule)
    requires i < |s| && IsOperatorChar(s[i]) && tokens != [] && tokens[|tokens| - 1].Number?
    ensures Scan(s, i, tokens, rule) == Scan(s, i + 1, tokens + [Operator(OperatorOf(s[i]).value)], rule)
  {
    assert !IsBlank(s[i]) && !IsNumberChar(s[i]) && !UnaryContext(tokens);
    assert !UnaryMinusAt(s, i, tokens);
  }
}
