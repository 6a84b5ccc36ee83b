/** `appendToExpression` of app.js: the rule the keypad and the keyboard go
    through to add one token to the expression being typed. */
module Editor {
  import opened Operators
  import opened Tokenizer
  import opened Text

  /** Why a token is refused; each is one of the page's toasts. */
  datatype Refusal =
    | OperatorPlacement     // "Place an operator after a number or closing parenthesis."
    | UnbalancedParenthesis // "Unbalanced parenthesis."
    | OperatorBeforeGroup   // "Insert an operator before opening a group."
    | OneDecimal            // "Only one decimal per number."

  /** What appending a token does: it is refused and the input keeps its value,
      or the input takes a new value. */
  datatype Edit = Reject(reason: Refusal) | NewValue(value: string)

  /** `s.split(/[^\d.]/).pop()`: the digits and points after the last character
      that is neither. */
  function LastRun(s: string): string
    decreases |s|
  {
    if s != [] && IsNumberChar(s[|s| - 1]) then LastRun(s[..|s| - 1]) + [s[|s| - 1]] else []
  }

  /** The text's last character is an operator. */
  predicate EndsWithOperator(t: string)
  {
    t != [] && IsOperatorChar(t[|t| - 1])
  }

  /** The text's last character is `(`. */
  predicate EndsWithOpen(t: string)
  {
    t != [] && t[|t| - 1] == '('
  }

  /** The guards of `appendToExpression`, in the order it runs them, on the input
      without its trailing white space. */
  function AppendToExpression(current: string, token: char): Edit
  {
    var trimmed := TrimEnd(current);
    if IsOperatorChar(token) && (trimmed == [] || EndsWithOperator(trimmed) || EndsWithOpen(trimmed)) then
      Reject(OperatorPlacement)
    else if token == ')'
         && (multiset(trimmed)['('] <= multiset(trimmed)[')'] || EndsWithOperator(trimmed) || EndsWithOpen(trimmed) || trimmed == [])
    then
      Reject(UnbalancedParenthesis)
    else if token == '(' && trimmed != [] && !EndsWithOperator(trimmed) && !EndsWithOpen(trimmed) then
      Reject(OperatorBeforeGroup)
    else if token == '.' && '.' in LastRun(trimmed) then
      Reject(OneDecimal)
    else if token == '.' && LastRun(trimmed) == [] then
      NewValue(trimmed + ['0', '.'])
    else
      NewValue(current + [token])
  }

  // ---------------------------------------------------------------------------
  // The rules, one kind of token at a time

  /** An operator is refused exactly after nothing, after an operator or after
      `(`; otherwise it is appended. */
  lemma OperatorRule(current: string, token: char)
    requires IsOperatorChar(token)
    ensures var trimmed := TrimEnd(current);
            (AppendToExpression(current, token)
             == if trimmed == [] || EndsWithOperator(trimmed) || EndsWithOpen(trimmed) then Reject(OperatorPlacement)
                else NewValue(current + [token]))
  {
  }

  /** `)` is appended exactly when it has an open group to close and follows
      neither an operator nor `(`. */
  lemma CloseRule(current: string)
    ensures var trimmed := TrimEnd(current);
            (AppendToExpression(current, ')')
             == if multiset(trimmed)['('] > multiset(trimmed)[')'] && !EndsWithOperator(trimmed) && !EndsWithOpen(trimmed)
                then NewValue(current + [')'])
                else Reject(UnbalancedParenthesis))
  {
  }

  /** `(` is appended at the start, after an operator or after `(`, and refused
      anywhere else. */
  lemma OpenRule(current: string)
    ensures var trimmed := TrimEnd(current);
            (AppendToExpression(current, '(')
             == if trimmed == [] || EndsWithOperator(trimmed) || EndsWithOpen(trimmed) then NewValue(current + ['('])
                else Reject(OperatorBeforeGroup))
  {
  }

  /** `.` is refused inside a number that has one, starts a new number as `0.`
      when no number is being typed, and is appended otherwise. */
  lemma PointRule(current: string)
    ensures '.' in LastRun(TrimEnd(current)) ==> AppendToExpression(current, '.') == Reject(OneDecimal)
    ensures LastRun(TrimEnd(current)) == [] ==> AppendToExpression(current, '.') == NewValue(TrimEnd(current) + ['0', '.'])
    ensures '.' !in LastRun(TrimEnd(current)) && LastRun(TrimEnd(current)) != [] ==>
      AppendToExpression(current, '.') == NewValue(current + ['.'])
  {
    var run := LastRun(TrimEnd(current));
    if '.' in run {
    } else if run == [] {
    } else {
    }
  }

  /** Any other token, a digit among them, is appended as it is. */
  lemma OtherRule(current: string, token: char)
    requires !IsOperatorChar(token) && token != '(' && token != ')' && token != '.'
    ensures AppendToExpression(current, token) == NewValue(current + [token])
  {
  }

  // ---------------------------------------------------------------------------
  // What the rule keeps true of the text it builds

  /** No prefix of the text closes more groups than it opens. */
  predicate PrefixesBalanced(s: string)
  {
    forall k :: 0 <= k <= |s| ==> multiset(s[..k])[')'] <= multiset(s[..k])['(']
  }

  /** No number being typed anywhere in the text holds two points: every prefix
      ends in a run of digits and points with at most one point. */
  predicate OneDecimalPerNumber(s: string)
  {
    forall k :: 0 <= k <= |s| ==> multiset(LastRun(s[..k]))['.'] <= 1
  }

  /** Appending one character to a text extends its last run or ends it. */
  lemma LastRunAppend(s: string, c: char)
    ensures LastRun(s + [c]) == if IsNumberChar(c) then LastRun(s) + [c] else []
  {
    assert (s + [c])[..|s + [c]| - 1] == s;
  }

  /** The trailing white space trimmed off holds no parenthesis, so the input and
      its trimmed form have the same counts of `(` and `)`. */
  lemma TrimEndCounts(current: string)
    ensures multiset(TrimEnd(current))['('] == multiset(current)['(']
    ensures multiset(TrimEnd(current))[')'] == multiset(current)[')']
  {
    var trimmed := TrimEnd(current);
    var rest := current[|trimmed|..];
    assert current == trimmed + rest;
    assert '(' !in rest && ')' !in rest by {
      assert AllTrimmable(rest);
    }
  }

  /** What an accepted token makes of the input: the token is appended, or a
      point starts a new number as `0.` after the trimmed input.  A `)` got in
      only with an open group to close, and a point only outside a number with
      a point. */
  lemma AppendShape(current: string, token: char)
    ensures var r, trimmed := AppendToExpression(current, token), TrimEnd(current);
            r.NewValue? ==>
              || r.value == current + [token]
              || (token == '.' && LastRun(trimmed) == [] && r.value == trimmed + ['0', '.'])
    ensures var r, trimmed := AppendToExpression(current, token), TrimEnd(current);
            r.NewValue? && token == ')' ==> multiset(trimmed)['('] > multiset(trimmed)[')']
    ensures AppendToExpression(current, token).NewValue? && token == '.' ==> '.' !in LastRun(TrimEnd(current))
  {
  }

  /** Appending a character keeps every prefix balanced, given that a `)` has an
      open group to close. */
  lemma BalanceAppend(current: string, token: char)
    requires PrefixesBalanced(current)
    requires token == ')' ==> multiset(TrimEnd(current))['('] > multiset(TrimEnd(current))[')']
    ensures PrefixesBalanced(current + [token])
  {
    var v := current + [token];
    forall k | 0 <= k <= |v| ensures multiset(v[..k])[')'] <= multiset(v[..k])['('] {
      if k <= |current| {
        assert v[..k] == current[..k];
      } else {
        assert v[..k] == current + [token];
        assert current[..|current|] == current;
        if token == ')' {
          TrimEndCounts(current);
        }
      }
    }
  }

  /** Starting a new number after a prefix of the text keeps every prefix
      balanced. */
  lemma BalanceRestart(current: string, t: string)
    requires PrefixesBalanced(current)
    requires |t| <= |current| && t == current[..|t|]
    ensures PrefixesBalanced(t + ['0', '.'])
  {
    var v := t + ['0', '.'];
    forall k | 0 <= k <= |v| ensures multiset(v[..k])[')'] <= multiset(v[..k])['('] {
      if k <= |t| {
        assert v[..k] == current[..k];
      } else {
        assert v[..k] == t + v[|t|..k];
        assert multiset(v[|t|..k])[')'] == 0 && multiset(v[|t|..k])['('] == 0;
      }
    }
  }

  /** Appending through the rule never makes a prefix close more groups than it
      opens. */
  lemma AppendKeepsBalance(current: string, token: char)
    requires PrefixesBalanced(current)
    ensures AppendToExpression(current, token).NewValue? ==> PrefixesBalanced(AppendToExpression(current, token).value)
  {
    AppendShape(current, token);
    var r := AppendToExpression(current, token);
    if r.NewValue? {
      if r.value == current + [token] {
        BalanceAppend(current, token);
      } else {
        BalanceRestart(current, TrimEnd(current));
      }
    }
  }

  /** A point after a trimmed input whose last run has no point lands in a run
      without a point. */
  lemma PointOutsideNumber(current: string)
    requires '.' !in LastRun(TrimEnd(current))
    ensures '.' !in LastRun(current)
  {
    var trimmed := TrimEnd(current);
    if trimmed != current {
      assert |trimmed| < |current|;
      assert current[|trimmed|..][|current| - 1 - |trimmed|] == current[|current| - 1];
      assert IsTrimmable(current[|current| - 1]);
      assert LastRun(current) == [];
    }
  }

  /** Appending a character keeps one point per number, given that a point lands
      outside a number with one. */
  lemma OneDecimalAppend(current: string, token: char)
    requires OneDecimalPerNumber(current)
    requires token == '.' ==> '.' !in LastRun(TrimEnd(current))
    ensures OneDecimalPerNumber(current + [token])
  {
    var v := current + [token];
    forall k | 0 <= k <= |v| ensures multiset(LastRun(v[..k]))['.'] <= 1 {
      if k <= |current| {
        assert v[..k] == current[..k];
      } else {
        assert v[..k] == current + [token];
        assert current[..|current|] == current;
        LastRunAppend(current, token);
        if token == '.' {
          PointOutsideNumber(current);
        }
      }
    }
  }

  /** A digit after a text that ends no number starts a run of its own. */
  lemma RunStart(t: string, d: char)
    requires LastRun(t) == [] && IsDigit(d)
    ensures LastRun(t + [d]) == [d]
  {
    assert (t + [d])[..|t|] == t;
  }

  /** The runs `0.` leaves behind it after a text that ends no number. */
  lemma RunRestart(t: string)
    requires LastRun(t) == []
    ensures LastRun(t + ['0']) == ['0'] && LastRun(t + ['0', '.']) == ['0', '.']
  {
    RunStart(t, '0');
    var t0 := t + ['0'];
    assert (t0 + ['.'])[..|t0|] == t0;
    assert t0 + ['.'] == t + ['0', '.'];
  }

  /** Starting a new number as `0.` after a prefix of the text that ends no
      number keeps one point per number. */
  lemma OneDecimalRestart(current: string, t: string)
    requires OneDecimalPerNumber(current)
    requires |t| <= |current| && t == current[..|t|] && LastRun(t) == []
    ensures OneDecimalPerNumber(t + ['0', '.'])
  {
    var v := t + ['0', '.'];
    forall k | 0 <= k <= |v| ensures multiset(LastRun(v[..k]))['.'] <= 1 {
      if k <= |t| {
        assert v[..k] == current[..k];
      } else {
        RestartPrefix(t, k);
      }
    }
  }

  /** After a text that ends no number, `0` leaves a run without a point. */
  lemma RestartDigit(t: string)
    requires LastRun(t) == []
    ensures multiset(LastRun(t + ['0']))['.'] == 0
  {
    RunStart(t, '0');
    assert multiset(['0'])['.'] == 0;
  }

  /** After a text that ends no number, `0.` leaves a run with one point. */
  lemma RestartPoint(t: string)
    requires LastRun(t) == []
    ensures multiset(LastRun(t + ['0', '.']))['.'] == 1
  {
    RunRestart(t);
    assert multiset(['0', '.'])['.'] == 1;
  }

  /** The prefixes of `t0.` that end inside `0.` end in a run with at most one
      point. */
  lemma RestartPrefix(t: string, k: nat)
    requires LastRun(t) == [] && |t| < k <= |t| + 2
    ensures multiset(LastRun((t + ['0', '.'])[..k]))['.'] <= 1
  {
    var v := t + ['0', '.'];
    if k == |t| + 1 {
      assert v[..k] == t + ['0'];
      RestartDigit(t);
    } else {
      assert v[..k] == v;
      RestartPoint(t);
    }
  }

  /** Appending through the rule never puts a second point into a number. */
  lemma AppendKeepsOneDecimal(current: string, token: char)
    requires OneDecimalPerNumber(current)
    ensures AppendToExpression(current, token).NewValue? ==> OneDecimalPerNumber(AppendToExpression(current, token).value)
  {
    AppendShape(current, token);
    var r := AppendToExpression(current, token);
    if r.NewValue? {
      if r.value == current + [token] {
        OneDecimalAppend(current, token);
      } else {
        OneDecimalRestart(current, TrimEnd(current));
      }
    }
  }
}
