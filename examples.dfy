/** Worked readings of whole inputs: one-digit numbers joined by operators,
    followed through the tokenizer, the converter and the reduction. */
module Examples {
  import opened Results
  import opened Errors
  import opened Operators
  import opened Tokens
  import opened Tokenizer
  import opened Trees
  import opened Chains
  import opened ShuntingYard
  import opened Postfix
  import opened Text
  import opened Expression

  /** A one-digit number and the operator after it. */
  lemma DigitThenOperator(s: string, i: nat, tokens: seq<Token>)
    requires i + 1 < |s| && IsDigit(s[i]) && IsOperatorChar(s[i + 1])
    ensures Scan(s, i, tokens, Intended)
         == Scan(s, i + 2, tokens + [Number(DigitValue(s[i])), Operator(OperatorOf(s[i + 1]).value)], Intended)
  {
    var n, p := Number(DigitValue(s[i])), Operator(OperatorOf(s[i + 1]).value);
    ScanSingleDigit(s, i, tokens);
    ScanOperatorAfterNumber(s, i + 1, tokens + [n], Intended);
    assert tokens + [n] + [p] == tokens + [n, p];
  }

  /** With the check as written, a text that starts with a one-digit literal fails
      on it. */
  lemma LeadingDigitAsWritten(s: string)
    requires |s| >= 1 && IsDigit(s[0]) && (|s| == 1 || !IsNumberChar(s[1]))
    ensures Tokenization(s, AsWritten) == Err(MalformedNumber)
  {
    SingleDigitStep(s, 0, [], AsWritten);
  }

  /** An input that trims to itself, holds no parenthesis and reads as tokens that
      end finished is evaluated by converting and reducing those tokens. */
  lemma ParenFreeEvaluation(s: string, tokens: seq<Token>, rule: LiteralRule, pow: (real, real) -> real)
    requires s != [] && Trim(s) == s && '(' !in s && ')' !in s
    requires Tokenization(s, rule) == Ok(tokens) && !Unfinished(tokens) && Rpn(tokens).Ok?
    ensures Evaluation(s, rule, pow) == RpnValue(Rpn(tokens).value, pow)
  {
  }

  /** An input that trims to itself and does not tokenize fails with the scan's
      error. */
  lemma TokenizationErrorEvaluation(s: string, rule: LiteralRule, e: Error, pow: (real, real) -> real)
    requires s != [] && Trim(s) == s && Tokenization(s, rule) == Err(e)
    ensures Evaluation(s, rule, pow) == Err(e)
  {
  }

  /** With the check as written, an input that starts with a one-digit literal
      and ends in a digit fails on that literal. */
  lemma LeadingDigitEvaluationAsWritten(s: string, pow: (real, real) -> real)
    requires |s| >= 1 && IsDigit(s[0]) && IsDigit(s[|s| - 1]) && (|s| == 1 || !IsNumberChar(s[1]))
    ensures Evaluation(s, AsWritten, pow) == Err(MalformedNumber)
  {
    TrimUntrimmedEdges(s);
    LeadingDigitAsWritten(s);
    TokenizationErrorEvaluation(s, AsWritten, MalformedNumber, pow);
  }

  /** From position `i` on, the text is a one-digit number, then either its end or
      an operator and a digit chain again. */
  predicate DigitChainFrom(s: string, i: nat)
    decreases |s| - i
  {
    && i < |s| && IsDigit(s[i])
    && (i + 1 == |s| || (i + 2 < |s| && IsOperatorChar(s[i + 1]) && DigitChainFrom(s, i + 2)))
  }

  /** A text of one-digit numbers joined by operators. */
  predicate DigitChain(s: string)
  {
    DigitChainFrom(s, 0)
  }

  /** The operators and operands of a digit chain after the digit at `i`. */
  function DigitLinks(s: string, i: nat): seq<Link>
    requires DigitChainFrom(s, i)
    decreases |s| - i
  {
    if i + 1 == |s| then [] else [Link(OperatorOf(s[i + 1]).value, DigitValue(s[i + 2]))] + DigitLinks(s, i + 2)
  }

  /** A digit chain ends in a digit and holds no parenthesis. */
  lemma {:induction false} DigitChainChars(s: string, i: nat)
    requires DigitChainFrom(s, i)
    ensures IsDigit(s[|s| - 1])
    ensures forall k :: i <= k < |s| ==> s[k] != '(' && s[k] != ')'
    decreases |s| - i
  {
    if i + 1 < |s| {
      DigitChainChars(s, i + 2);
      assert IsOperatorChar(s[i + 1]);
    }
  }

  /** Scanning a digit chain from the digit at `i` emits the chain's tokens. */
  lemma {:induction false} ScanDigitChain(s: string, i: nat, tokens: seq<Token>)
    requires DigitChainFrom(s, i)
    ensures Scan(s, i, tokens, Intended) == Ok(tokens + ChainTokens(DigitValue(s[i]), DigitLinks(s, i)))
    decreases |s| - i
  {
    var n := Number(DigitValue(s[i]));
    if i + 1 == |s| {
      ScanSingleDigit(s, i, tokens);
      assert ChainTokens(DigitValue(s[i]), []) == [n];
    } else {
      var p := Operator(OperatorOf(s[i + 1]).value);
      var rest := DigitLinks(s, i + 2);
      var l := Link(OperatorOf(s[i + 1]).value, DigitValue(s[i + 2]));
      assert DigitLinks(s, i) == [l] + rest;
      var after := ChainTokens(DigitValue(s[i + 2]), rest);
      calc {
        Scan(s, i, tokens, Intended);
        { DigitThenOperator(s, i, tokens); }
        Scan(s, i + 2, tokens + [n, p], Intended);
        { ScanDigitChain(s, i + 2, tokens + [n, p]); }
        Ok(tokens + [n, p] + after);
        { ChainTokensCons(DigitValue(s[i]), l, rest);
          assert tokens + [n, p] + after == tokens + ([n, p] + after); }
        Ok(tokens + ChainTokens(DigitValue(s[i]), [l] + rest));
      }
    }
  }

  /** A digit chain reads as the tokens of its chain. */
  lemma DigitChainTokens(s: string)
    requires DigitChain(s)
    ensures Tokenization(s, Intended) == Ok(ChainTokens(DigitValue(s[0]), DigitLinks(s, 0)))
  {
    ScanDigitChain(s, 0, []);
    assert [] + ChainTokens(DigitValue(s[0]), DigitLinks(s, 0)) == ChainTokens(DigitValue(s[0]), DigitLinks(s, 0));
  }

  /** The page evaluates any text of one-digit numbers joined by operators, of any
      length, to the value of the tree that ordinary grouping by precedence and
      associativity gives it. */
  lemma DigitChainExpression(s: string, pow: (real, real) -> real)
    requires DigitChain(s)
    ensures Evaluate(s, pow) == Eval(Grouped(DigitValue(s[0]), DigitLinks(s, 0)), pow)
  {
    var links := DigitLinks(s, 0);
    var tokens := ChainTokens(DigitValue(s[0]), links);
    assert Trim(s) == s by {
      DigitChainChars(s, 0);
      TrimUntrimmedEdges(s);
    }
    assert '(' !in s && ')' !in s by {
      DigitChainChars(s, 0);
    }
    assert !Unfinished(tokens) by {
      if links != [] {
        LastLinkToken(links);
      }
    }
    DigitChainTokens(s);
    ChainValue(DigitValue(s[0]), links, pow);
    calc {
      Evaluate(s, pow);
      Evaluation(s, Intended, pow);
      { ParenFreeEvaluation(s, tokens, Intended, pow); }
      RpnValue(Rpn(tokens).value, pow);
      Eval(Grouped(DigitValue(s[0]), links), pow);
    }
  }

  /** The tokens of links end in an operand. */
  lemma {:induction false} LastLinkToken(links: seq<Link>)
    requires links != []
    ensures LinkTokens(links) != [] && LinkTokens(links)[|LinkTokens(links)| - 1].Number?
  {
    if links[1..] != [] {
      LastLinkToken(links[1..]);
    }
  }

  /** With the literal check as app.js writes it, every such chain fails on its
      first number. */
  lemma DigitChainAsWritten(s: string, pow: (real, real) -> real)
    requires DigitChain(s)
    ensures Evaluation(s, AsWritten, pow) == Err(MalformedNumber)
  {
    DigitChainChars(s, 0);
    assert |s| == 1 || IsOperatorChar(s[1]);
    LeadingDigitEvaluationAsWritten(s, pow);
  }

  /** The links of a chain of three digits. */
  lemma ThreeDigitLinks(s: string)
    requires |s| == 5 && DigitChain(s)
    ensures IsOperatorChar(s[1]) && IsOperatorChar(s[3])
    ensures DigitLinks(s, 0) == [Link(OperatorOf(s[1]).value, DigitValue(s[2])), Link(OperatorOf(s[3]).value, DigitValue(s[4]))]
  {
    assert DigitChainFrom(s, 2) && DigitChainFrom(s, 4);
    assert DigitLinks(s, 4) == [];
  }

  /** The page evaluates a chain of three digits by the reference grouping of
      its two operators. */
  lemma ThreeDigitExpression(x: char, p: char, y: char, q: char, z: char, o1: Op, o2: Op, pow: (real, real) -> real)
    requires IsDigit(x) && IsDigit(y) && IsDigit(z)
    requires OperatorOf(p) == Some(o1) && OperatorOf(q) == Some(o2)
    ensures Evaluate([x, p, y, q, z], pow)
            == Eval(Grouped(DigitValue(x), [Link(o1, DigitValue(y)), Link(o2, DigitValue(z))]), pow)
  {
    var s := [x, p, y, q, z];
    assert DigitChainFrom(s, 4);
    assert DigitChainFrom(s, 2);
    assert DigitChain(s);
    DigitChainExpression(s, pow);
    ThreeDigitLinks(s);
  }

  /** `8-4-2` is `(8-4)-2`: subtraction groups to the left. */
  lemma SubtractionGroupsLeft(pow: (real, real) -> real)
    ensures Evaluate("8-4-2", pow) == Ok(2.0)
  {
    assert "8-4-2" == ['8', '-', '4', '-', '2'];
    ThreeDigitExpression('8', '-', '4', '-', '2', Sub, Sub, pow);
    assert DigitValue('8') == 8.0 && DigitValue('4') == 4.0 && DigitValue('2') == 2.0;
    GroupedTwo(8.0, Sub, 4.0, Sub, 2.0);
    assert Eval(Bin(Sub, Bin(Sub, Num(8.0), Num(4.0)), Num(2.0)), pow) == Ok(2.0);
  }

  /** `2^3^2` is `2^(3^2)`: exponentiation groups to the right. */
  lemma PowerGroupsRight(pow: (real, real) -> real)
    ensures Evaluate("2^3^2", pow) == Ok(pow(2.0, pow(3.0, 2.0)))
  {
    assert "2^3^2" == ['2', '^', '3', '^', '2'];
    ThreeDigitExpression('2', '^', '3', '^', '2', Pow, Pow, pow);
    assert DigitValue('2') == 2.0 && DigitValue('3') == 3.0;
    GroupedTwo(2.0, Pow, 3.0, Pow, 2.0);
    PowerTower(2.0, 3.0, 2.0, pow);
  }

  /** The value of `a^(b^c)` as a tree. */
  lemma PowerTower(a: real, b: real, c: real, pow: (real, real) -> real)
    ensures Eval(Bin(Pow, Num(a), Bin(Pow, Num(b), Num(c))), pow) == Ok(pow(a, pow(b, c)))
  {
    assert Eval(Bin(Pow, Num(b), Num(c)), pow) == Ok(pow(b, c));
  }

  /** `2+3*4` is `2+(3*4)`: multiplication binds tighter than addition. */
  lemma ProductBindsTighter(pow: (real, real) -> real)
    ensures Evaluate("2+3*4", pow) == Ok(14.0)
  {
    assert "2+3*4" == ['2', '+', '3', '*', '4'];
    ThreeDigitExpression('2', '+', '3', '*', '4', Add, Mul, pow);
    assert DigitValue('2') == 2.0 && DigitValue('3') == 3.0 && DigitValue('4') == 4.0;
    GroupedTwo(2.0, Add, 3.0, Mul, 4.0);
    assert Eval(Bin(Add, Num(2.0), Bin(Mul, Num(3.0), Num(4.0))), pow) == Ok(14.0);
  }

  /** With the literal check as written, `8-4-2` fails on `8`. */
  lemma SubtractionAsWritten(pow: (real, real) -> real)
    ensures Evaluation("8-4-2", AsWritten, pow) == Err(MalformedNumber)
  {
    assert DigitChain("8-4-2");
    DigitChainAsWritten("8-4-2", pow);
  }
}
