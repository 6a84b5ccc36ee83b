/** `evaluateRPN` of app.js: reduces a postfix token list with a stack of values. */
module Postfix {
  import opened Results
  import opened Errors
  import opened Operators
  import opened Tokens
  import opened Trees
  import opened ShuntingYard
  import opened Chains

  /** What one token does to the value stack, which is kept top first.  A number is
      pushed.  Anything else pops the right operand and then the left one, and is
      malformed when either is missing; an operator then pushes its result, and a
      parenthesis, which the table has no entry for, fails. */
  function Reduce(t: Token, stack: seq<real>, pow: (real, real) -> real): (r: Result<seq<real>, Error>)
    ensures r.Ok? && t.Number? ==> r.value == [t.value] + stack
    ensures r.Ok? ==> t.Number? || t.Operator?
    ensures r.Ok? && t.Operator? ==> |stack| >= 2 && |r.value| + 1 == |stack| && r.value[1..] == stack[2..]
    ensures r.Ok? && t.Operator? ==> Apply(t.op, stack[1], stack[0], pow) == Ok(r.value[0])
    ensures r.Err? <==> !t.Number? && (|stack| < 2 || !t.Operator? || (t.op == Div && stack[0] == 0.0))
  {
    match t
    case Number(v) => Ok([v] + stack)
    case Operator(op) =>
      if |stack| < 2 then Err(MalformedExpression)
      else
        var right, left := stack[0], stack[1];
        (match Apply(op, left, right, pow)
         case Err(e) => Err(e)
         case Ok(x) => Ok([x] + stack[2..]))
    case _ =>
      if |stack| < 2 then Err(MalformedExpression) else Err(NotAnOperator)
  }

  /** The reduction of the tokens `rpn` still to read, from the value stack
      `stack`; at the end exactly one value must remain. */
  function ValueFrom(rpn: seq<Token>, stack: seq<real>, pow: (real, real) -> real): Result<real, Error>
    decreases |rpn|
  {
    if rpn == [] then
      if |stack| == 1 then Ok(stack[0]) else Err(MalformedExpression)
    else
      match Reduce(rpn[0], stack, pow)
      case Err(e) => Err(e)
      case Ok(next) => ValueFrom(rpn[1..], next, pow)
  }

  /** The value of a postfix token list, or the error its reduction meets. */
  function RpnValue(rpn: seq<Token>, pow: (real, real) -> real): Result<real, Error>
  {
    ValueFrom(rpn, [], pow)
  }

  // ---------------------------------------------------------------------------
  // The reduction as the source runs it

  method EvaluateRpn(rpn: seq<Token>, pow: (real, real) -> real) returns (r: Result<real, Error>)
    ensures r == RpnValue(rpn, pow)
  {
    var stack: seq<real> := [];
    for k := 0 to |rpn|
      invariant ValueFrom(rpn[k..], stack, pow) == RpnValue(rpn, pow)
    {
      var token := rpn[k];
      assert rpn[k..][0] == token && rpn[k..][1..] == rpn[k + 1..];
      if token.Number? {
        stack := [token.value] + stack;
        continue;
      }
      if |stack| < 2 {
        return Err(MalformedExpression);
      }
      var right, left := stack[0], stack[1];
      stack := stack[2..];
      if !token.Operator? {
        return Err(NotAnOperator);
      }
      var result := Apply(token.op, left, right, pow);
      if result.Err? {
        return Err(result.error);
      }
      stack := [result.value] + stack;
    }
    if |stack| != 1 {
      return Err(MalformedExpression);
    }
    r := Ok(stack[0]);
  }

  // ---------------------------------------------------------------------------
  // What the reduction guarantees

  /** Each number raises the stack by one and each operator lowers it by one, so a
      successful reduction reads only numbers and operators, and reads one number
      more than it reads operators, counting the values it starts with as
      numbers. */
  lemma {:induction false} ValueFromArity(rpn: seq<Token>, stack: seq<real>, pow: (real, real) -> real)
    ensures ValueFrom(rpn, stack, pow).Ok? ==>
      NoParens(rpn) && |stack| + 2 * |Numbers(rpn)| == |rpn| + 1
    decreases |rpn|
  {
    if rpn != [] && Reduce(rpn[0], stack, pow).Ok? {
      var next := Reduce(rpn[0], stack, pow).value;
      ValueFromArity(rpn[1..], next, pow);
      if ValueFrom(rpn, stack, pow).Ok? {
        assert NoParens(rpn) by {
          forall k | 0 <= k < |rpn| ensures !rpn[k].IsParen() {
            if k > 0 {
              assert rpn[k] == rpn[1..][k - 1];
            }
          }
        }
      }
    }
  }

  /** A postfix list that evaluates holds only numbers and operators, one number
      more than operators. */
  lemma RpnArity(rpn: seq<Token>, pow: (real, real) -> real)
    ensures RpnValue(rpn, pow).Ok? ==> NoParens(rpn) && 2 * |Numbers(rpn)| == |rpn| + 1
  {
    ValueFromArity(rpn, [], pow);
  }

  /** The reduction stops with "Division by zero is not allowed." only at a `/`. */
  lemma {:induction false} ValueFromDivision(rpn: seq<Token>, stack: seq<real>, pow: (real, real) -> real)
    ensures ValueFrom(rpn, stack, pow) == Err(DivisionByZero) ==> Operator(Div) in rpn
    decreases |rpn|
  {
    if rpn != [] {
      assert rpn == [rpn[0]] + rpn[1..];
      if Reduce(rpn[0], stack, pow).Ok? {
        ValueFromDivision(rpn[1..], Reduce(rpn[0], stack, pow).value, pow);
      }
    }
  }

  /** The only errors a reduction can meet: a missing operand or a stack of other
      than one value at the end, a division by zero, or a parenthesis. */
  lemma {:induction false} ValueFromErrors(rpn: seq<Token>, stack: seq<real>, pow: (real, real) -> real)
    ensures ValueFrom(rpn, stack, pow).Err? ==>
      ValueFrom(rpn, stack, pow).error in {MalformedExpression, DivisionByZero, NotAnOperator}
    decreases |rpn|
  {
    if rpn != [] && Reduce(rpn[0], stack, pow).Ok? {
      ValueFromErrors(rpn[1..], Reduce(rpn[0], stack, pow).value, pow);
    }
  }

  /** Reading one token off the front of the postfix list. */
  lemma ValueFromCons(t: Token, rest: seq<Token>, stack: seq<real>, pow: (real, real) -> real)
    ensures ValueFrom([t] + rest, stack, pow)
         == if Reduce(t, stack, pow).Err? then Err(Reduce(t, stack, pow).error) else ValueFrom(rest, Reduce(t, stack, pow).value, pow)
  {
    assert ([t] + rest)[0] == t && ([t] + rest)[1..] == rest;
  }

  /** The postfix form of a tree, read on top of any stack, pushes the tree's value,
      or meets the error its evaluation meets. */
  lemma {:induction false} ValueFromPostfix(e: Expr, rest: seq<Token>, stack: seq<real>, pow: (real, real) -> real)
    ensures ValueFrom(PostfixOf(e) + rest, stack, pow)
         == if Eval(e, pow).Err? then Err(Eval(e, pow).error) else ValueFrom(rest, [Eval(e, pow).value] + stack, pow)
    decreases e
  {
    match e
    case Num(v) =>
      ValueFromCons(Number(v), rest, stack, pow);
    case Bin(op, l, r) =>
      var afterL := PostfixOf(r) + ([Operator(op)] + rest);
      assert PostfixOf(e) + rest == PostfixOf(l) + afterL;
      ValueFromPostfix(l, afterL, stack, pow);
      if Eval(l, pow).Ok? {
        var a := Eval(l, pow).value;
        ValueFromPostfix(r, [Operator(op)] + rest, [a] + stack, pow);
        if Eval(r, pow).Ok? {
          var b := Eval(r, pow).value;
          var top := [b] + ([a] + stack);
          assert top[0] == b && top[1] == a && top[2..] == stack;
          ValueFromCons(Operator(op), rest, top, pow);
        }
      }
  }

  /** The postfix form of a tree evaluates to the value of the tree. */
  lemma PostfixValue(e: Expr, pow: (real, real) -> real)
    ensures RpnValue(PostfixOf(e), pow) == Eval(e, pow)
  {
    ValueFromPostfix(e, [], [], pow);
    assert PostfixOf(e) + [] == PostfixOf(e);
  }

  /** Converting a fully parenthesised expression and reducing the result gives the
      value of its tree. */
  lemma InfixValue(e: Expr, pow: (real, real) -> real)
    ensures Rpn(InfixOf(e)).Ok? && RpnValue(Rpn(InfixOf(e)).value, pow) == Eval(e, pow)
  {
    RpnOfInfix(e);
    PostfixValue(e, pow);
  }

  /** Converting and reducing any chain without parentheses gives the value of the
      tree that ordinary grouping by precedence and associativity gives it. */
  lemma ChainValue(first: real, links: seq<Link>, pow: (real, real) -> real)
    ensures Rpn(ChainTokens(first, links)).Ok?
    ensures RpnValue(Rpn(ChainTokens(first, links)).value, pow) == Eval(Grouped(first, links), pow)
  {
    ChainRpn(first, links);
    PostfixValue(Grouped(first, links), pow);
  }
}
