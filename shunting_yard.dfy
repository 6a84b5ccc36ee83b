/** `toRPN` of app.js: Dijkstra's shunting-yard conversion of the token list to
    postfix, with an output list and a stack of operators and `(`. */
module ShuntingYard {
  import opened Results
  import opened Errors
  import opened Operators
  import opened Tokens
  import opened Trees
  import opened Chains

  /** The converter's output array and its stack.  The stack is kept top first:
      `push(x)` is `[x] + stack` and `pop()` takes `stack[0]`. */
  datatype State = State(output: seq<Token>, stack: seq<Token>)

  /** An incoming operator `op` pops the operator on top of the stack when that one
      binds tighter, or binds as tight and `op` is left-associative. */
  predicate ShouldPop(top: Token, op: Op)
  {
    && top.Operator?
    && (|| Precedence(top.op) > Precedence(op)
        || (Precedence(top.op) == Precedence(op) && Spec(op).associativity == Left))
  }

  /** Every entry of `s` pops for an incoming `op`. */
  predicate AllShouldPop(s: seq<Token>, op: Op)
  {
    forall k :: 0 <= k < |s| ==> ShouldPop(s[k], op)
  }

  /** The pop loop of an incoming operator: moves stack-top operators to the
      output while they should pop. */
  function PopOperators(op: Op, st: State): (r: State)
    ensures |r.stack| <= |st.stack|
    decreases |st.stack|
  {
    if st.stack != [] && ShouldPop(st.stack[0], op) then
      PopOperators(op, State(st.output + [st.stack[0]], st.stack[1..]))
    else
      st
  }

  /** The pop loop of `)`: moves entries to the output down to the nearest `(`,
      which it drops; without one the conversion fails. */
  function PopToOpen(st: State): (r: Result<State, Error>)
    ensures r.Ok? <==> Open in st.stack
    ensures r.Err? ==> r.error == MismatchedParentheses
    ensures r.Ok? ==> |r.value.stack| < |st.stack|
    decreases |st.stack|
  {
    if st.stack == [] then Err(MismatchedParentheses)
    else if st.stack[0] == Open then Ok(State(st.output, st.stack[1..]))
    else
      assert st.stack == [st.stack[0]] + st.stack[1..];
      PopToOpen(State(st.output + [st.stack[0]], st.stack[1..]))
  }

  /** The final loop: moves what is left on the stack to the output, and fails on
      a parenthesis. */
  function Drain(st: State): (r: Result<seq<Token>, Error>)
    ensures r.Ok? <==> NoParens(st.stack)
    ensures r.Err? ==> r.error == MismatchedParentheses
    ensures r.Ok? ==> r.value == st.output + st.stack
    decreases |st.stack|
  {
    if st.stack == [] then Ok(st.output)
    else if st.stack[0].IsParen() then Err(MismatchedParentheses)
    else
      assert st.stack == [st.stack[0]] + st.stack[1..];
      Drain(State(st.output + [st.stack[0]], st.stack[1..]))
  }

  /** What one input token does to the state. */
  function Shift(t: Token, st: State): (r: Result<State, Error>)
    ensures r.Err? <==> t == Close && Open !in st.stack
  {
    match t
    case Number(_) => Ok(State(st.output + [t], st.stack))
    case Operator(op) =>
      var p := PopOperators(op, st);
      Ok(State(p.output, [t] + p.stack))
    case Open => Ok(State(st.output, [Open] + st.stack))
    case Close => PopToOpen(st)
  }

  /** The conversion of the tokens `ts` still to read, from state `st`. */
  function RpnFrom(ts: seq<Token>, st: State): Result<seq<Token>, Error>
    decreases |ts|
  {
    if ts == [] then Drain(st)
    else
      match Shift(ts[0], st)
      case Err(e) => Err(e)
      case Ok(next) => RpnFrom(ts[1..], next)
  }

  /** The postfix form of a token list, or the error the conversion meets. */
  function Rpn(ts: seq<Token>): Result<seq<Token>, Error>
  {
    RpnFrom(ts, State([], []))
  }

  // ---------------------------------------------------------------------------
  // The conversion as the source runs it

  method ToRpn(tokens: seq<Token>) returns (r: Result<seq<Token>, Error>)
    ensures r == Rpn(tokens)
  {
    var output: seq<Token> := [];
    var stack: seq<Token> := [];
    for k := 0 to |tokens|
      invariant RpnFrom(tokens[k..], State(output, stack)) == Rpn(tokens)
    {
      var token := tokens[k];
      assert tokens[k..][0] == token && tokens[k..][1..] == tokens[k + 1..];
      if token.Number? {
        output := output + [token];
        continue;
      }
      if token.Operator? {
        ghost var before := State(output, stack);
        while stack != []
          invariant PopOperators(token.op, State(output, stack)) == PopOperators(token.op, before)
          decreases |stack|
        {
          var top := stack[0];
          if !top.Operator? {
            break;
          }
          var shouldPop := || Precedence(top.op) > Precedence(token.op)
                           || (Precedence(top.op) == Precedence(token.op) && Spec(token.op).associativity == Left);
          if !shouldPop {
            break;
          }
          output, stack := output + [top], stack[1..];
        }
        stack := [token] + stack;
        continue;
      }
      if token == Open {
        stack := [token] + stack;
        continue;
      }
      var foundOpening := false;
      ghost var before := State(output, stack);
      while stack != []
        invariant PopToOpen(State(output, stack)) == PopToOpen(before)
        decreases |stack|
      {
        var top := stack[0];
        stack := stack[1..];
        if top == Open {
          foundOpening := true;
          break;
        }
        output := output + [top];
      }
      if !foundOpening {
        return Err(MismatchedParentheses);
      }
      assert PopToOpen(before) == Ok(State(output, stack));
    }
    ghost var last := State(output, stack);
    while stack != []
      invariant Drain(State(output, stack)) == Drain(last)
      decreases |stack|
    {
      var top := stack[0];
      stack := stack[1..];
      if top.IsParen() {
        return Err(MismatchedParentheses);
      }
      output := output + [top];
    }
    r := Ok(output);
  }

  // ---------------------------------------------------------------------------
  // What the pop loops do

  /** How many entries on top of `stack` pop for an incoming `op`. */
  function PopCount(op: Op, stack: seq<Token>): (n: nat)
    ensures n <= |stack|
  {
    if stack != [] && ShouldPop(stack[0], op) then 1 + PopCount(op, stack[1..]) else 0
  }

  /** The entries counted pop, and the next one, if any, does not. */
  lemma {:induction false} PopCountStops(op: Op, stack: seq<Token>)
    ensures var n := PopCount(op, stack);
            AllShouldPop(stack[..n], op) && (n == |stack| || !ShouldPop(stack[n], op))
  {
    if stack != [] && ShouldPop(stack[0], op) {
      PopCountStops(op, stack[1..]);
      var n := PopCount(op, stack);
      forall k | 0 <= k < n ensures ShouldPop(stack[..n][k], op) {
        if k > 0 {
          assert stack[..n][k] == stack[1..][..n - 1][k - 1];
        }
      }
      assert n == |stack| || stack[n] == stack[1..][n - 1];
    }
  }

  /** An incoming operator pops the top `PopCount` entries onto the output, in stack
      order: every popped entry should pop, and the new top, if any, should not. */
  lemma PopOperatorsSplit(op: Op, st: State)
    ensures var n := PopCount(op, st.stack);
            && PopOperators(op, st) == State(st.output + st.stack[..n], st.stack[n..])
            && AllShouldPop(st.stack[..n], op)
            && (n == |st.stack| || !ShouldPop(st.stack[n], op))
  {
    PopCountStops(op, st.stack);
    PopOperatorsMoves(op, st);
  }

  /** The pop loop moves the top `PopCount` entries, in stack order. */
  lemma {:induction false} PopOperatorsMoves(op: Op, st: State)
    ensures var n := PopCount(op, st.stack);
            PopOperators(op, st) == State(st.output + st.stack[..n], st.stack[n..])
    decreases |st.stack|
  {
    if st.stack != [] && ShouldPop(st.stack[0], op) {
      var st' := State(st.output + [st.stack[0]], st.stack[1..]);
      PopOperatorsMoves(op, st');
      var n := PopCount(op, st.stack);
      MoveHead(st.output, st.stack, n);
    } else {
      assert st.stack[..0] == [] && st.stack[0..] == st.stack;
    }
  }

  /** Moving the head and then `n - 1` more entries moves the first `n`. */
  lemma MoveHead(output: seq<Token>, stack: seq<Token>, n: nat)
    requires 0 < n <= |stack|
    ensures output + [stack[0]] + stack[1..][..n - 1] == output + stack[..n]
    ensures stack[1..][n - 1..] == stack[n..]
  {
    assert stack[..n] == [stack[0]] + stack[1..][..n - 1];
  }

  /** How many entries lie above the first `(` of `stack`. */
  function DepthToOpen(stack: seq<Token>): (n: nat)
    requires Open in stack
    ensures n < |stack| && stack[n] == Open
  {
    if stack[0] == Open then 0
    else
      assert stack == [stack[0]] + stack[1..];
      1 + DepthToOpen(stack[1..])
  }

  /** No `(` lies above the first one. */
  lemma {:induction false} DepthToOpenFirst(stack: seq<Token>)
    requires Open in stack
    ensures forall k :: 0 <= k < DepthToOpen(stack) ==> stack[k] != Open
  {
    if stack[0] != Open {
      assert stack == [stack[0]] + stack[1..];
      DepthToOpenFirst(stack[1..]);
      forall k | 0 < k < DepthToOpen(stack) ensures stack[k] != Open {
        assert stack[k] == stack[1..][k - 1];
      }
    }
  }

  /** `)` pops the stack down to its first `(`, moving the entries above it to the
      output in stack order and dropping the `(`. */
  lemma {:induction false} PopToOpenSplit(st: State)
    requires Open in st.stack
    ensures var n := DepthToOpen(st.stack);
            PopToOpen(st) == Ok(State(st.output + st.stack[..n], st.stack[n + 1..]))
    decreases |st.stack|
  {
    if st.stack[0] == Open {
      assert DepthToOpen(st.stack) == 0;
      assert st.output + st.stack[..0] == st.output;
      assert PopToOpen(st) == Ok(State(st.output, st.stack[1..]));
    } else {
      var st' := State(st.output + [st.stack[0]], st.stack[1..]);
      assert st.stack == [st.stack[0]] + st.stack[1..];
      PopToOpenSplit(st');
      assert PopToOpen(st) == PopToOpen(st');
      var n := DepthToOpen(st.stack);
      assert n == 1 + DepthToOpen(st.stack[1..]);
      assert st.stack[..n] == [st.stack[0]] + st.stack[1..][..n - 1];
      assert st.stack[n + 1..] == st.stack[1..][n..];
      assert st'.output + st'.stack[..n - 1] == st.output + st.stack[..n];
    }
  }

  // ---------------------------------------------------------------------------
  // What the conversion guarantees

  /** Every stack entry is an operator or `(`. */
  predicate StackShape(stack: seq<Token>)
  {
    forall k :: 0 <= k < |stack| ==> stack[k].Operator? || stack[k] == Open
  }

  /** The number of `(` tokens in `ts`. */
  function OpenCount(ts: seq<Token>): nat
  {
    if ts == [] then 0 else (if ts[0] == Open then 1 else 0) + OpenCount(ts[1..])
  }

  /** Reference definition of balanced parentheses: reading left to right from
      nesting depth `depth`, no `)` finds the depth at zero, and the depth ends at
      zero. */
  predicate BalancedFrom(ts: seq<Token>, depth: nat)
    decreases |ts|
  {
    if ts == [] then depth == 0
    else if ts[0] == Open then BalancedFrom(ts[1..], depth + 1)
    else if ts[0] == Close then depth > 0 && BalancedFrom(ts[1..], depth - 1)
    else BalancedFrom(ts[1..], depth)
  }

  predicate Balanced(ts: seq<Token>)
  {
    BalancedFrom(ts, 0)
  }

  /** Moving entries from the stack to the output loses no number or operator,
      adds no parenthesis to the output, and keeps the numbers in order. */
  predicate Conserves(a: State, b: State)
  {
    && (NoParens(a.output) ==> NoParens(b.output))
    && Numbers(b.output) == Numbers(a.output)
    && multiset(b.output) + multiset(NonParens(b.stack)) == multiset(a.output) + multiset(NonParens(a.stack))
  }

  lemma ConservesTrans(a: State, b: State, c: State)
    requires Conserves(a, b) && Conserves(b, c)
    ensures Conserves(a, c)
  {
  }

  /** Moving the operator on top of the stack to the output. */
  lemma MoveTop(st: State)
    requires st.stack != [] && st.stack[0].Operator?
    ensures var moved := State(st.output + [st.stack[0]], st.stack[1..]);
            && Conserves(st, moved)
            && OpenCount(moved.stack) == OpenCount(st.stack)
            && (StackShape(st.stack) ==> StackShape(moved.stack))
  {
    var top := st.stack[0];
    NumbersConcat(st.output, [top]);
    assert NonParens(st.stack) == [top] + NonParens(st.stack[1..]);
    assert StackShape(st.stack) ==> StackShape(st.stack[1..]) by {
      if StackShape(st.stack) {
        forall k | 0 <= k < |st.stack| - 1 ensures st.stack[1..][k].Operator? || st.stack[1..][k] == Open {
          assert st.stack[1..][k] == st.stack[k + 1];
        }
      }
    }
  }

  lemma {:induction false} PopOperatorsKeeps(op: Op, st: State)
    requires StackShape(st.stack)
    ensures var p := PopOperators(op, st);
            Conserves(st, p) && OpenCount(p.stack) == OpenCount(st.stack) && StackShape(p.stack)
    decreases |st.stack|
  {
    if st.stack != [] && ShouldPop(st.stack[0], op) {
      var moved := State(st.output + [st.stack[0]], st.stack[1..]);
      MoveTop(st);
      PopOperatorsKeeps(op, moved);
      ConservesTrans(st, moved, PopOperators(op, moved));
    }
  }

  lemma {:induction false} PopToOpenKeeps(st: State)
    requires StackShape(st.stack) && Open in st.stack
    ensures var r := PopToOpen(st).value;
            Conserves(st, r) && OpenCount(r.stack) + 1 == OpenCount(st.stack) && StackShape(r.stack)
    decreases |st.stack|
  {
    if st.stack[0] == Open {
      assert NonParens(st.stack) == NonParens(st.stack[1..]);
      assert StackShape(st.stack[1..]) by {
        forall k | 0 <= k < |st.stack| - 1 ensures st.stack[1..][k].Operator? || st.stack[1..][k] == Open {
          assert st.stack[1..][k] == st.stack[k + 1];
        }
      }
    } else {
      var moved := State(st.output + [st.stack[0]], st.stack[1..]);
      assert st.stack == [st.stack[0]] + st.stack[1..];
      MoveTop(st);
      PopToOpenKeeps(moved);
      ConservesTrans(st, moved, PopToOpen(moved).value);
    }
  }

  /** A stack of operators and `(` has no parenthesis exactly when it has no `(`,
      and is then all operators. */
  lemma {:induction false} ShapeNoParens(stack: seq<Token>)
    requires StackShape(stack)
    ensures NoParens(stack) <==> OpenCount(stack) == 0
    ensures NoParens(stack) ==> NoNumbers(stack)
  {
    if stack != [] {
      assert StackShape(stack[1..]) by {
        forall k | 0 <= k < |stack| - 1 ensures stack[1..][k].Operator? || stack[1..][k] == Open {
          assert stack[1..][k] == stack[k + 1];
        }
      }
      ShapeNoParens(stack[1..]);
      assert NoParens(stack) <==> !stack[0].IsParen() && NoParens(stack[1..]) by {
        if !stack[0].IsParen() && NoParens(stack[1..]) {
          forall k | 0 <= k < |stack| ensures !stack[k].IsParen() {
            if k > 0 {
              assert stack[k] == stack[1..][k - 1];
            }
          }
        }
      }
    }
  }

  /** `Open in s` is a count of `(` above zero. */
  lemma {:induction false} OpenInCount(s: seq<Token>)
    ensures Open in s <==> OpenCount(s) > 0
  {
    if s != [] {
      OpenInCount(s[1..]);
      assert s == [s[0]] + s[1..];
    }
  }

  /** What one step from `st` reading `t` into `a` keeps: the stack shape, the
      depth moved by the parenthesis read, no parenthesis entering the output, the
      numbers in order, and every number and operator exactly once. */
  predicate StepKeeps(st: State, t: Token, a: State)
  {
    && StackShape(a.stack)
    && OpenCount(a.stack) + (if t == Close then 1 else 0) == OpenCount(st.stack) + (if t == Open then 1 else 0)
    && (NoParens(st.output) ==> NoParens(a.output))
    && Numbers(a.output) == Numbers(st.output) + Numbers([t])
    && multiset(a.output) + multiset(NonParens(a.stack))
       == multiset(st.output) + multiset(NonParens(st.stack)) + multiset(NonParens([t]))
  }

  lemma OperatorKeeps(op: Op, st: State)
    requires StackShape(st.stack)
    ensures StepKeeps(st, Operator(op), Shift(Operator(op), st).value)
  {
    var t := Operator(op);
    PopOperatorsKeeps(op, st);
    var p := PopOperators(op, st);
    assert Shift(t, st).value == State(p.output, [t] + p.stack);
    assert NonParens([t] + p.stack) == [t] + NonParens(p.stack);
    assert NonParens([t]) == [t];
    assert Numbers([t]) == [];
    ShapePush(t, p.stack);
    assert ([t] + p.stack)[1..] == p.stack;
  }

  lemma ShapePush(t: Token, stack: seq<Token>)
    requires t.Operator? && StackShape(stack)
    ensures StackShape([t] + stack)
  {
    forall k | 0 <= k < |stack| + 1 ensures ([t] + stack)[k].Operator? || ([t] + stack)[k] == Open {
      if k > 0 {
        assert ([t] + stack)[k] == stack[k - 1];
      }
    }
  }

  lemma OpenKeeps(st: State)
    requires StackShape(st.stack)
    ensures StepKeeps(st, Open, Shift(Open, st).value)
  {
    assert NonParens([Open] + st.stack) == NonParens(st.stack);
    assert ([Open] + st.stack)[1..] == st.stack;
    assert NonParens([Open]) == [] && Numbers([Open]) == [];
  }

  lemma CloseKeeps(st: State)
    requires StackShape(st.stack) && Open in st.stack
    ensures StepKeeps(st, Close, Shift(Close, st).value)
  {
    var r := PopToOpen(st).value;
    assert Shift(Close, st).value == r;
    PopToOpenKeeps(st);
    assert NonParens([Close]) == [] && Numbers([Close]) == [];
    assert Numbers(r.output) == Numbers(st.output) + Numbers([Close]);
    assert multiset(NonParens([Close])) == multiset{};
  }

  lemma ShiftKeeps(t: Token, st: State)
    requires StackShape(st.stack)
    ensures Shift(t, st).Ok? ==> StepKeeps(st, t, Shift(t, st).value)
  {
    match t
    case Number(_) =>
      NumbersConcat(st.output, [t]);
      assert NonParens([t]) == [t] && Numbers([t]) == [t];
    case Operator(op) =>
      OperatorKeeps(op, st);
    case Open =>
      OpenKeeps(st);
    case Close =>
      if Shift(t, st).Ok? {
        CloseKeeps(st);
      }
  }

  lemma {:induction false} RpnFromBalanced(ts: seq<Token>, st: State)
    requires StackShape(st.stack)
    ensures RpnFrom(ts, st).Ok? <==> BalancedFrom(ts, OpenCount(st.stack))
    ensures RpnFrom(ts, st).Err? ==> RpnFrom(ts, st).error == MismatchedParentheses
    decreases |ts|
  {
    if ts == [] {
      ShapeNoParens(st.stack);
    } else if Shift(ts[0], st).Ok? {
      ShiftKeeps(ts[0], st);
      RpnFromBalanced(ts[1..], Shift(ts[0], st).value);
    } else {
      OpenInCount(st.stack);
    }
  }

  /** The conversion succeeds exactly on token lists whose parentheses balance, and
      otherwise fails with "Mismatched parentheses.". */
  lemma RpnBalanced(ts: seq<Token>)
    ensures Rpn(ts).Ok? <==> Balanced(ts)
    ensures Rpn(ts).Err? ==> Rpn(ts).error == MismatchedParentheses
  {
    RpnFromBalanced(ts, State([], []));
  }

  /** `out` is what the conversion may produce from state `st` with the tokens `ts`
      still to read: no parenthesis enters the output, the numbers keep their order,
      and every number and operator of the output, the stack and the input ends up
      in `out` exactly once. */
  predicate KeepsTokens(st: State, ts: seq<Token>, out: seq<Token>)
  {
    && (NoParens(st.output) ==> NoParens(out))
    && Numbers(out) == Numbers(st.output) + Numbers(ts)
    && multiset(out) == multiset(st.output) + multiset(NonParens(st.stack)) + multiset(NonParens(ts))
  }

  /** The final loop moves the remaining operators to the output. */
  lemma DrainKeeps(st: State)
    requires StackShape(st.stack) && Drain(st).Ok?
    ensures KeepsTokens(st, [], Drain(st).value)
  {
    ShapeNoParens(st.stack);
    NonParensOfNoParens(st.stack);
    NumbersOfNoNumbers(st.stack);
    NumbersConcat(st.output, st.stack);
    assert Numbers([]) == [] && NonParens([]) == [];
  }

  lemma NumbersStep(out: seq<Token>, mid: seq<Token>, first: seq<Token>, t: Token, rest: seq<Token>)
    requires Numbers(out) == Numbers(mid) + Numbers(rest)
    requires Numbers(mid) == Numbers(first) + Numbers([t])
    ensures Numbers(out) == Numbers(first) + Numbers([t] + rest)
  {
    NumbersConcat([t], rest);
    AppendThree([], Numbers(first), Numbers([t]), Numbers(rest));
  }

  lemma MultisetStep(out: seq<Token>, mid: State, first: State, t: Token, rest: seq<Token>)
    requires multiset(out) == multiset(mid.output) + multiset(NonParens(mid.stack)) + multiset(NonParens(rest))
    requires multiset(mid.output) + multiset(NonParens(mid.stack))
             == multiset(first.output) + multiset(NonParens(first.stack)) + multiset(NonParens([t]))
    ensures multiset(out) == multiset(first.output) + multiset(NonParens(first.stack)) + multiset(NonParens([t] + rest))
  {
    NonParensConcat([t], rest);
  }

  /** A step that keeps the tokens, followed by a rest that keeps them. */
  lemma ComposeKeeps(st: State, t: Token, a: State, rest: seq<Token>, out: seq<Token>)
    requires StepKeeps(st, t, a) && KeepsTokens(a, rest, out)
    ensures KeepsTokens(st, [t] + rest, out)
  {
    NumbersStep(out, a.output, st.output, t, rest);
    MultisetStep(out, a, st, t, rest);
  }

  lemma {:induction false} RpnFromTokens(ts: seq<Token>, st: State)
    requires StackShape(st.stack)
    ensures RpnFrom(ts, st).Ok? ==> KeepsTokens(st, ts, RpnFrom(ts, st).value)
    decreases |ts|
  {
    if ts == [] {
      if Drain(st).Ok? {
        DrainKeeps(st);
      }
    } else if Shift(ts[0], st).Ok? {
      var a := Shift(ts[0], st).value;
      ShiftKeeps(ts[0], st);
      RpnFromTokens(ts[1..], a);
      if RpnFrom(ts, st).Ok? {
        assert RpnFrom(ts, st) == RpnFrom(ts[1..], a);
        assert ts == [ts[0]] + ts[1..];
        ComposeKeeps(st, ts[0], a, ts[1..], RpnFrom(ts, st).value);
      }
    }
  }

  /** The postfix form holds no parenthesis, the numbers of the input in their
      order, and exactly the numbers and operators of the input. */
  lemma RpnTokens(ts: seq<Token>)
    ensures Rpn(ts).Ok? ==>
      && NoParens(Rpn(ts).value)
      && Numbers(Rpn(ts).value) == Numbers(ts)
      && multiset(Rpn(ts).value) == multiset(NonParens(ts))
  {
    RpnFromTokens(ts, State([], []));
  }

  /** Reading one token off the front of the input. */
  lemma RpnFromCons(t: Token, rest: seq<Token>, st: State)
    ensures RpnFrom([t] + rest, st) == if Shift(t, st).Err? then Err(Shift(t, st).error) else RpnFrom(rest, Shift(t, st).value)
  {
    assert ([t] + rest)[0] == t && ([t] + rest)[1..] == rest;
  }

  /** `)` closing a group whose operator sits on its `(`. */
  lemma CloseGroup(op: Op, rest: seq<Token>, out: seq<Token>, stack: seq<Token>)
    ensures RpnFrom([Close] + rest, State(out, [Operator(op), Open] + stack))
         == RpnFrom(rest, State(out + [Operator(op)], stack))
  {
    var s := [Operator(op), Open] + stack;
    assert s[0] == Operator(op) && s[1..] == [Open] + stack;
    assert ([Open] + stack)[0] == Open && ([Open] + stack)[1..] == stack;
    assert PopToOpen(State(out, s)) == PopToOpen(State(out + [Operator(op)], [Open] + stack));
    RpnFromCons(Close, rest, State(out, s));
  }

  /** An operator read right after `(` pops nothing. */
  lemma OperatorAfterOpen(op: Op, rest: seq<Token>, out: seq<Token>, stack: seq<Token>)
    ensures RpnFrom([Operator(op)] + rest, State(out, [Open] + stack))
         == RpnFrom(rest, State(out, [Operator(op), Open] + stack))
  {
    var st := State(out, [Open] + stack);
    assert st.stack[0] == Open;
    assert PopOperators(op, st) == st;
    assert [Operator(op)] + st.stack == [Operator(op), Open] + stack;
    RpnFromCons(Operator(op), rest, st);
  }

  lemma {:induction false} RpnFromInfix(e: Expr, rest: seq<Token>, st: State)
    ensures RpnFrom(InfixOf(e) + rest, st) == RpnFrom(rest, State(st.output + PostfixOf(e), st.stack))
    decreases e
  {
    match e
    case Num(v) =>
      RpnFromCons(Number(v), rest, st);
    case Bin(op, l, r) =>
      var out, stack := st.output, st.stack;
      var afterR := [Close] + rest;
      var afterOp := InfixOf(r) + afterR;
      var afterL := [Operator(op)] + afterOp;
      assert InfixOf(e) + rest == [Open] + (InfixOf(l) + afterL);
      RpnFromCons(Open, InfixOf(l) + afterL, st);
      RpnFromInfix(l, afterL, State(out, [Open] + stack));
      OperatorAfterOpen(op, afterOp, out + PostfixOf(l), stack);
      RpnFromInfix(r, afterR, State(out + PostfixOf(l), [Operator(op), Open] + stack));
      CloseGroup(op, rest, out + PostfixOf(l) + PostfixOf(r), stack);
      AppendThree(out, PostfixOf(l), PostfixOf(r), [Operator(op)]);
  }

  lemma AppendThree(out: seq<Token>, a: seq<Token>, b: seq<Token>, c: seq<Token>)
    ensures out + a + b + c == out + (a + b + c)
    ensures a + b + c == a + (b + c)
  {
  }

  /** On a fully parenthesised expression the conversion yields the postfix form of
      its tree. */
  lemma RpnOfInfix(e: Expr)
    ensures Rpn(InfixOf(e)) == Ok(PostfixOf(e))
  {
    RpnFromInfix(e, [], State([], []));
    assert InfixOf(e) + [] == InfixOf(e);
    assert [] + PostfixOf(e) == PostfixOf(e);
  }
  // ---------------------------------------------------------------------------
  // Two operators without parentheses

  lemma NumberStep(v: real, rest: seq<Token>, st: State)
    ensures RpnFrom([Number(v)] + rest, st) == RpnFrom(rest, State(st.output + [Number(v)], st.stack))
  {
    RpnFromCons(Number(v), rest, st);
  }

  lemma OperatorStep(op: Op, rest: seq<Token>, st: State)
    ensures RpnFrom([Operator(op)] + rest, st)
         == RpnFrom(rest, State(PopOperators(op, st).output, [Operator(op)] + PopOperators(op, st).stack))
  {
    RpnFromCons(Operator(op), rest, st);
  }

  /** The first three tokens of `x o1 y ...` leave `x y` on the output and `o1` on
      the stack. */
  lemma FirstOperand(x: real, o1: Op, y: real, rest: seq<Token>)
    ensures RpnFrom([Number(x), Operator(o1), Number(y)] + rest, State([], []))
         == RpnFrom(rest, State([Number(x), Number(y)], [Operator(o1)]))
  {
    var nx, ny, p1 := Number(x), Number(y), Operator(o1);
    calc {
      RpnFrom([nx, p1, ny] + rest, State([], []));
      { assert [nx, p1, ny] + rest == [nx] + ([p1] + ([ny] + rest)); }
      RpnFrom([nx] + ([p1] + ([ny] + rest)), State([], []));
      { NumberStep(x, [p1] + ([ny] + rest), State([], [])); assert [] + [nx] == [nx]; }
      RpnFrom([p1] + ([ny] + rest), State([nx], []));
      { OperatorStep(o1, [ny] + rest, State([nx], []));
        assert PopOperators(o1, State([nx], [])) == State([nx], []);
        assert [p1] + [] == [p1]; }
      RpnFrom([ny] + rest, State([nx], [p1]));
      { NumberStep(y, rest, State([nx], [p1])); assert [nx] + [ny] == [nx, ny]; }
      RpnFrom(rest, State([nx, ny], [p1]));
    }
  }

  /** `x o1 y o2 z` converts to `x y o1 z o2` when `o2` pops `o1` (it binds weaker,
      or as tight and to the left), and to `x y z o2 o1` otherwise. */
  lemma TwoOperators(x: real, o1: Op, y: real, o2: Op, z: real)
    ensures Rpn([Number(x), Operator(o1), Number(y), Operator(o2), Number(z)])
         == if ShouldPop(Operator(o1), o2)
            then Ok([Number(x), Number(y), Operator(o1), Number(z), Operator(o2)])
            else Ok([Number(x), Number(y), Number(z), Operator(o2), Operator(o1)])
  {
    var nx, ny, nz, p1, p2 := Number(x), Number(y), Number(z), Operator(o1), Operator(o2);
    assert [nx, p1, ny, p2, nz] == [nx, p1, ny] + ([p2] + [nz]);
    FirstOperand(x, o1, y, [p2] + [nz]);
    OperatorStep(o2, [nz], State([nx, ny], [p1]));
    var popped := PopOperators(o2, State([nx, ny], [p1]));
    assert [nz] == [nz] + [];
    NumberStep(z, [], State(popped.output, [p2] + popped.stack));
    assert Rpn([nx, p1, ny, p2, nz]) == Drain(State(popped.output + [nz], [p2] + popped.stack));
    if ShouldPop(p1, o2) {
      assert popped == State([nx, ny, p1], []) by {
        assert popped == PopOperators(o2, State([nx, ny] + [p1], [p1][1..]));
        assert [p1][1..] == [] && [nx, ny] + [p1] == [nx, ny, p1];
      }
      assert Drain(State([nx, ny, p1, nz], [p2])) == Ok([nx, ny, p1, nz, p2]) by {
        assert [p2][1..] == [] && [nx, ny, p1, nz] + [p2] == [nx, ny, p1, nz, p2];
      }
      assert [nx, ny, p1] + [nz] == [nx, ny, p1, nz];
      assert [p2] + [] == [p2];
    } else {
      assert popped == State([nx, ny], [p1]);
      assert [nx, ny] + [nz] == [nx, ny, nz] && [p2] + [p1] == [p2, p1];
      assert Drain(State([nx, ny, nz], [p2, p1])) == Drain(State([nx, ny, nz, p2], [p1])) by {
        assert [p2, p1][1..] == [p1] && [nx, ny, nz] + [p2] == [nx, ny, nz, p2];
      }
      assert Drain(State([nx, ny, nz, p2], [p1])) == Ok([nx, ny, nz, p2, p1]) by {
        assert [p1][1..] == [] && [nx, ny, nz, p2] + [p1] == [nx, ny, nz, p2, p1];
      }
    }
  }

  // ---------------------------------------------------------------------------
  // Chains without parentheses, of any length

  /** An incoming `op` does not pop the top of `stack`. */
  predicate StaysBelow(stack: seq<Token>, op: Op)
  {
    stack == [] || !ShouldPop(stack[0], op)
  }

  /** An operator that leaves the stack top in place pushes itself and nothing
      else moves. */
  lemma PushOnly(op: Op, rest: seq<Token>, st: State)
    requires StaysBelow(st.stack, op)
    ensures RpnFrom([Operator(op)] + rest, st) == RpnFrom(rest, State(st.output, [Operator(op)] + st.stack))
  {
    OperatorStep(op, rest, st);
    assert PopOperators(op, st) == st;
  }

  /** An incoming `t` that pops the operator on top of the stack moves it to the
      output first. */
  lemma PopThrough(op: Op, t: Op, rest: seq<Token>, output: seq<Token>, stack: seq<Token>)
    requires ShouldPop(Operator(op), t)
    ensures RpnFrom([Operator(t)] + rest, State(output, [Operator(op)] + stack))
         == RpnFrom([Operator(t)] + rest, State(output + [Operator(op)], stack))
  {
    var st := State(output, [Operator(op)] + stack);
    assert st.stack[0] == Operator(op) && st.stack[1..] == stack;
    assert PopOperators(t, st) == PopOperators(t, State(output + [Operator(op)], stack));
    RpnFromCons(Operator(t), rest, st);
    RpnFromCons(Operator(t), rest, State(output + [Operator(op)], stack));
  }

  /** What the split link's operator is to the operators left and right of it:
      it pops every operator to its left, and pops none to its right. */
  lemma SplitPops(links: seq<Link>, left: seq<Link>, right: seq<Link>)
    requires links != []
    requires left == links[..Split(links)] && right == links[Split(links) + 1..]
    ensures forall k :: 0 <= k < |left| ==> ShouldPop(Operator(left[k].op), links[Split(links)].op)
    ensures forall k :: 0 <= k < |right| ==> StaysBelow([Operator(links[Split(links)].op)], right[k].op)
  {
    SplitLevels(links);
    var j := Split(links);
    assert forall k :: 0 <= k < |left| ==> left[k] == links[k];
    forall k | 0 <= k < |right| ensures right[k] == links[j + 1 + k] {
    }
  }

  /** A property of every link holds of every link of a slice. */
  lemma SliceBelow(links: seq<Link>, a: nat, b: nat, stack: seq<Token>)
    requires a <= b <= |links|
    requires forall k :: 0 <= k < |links| ==> StaysBelow(stack, links[k].op)
    ensures forall k :: 0 <= k < |links[a..b]| ==> StaysBelow(stack, links[a..b][k].op)
  {
    assert forall k :: 0 <= k < |links[a..b]| ==> links[a..b][k] == links[a + k];
  }

  lemma SlicePops(links: seq<Link>, a: nat, b: nat, t: Op)
    requires a <= b <= |links|
    requires forall k :: 0 <= k < |links| ==> ShouldPop(Operator(links[k].op), t)
    ensures forall k :: 0 <= k < |links[a..b]| ==> ShouldPop(Operator(links[a..b][k].op), t)
  {
    assert forall k :: 0 <= k < |links[a..b]| ==> links[a..b][k] == links[a + k];
  }

  /** Only the top of the stack decides whether an operator stays below it. */
  lemma BelowTop(links: seq<Link>, op: Op, stack: seq<Token>)
    requires forall k :: 0 <= k < |links| ==> StaysBelow([Operator(op)], links[k].op)
    ensures forall k :: 0 <= k < |links| ==> StaysBelow([Operator(op)] + stack, links[k].op)
  {
  }

  /** A chain whose operators all leave the stack top in place, followed by an
      operator `t` that pops every operator of the chain, puts the chain's grouped
      postfix form on the output and then reads `t` against the old stack. */
  lemma {:induction false} ChainThen(first: real, links: seq<Link>, t: Op, rest: seq<Token>, st: State)
    requires forall k :: 0 <= k < |links| ==> StaysBelow(st.stack, links[k].op)
    requires forall k :: 0 <= k < |links| ==> ShouldPop(Operator(links[k].op), t)
    ensures RpnFrom(ChainTokens(first, links) + ([Operator(t)] + rest), st)
         == RpnFrom([Operator(t)] + rest, State(st.output + PostfixOf(Grouped(first, links)), st.stack))
    decreases |links|
  {
    if links == [] {
      assert ChainTokens(first, links) == [Number(first)];
      NumberStep(first, [Operator(t)] + rest, st);
    } else {
      var j := Split(links);
      var op, v := links[j].op, links[j].operand;
      var left, right := links[..j], links[j + 1..];
      var after := ChainTokens(v, right) + ([Operator(t)] + rest);
      var p1 := PostfixOf(Grouped(first, left));
      var p2 := PostfixOf(Grouped(v, right));
      var out, stack := st.output, st.stack;
      assert Split(links) == j;
      SplitPops(links, left, right);
      SliceBelow(links, 0, j, stack);
      assert links[0..j] == left && links[j + 1..|links|] == right;
      SlicePops(links, j + 1, |links|, t);
      BelowTop(right, op, stack);
      var u := [Operator(t)] + rest;
      calc {
        RpnFrom(ChainTokens(first, links) + u, st);
        { SplitTokens(first, links, j, u); }
        RpnFrom(ChainTokens(first, left) + ([Operator(op)] + after), st);
        { ChainThen(first, left, op, after, st); }
        RpnFrom([Operator(op)] + after, State(out + p1, stack));
        { PushOnly(op, after, State(out + p1, stack)); }
        RpnFrom(ChainTokens(v, right) + u, State(out + p1, [Operator(op)] + stack));
        { ChainThen(v, right, t, rest, State(out + p1, [Operator(op)] + stack)); }
        RpnFrom(u, State(out + p1 + p2, [Operator(op)] + stack));
        { PopThrough(op, t, rest, out + p1 + p2, stack); }
        RpnFrom(u, State(out + p1 + p2 + [Operator(op)], stack));
        { GroupedPostfix(first, links, out); }
        RpnFrom(u, State(out + PostfixOf(Grouped(first, links)), stack));
      }
    }
  }

  /** The chain's tokens and what follows them, around the link at `j`. */
  lemma SplitTokens(first: real, links: seq<Link>, j: nat, u: seq<Token>)
    requires j < |links|
    ensures ChainTokens(first, links) + u
         == ChainTokens(first, links[..j]) + ([Operator(links[j].op)] + (ChainTokens(links[j].operand, links[j + 1..]) + u))
  {
    ChainTokensAt(first, links, j);
  }

  /** The postfix form of a chain's tree, around the link it is split at. */
  lemma GroupedPostfix(first: real, links: seq<Link>, out: seq<Token>)
    requires links != []
    ensures var j := Split(links);
            out + PostfixOf(Grouped(first, links[..j])) + PostfixOf(Grouped(links[j].operand, links[j + 1..]))
              + [Operator(links[j].op)]
            == out + PostfixOf(Grouped(first, links))
  {
    var j := Split(links);
    AppendThree(out, PostfixOf(Grouped(first, links[..j])), PostfixOf(Grouped(links[j].operand, links[j + 1..])),
                [Operator(links[j].op)]);
  }

  /** A chain whose operators all leave the stack top in place, at the end of the
      input, puts its grouped postfix form on the output before the final drain. */
  lemma {:induction false} ChainEnd(first: real, links: seq<Link>, st: State)
    requires forall k :: 0 <= k < |links| ==> StaysBelow(st.stack, links[k].op)
    ensures RpnFrom(ChainTokens(first, links), st)
         == Drain(State(st.output + PostfixOf(Grouped(first, links)), st.stack))
    decreases |links|
  {
    if links == [] {
      assert ChainTokens(first, links) == [Number(first)] + [];
      NumberStep(first, [], st);
    } else {
      var j := Split(links);
      var op, v := links[j].op, links[j].operand;
      var left, right := links[..j], links[j + 1..];
      var after := ChainTokens(v, right);
      var p1 := PostfixOf(Grouped(first, left));
      var p2 := PostfixOf(Grouped(v, right));
      var out, stack := st.output, st.stack;
      SplitPops(links, left, right);
      SliceBelow(links, 0, j, stack);
      assert links[0..j] == left;
      BelowTop(right, op, stack);
      calc {
        RpnFrom(ChainTokens(first, links), st);
        { SplitTokens(first, links, j, []);
          assert ChainTokens(first, links) + [] == ChainTokens(first, links);
          assert after + [] == after; }
        RpnFrom(ChainTokens(first, left) + ([Operator(op)] + after), st);
        { ChainThen(first, left, op, after, st); }
        RpnFrom([Operator(op)] + after, State(out + p1, stack));
        { PushOnly(op, after, State(out + p1, stack)); }
        RpnFrom(after, State(out + p1, [Operator(op)] + stack));
        { ChainEnd(v, right, State(out + p1, [Operator(op)] + stack)); }
        Drain(State(out + p1 + p2, [Operator(op)] + stack));
        { DrainOperator(op, out + p1 + p2, stack); }
        Drain(State(out + p1 + p2 + [Operator(op)], stack));
        { GroupedPostfix(first, links, out); }
        Drain(State(out + PostfixOf(Grouped(first, links)), stack));
      }
    }
  }

  /** The final drain moves an operator on top of the stack to the output. */
  lemma DrainOperator(op: Op, output: seq<Token>, stack: seq<Token>)
    ensures Drain(State(output, [Operator(op)] + stack)) == Drain(State(output + [Operator(op)], stack))
  {
    assert ([Operator(op)] + stack)[0] == Operator(op) && ([Operator(op)] + stack)[1..] == stack;
  }

  /** Any chain without parentheses converts to the postfix form of the tree that
      ordinary grouping by precedence and associativity gives it. */
  lemma ChainRpn(first: real, links: seq<Link>)
    ensures Rpn(ChainTokens(first, links)) == Ok(PostfixOf(Grouped(first, links)))
  {
    ChainEnd(first, links, State([], []));
    assert [] + PostfixOf(Grouped(first, links)) == PostfixOf(Grouped(first, links));
  }
}
