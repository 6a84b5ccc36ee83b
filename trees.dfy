/** Expression trees: an independent reference for what the converter and the
    postfix evaluator compute.  A tree is written out in infix with every binary
    node in parentheses, or in postfix. */
module Trees {
  import opened Results
  import opened Errors
  import opened Operators
  import opened Tokens

  datatype Expr = Num(value: real) | Bin(op: Op, left: Expr, right: Expr)

  /** The value of a tree: the left operand first, then the right, then the
      operator; the first division by zero met is the error. */
  function Eval(e: Expr, pow: (real, real) -> real): Result<real, Error>
  {
    match e
    case Num(v) => Ok(v)
    case Bin(op, l, r) =>
      match Eval(l, pow)
      case Err(err) => Err(err)
      case Ok(a) =>
        match Eval(r, pow)
        case Err(err) => Err(err)
        case Ok(b) => Apply(op, a, b, pow)
  }

  /** The tree written in infix, every binary node in parentheses. */
  function InfixOf(e: Expr): (ts: seq<Token>)
    ensures |ts| > 0
  {
    match e
    case Num(v) => [Number(v)]
    case Bin(op, l, r) => [Open] + InfixOf(l) + [Operator(op)] + InfixOf(r) + [Close]
  }

  /** The tree written in postfix. */
  function PostfixOf(e: Expr): (ts: seq<Token>)
    ensures |ts| > 0
  {
    match e
    case Num(v) => [Number(v)]
    case Bin(op, l, r) => PostfixOf(l) + PostfixOf(r) + [Operator(op)]
  }
}

/** Chains without parentheses, `x0 o1 x1 o2 x2 ...`, and the tree that ordinary
    algebraic grouping gives them: the operator that binds least is applied last;
    among several at that level the rightmost one when the level groups to the
    left, the leftmost one when it groups to the right.  This reference is stated
    with the precedences and associativities of the operator table only, not with
    the converter's pop rule. */
module Chains {
  import opened Operators
  import opened Tokens
  import opened Trees

  /** One operator of a chain and the operand after it. */
  datatype Link = Link(op: Op, operand: real)

  /** The tokens of the links, each operator followed by its operand. */
  function LinkTokens(links: seq<Link>): seq<Token>
  {
    if links == [] then [] else [Operator(links[0].op), Number(links[0].operand)] + LinkTokens(links[1..])
  }

  /** The tokens of the chain `first o1 x1 o2 x2 ...`. */
  function ChainTokens(first: real, links: seq<Link>): (ts: seq<Token>)
  {
    [Number(first)] + LinkTokens(links)
  }

  /** The lowest precedence among the links' operators. */
  function MinLevel(links: seq<Link>): (m: nat)
    requires links != []
    ensures forall k :: 0 <= k < |links| ==> Precedence(links[k].op) >= m
    ensures exists k :: 0 <= k < |links| && Precedence(links[k].op) == m
  {
    if |links| == 1 then Precedence(links[0].op)
    else
      var m := MinLevel(links[1..]);
      assert forall k :: 1 <= k < |links| ==> links[k] == links[1..][k - 1];
      if Precedence(links[0].op) <= m then Precedence(links[0].op) else m
  }

  /** The index of the last link whose operator has precedence `m`. */
  function LastAt(links: seq<Link>, m: nat): (j: nat)
    requires exists k :: 0 <= k < |links| && Precedence(links[k].op) == m
    ensures j < |links| && Precedence(links[j].op) == m
    ensures forall k :: j < k < |links| ==> Precedence(links[k].op) != m
    decreases |links|
  {
    var n := |links| - 1;
    if Precedence(links[n].op) == m then n
    else
      assert forall k :: 0 <= k < n ==> links[..n][k] == links[k];
      LastAt(links[..n], m)
  }

  /** The index of the first link whose operator has precedence `m`. */
  function FirstAt(links: seq<Link>, m: nat): (j: nat)
    requires exists k :: 0 <= k < |links| && Precedence(links[k].op) == m
    ensures j < |links| && Precedence(links[j].op) == m
    ensures forall k :: 0 <= k < j ==> Precedence(links[k].op) != m
    decreases |links|
  {
    if Precedence(links[0].op) == m then 0
    else
      assert forall k :: 1 <= k < |links| ==> links[k] == links[1..][k - 1];
      1 + FirstAt(links[1..], m)
  }

  /** The link whose operator is applied last: the rightmost of the lowest
      precedence when that level groups to the left, else the leftmost. */
  function Split(links: seq<Link>): (j: nat)
    requires links != []
    ensures j < |links|
  {
    var m := MinLevel(links);
    var last := LastAt(links, m);
    if Spec(links[last].op).associativity == Left then last else FirstAt(links, m)
  }

  /** The tree of the chain `first` followed by `links`. */
  function Grouped(first: real, links: seq<Link>): Expr
    decreases |links|
  {
    if links == [] then Num(first)
    else
      var j := Split(links);
      Bin(links[j].op, Grouped(first, links[..j]), Grouped(links[j].operand, links[j + 1..]))
  }

  /** Operators of one precedence share their associativity. */
  lemma LevelAssociativity(a: Op, b: Op)
    requires Precedence(a) == Precedence(b)
    ensures Spec(a).associativity == Spec(b).associativity
  {
  }

  /** The operator split at binds no tighter than those to its left (strictly
      looser when it groups to the right), and strictly looser than those to its
      right unless they share its level and group to the right. */
  lemma SplitLevels(links: seq<Link>)
    requires links != []
    ensures var j := Split(links);
            var op := links[j].op;
            && (forall k :: 0 <= k < j ==>
                  Precedence(links[k].op) > Precedence(op)
                  || (Precedence(links[k].op) == Precedence(op) && Spec(op).associativity == Left))
            && (forall k :: j < k < |links| ==>
                  Precedence(links[k].op) > Precedence(op)
                  || (Precedence(links[k].op) == Precedence(op) && Spec(links[k].op).associativity == Right))
  {
    var m := MinLevel(links);
    var last := LastAt(links, m);
    var j := Split(links);
    if Spec(links[last].op).associativity != Left {
      forall k | j < k < |links| && Precedence(links[k].op) == m
        ensures Spec(links[k].op).associativity == Right
      {
        LevelAssociativity(links[k].op, links[last].op);
      }
    }
  }

  /** The tokens of a list of links split in two. */
  lemma {:induction false} LinkTokensConcat(a: seq<Link>, b: seq<Link>)
    ensures LinkTokens(a + b) == LinkTokens(a) + LinkTokens(b)
  {
    if a == [] {
      assert a + b == b;
    } else {
      assert (a + b)[0] == a[0] && (a + b)[1..] == a[1..] + b;
      LinkTokensConcat(a[1..], b);
    }
  }

  /** The tokens of a chain that starts with the link `l`. */
  lemma ChainTokensCons(first: real, l: Link, rest: seq<Link>)
    ensures ChainTokens(first, [l] + rest) == [Number(first), Operator(l.op)] + ChainTokens(l.operand, rest)
  {
    assert ([l] + rest)[0] == l && ([l] + rest)[1..] == rest;
  }

  /** The chain's tokens around the link it is split at. */
  lemma ChainTokensAt(first: real, links: seq<Link>, j: nat)
    requires j < |links|
    ensures ChainTokens(first, links)
         == ChainTokens(first, links[..j]) + ([Operator(links[j].op)] + ChainTokens(links[j].operand, links[j + 1..]))
  {
    var l := links[j];
    assert links == links[..j] + ([l] + links[j + 1..]);
    LinkTokensConcat(links[..j], [l] + links[j + 1..]);
    LinkTokensConcat([l], links[j + 1..]);
    assert LinkTokens([l]) == [Operator(l.op), Number(l.operand)] by {
      assert [l][1..] == [];
    }
  }

  /** On two operators the reference groups the second first exactly when it
      binds tighter, or as tight at a level that groups to the right. */
  lemma GroupedTwo(x: real, o1: Op, y: real, o2: Op, z: real)
    ensures Grouped(x, [Link(o1, y), Link(o2, z)])
         == if Precedence(o1) < Precedence(o2) || (Precedence(o1) == Precedence(o2) && Spec(o1).associativity == Right)
            then Bin(o1, Num(x), Bin(o2, Num(y), Num(z)))
            else Bin(o2, Bin(o1, Num(x), Num(y)), Num(z))
  {
    var links := [Link(o1, y), Link(o2, z)];
    assert links[..1] == [Link(o1, y)] && links[1..] == [Link(o2, z)];
    assert links[..0] == [] && links[2..] == [];
    assert Split([Link(o1, y)]) == 0 && Split([Link(o2, z)]) == 0;
    assert Grouped(x, [Link(o1, y)]) == Bin(o1, Num(x), Num(y));
    assert Grouped(y, [Link(o2, z)]) == Bin(o2, Num(y), Num(z));
    if Precedence(o1) == Precedence(o2) {
      LevelAssociativity(o1, o2);
    }
  }
}
