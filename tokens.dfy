/** The tokens that flow from the tokenizer through the shunting-yard converter
    to the postfix evaluator, and the filters used to state what each stage keeps. */
module Tokens {
  import opened Operators

  /** A number, an operator, or one of the two parentheses. */
  datatype Token = Number(value: real) | Operator(op: Op) | Open | Close {
    predicate IsParen() { Open? || Close? }
  }

  /** The number tokens of `ts`, in order. */
  function Numbers(ts: seq<Token>): (r: seq<Token>)
  {
    if ts == [] then [] else (if ts[0].Number? then [ts[0]] else []) + Numbers(ts[1..])
  }

  /** The tokens of `ts` that are not parentheses, in order. */
  function NonParens(ts: seq<Token>): (r: seq<Token>)
  {
    if ts == [] then [] else (if ts[0].IsParen() then [] else [ts[0]]) + NonParens(ts[1..])
  }

  predicate NoParens(ts: seq<Token>)
  {
    forall k :: 0 <= k < |ts| ==> !ts[k].IsParen()
  }

  predicate NoNumbers(ts: seq<Token>)
  {
    forall k :: 0 <= k < |ts| ==> !ts[k].Number?
  }

  lemma {:induction false} NumbersConcat(a: seq<Token>, b: seq<Token>)
    ensures Numbers(a + b) == Numbers(a) + Numbers(b)
  {
    if a != [] {
      assert (a + b)[0] == a[0] && (a + b)[1..] == a[1..] + b;
      NumbersConcat(a[1..], b);
    } else {
      assert a + b == b;
    }
  }

  lemma {:induction false} NonParensConcat(a: seq<Token>, b: seq<Token>)
    ensures NonParens(a + b) == NonParens(a) + NonParens(b)
  {
    if a != [] {
      assert (a + b)[0] == a[0] && (a + b)[1..] == a[1..] + b;
      NonParensConcat(a[1..], b);
    } else {
      assert a + b == b;
    }
  }

  lemma {:induction false} NumbersOfNoNumbers(ts: seq<Token>)
    requires NoNumbers(ts)
    ensures Numbers(ts) == []
  {
    if ts != [] {
      NumbersOfNoNumbers(ts[1..]);
    }
  }

  lemma {:induction false} NonParensOfNoParens(ts: seq<Token>)
    requires NoParens(ts)
    ensures NonParens(ts) == ts
  {
    if ts != [] {
      NonParensOfNoParens(ts[1..]);
    }
  }
}
