/** The static operator table that drives the tokenizer, the shunting-yard
    converter and the postfix evaluator. */
module Operators {
  import opened Results
  import opened Errors

  /** The five binary operators `+ - * / ^`. */
  datatype Op = Add | Sub | Mul | Div | Pow

  datatype Associativity = Left | Right

  /** One row of the table; its `apply` field is the function `Apply` below. */
  datatype OperatorSpec = OperatorSpec(precedence: nat, associativity: Associativity)

  /** The key of an operator in the table. */
  function Symbol(op: Op): char
  {
    match op
    case Add => '+'
    case Sub => '-'
    case Mul => '*'
    case Div => '/'
    case Pow => '^'
  }

  /** Looks a single character up in the table. */
  function OperatorOf(c: char): (r: Option<Op>)
    ensures r.Some? <==> c in "+-*/^"
    ensures r.Some? ==> Symbol(r.value) == c
  {
    match c
    case '+' => Some(Add)
    case '-' => Some(Sub)
    case '*' => Some(Mul)
    case '/' => Some(Div)
    case '^' => Some(Pow)
    case _ => None
  }

  predicate IsOperatorChar(c: char)
  {
    OperatorOf(c).Some?
  }

  /** Precedence and associativity of each operator. */
  function Spec(op: Op): OperatorSpec
  {
    match op
    case Add => OperatorSpec(1, Left)
    case Sub => OperatorSpec(1, Left)
    case Mul => OperatorSpec(2, Left)
    case Div => OperatorSpec(2, Left)
    case Pow => OperatorSpec(3, Right)
  }

  function Precedence(op: Op): nat
  {
    Spec(op).precedence
  }

  /** The `apply` field: the arithmetic an operator performs on its left and right
      operands.  `pow` stands for the host's `Math.pow`. */
  function Apply(op: Op, left: real, right: real, pow: (real, real) -> real): (r: Result<real, Error>)
    ensures r.Err? <==> op == Div && right == 0.0
    ensures r.Err? ==> r.error == DivisionByZero
    ensures r.Ok? && op == Sub ==> r.value + right == left
    ensures r.Ok? && op == Div ==> r.value * right == left
  {
    match op
    case Add => Ok(left + right)
    case Sub => Ok(left - right)
    case Mul => Ok(left * right)
    case Div => if right == 0.0 then Err(DivisionByZero) else Ok(left / right)
    case Pow => Ok(pow(left, right))
  }

  /** Every operator is found under its own symbol, and under no other. */
  lemma {:induction false} SymbolRoundTrip(op: Op, c: char)
    ensures OperatorOf(Symbol(op)) == Some(op)
    ensures OperatorOf(c) == Some(op) <==> c == Symbol(op)
  {
  }

  /** Additive operators bind weaker than multiplicative ones, which bind weaker
      than `^`, and `^` is the only right-associative operator. */
  lemma PrecedenceOrder(op: Op)
    ensures Precedence(Add) == Precedence(Sub) < Precedence(Mul)
    ensures Precedence(Mul) == Precedence(Div) < Precedence(Pow)
    ensures Spec(op).associativity == Right <==> op == Pow
  {
  }
}
