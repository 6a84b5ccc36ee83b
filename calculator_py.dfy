/** `evaluate` of calculator.py: one named operation folded from the left over
    a list of operands. */
module CommandLineCalculator {
  import opened Results

  datatype Operation = Add | Sub | Mul | Div | Pow

  /** The three ways `evaluate` raises `CalculatorError`. */
  datatype CalculatorError =
    | UnsupportedOperation(name: string) // "Unsupported operation: <name>"
    | TooFewOperands                     // "At least two operands are required."
    | DivisionByZero                     // "Division by zero is not allowed."

  /** `_build_operations()[name]`, when the table has the name. */
  function OperationOf(name: string): (r: Option<Operation>)
    ensures r.Some? <==> name == "add" || name == "sub" || name == "mul" || name == "div" || name == "pow"
  {
    if name == "add" then Some(Add)
    else if name == "sub" then Some(Sub)
    else if name == "mul" then Some(Mul)
    else if name == "div" then Some(Div)
    else if name == "pow" then Some(Pow)
    else None
  }

  /** `_safe_divide`: refuses a zero divisor. */
  function SafeDivide(left: real, right: real): (r: Result<real, CalculatorError>)
    ensures r.Err? <==> right == 0.0
    ensures r.Err? ==> r.error == DivisionByZero
    ensures r.Ok? ==> r.value * right == left
  {
    if right == 0.0 then Err(DivisionByZero) else Ok(left / right)
  }

  /** One step of the fold.  `operator.pow` is the caller's `pow`. */
  function Step(op: Operation, left: real, right: real, pow: (real, real) -> real): Result<real, CalculatorError>
  {
    match op
    case Add => Ok(left + right)
    case Sub => Ok(left - right)
    case Mul => Ok(left * right)
    case Div => SafeDivide(left, right)
    case Pow => Ok(pow(left, right))
  }

  /** The fold of `rest` onto the running result `acc`, stopping at the first
      step that raises. */
  function FoldFrom(op: Operation, acc: real, rest: seq<real>, pow: (real, real) -> real): Result<real, CalculatorError>
    decreases |rest|
  {
    if rest == [] then Ok(acc)
    else
      match Step(op, acc, rest[0], pow)
      case Err(e) => Err(e)
      case Ok(next) => FoldFrom(op, next, rest[1..], pow)
  }

  /** What `evaluate(operation, operands)` returns or raises: the name is checked
      first, then the number of operands, then the fold runs. */
  function Evaluation(operation: string, operands: seq<real>, pow: (real, real) -> real): Result<real, CalculatorError>
  {
    match OperationOf(operation)
    case None => Err(UnsupportedOperation(operation))
    case Some(op) =>
      if |operands| < 2 then Err(TooFewOperands)
      else FoldFrom(op, operands[0], operands[1..], pow)
  }

  /** `evaluate` as it runs: a loop that reassigns the running result. */
  method Evaluate(operation: string, operands: seq<real>, pow: (real, real) -> real) returns (r: Result<real, CalculatorError>)
    ensures r == Evaluation(operation, operands, pow)
  {
    var found := OperationOf(operation);
    if found.None? {
      return Err(UnsupportedOperation(operation));
    }
    var op := found.value;
    if |operands| < 2 {
      return Err(TooFewOperands);
    }
    var result := operands[0];
    for k := 1 to |operands|
      invariant FoldFrom(op, result, operands[k..], pow) == Evaluation(operation, operands, pow)
    {
      assert operands[k..][0] == operands[k] && operands[k..][1..] == operands[k + 1..];
      var step := Step(op, result, operands[k], pow);
      if step.Err? {
        return Err(step.error);
      }
      result := step.value;
    }
    r := Ok(result);
  }

  // ---------------------------------------------------------------------------
  // Reference definitions

  function Sum(s: seq<real>): real
    decreases |s|
  {
    if s == [] then 0.0 else s[0] + Sum(s[1..])
  }

  function Product(s: seq<real>): real
    decreases |s|
  {
    if s == [] then 1.0 else s[0] * Product(s[1..])
  }

  // ---------------------------------------------------------------------------
  // What the fold computes

  /** An addition fold adds the sum of the rest to the running result. */
  lemma {:induction false} FoldAdd(acc: real, rest: seq<real>, pow: (real, real) -> real)
    ensures FoldFrom(Add, acc, rest, pow) == Ok(acc + Sum(rest))
    decreases |rest|
  {
    if rest != [] {
      FoldAdd(acc + rest[0], rest[1..], pow);
    }
  }

  /** A subtraction fold takes the sum of the rest off the running result. */
  lemma {:induction false} FoldSub(acc: real, rest: seq<real>, pow: (real, real) -> real)
    ensures FoldFrom(Sub, acc, rest, pow) == Ok(acc - Sum(rest))
    decreases |rest|
  {
    if rest != [] {
      FoldSub(acc - rest[0], rest[1..], pow);
    }
  }

  /** A multiplication fold multiplies the running result by the product of the
      rest. */
  lemma {:induction false} FoldMul(acc: real, rest: seq<real>, pow: (real, real) -> real)
    ensures FoldFrom(Mul, acc, rest, pow).Ok? && FoldFrom(Mul, acc, rest, pow).value == acc * Product(rest)
    decreases |rest|
  {
    if rest != [] {
      FoldMul(acc * rest[0], rest[1..], pow);
      assert acc * rest[0] * Product(rest[1..]) == acc * (rest[0] * Product(rest[1..]));
    }
  }

  /** A division fold raises exactly when some divisor is zero, and otherwise
      divides the running result by the product of the divisors. */
  lemma {:induction false} FoldDiv(acc: real, rest: seq<real>, pow: (real, real) -> real)
    ensures FoldFrom(Div, acc, rest, pow).Err? <==> 0.0 in rest
    ensures FoldFrom(Div, acc, rest, pow).Err? ==> FoldFrom(Div, acc, rest, pow).error == DivisionByZero
    ensures FoldFrom(Div, acc, rest, pow).Ok? ==> FoldFrom(Div, acc, rest, pow).value * Product(rest) == acc
    decreases |rest|
  {
    if rest != [] {
      assert rest == [rest[0]] + rest[1..];
      if rest[0] != 0.0 {
        FoldDiv(acc / rest[0], rest[1..], pow);
        if FoldFrom(Div, acc, rest, pow).Ok? {
          var v := FoldFrom(Div, acc, rest, pow).value;
          calc {
            v * Product(rest);
            v * (rest[0] * Product(rest[1..]));
            (v * Product(rest[1..])) * rest[0];
            (acc / rest[0]) * rest[0];
            acc;
          }
        }
      }
    }
  }

  // ---------------------------------------------------------------------------
  // What `evaluate` promises

  /** An unknown name raises, whatever the operands, even too few of them. */
  lemma UnknownOperation(operation: string, operands: seq<real>, pow: (real, real) -> real)
    requires operation !in {"add", "sub", "mul", "div", "pow"}
    ensures Evaluation(operation, operands, pow) == Err(UnsupportedOperation(operation))
  {
  }

  /** A known name with fewer than two operands raises. */
  lemma TooFew(operation: string, operands: seq<real>, pow: (real, real) -> real)
    requires OperationOf(operation).Some? && |operands| < 2
    ensures Evaluation(operation, operands, pow) == Err(TooFewOperands)
  {
  }

  /** `add` gives the sum of the operands. */
  lemma Total(operands: seq<real>, pow: (real, real) -> real)
    requires |operands| >= 2
    ensures Evaluation("add", operands, pow) == Ok(Sum(operands))
  {
    assert OperationOf("add") == Some(Add);
    FoldAdd(operands[0], operands[1..], pow);
  }

  /** `mul` gives the product of the operands. */
  lemma Multiple(operands: seq<real>, pow: (real, real) -> real)
    requires |operands| >= 2
    ensures Evaluation("mul", operands, pow).Ok? && Evaluation("mul", operands, pow).value == Product(operands)
  {
    assert OperationOf("mul") == Some(Mul);
    FoldMul(operands[0], operands[1..], pow);
    ProductFirst(operands);
  }

  lemma ProductFirst(s: seq<real>)
    requires s != []
    ensures Product(s) == s[0] * Product(s[1..])
  {
  }

  /** `sub` gives the first operand less the sum of the others. */
  lemma Difference(operands: seq<real>, pow: (real, real) -> real)
    requires |operands| >= 2
    ensures Evaluation("sub", operands, pow) == Ok(operands[0] - Sum(operands[1..]))
  {
    FoldSub(operands[0], operands[1..], pow);
  }

  /** `div` raises exactly when an operand after the first is zero; a zero first
      operand is divided like any other. */
  lemma Quotient(operands: seq<real>, pow: (real, real) -> real)
    requires |operands| >= 2
    ensures Evaluation("div", operands, pow) == Err(DivisionByZero) <==> 0.0 in operands[1..]
    ensures Evaluation("div", operands, pow).Ok? ==>
      Evaluation("div", operands, pow).value * Product(operands[1..]) == operands[0]
  {
    FoldDiv(operands[0], operands[1..], pow);
  }

  /** `pow` on two operands raises the first to the second. */
  lemma Power(x: real, y: real, pow: (real, real) -> real)
    ensures Evaluation("pow", [x, y], pow) == Ok(pow(x, y))
  {
    assert OperationOf("pow") == Some(Pow);
    assert [x, y][1..] == [y] && [y][1..] == [];
    assert FoldFrom(Pow, pow(x, y), [], pow) == Ok(pow(x, y));
    assert FoldFrom(Pow, x, [y], pow) == FoldFrom(Pow, pow(x, y), [], pow);
  }

  /** The cases of tests/test_calculator.py. */
  lemma Cases(pow: (real, real) -> real)
    ensures Evaluation("add", [1.0, 2.0, 3.0], pow) == Ok(6.0)
    ensures Evaluation("sub", [10.0, 5.0, 2.0], pow) == Ok(3.0)
    ensures Evaluation("mul", [2.0, 3.0, 4.0], pow) == Ok(24.0)
    ensures Evaluation("div", [100.0, 4.0, 2.0], pow) == Ok(12.5)
    ensures Evaluation("pow", [2.0, 3.0], pow) == Ok(pow(2.0, 3.0))
    ensures Evaluation("unknown", [1.0, 2.0], pow).Err?
    ensures Evaluation("add", [1.0], pow).Err?
    ensures Evaluation("div", [1.0, 0.0], pow).Err?
  {
    Total([1.0, 2.0, 3.0], pow);
    Multiple([2.0, 3.0, 4.0], pow);
    Difference([10.0, 5.0, 2.0], pow);
    Power(2.0, 3.0, pow);
    Quotient([1.0, 0.0], pow);
    assert [1.0, 2.0, 3.0][1..] == [2.0, 3.0] && [2.0, 3.0][1..] == [3.0];
    assert [2.0, 3.0, 4.0][1..] == [3.0, 4.0] && [3.0, 4.0][1..] == [4.0];
    assert [10.0, 5.0, 2.0][1..] == [5.0, 2.0] && [5.0, 2.0][1..] == [2.0];
    assert [100.0, 4.0, 2.0][1..] == [4.0, 2.0] && [4.0, 2.0][1..] == [2.0];
    assert [1.0, 0.0][1..] == [0.0];
  }
}
