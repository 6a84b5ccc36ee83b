/** Every way an evaluation of the page's expression can fail.  Each constructor
    corresponds to one message the page shows; the message is given beside it. */
module Errors {

  datatype Error =
    /** "Enter an expression to evaluate." */
    | EmptyExpression
    /** "Malformed number with multiple decimals." */
    | MultipleDecimals
    /** "Malformed number." */
    | MalformedNumber
    /** "Invalid sequence: operator cannot follow another operator." */
    | InvalidSequence
    /** "Unsupported character '<c>'." */
    | UnsupportedCharacter(c: char)
    /** "Mismatched parentheses." */
    | MismatchedParentheses
    /** "Expression cannot end with an operator or opening parenthesis." */
    | BadEnding
    /** "Malformed expression." */
    | MalformedExpression
    /** "Division by zero is not allowed." */
    | DivisionByZero
    /** The TypeError raised when a parenthesis reaches the postfix evaluator and is
        looked up in the operator table. */
    | NotAnOperator
}
