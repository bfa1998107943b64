/** Failure kinds of the expression pipeline and the result type that carries them.
    Every `throw` of the C++ pipeline becomes an `Err` of one of these kinds. */
module Results {

  datatype Error =
    | InvalidCharacter       // tokenizer: neither a blank, an operator nor a digit
    | UnbalancedParenthesis  // converter: a `)` without `(`, or a `(` never closed
    | InsufficientOperands   // evaluator: an operator meets fewer than two values
    | InvalidNumber          // evaluator: a number token whose text is not a digit run
    | InvalidOperator        // evaluator: a function token other than + - * /
    | DivisionByZero         // evaluator: `/` with a zero right operand
    | MalformedExpression    // evaluator: the final stack does not hold exactly one value

  datatype Result<T> = Ok(value: T) | Err(error: Error)
}
