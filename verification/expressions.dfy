/** Infix expressions as parse trees of the language the converter reads:
    numbers, the four left-associative binary operators with * / binding
    tighter than + -, and parentheses. */
module Expressions {
  import opened Results
  import opened Tokens
  import Evaluator

  /** `Group` is an explicit pair of parentheses around a subexpression. */
  datatype Expr = Literal(digits: string) | Binary(op: char, left: Expr, right: Expr) | Group(inner: Expr)

  /** How tightly an expression binds: its operator's priority, or 3 for a
      literal or a parenthesised group. */
  function Rank(e: Expr): nat
  {
    match e
    case Binary(op, _, _) => Priority(Function(op))
    case _ => 3
  }

  /** A parse tree of the grammar: a left operand binds at least as tightly as
      its operator, a right operand strictly more tightly (otherwise it has to
      be parenthesised), which is left-associativity. */
  predicate WellFormed(e: Expr)
  {
    match e
    case Literal(d) => IsDigits(d)
    case Group(i) => WellFormed(i)
    case Binary(op, l, r) =>
      IsArithmetic(op) && WellFormed(l) && WellFormed(r) && Rank(l) >= Rank(e) && Rank(r) > Rank(e)
  }

  /** The infix token sequence of the tree. */
  function Infix(e: Expr): seq<Token>
  {
    match e
    case Literal(d) => [Number(d)]
    case Group(i) => [Function('(')] + Infix(i) + [Function(')')]
    case Binary(op, l, r) => Infix(l) + [Function(op)] + Infix(r)
  }

  /** The postfix token sequence of the tree: operands, then the operator. */
  function Postfix(e: Expr): seq<Token>
  {
    match e
    case Literal(d) => [Number(d)]
    case Group(i) => Postfix(i)
    case Binary(op, l, r) => Postfix(l) + Postfix(r) + [Function(op)]
  }

  /** Ordinary integer arithmetic over the tree: left operand first, division
      truncating toward zero, a zero divisor an error. */
  function Value(e: Expr): Result<int>
  {
    match e
    case Literal(d) => if IsDigits(d) then Ok(Evaluator.DecimalValue(d)) else Err(InvalidNumber)
    case Group(i) => Value(i)
    case Binary(op, l, r) =>
      match Value(l)
      case Err(x) => Err(x)
      case Ok(a) =>
        match Value(r)
        case Err(x) => Err(x)
        case Ok(b) => Evaluator.Apply(op, a, b)
  }
}
