/** Tokens of the expression language and their character classes. */
module Tokens {

  /** `std::size_t(-1)` on a 64-bit target: the priority sentinel and the linked stack's ceiling. */
  const SizeMax: nat := 0xFFFF_FFFF_FFFF_FFFF

  /** A token is a digit run kept as text, or a one-character function symbol
      (an operator or a parenthesis). */
  datatype Token = Number(digits: string) | Function(symbol: char)

  /** The blanks the tokenizer skips: space, tab, carriage return, newline. */
  predicate IsDelimiter(c: char)
  {
    c == ' ' || c == '\t' || c == '\r' || c == '\n'
  }

  /** The one-character function symbols: ( ) + - * and slash. */
  predicate IsOperatorChar(c: char)
  {
    c == '(' || c == ')' || IsArithmetic(c)
  }

  /** The four binary operators. */
  predicate IsArithmetic(c: char)
  {
    c == '+' || c == '-' || c == '*' || c == '/'
  }

  /** ASCII decimal digits. */
  predicate IsDigit(c: char)
  {
    '0' <= c <= '9'
  }

  /** A character the tokenizer refuses: no blank, no function symbol, no digit. */
  predicate IsStray(c: char)
  {
    !IsDelimiter(c) && !IsOperatorChar(c) && !IsDigit(c)
  }

  /** A non-empty run of digits. */
  predicate IsDigits(s: string)
  {
    |s| > 0 && forall i | 0 <= i < |s| :: IsDigit(s[i])
  }

  /** The shape of every token the tokenizer produces. */
  predicate Wellformed(t: Token)
  {
    match t
    case Number(d) => IsDigits(d)
    case Function(c) => IsOperatorChar(c)
  }

  lemma WellformedTail(ts: seq<Token>)
    requires |ts| > 0 && forall i | 0 <= i < |ts| :: Wellformed(ts[i])
    ensures forall i | 0 <= i < |ts[1..]| :: Wellformed(ts[1..][i])
  {
    assert forall i | 0 <= i < |ts[1..]| :: ts[1..][i] == ts[i + 1];
  }

  /** The token's text (`m_value` in the source). */
  function Text(t: Token): string
  {
    match t
    case Number(d) => d
    case Function(c) => [c]
  }

  /** The text of a well-formed token holds no blank and no stray character. */
  lemma TextChars(t: Token)
    requires Wellformed(t)
    ensures |Text(t)| > 0
    ensures forall j | 0 <= j < |Text(t)| :: !IsDelimiter(Text(t)[j]) && !IsStray(Text(t)[j])
  {
  }

  predicate IsOpen(t: Token)
  {
    t == Function('(')
  }

  predicate IsParen(t: Token)
  {
    t == Function('(') || t == Function(')')
  }

  /** The fixed priority table: parentheses lowest, then + -, then * /; a number
      (and any other symbol) gets the size_t maximum. */
  function Priority(t: Token): (r: nat)
    // rank 0 is the parentheses' alone
    ensures r == 0 <==> IsParen(t)
    // every function symbol ranks in 0..2; numbers and unknown symbols get the maximum
    ensures r <= 2 <==> t.Function? && IsOperatorChar(t.symbol)
    ensures r > 2 ==> r == SizeMax
  {
    match t
    case Number(_) => SizeMax
    case Function(c) =>
      if c == '(' || c == ')' then 0
      else if c == '+' || c == '-' then 1
      else if c == '*' || c == '/' then 2
      else SizeMax
  }

  /** Parentheses rank below every operator, + - below * /, so the operator flush
      never pops a parenthesis and multiplication binds tighter than addition. */
  lemma PriorityOrder(c: char)
    requires IsArithmetic(c)
    ensures Priority(Function('(')) < Priority(Function(c))
    ensures Priority(Function(')')) < Priority(Function(c))
    ensures Priority(Function(c)) == (if c == '*' || c == '/' then 2 else 1)
  {
  }
}
