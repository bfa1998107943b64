/** The whole program path: text to tokens to postfix to a value. The
    conversion reads the text through the tokenizer one token at a time;
    these lemmas tie that lazy reading to the token-level results. */
module Pipeline {
  import opened Results
  import opened Tokens
  import opened Tokenizer
  import opened Converter
  import opened Evaluator
  import opened Expressions
  import opened ShuntingYard
  import opened ConverterProperties
  import opened Rendering

  /** Reading tokens lazily gives the same conversion as tokenizing first,
      whenever tokenizing succeeds; when it fails, so does the conversion
      (with the tokenizer's error, or a parenthesis error met before it). */
  lemma {:induction false} ConvertAgreesWithTokens(s: string, pos: nat, st: State)
    requires pos <= |s|
    ensures TokenizeFrom(s, pos).Ok? ==> ConvertFrom(s, pos, st) == Complete(TokenizeFrom(s, pos).value, st)
    ensures TokenizeFrom(s, pos).Err? ==>
              && ConvertFrom(s, pos, st).Err?
              && ConvertFrom(s, pos, st).error in {InvalidCharacter, UnbalancedParenthesis}
    decreases |s| - pos
  {
    match Next(s, pos)
    case Err(_) =>
    case Ok(Done) =>
    case Ok(Produced(t, n)) =>
      match Step(st, t)
      case Err(_) =>
        if TokenizeFrom(s, pos).Ok? {
          var ts := TokenizeFrom(s, pos).value;
          assert ts[0] == t;
        }
        assert Step(st, t).error == UnbalancedParenthesis;
      case Ok(st') =>
        ConvertAgreesWithTokens(s, n, st');
        if TokenizeFrom(s, pos).Ok? {
          var ts := TokenizeFrom(s, pos).value;
          assert ts[0] == t && ts[1..] == TokenizeFrom(s, n).value;
        }
  }

  /** The conversion of a text: it fails exactly on a stray character (one
      that is no blank, function symbol or digit), or on unbalanced parentheses; on success its output holds the
      text's numbers and operators once each, with the numbers in text order. */
  lemma ConvertProperties(s: string)
    ensures Convert(s).Ok? <==> Tokenize(s).Ok? && Balanced(Tokenize(s).value)
    ensures Convert(s).Err? ==> Convert(s).error in {InvalidCharacter, UnbalancedParenthesis}
    // a stray character always fails the conversion, and is the only cause of InvalidCharacter
    ensures (exists i | 0 <= i < |s| :: IsStray(s[i])) ==> Convert(s).Err?
    ensures Convert(s).Err? && Convert(s).error == InvalidCharacter ==> exists i | 0 <= i < |s| :: IsStray(s[i])
    ensures Convert(s).Ok? ==>
              && ParenFree(Convert(s).value)
              && multiset(Convert(s).value) == multiset(NonParen(Tokenize(s).value))
              && Numbers(Convert(s).value) == Numbers(Tokenize(s).value)
  {
    ConvertAgreesWithTokens(s, 0, State([], []));
    TokenizeFails(s, 0);
    if Tokenize(s).Ok? {
      ConversionProperties(Tokenize(s).value);
    }
  }

  lemma {:induction false} InfixWellformed(e: Expr)
    requires WellFormed(e)
    ensures forall i | 0 <= i < |Infix(e)| :: Wellformed(Infix(e)[i])
  {
    match e
    case Literal(_) =>
    case Group(i) =>
      InfixWellformed(i);
      var ts := Infix(e);
      forall k | 0 <= k < |ts|
        ensures Wellformed(ts[k])
      {
        if 0 < k < |ts| - 1 {
          assert ts[k] == Infix(i)[k - 1];
        }
      }
    case Binary(op, l, r) =>
      InfixWellformed(l);
      InfixWellformed(r);
      var ts := Infix(e);
      forall k | 0 <= k < |ts|
        ensures Wellformed(ts[k])
      {
        if k < |Infix(l)| {
          assert ts[k] == Infix(l)[k];
        } else if k > |Infix(l)| {
          assert ts[k] == Infix(r)[k - |Infix(l)| - 1];
        }
      }
  }

  /** The program on any well-spaced text of a parse tree: it converts to the
      tree's postfix form, and that evaluates to the tree's value. */
  lemma EndToEnd(e: Expr, gaps: seq<string>)
    requires WellFormed(e)
    requires |gaps| == |Infix(e)| + 1 && Separating(Infix(e), gaps)
    ensures Convert(Layout(Infix(e), gaps)) == Ok(Postfix(e))
    ensures Evaluate(Postfix(e)) == Value(e)
  {
    var s := Layout(Infix(e), gaps);
    InfixWellformed(e);
    TokenizeLayout(Infix(e), gaps);
    ConvertAgreesWithTokens(s, 0, State([], []));
    ConvertsToPostfix(e);
    EvaluatesToValue(e);
  }

  /** The program on a tree written the usual way, as its driver writes
      its expressions. */
  lemma ShownEndToEnd(e: Expr)
    requires WellFormed(e)
    ensures Convert(Show(e)) == Ok(Postfix(e))
    ensures Evaluate(Postfix(e)) == Value(e)
  {
    ShowSeparates(e);
    EndToEnd(e, ShowGaps(e));
  }
}
