/** The usual way of writing a parse tree down: one space around each binary
    operator, none inside parentheses. The program's driver expressions are
    written this way; the rendering is a layout of the tree's infix tokens
    whose gaps are blank and never glue two numbers together. */
module Rendering {
  import opened Tokens
  import opened Tokenizer
  import opened Expressions

  function Show(e: Expr): string
  {
    match e
    case Literal(d) => d
    case Group(i) => "(" + Show(i) + ")"
    case Binary(op, l, r) => Show(l) + " " + [op] + " " + Show(r)
  }

  /** The gaps of two layouts placed one after the other: the last gap of the
      first and the first gap of the second merge. */
  function Glue(ga: seq<string>, gb: seq<string>): (r: seq<string>)
    requires |ga| >= 1 && |gb| >= 1
    ensures |r| == |ga| + |gb| - 1
  {
    ga[..|ga| - 1] + [ga[|ga| - 1] + gb[0]] + gb[1..]
  }

  /** The gaps `Show` puts between the infix tokens. */
  function ShowGaps(e: Expr): (r: seq<string>)
    ensures |r| == |Infix(e)| + 1
  {
    match e
    case Literal(_) => ["", ""]
    case Group(i) => Glue(Glue(["", ""], ShowGaps(i)), ["", ""])
    case Binary(op, l, r) => Glue(Glue(ShowGaps(l), [" ", " "]), ShowGaps(r))
  }

  /** No two numbers side by side. */
  predicate NoAdjacentNumbers(ts: seq<Token>)
  {
    forall i | 0 <= i < |ts| - 1 :: !(ts[i].Number? && ts[i + 1].Number?)
  }

  lemma LayoutWiden(b: seq<Token>, gb: seq<string>, g: string)
    requires |gb| == |b| + 1
    ensures Layout(b, [g + gb[0]] + gb[1..]) == g + Layout(b, gb)
  {
    var gs := [g + gb[0]] + gb[1..];
    if b != [] {
      assert gs[1..] == gb[1..];
    }
  }

  /** Layouts concatenate, with the meeting gaps merged. */
  lemma {:induction false} LayoutConcat(a: seq<Token>, ga: seq<string>, b: seq<Token>, gb: seq<string>)
    requires |ga| == |a| + 1 && |gb| == |b| + 1
    ensures Layout(a + b, Glue(ga, gb)) == Layout(a, ga) + Layout(b, gb)
    decreases |a|
  {
    if a == [] {
      assert a + b == b;
      assert Glue(ga, gb) == [ga[0] + gb[0]] + gb[1..];
      LayoutWiden(b, gb, ga[0]);
    } else {
      assert (a + b)[1..] == a[1..] + b;
      assert Glue(ga, gb)[1..] == Glue(ga[1..], gb);
      assert Glue(ga, gb)[0] == ga[0];
      LayoutConcat(a[1..], ga[1..], b, gb);
    }
  }

  /** Parentheses laid tight around a layout. */
  lemma LayoutGroup(x: seq<Token>, gx: seq<string>)
    requires |gx| == |x| + 1
    ensures Layout([Function('(')] + x + [Function(')')], Glue(Glue(["", ""], gx), ["", ""]))
         == "(" + Layout(x, gx) + ")"
  {
    var open, close := [Function('(')], [Function(')')];
    assert Layout(open, ["", ""]) == "(";
    assert Layout(close, ["", ""]) == ")";
    LayoutConcat(open, ["", ""], x, gx);
    LayoutConcat(open + x, Glue(["", ""], gx), close, ["", ""]);
  }

  /** An operator laid with a space on each side between two layouts. */
  lemma LayoutBinary(a: seq<Token>, ga: seq<string>, op: char, b: seq<Token>, gb: seq<string>)
    requires |ga| == |a| + 1 && |gb| == |b| + 1
    ensures Layout(a + [Function(op)] + b, Glue(Glue(ga, [" ", " "]), gb))
         == Layout(a, ga) + " " + [op] + " " + Layout(b, gb)
  {
    var mid, la, lb := [Function(op)], Layout(a, ga), Layout(b, gb);
    var sep := " " + [op] + " ";
    assert Layout(mid, [" ", " "]) == sep;
    LayoutConcat(a, ga, mid, [" ", " "]);
    LayoutConcat(a + mid, Glue(ga, [" ", " "]), b, gb);
    Regroup(la, " ", [op], " ", lb);
  }

  lemma Regroup<T>(a: seq<T>, x: seq<T>, y: seq<T>, z: seq<T>, b: seq<T>)
    ensures a + (x + y + z) + b == a + x + y + z + b
  {
  }

  /** `Show` is the layout of the infix tokens with `ShowGaps`. */
  lemma {:induction false} ShowIsLayout(e: Expr)
    ensures Layout(Infix(e), ShowGaps(e)) == Show(e)
  {
    match e
    case Literal(d) =>
    case Group(i) =>
      ShowIsLayout(i);
      LayoutGroup(Infix(i), ShowGaps(i));
    case Binary(op, l, r) =>
      ShowIsLayout(l);
      ShowIsLayout(r);
      LayoutBinary(Infix(l), ShowGaps(l), op, Infix(r), ShowGaps(r));
  }

  lemma GlueBlank(ga: seq<string>, gb: seq<string>)
    requires |ga| >= 1 && |gb| >= 1
    requires forall i | 0 <= i < |ga| :: IsBlank(ga[i])
    requires forall i | 0 <= i < |gb| :: IsBlank(gb[i])
    ensures forall i | 0 <= i < |Glue(ga, gb)| :: IsBlank(Glue(ga, gb)[i])
  {
    var g := Glue(ga, gb);
    forall i | 0 <= i < |g|
      ensures IsBlank(g[i])
    {
      if i < |ga| - 1 {
        assert g[i] == ga[i];
      } else if i == |ga| - 1 {
        assert g[i] == ga[i] + gb[0];
      } else {
        assert g[i] == gb[i - |ga| + 1];
      }
    }
  }

  lemma {:induction false} ShowGapsBlank(e: Expr)
    ensures forall i | 0 <= i < |ShowGaps(e)| :: IsBlank(ShowGaps(e)[i])
  {
    match e
    case Literal(_) =>
    case Group(i) =>
      ShowGapsBlank(i);
      GlueBlank(["", ""], ShowGaps(i));
      GlueBlank(Glue(["", ""], ShowGaps(i)), ["", ""]);
    case Binary(op, l, r) =>
      ShowGapsBlank(l);
      ShowGapsBlank(r);
      GlueBlank(ShowGaps(l), [" ", " "]);
      GlueBlank(Glue(ShowGaps(l), [" ", " "]), ShowGaps(r));
  }

  /** Placing a function token between two sequences without adjacent
      numbers keeps them apart. */
  lemma ApartAround(a: seq<Token>, c: char, b: seq<Token>)
    requires NoAdjacentNumbers(a) && NoAdjacentNumbers(b)
    ensures NoAdjacentNumbers(a + [Function(c)] + b)
  {
    var s := a + [Function(c)] + b;
    forall i | 0 <= i < |s| - 1
      ensures !(s[i].Number? && s[i + 1].Number?)
    {
      if i + 1 < |a| {
        assert s[i] == a[i] && s[i + 1] == a[i + 1];
      } else if i > |a| {
        assert s[i] == b[i - |a| - 1] && s[i + 1] == b[i - |a|];
      } else if i == |a| {
        assert s[i] == Function(c);
      } else {
        assert s[i + 1] == Function(c);
      }
    }
  }

  lemma {:induction false} InfixApart(e: Expr)
    ensures NoAdjacentNumbers(Infix(e))
  {
    match e
    case Literal(_) =>
    case Group(i) =>
      InfixApart(i);
      ApartAround([], '(', Infix(i));
      ApartAround([Function('(')] + Infix(i), ')', []);
      assert [] + [Function('(')] + Infix(i) == [Function('(')] + Infix(i);
      assert [Function('(')] + Infix(i) + [Function(')')] + [] == Infix(e);
    case Binary(op, l, r) =>
      InfixApart(l);
      InfixApart(r);
      ApartAround(Infix(l), op, Infix(r));
  }

  /** The rendering of any tree is a layout the tokenizer reads back. */
  lemma ShowSeparates(e: Expr)
    ensures Separating(Infix(e), ShowGaps(e))
    ensures Layout(Infix(e), ShowGaps(e)) == Show(e)
  {
    ShowIsLayout(e);
    ShowGapsBlank(e);
    InfixApart(e);
  }
}
