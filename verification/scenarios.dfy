/** The driver's expressions, plus the error cases, converted and evaluated
    through the model. */
module Scenarios {
  import opened Results
  import opened Tokens
  import opened Tokenizer
  import opened Converter
  import opened ConverterProperties
  import opened Evaluator
  import opened Expressions
  import opened Rendering
  import opened Pipeline

  lemma LiteralValue(d: string, n: nat)
    requires IsDigits(d) && DecimalValue(d) == n
    ensures Value(Literal(d)) == Ok(n)
  {
  }

  lemma BinaryValue(op: char, l: Expr, r: Expr, a: int, b: int)
    requires Value(l) == Ok(a) && Value(r) == Ok(b)
    ensures Value(Binary(op, l, r)) == Apply(op, a, b)
  {
  }

  lemma ShowBinary(op: char, l: Expr, r: Expr, sl: string, sr: string)
    requires Show(l) == sl && Show(r) == sr
    ensures Show(Binary(op, l, r)) == sl + " " + [op] + " " + sr
  {
  }

  /** A worked example: a parse tree, its text, its postfix form and its
      value, checked piece by piece. */
  lemma Worked(e: Expr, text: string, post: seq<Token>, v: int)
    requires WellFormed(e) && Show(e) == text
    requires Postfix(e) == post && Value(e) == Ok(v)
    ensures Convert(text) == Ok(post) && Evaluate(post) == Ok(v)
  {
    ShownEndToEnd(e);
  }

  function Expr1(): Expr
  {
    Binary('+', Binary('*', Literal("3"), Literal("8")), Literal("4"))
  }

  function Expr2(): Expr
  {
    Binary('/', Literal("72"), Group(Binary('-', Literal("12"), Literal("6"))))
  }

  function Expr3(): Expr
  {
    Binary('-', Literal("4"),
           Binary('/', Binary('*', Literal("2"), Group(Binary('-', Literal("6"), Literal("3")))),
                  Group(Binary('*', Literal("3"), Group(Binary('-', Literal("11"), Literal("3")))))))
  }

  function Expr4(): Expr
  {
    Binary('+', Binary('*', Group(Binary('-', Literal("4"), Literal("19"))), Group(Binary('+', Literal("7"), Literal("19")))),
           Binary('*', Literal("19"), Group(Binary('+', Binary('-', Literal("7"), Literal("4")), Literal("19")))))
  }

  lemma Shape1()
    ensures WellFormed(Expr1())
    ensures Show(Expr1()) == "3 * 8 + 4"
    ensures Postfix(Expr1()) == [Number("3"), Number("8"), Function('*'), Number("4"), Function('+')]
  {
    TextOf1();
    PostfixOf1();
  }

  lemma TextOf1()
    ensures Show(Expr1()) == "3 * 8 + 4"
  {
  }

  lemma PostfixOf1()
    ensures Postfix(Expr1()) == [Number("3"), Number("8"), Function('*'), Number("4"), Function('+')]
  {
  }

  lemma Value1()
    ensures Value(Expr1()) == Ok(28)
  {
    LiteralValue("3", 3);
    LiteralValue("8", 8);
    LiteralValue("4", 4);
    BinaryValue('*', Literal("3"), Literal("8"), 3, 8);
    BinaryValue('+', Binary('*', Literal("3"), Literal("8")), Literal("4"), 24, 4);
  }

  /** `3 * 8 + 4` becomes `3 8 * 4 +`, which is 28. */
  lemma Example1()
    ensures Convert("3 * 8 + 4") == Ok([Number("3"), Number("8"), Function('*'), Number("4"), Function('+')])
    ensures Evaluate([Number("3"), Number("8"), Function('*'), Number("4"), Function('+')]) == Ok(28)
  {
    Shape1();
    Value1();
    Worked(Expr1(), "3 * 8 + 4", [Number("3"), Number("8"), Function('*'), Number("4"), Function('+')], 28);
  }

  lemma Shape2()
    ensures WellFormed(Expr2())
    ensures Show(Expr2()) == "72 / (12 - 6)"
    ensures Postfix(Expr2()) == [Number("72"), Number("12"), Number("6"), Function('-'), Function('/')]
  {
    TextOf2();
    PostfixOf2();
  }

  lemma TextOf2()
    ensures Show(Expr2()) == "72 / (12 - 6)"
  {
  }

  lemma PostfixOf2()
    ensures Postfix(Expr2()) == [Number("72"), Number("12"), Number("6"), Function('-'), Function('/')]
  {
  }

  lemma Value2()
    ensures Value(Expr2()) == Ok(12)
  {
    LiteralValue("72", 72);
    LiteralValue("12", 12);
    LiteralValue("6", 6);
    var d := Binary('-', Literal("12"), Literal("6"));
    BinaryValue('-', Literal("12"), Literal("6"), 12, 6);
    assert Value(Group(d)) == Ok(6);
    BinaryValue('/', Literal("72"), Group(d), 72, 6);
    assert TruncDiv(72, 6) == 12;
  }

  /** `72 / (12 - 6)` becomes `72 12 6 - /`, which is 12. */
  lemma Example2()
    ensures Convert("72 / (12 - 6)") == Ok([Number("72"), Number("12"), Number("6"), Function('-'), Function('/')])
    ensures Evaluate([Number("72"), Number("12"), Number("6"), Function('-'), Function('/')]) == Ok(12)
  {
    Shape2();
    Value2();
    Worked(Expr2(), "72 / (12 - 6)", [Number("72"), Number("12"), Number("6"), Function('-'), Function('/')], 12);
  }

  lemma Shape3()
    ensures WellFormed(Expr3())
    ensures Show(Expr3()) == "4 - 2 * (6 - 3) / (3 * (11 - 3))"
    ensures Postfix(Expr3()) == [Number("4"), Number("2"), Number("6"), Number("3"), Function('-'), Function('*'), Number("3"), Number("11"), Number("3"), Function('-'), Function('*'), Function('/'), Function('-')]
  {
    TextOf3();
    PostfixOf3();
  }

  lemma TextOf3()
    ensures Show(Expr3()) == "4 - 2 * (6 - 3) / (3 * (11 - 3))"
  {
    var b := Binary('*', Literal("2"), Group(Binary('-', Literal("6"), Literal("3"))));
    var d := Group(Binary('*', Literal("3"), Group(Binary('-', Literal("11"), Literal("3")))));
    TextOf3Parts();
    Joins3();
    ShowBinary('/', b, d, "2 * (6 - 3)", "(3 * (11 - 3))");
    ShowBinary('-', Literal("4"), Binary('/', b, d), "4", "2 * (6 - 3) / (3 * (11 - 3))");
  }

  lemma TextOf3Parts()
    ensures Show(Binary('*', Literal("2"), Group(Binary('-', Literal("6"), Literal("3"))))) == "2 * (6 - 3)"
    ensures Show(Group(Binary('*', Literal("3"), Group(Binary('-', Literal("11"), Literal("3")))))) == "(3 * (11 - 3))"
  {
  }

  lemma Joins3()
    ensures "2 * (6 - 3)" + " " + ['/'] + " " + "(3 * (11 - 3))" == "2 * (6 - 3) / (3 * (11 - 3))"
    ensures "4" + " " + ['-'] + " " + "2 * (6 - 3) / (3 * (11 - 3))" == "4 - 2 * (6 - 3) / (3 * (11 - 3))"
  {
  }

  lemma PostfixOf3()
    ensures Postfix(Expr3()) == [Number("4"), Number("2"), Number("6"), Number("3"), Function('-'), Function('*'), Number("3"), Number("11"), Number("3"), Function('-'), Function('*'), Function('/'), Function('-')]
  {
  }

  lemma Value3()
    ensures Value(Expr3()) == Ok(4)
  {
    LiteralValue("2", 2);
    LiteralValue("3", 3);
    LiteralValue("4", 4);
    LiteralValue("6", 6);
    LiteralValue("11", 11);
    var a := Group(Binary('-', Literal("6"), Literal("3")));
    BinaryValue('-', Literal("6"), Literal("3"), 6, 3);
    var b := Binary('*', Literal("2"), a);
    BinaryValue('*', Literal("2"), a, 2, 3);
    var c := Group(Binary('-', Literal("11"), Literal("3")));
    BinaryValue('-', Literal("11"), Literal("3"), 11, 3);
    var d := Group(Binary('*', Literal("3"), c));
    BinaryValue('*', Literal("3"), c, 3, 8);
    BinaryValue('/', b, d, 6, 24);
    assert TruncDiv(6, 24) == 0;
    BinaryValue('-', Literal("4"), Binary('/', b, d), 4, 0);
  }

  /** `4 - 2 * (6 - 3) / (3 * (11 - 3))` becomes `4 2 6 3 - * 3 11 3 - * / -`,
      which is 4: the division truncates 6 / 24 to 0. */
  lemma Example3()
    ensures Convert("4 - 2 * (6 - 3) / (3 * (11 - 3))") == Ok([Number("4"), Number("2"), Number("6"), Number("3"), Function('-'), Function('*'), Number("3"), Number("11"), Number("3"), Function('-'), Function('*'), Function('/'), Function('-')])
    ensures Evaluate([Number("4"), Number("2"), Number("6"), Number("3"), Function('-'), Function('*'), Number("3"), Number("11"), Number("3"), Function('-'), Function('*'), Function('/'), Function('-')]) == Ok(4)
  {
    Shape3();
    Value3();
    Worked(Expr3(), "4 - 2 * (6 - 3) / (3 * (11 - 3))", [Number("4"), Number("2"), Number("6"), Number("3"), Function('-'), Function('*'), Number("3"), Number("11"), Number("3"), Function('-'), Function('*'), Function('/'), Function('-')], 4);
  }

  lemma Shape4()
    ensures WellFormed(Expr4())
    ensures Show(Expr4()) == "(4 - 19) * (7 + 19) + 19 * (7 - 4 + 19)"
    ensures Postfix(Expr4()) == [Number("4"), Number("19"), Function('-'), Number("7"), Number("19"), Function('+'), Function('*'), Number("19"), Number("7"), Number("4"), Function('-'), Number("19"), Function('+'), Function('*'), Function('+')]
  {
    TextOf4();
    PostfixOf4();
  }

  lemma TextOf4()
    ensures Show(Expr4()) == "(4 - 19) * (7 + 19) + 19 * (7 - 4 + 19)"
  {
    var a := Group(Binary('-', Literal("4"), Literal("19")));
    var b := Group(Binary('+', Literal("7"), Literal("19")));
    var d := Group(Binary('+', Binary('-', Literal("7"), Literal("4")), Literal("19")));
    TextOf4Left();
    TextOf4Right();
    assert "(4 - 19) * (7 + 19)" + " " + ['+'] + " " + "19 * (7 - 4 + 19)"
        == "(4 - 19) * (7 + 19) + 19 * (7 - 4 + 19)";
    ShowBinary('+', Binary('*', a, b), Binary('*', Literal("19"), d), "(4 - 19) * (7 + 19)", "19 * (7 - 4 + 19)");
  }

  lemma TextOf4Left()
    ensures Show(Binary('*', Group(Binary('-', Literal("4"), Literal("19"))), Group(Binary('+', Literal("7"), Literal("19")))))
         == "(4 - 19) * (7 + 19)"
  {
  }

  lemma TextOf4Right()
    ensures Show(Binary('*', Literal("19"), Group(Binary('+', Binary('-', Literal("7"), Literal("4")), Literal("19")))))
         == "19 * (7 - 4 + 19)"
  {
  }

  lemma PostfixOf4()
    ensures Postfix(Expr4()) == [Number("4"), Number("19"), Function('-'), Number("7"), Number("19"), Function('+'), Function('*'), Number("19"), Number("7"), Number("4"), Function('-'), Number("19"), Function('+'), Function('*'), Function('+')]
  {
  }

  lemma Value4()
    ensures Value(Expr4()) == Ok(28)
  {
    LiteralValue("4", 4);
    LiteralValue("7", 7);
    LiteralValue("19", 19);
    var a := Group(Binary('-', Literal("4"), Literal("19")));
    BinaryValue('-', Literal("4"), Literal("19"), 4, 19);
    var b := Group(Binary('+', Literal("7"), Literal("19")));
    BinaryValue('+', Literal("7"), Literal("19"), 7, 19);
    BinaryValue('*', a, b, -15, 26);
    var c := Binary('-', Literal("7"), Literal("4"));
    BinaryValue('-', Literal("7"), Literal("4"), 7, 4);
    var d := Group(Binary('+', c, Literal("19")));
    BinaryValue('+', c, Literal("19"), 3, 19);
    BinaryValue('*', Literal("19"), d, 19, 22);
    BinaryValue('+', Binary('*', a, b), Binary('*', Literal("19"), d), -390, 418);
  }

  /** `(4 - 19) * (7 + 19) + 19 * (7 - 4 + 19)` becomes
      `4 19 - 7 19 + * 19 7 4 - 19 + * +`, which is 28. */
  lemma Example4()
    ensures Convert("(4 - 19) * (7 + 19) + 19 * (7 - 4 + 19)") == Ok([Number("4"), Number("19"), Function('-'), Number("7"), Number("19"), Function('+'), Function('*'), Number("19"), Number("7"), Number("4"), Function('-'), Number("19"), Function('+'), Function('*'), Function('+')])
    ensures Evaluate([Number("4"), Number("19"), Function('-'), Number("7"), Number("19"), Function('+'), Function('*'), Number("19"), Number("7"), Number("4"), Function('-'), Number("19"), Function('+'), Function('*'), Function('+')]) == Ok(28)
  {
    Shape4();
    Value4();
    Worked(Expr4(), "(4 - 19) * (7 + 19) + 19 * (7 - 4 + 19)", [Number("4"), Number("19"), Function('-'), Number("7"), Number("19"), Function('+'), Function('*'), Number("19"), Number("7"), Number("4"), Function('-'), Number("19"), Function('+'), Function('*'), Function('+')], 28);
  }

  /** Every `)` is matched by a `(` before it or by one already open. */
  lemma {:induction false} BalancedCounts(ts: seq<Token>, d: nat)
    requires BalancedFrom(ts, d)
    ensures multiset(ts)[Function('(')] + d == multiset(ts)[Function(')')]
    decreases |ts|
  {
    if ts != [] {
      assert ts == [ts[0]] + ts[1..];
      assert multiset(ts) == multiset{ts[0]} + multiset(ts[1..]);
      if ts[0] == Function('(') {
        BalancedCounts(ts[1..], d + 1);
      } else if ts[0] == Function(')') {
        BalancedCounts(ts[1..], d - 1);
      } else {
        BalancedCounts(ts[1..], d);
      }
    }
  }

  lemma WellformedConcat(a: seq<Token>, b: seq<Token>)
    requires forall i | 0 <= i < |a| :: Wellformed(a[i])
    requires forall i | 0 <= i < |b| :: Wellformed(b[i])
    ensures forall i | 0 <= i < |a + b| :: Wellformed((a + b)[i])
  {
    forall i | 0 <= i < |a + b|
      ensures Wellformed((a + b)[i])
    {
      if i >= |a| {
        assert (a + b)[i] == b[i - |a|];
      }
    }
  }

  function Unit(): Expr
  {
    Literal("1")
  }

  /** The three-factor product and the parenthesised product the driver's
      last expression is made of. */
  function Product(): Expr
  {
    Binary('*', Binary('*', Unit(), Unit()), Unit())
  }

  function Pair(): Expr
  {
    Group(Binary('*', Unit(), Unit()))
  }

  lemma Shown5()
    ensures Show(Product()) == "1 * 1 * 1" && Show(Pair()) == "(1 * 1)"
  {
  }

  lemma Pieces5()
    ensures WellFormed(Product()) && WellFormed(Pair())
    ensures Infix(Product()) == [Number("1"), Function('*'), Number("1"), Function('*'), Number("1")]
    ensures Infix(Pair()) == [Function('('), Number("1"), Function('*'), Number("1"), Function(')')]
  {
  }

  /** The tokens of `1 * 1 * 1 * ((1 * 1) *` and a layout of them. */
  function Tokens5(): seq<Token>
  {
    Infix(Product()) + [Function('*'), Function('(')] + Infix(Pair()) + [Function('*')]
  }

  function Gaps5(): (r: seq<string>)
    ensures |r| == |Tokens5()| + 1
  {
    Glue(Glue(Glue(ShowGaps(Product()), [" ", " ", ""]), ShowGaps(Pair())), [" ", ""])
  }

  lemma Layout5()
    ensures Layout(Tokens5(), Gaps5()) == "1 * 1 * 1 * ((1 * 1) *"
  {
    var a, m, b, z := Infix(Product()), [Function('*'), Function('(')], Infix(Pair()), [Function('*')];
    var ga, gm, gb, gz := ShowGaps(Product()), [" ", " ", ""], ShowGaps(Pair()), [" ", ""];
    Layout5Head();
    Layout5Pair();
    assert Layout(z, gz) == " *";
    LayoutConcat(a + m + b, Glue(Glue(ga, gm), gb), z, gz);
    Joins5();
  }

  lemma Joins5()
    ensures "1 * 1 * 1" + " * (" == "1 * 1 * 1 * ("
    ensures "1 * 1 * 1 * (" + "(1 * 1)" == "1 * 1 * 1 * ((1 * 1)"
    ensures "1 * 1 * 1 * ((1 * 1)" + " *" == "1 * 1 * 1 * ((1 * 1) *"
  {
  }

  /** The layout of `1 * 1 * 1 * (`. */
  lemma Layout5Head()
    ensures Layout(Infix(Product()) + [Function('*'), Function('(')], Glue(ShowGaps(Product()), [" ", " ", ""]))
         == "1 * 1 * 1 * ("
  {
    var a, m := Infix(Product()), [Function('*'), Function('(')];
    var ga, gm := ShowGaps(Product()), [" ", " ", ""];
    ShowIsLayout(Product());
    Shown5();
    assert Layout(m, gm) == " * (" by {
      assert m[1..] == [Function('(')] && gm[1..] == [" ", ""];
    }
    LayoutConcat(a, ga, m, gm);
    Joins5();
  }

  /** The layout of `1 * 1 * 1 * ((1 * 1)`. */
  lemma Layout5Pair()
    ensures Layout(Infix(Product()) + [Function('*'), Function('(')] + Infix(Pair()),
                   Glue(Glue(ShowGaps(Product()), [" ", " ", ""]), ShowGaps(Pair())))
         == "1 * 1 * 1 * ((1 * 1)"
  {
    var am, gam := Infix(Product()) + [Function('*'), Function('(')], Glue(ShowGaps(Product()), [" ", " ", ""]);
    Layout5Head();
    ShowIsLayout(Pair());
    Shown5();
    LayoutConcat(am, gam, Infix(Pair()), ShowGaps(Pair()));
    Joins5();
  }

  lemma Separating5()
    ensures forall i | 0 <= i < |Tokens5()| :: Wellformed(Tokens5()[i])
    ensures Separating(Tokens5(), Gaps5())
  {
    var a, b := Infix(Product()), Infix(Pair());
    Pieces5();
    InfixWellformed(Product());
    InfixWellformed(Pair());
    var m := [Function('*'), Function('(')];
    WellformedConcat(a, m);
    WellformedConcat(a + m, b);
    WellformedConcat(a + m + b, [Function('*')]);
    var ga, gb := ShowGaps(Product()), ShowGaps(Pair());
    ShowGapsBlank(Product());
    ShowGapsBlank(Pair());
    GlueBlank(ga, [" ", " ", ""]);
    GlueBlank(Glue(ga, [" ", " ", ""]), gb);
    GlueBlank(Glue(Glue(ga, [" ", " ", ""]), gb), [" ", ""]);
    InfixApart(Product());
    InfixApart(Pair());
    ApartAround([], '(', b);
    assert [] + [Function('(')] + b == [Function('(')] + b;
    ApartAround(a, '*', [Function('(')] + b);
    ApartAround(a + [Function('*')] + ([Function('(')] + b), '*', []);
    assert a + [Function('*')] + ([Function('(')] + b) + [Function('*')] + [] == Tokens5();
  }

  lemma ProductCounts()
    ensures multiset(Infix(Product()))[Function('(')] == 0
    ensures multiset(Infix(Product()))[Function(')')] == 0
  {
    Pieces5();
  }

  lemma PairCounts()
    ensures multiset(Infix(Pair()))[Function('(')] == 1
    ensures multiset(Infix(Pair()))[Function(')')] == 1
  {
    Pieces5();
  }

  /** Two `(` against one `)`. */
  lemma Counts5()
    ensures multiset(Tokens5())[Function('(')] == 2 && multiset(Tokens5())[Function(')')] == 1
  {
    var a, m, b, z := Infix(Product()), [Function('*'), Function('(')], Infix(Pair()), [Function('*')];
    ProductCounts();
    PairCounts();
    assert multiset(Tokens5()) == multiset(a) + multiset(m) + multiset(b) + multiset(z);
  }

  lemma Unbalanced5()
    ensures !Balanced(Tokens5())
  {
    Counts5();
    if Balanced(Tokens5()) {
      BalancedCounts(Tokens5(), 0);
    }
  }

  /** `1 * 1 * 1 * ((1 * 1) *` leaves a `(` open: the conversion reports an
      unbalanced parenthesis. */
  lemma Example5()
    ensures Convert("1 * 1 * 1 * ((1 * 1) *") == Err(UnbalancedParenthesis)
  {
    var s := "1 * 1 * 1 * ((1 * 1) *";
    Layout5();
    Separating5();
    Unbalanced5();
    TokenizeLayout(Tokens5(), Gaps5());
    ConvertAgreesWithTokens(s, 0, State([], []));
    ConversionProperties(Tokens5());
  }

  /** `3 $ 4`: the tokenizer meets `$` after reading `3`. */
  lemma Example6()
    ensures Convert("3 $ 4") == Err(InvalidCharacter)
  {
    var s := "3 $ 4";
    assert SkipDelimiters(s, 0) == 0 && ReadDigits(s, 0) == 1 && s[0..1] == "3";
    assert Next(s, 0) == Ok(Produced(Number("3"), 1));
    assert SkipDelimiters(s, 1) == 2;
    assert Next(s, 1) == Err(InvalidCharacter);
  }

  /** `4 / (2 - 2)` converts, and its evaluation stops at the zero divisor. */
  lemma Example7()
    ensures Convert("4 / (2 - 2)")
            == Ok([Number("4"), Number("2"), Number("2"), Function('-'), Function('/')])
    ensures Evaluate([Number("4"), Number("2"), Number("2"), Function('-'), Function('/')])
            == Err(DivisionByZero)
  {
    var d := Group(Binary('-', Literal("2"), Literal("2")));
    var e := Binary('/', Literal("4"), d);
    assert WellFormed(e);
    assert Show(e) == "4 / (2 - 2)";
    assert Postfix(e) == [Number("4"), Number("2"), Number("2"), Function('-'), Function('/')];
    LiteralValue("4", 4);
    LiteralValue("2", 2);
    BinaryValue('-', Literal("2"), Literal("2"), 2, 2);
    assert Value(d) == Ok(0);
    BinaryValue('/', Literal("4"), d, 4, 0);
    ShownEndToEnd(e);
  }

  /** Blank input converts to no tokens, and no tokens is not an expression. */
  lemma EmptyInput()
    ensures Convert("") == Ok([]) && Convert(" \t") == Ok([])
    ensures Evaluate([]) == Err(MalformedExpression)
  {
    assert Next(" \t", 0) == Ok(Done);
  }
}
