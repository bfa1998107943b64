/** Correctness of the conversion and the evaluation on well-formed infix
    expressions: the converter turns the infix tokens of a parse tree into its
    postfix tokens, and evaluating those gives the tree's arithmetic value. */
module ShuntingYard {
  import opened Results
  import opened Tokens
  import opened Sequences
  import opened Converter
  import opened Evaluator
  import opened Expressions

  /** The operators still on the stack once the infix tokens of `e` are read:
      the operators down its right spine, the outermost at the bottom. */
  function Spine(e: Expr): seq<Token>
  {
    match e
    case Binary(op, _, r) => [Function(op)] + Spine(r)
    case _ => []
  }

  /** The output emitted while the infix tokens of `e` are read. */
  function Emitted(e: Expr): seq<Token>
  {
    match e
    case Literal(d) => [Number(d)]
    case Group(i) => Postfix(i)
    case Binary(_, l, r) => Postfix(l) + Emitted(r)
  }

  /** The stack's top (if any) ranks below `k`. */
  predicate Below(stack: seq<Token>, k: nat)
  {
    stack == [] || Priority(Last(stack)) < k
  }

  /** Arithmetic operators ranked `k` or more: what a flush for priority `k`
      pops, and never a parenthesis. */
  predicate Pending(sp: seq<Token>, k: nat)
  {
    forall i | 0 <= i < |sp| :: sp[i].Function? && IsArithmetic(sp[i].symbol) && Priority(sp[i]) >= k
  }

  lemma PendingHasNoParenthesis(sp: seq<Token>, k: nat)
    requires Pending(sp, k)
    ensures Function('(') !in sp
  {
  }

  /** The pending operators of a well-formed expression are arithmetic and
      rank at least as high as the expression itself. */
  lemma {:induction false} SpineIsPending(e: Expr)
    requires WellFormed(e)
    ensures Rank(e) >= 1
    ensures Pending(Spine(e), Rank(e))
  {
    match e
    case Literal(_) =>
    case Group(_) =>
    case Binary(op, l, r) =>
      SpineIsPending(r);
      var sp := Spine(e);
      assert sp == [Function(op)] + Spine(r);
      forall i | 0 <= i < |sp|
        ensures sp[i].Function? && IsArithmetic(sp[i].symbol) && Priority(sp[i]) >= Rank(e)
      {
        if i > 0 {
          assert sp[i] == Spine(r)[i - 1];
        }
      }
  }

  /** Popping the pending operators after the emitted output completes the
      postfix form. */
  lemma {:induction false} SpineCompletesPostfix(e: Expr)
    ensures Emitted(e) + Reverse(Spine(e)) == Postfix(e)
  {
    match e
    case Literal(_) =>
    case Group(_) =>
    case Binary(op, l, r) =>
      SpineCompletesPostfix(r);
      ReverseAppend([Function(op)], Spine(r));
      calc {
        Emitted(e) + Reverse(Spine(e));
        Postfix(l) + Emitted(r) + (Reverse(Spine(r)) + [Function(op)]);
        Postfix(l) + (Emitted(r) + Reverse(Spine(r))) + [Function(op)];
        Postfix(l) + Postfix(r) + [Function(op)];
      }
  }

  lemma {:induction false} RunAppend(a: seq<Token>, b: seq<Token>, st: State)
    ensures Run(a + b, st) == match Run(a, st) case Err(x) => Err(x) case Ok(mid) => Run(b, mid)
    decreases |a|
  {
    if a == [] {
      assert a + b == b;
    } else {
      assert (a + b)[0] == a[0];
      assert (a + b)[1..] == a[1..] + b;
      match Step(st, a[0])
      case Err(_) =>
      case Ok(st') => RunAppend(a[1..], b, st');
    }
  }

  /** Flushing for priority `p` pops exactly the pending operators ranked `p`
      or more and stops at a stack top ranked below `p`. */
  lemma {:induction false} FlushPending(st: seq<Token>, sp: seq<Token>, out: seq<Token>, p: nat)
    requires Below(st, p)
    requires forall i | 0 <= i < |sp| :: Priority(sp[i]) >= p
    ensures Flush(st + sp, out, p) == State(st, out + Reverse(sp))
    decreases |sp|
  {
    if sp == [] {
      assert st + sp == st;
    } else {
      var x := Last(sp);
      assert st + sp == (st + DropLast(sp)) + [x];
      assert Priority(x) >= p;
      FlushPending(st, DropLast(sp), out + [x], p);
      assert Reverse(sp) == [x] + Reverse(DropLast(sp));
    }
  }

  /** A `)` pops exactly the pending operators above the matching `(`. */
  lemma {:induction false} ClosePending(st: seq<Token>, sp: seq<Token>, out: seq<Token>)
    requires Function('(') !in sp
    ensures CloseGroup(st + [Function('(')] + sp, out) == Ok(State(st, out + Reverse(sp)))
    decreases |sp|
  {
    if sp == [] {
      assert st + [Function('(')] + sp == st + [Function('(')];
    } else {
      var x := Last(sp);
      assert st + [Function('(')] + sp == (st + [Function('(')] + DropLast(sp)) + [x];
      assert x in sp;
      assert Function('(') !in DropLast(sp) by {
        assert forall y | y in DropLast(sp) :: y in sp;
      }
      ClosePending(st, DropLast(sp), out + [x]);
      assert Reverse(sp) == [x] + Reverse(DropLast(sp));
    }
  }

  /** The Shunting-Yard invariant: reading the infix tokens of a well-formed
      expression over a stack whose top ranks below it leaves that stack in
      place, pushes the expression's pending operators and emits the rest of
      its postfix form. */
  lemma {:induction false} RunInfix(e: Expr, st: seq<Token>, out: seq<Token>)
    requires WellFormed(e)
    requires Below(st, Rank(e))
    ensures Run(Infix(e), State(st, out)) == Ok(State(st + Spine(e), out + Emitted(e)))
  {
    match e
    case Literal(d) =>
      RunCons(Number(d), [], State(st, out));
      assert Infix(e) == [Number(d)] + [];
      assert Step(State(st, out), Number(d)) == Ok(State(st, out + [Number(d)]));
      assert Run([], State(st, out + [Number(d)])) == Ok(State(st, out + [Number(d)]));
      assert st + Spine(e) == st;
    case Group(i) =>
      SpineIsPending(i);
      RunInfix(i, st + [Function('(')], out);
      RunGroup(i, st, out);
      assert st + Spine(e) == st;
    case Binary(op, l, r) =>
      SpineIsPending(l);
      SpineIsPending(r);
      RunInfix(l, st, out);
      RunInfix(r, st + [Function(op)], out + Postfix(l));
      RunBinary(e, st, out);
  }

  lemma RunCons(t: Token, ts: seq<Token>, st: State)
    ensures Step(st, t).Ok? ==> Run([t] + ts, st) == Run(ts, Step(st, t).value)
    ensures Step(st, t).Err? ==> Run([t] + ts, st) == Err(Step(st, t).error)
  {
    assert ([t] + ts)[0] == t;
    assert ([t] + ts)[1..] == ts;
  }

  lemma StepClose(st: State)
    ensures Step(st, Function(')')) == CloseGroup(st.stack, st.output)
  {
  }

  lemma StepOperator(st: State, c: char)
    requires IsArithmetic(c)
    ensures var f := Flush(st.stack, st.output, Priority(Function(c)));
            Step(st, Function(c)) == Ok(State(f.stack + [Function(c)], f.output))
  {
  }

  /** The flush before an operator ranked at most `l`'s rank pops all of `l`'s
      pending operators, completing its postfix form. */
  lemma FlushSpine(l: Expr, st: seq<Token>, out: seq<Token>, p: nat)
    requires Pending(Spine(l), Rank(l)) && p <= Rank(l)
    requires Below(st, p)
    ensures Flush(st + Spine(l), out + Emitted(l), p) == State(st, out + Postfix(l))
  {
    var sp := Spine(l);
    FlushPending(st, sp, out + Emitted(l), p);
    SpineCompletesPostfix(l);
    Associative(out, Emitted(l), Reverse(sp));
  }

  lemma Associative<T>(a: seq<T>, b: seq<T>, c: seq<T>)
    ensures a + b + c == a + (b + c)
  {
  }

  /** Entering a group: the `(` is stacked over whatever lay below. */
  lemma GroupOpens(x: seq<Token>, st: seq<Token>, out: seq<Token>)
    ensures Run([Function('(')] + x, State(st, out)) == Run(x, State(st + [Function('(')], out))
  {
    var open := Function('(');
    assert Step(State(st, out), open) == Ok(State(st + [open], out));
    RunCons(open, x, State(st, out));
  }

  /** Leaving a group: the `)` pops the group's pending operators and its `(`. */
  lemma GroupCloses(sp: seq<Token>, k: nat, st: seq<Token>, out: seq<Token>)
    requires Pending(sp, k)
    ensures Run([Function(')')], State(st + [Function('(')] + sp, out))
         == Ok(State(st, out + Reverse(sp)))
  {
    var close, s2 := Function(')'), State(st + [Function('(')] + sp, out);
    PendingHasNoParenthesis(sp, k);
    ClosePending(st, sp, out);
    StepClose(s2);
    RunCons(close, [], s2);
    assert [close] + [] == [close];
  }

  /** A parenthesised run whose inside leaves pending operators `sp` above
      its `(`. */
  lemma GroupRuns(x: seq<Token>, sp: seq<Token>, k: nat, st: seq<Token>, out: seq<Token>, em: seq<Token>, post: seq<Token>)
    requires Pending(sp, k)
    requires Run(x, State(st + [Function('(')], out)) == Ok(State(st + [Function('(')] + sp, out + em))
    requires em + Reverse(sp) == post
    ensures Run([Function('(')] + (x + [Function(')')]), State(st, out)) == Ok(State(st, out + post))
  {
    GroupOpens(x + [Function(')')], st, out);
    RunAppend(x, [Function(')')], State(st + [Function('(')], out));
    GroupCloses(sp, k, st, out + em);
    assert out + em + Reverse(sp) == out + post;
  }

  /** The group case of `RunInfix`, given the invariant for the inner expression. */
  lemma RunGroup(i: Expr, st: seq<Token>, out: seq<Token>)
    requires Pending(Spine(i), Rank(i))
    requires Run(Infix(i), State(st + [Function('(')], out))
          == Ok(State(st + [Function('(')] + Spine(i), out + Emitted(i)))
    ensures Run(Infix(Group(i)), State(st, out)) == Ok(State(st, out + Postfix(i)))
  {
    assert Infix(Group(i)) == [Function('(')] + (Infix(i) + [Function(')')]);
    SpineCompletesPostfix(i);
    GroupRuns(Infix(i), Spine(i), Rank(i), st, out, Emitted(i), Postfix(i));
  }

  /** The operator case of `RunInfix`, given the invariant for both operands. */
  lemma RunBinary(e: Expr, st: seq<Token>, out: seq<Token>)
    requires e.Binary? && WellFormed(e)
    requires Below(st, Rank(e))
    requires Pending(Spine(e.left), Rank(e.left))
    requires Run(Infix(e.left), State(st, out)) == Ok(State(st + Spine(e.left), out + Emitted(e.left)))
    requires Run(Infix(e.right), State(st + [Function(e.op)], out + Postfix(e.left)))
          == Ok(State(st + [Function(e.op)] + Spine(e.right), out + Postfix(e.left) + Emitted(e.right)))
    ensures Run(Infix(e), State(st, out)) == Ok(State(st + Spine(e), out + Emitted(e)))
  {
    var l, r, t := e.left, e.right, Function(e.op);
    var s0 := State(st, out);
    var s1 := State(st + Spine(l), out + Emitted(l));
    var s2 := State(st + [t], out + Postfix(l));
    var y := [t] + Infix(r);
    assert Run(Infix(e), s0) == Run(y, s1) by {
      assert Infix(e) == Infix(l) + y;
      RunAppend(Infix(l), y, s0);
    }
    assert Flush(s1.stack, s1.output, Priority(t)) == State(st, out + Postfix(l)) by {
      FlushSpine(l, st, out, Priority(t));
    }
    assert Step(s1, t) == Ok(s2) by {
      StepOperator(s1, e.op);
    }
    assert Run(y, s1) == Run(Infix(r), s2) by {
      RunCons(t, Infix(r), s1);
    }
    assert State(st + [t] + Spine(r), out + Postfix(l) + Emitted(r))
        == State(st + Spine(e), out + Emitted(e)) by {
      Associative(st, [t], Spine(r));
      Associative(out, Postfix(l), Emitted(r));
    }
  }

  /** The converter turns the infix tokens of a well-formed expression into
      its postfix tokens. */
  lemma ConvertsToPostfix(e: Expr)
    requires WellFormed(e)
    ensures ConvertTokens(Infix(e)) == Ok(Postfix(e))
  {
    RunInfix(e, [], []);
    SpineIsPending(e);
    SpineCompletesPostfix(e);
    assert [] + Spine(e) == Spine(e);
    assert [] + Emitted(e) == Emitted(e);
    PendingHasNoParenthesis(Spine(e), Rank(e));
  }

  /** Redundant parentheses change nothing: `(x)` converts as `x` does. */
  lemma GroupingIsInvisible(e: Expr)
    requires WellFormed(e)
    ensures ConvertTokens(Infix(Group(e))) == ConvertTokens(Infix(e))
  {
    ConvertsToPostfix(e);
    ConvertsToPostfix(Group(e));
  }

  lemma {:induction false} EvalStepsAppend(a: seq<Token>, b: seq<Token>, values: seq<int>)
    ensures EvalSteps(a + b, values)
         == match EvalSteps(a, values) case Err(x) => Err(x) case Ok(vs) => EvalSteps(b, vs)
    decreases |a|
  {
    if a == [] {
      assert a + b == b;
    } else {
      assert (a + b)[0] == a[0];
      assert (a + b)[1..] == a[1..] + b;
      match EvalToken(a[0], values)
      case Err(_) =>
      case Ok(vs) => EvalStepsAppend(a[1..], b, vs);
    }
  }

  /** Evaluating the postfix tokens of a well-formed expression over any value
      stack pushes the expression's value, or fails as the value does. */
  lemma {:induction false} EvalPostfix(e: Expr, values: seq<int>)
    requires WellFormed(e)
    ensures EvalSteps(Postfix(e), values)
         == match Value(e) case Err(x) => Err(x) case Ok(v) => Ok(values + [v])
  {
    match e
    case Literal(d) =>
      assert Postfix(e)[1..] == [];
    case Group(i) =>
      EvalPostfix(i, values);
    case Binary(op, l, r) =>
      EvalStepsAppend(Postfix(l) + Postfix(r), [Function(op)], values);
      EvalStepsAppend(Postfix(l), Postfix(r), values);
      EvalPostfix(l, values);
      match Value(l)
      case Err(_) =>
      case Ok(a) =>
        EvalPostfix(r, values + [a]);
        match Value(r)
        case Err(_) =>
        case Ok(b) =>
          var vs := values + [a] + [b];
          assert vs[|vs| - 1] == b && vs[|vs| - 2] == a && vs[..|vs| - 2] == values;
          assert [Function(op)][1..] == [];
  }

  /** Evaluating the postfix form of a well-formed expression is its value. */
  lemma EvaluatesToValue(e: Expr)
    requires WellFormed(e)
    ensures Evaluate(Postfix(e)) == Value(e)
  {
    EvalPostfix(e, []);
  }
}
