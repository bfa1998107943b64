/** What the conversion promises on every tokenized input, well-formed or not:
    the operator stack only ever holds `(` and operators; it fails exactly
    when the parentheses are unbalanced; on success the output is the input
    without parentheses, reordered, with the numbers in their input order. */
module ConverterProperties {
  import opened Results
  import opened Tokens
  import opened Sequences
  import opened Converter

  /** The operator stack holds `(` and the four operators: never a number, never `)`. */
  predicate OperatorStack(stack: seq<Token>)
  {
    forall i | 0 <= i < |stack| :: stack[i].Function? && (stack[i].symbol == '(' || IsArithmetic(stack[i].symbol))
  }

  predicate AllArithmetic(s: seq<Token>)
  {
    forall i | 0 <= i < |s| :: s[i].Function? && IsArithmetic(s[i].symbol)
  }

  predicate ParenFree(s: seq<Token>)
  {
    forall i | 0 <= i < |s| :: !IsParen(s[i])
  }

  /** The state invariant of the conversion loop. */
  predicate Sound(st: State)
  {
    OperatorStack(st.stack) && ParenFree(st.output)
  }

  /** The tokens that are not parentheses, in order. */
  function NonParen(ts: seq<Token>): seq<Token>
    decreases |ts|
  {
    if ts == [] then [] else (if IsParen(ts[0]) then [] else [ts[0]]) + NonParen(ts[1..])
  }

  /** The number tokens, in order. */
  function Numbers(ts: seq<Token>): seq<Token>
    decreases |ts|
  {
    if ts == [] then [] else (if ts[0].Number? then [ts[0]] else []) + Numbers(ts[1..])
  }

  /** How many `(` a stack holds. */
  function OpenCount(stack: seq<Token>): nat
  {
    multiset(stack)[Function('(')]
  }

  /** The parenthesis depth walk: with `d` groups open, every `)` closes one
      and none is left open at the end. */
  predicate BalancedFrom(ts: seq<Token>, d: nat)
    decreases |ts|
  {
    if ts == [] then d == 0
    else if ts[0] == Function('(') then BalancedFrom(ts[1..], d + 1)
    else if ts[0] == Function(')') then d > 0 && BalancedFrom(ts[1..], d - 1)
    else BalancedFrom(ts[1..], d)
  }

  predicate Balanced(ts: seq<Token>)
  {
    BalancedFrom(ts, 0)
  }

  lemma {:induction false} NonParenAppend(a: seq<Token>, b: seq<Token>)
    ensures NonParen(a + b) == NonParen(a) + NonParen(b)
    decreases |a|
  {
    if a != [] {
      assert (a + b)[1..] == a[1..] + b;
      NonParenAppend(a[1..], b);
    } else {
      assert a + b == b;
    }
  }

  lemma {:induction false} NumbersAppend(a: seq<Token>, b: seq<Token>)
    ensures Numbers(a + b) == Numbers(a) + Numbers(b)
    decreases |a|
  {
    if a != [] {
      assert (a + b)[1..] == a[1..] + b;
      NumbersAppend(a[1..], b);
    } else {
      assert a + b == b;
    }
  }

  lemma {:induction false} ArithmeticFilters(s: seq<Token>)
    requires AllArithmetic(s)
    ensures NonParen(s) == s && Numbers(s) == []
    decreases |s|
  {
    if s != [] {
      ArithmeticFilters(s[1..]);
      assert s == [s[0]] + s[1..];
    }
  }

  /** The tokens popped off a sound stack above position `k`, when none is a
      `(`, are operators. */
  lemma PoppedArithmetic(stack: seq<Token>, k: nat)
    requires OperatorStack(stack) && k <= |stack|
    requires forall i | k <= i < |stack| :: !IsOpen(stack[i])
    ensures AllArithmetic(stack[k..])
  {
    var p := stack[k..];
    forall i | 0 <= i < |p|
      ensures p[i].Function? && IsArithmetic(p[i].symbol)
    {
      assert p[i] == stack[k + i];
    }
  }

  /** Popped operators, in pop order, add no parenthesis, no number and no
      `(` to wherever they go. */
  lemma PoppedFacts(p: seq<Token>)
    requires AllArithmetic(p)
    ensures NonParen(p) == p
    ensures NonParen(Reverse(p)) == Reverse(p)
    ensures Numbers(Reverse(p)) == []
    ensures ParenFree(Reverse(p))
    ensures multiset(Reverse(p)) == multiset(p)
    ensures multiset(p)[Function('(')] == 0
  {
    ArithmeticFilters(p);
    assert AllArithmetic(Reverse(p)) by {
      forall i | 0 <= i < |p|
        ensures Reverse(p)[i].Function? && IsArithmetic(Reverse(p)[i].symbol)
      {
        assert Reverse(p)[i] == p[|p| - 1 - i];
      }
    }
    ArithmeticFilters(Reverse(p));
    ArithmeticParenFree(Reverse(p));
    ReverseMultiset(p);
    ArithmeticHasNoOpen(p);
  }

  /** Cutting a stack at `k` splits its filters and its `(` count. */
  lemma SplitStack(stack: seq<Token>, k: nat)
    requires k <= |stack|
    ensures NonParen(stack) == NonParen(stack[..k]) + NonParen(stack[k..])
    ensures OpenCount(stack) == OpenCount(stack[..k]) + multiset(stack[k..])[Function('(')]
  {
    assert stack == stack[..k] + stack[k..];
    NonParenAppend(stack[..k], stack[k..]);
  }

  /** A stack whose top above `k` is all operators: those pass the filter
      and hold no `(`. */
  lemma SplitAbove(stack: seq<Token>, k: nat)
    requires k <= |stack| && AllArithmetic(stack[k..])
    ensures NonParen(stack) == NonParen(stack[..k]) + stack[k..]
    ensures OpenCount(stack) == OpenCount(stack[..k])
  {
    SplitStack(stack, k);
    ArithmeticFilters(stack[k..]);
    ArithmeticHasNoOpen(stack[k..]);
  }

  /** A `(` pushed on a stack adds no output token and one open group. */
  lemma PushedOpenParen(a: seq<Token>, pushed: seq<Token>)
    requires pushed == a + [Function('(')]
    ensures NonParen(pushed) == NonParen(a)
    ensures OpenCount(pushed) == OpenCount(a) + 1
  {
    NonParenAppend(a, [Function('(')]);
    assert NonParen([Function('(')]) == [] + NonParen([]);
    assert multiset(pushed) == multiset(a) + multiset{Function('(')};
  }

  /** A stack with a `(` at `k` and only operators above it. */
  lemma SplitAtOpen(stack: seq<Token>, k: nat)
    requires k < |stack| && stack[k] == Function('(') && AllArithmetic(stack[k + 1..])
    ensures NonParen(stack) == NonParen(stack[..k]) + stack[k + 1..]
    ensures OpenCount(stack) == OpenCount(stack[..k]) + 1
  {
    var below, upto := stack[..k], stack[..k + 1];
    SplitAbove(stack, k + 1);
    assert upto == below + [Function('(')];
    PushedOpenParen(below, upto);
  }

  lemma OpenMembership(stack: seq<Token>)
    ensures Function('(') in stack <==> OpenCount(stack) > 0
  {
  }

  lemma ArithmeticParenFree(s: seq<Token>)
    requires AllArithmetic(s)
    ensures ParenFree(s)
  {
    forall i | 0 <= i < |s|
      ensures !IsParen(s[i])
    {
      assert IsArithmetic(s[i].symbol);
    }
  }

  lemma ArithmeticHasNoOpen(s: seq<Token>)
    requires AllArithmetic(s)
    ensures multiset(s)[Function('(')] == 0
  {
  }

  lemma SoundPrefix(stack: seq<Token>, k: nat)
    requires OperatorStack(stack) && k <= |stack|
    ensures OperatorStack(stack[..k])
  {
    assert forall i | 0 <= i < k :: stack[..k][i] == stack[i];
  }

  lemma ParenFreeAppend(a: seq<Token>, b: seq<Token>)
    requires ParenFree(a) && ParenFree(b)
    ensures ParenFree(a + b)
  {
    forall i | 0 <= i < |a + b|
      ensures !IsParen((a + b)[i])
    {
      if i >= |a| {
        assert (a + b)[i] == b[i - |a|];
      }
    }
  }

  /** What one conversion step from `st` over `t` to `n` keeps: the state
      stays sound, every non-parenthesis token ends up on the output or the
      stack exactly once, numbers reach the output in order, and the stack's
      `(` count follows the parenthesis depth. */
  ghost predicate Preserved(st: State, t: Token, n: State)
  {
    && Sound(n)
    && multiset(n.output) + multiset(NonParen(n.stack))
       == multiset(st.output) + multiset(NonParen(st.stack)) + multiset(NonParen([t]))
    && Numbers(n.output) == Numbers(st.output) + Numbers([t])
    && OpenCount(n.stack) + (if t == Function(')') then 1 else 0)
       == OpenCount(st.stack) + (if t == Function('(') then 1 else 0)
  }

  /** One conversion step fails exactly on a `)` with no `(` on the stack, and
      otherwise keeps the invariant. */
  lemma StepPreserves(st: State, t: Token)
    requires Sound(st) && Wellformed(t)
    ensures Step(st, t).Ok? <==> (t == Function(')') ==> OpenCount(st.stack) > 0)
    ensures Step(st, t).Err? ==> Step(st, t).error == UnbalancedParenthesis
    ensures Step(st, t).Ok? ==> Preserved(st, t, Step(st, t).value)
  {
    assert NonParen([t]) == (if IsParen(t) then [] else [t]) + NonParen([]);
    assert Numbers([t]) == (if t.Number? then [t] else []) + Numbers([]);
    match t
    case Number(_) =>
      NumbersAppend(st.output, [t]);
      ParenFreeAppend(st.output, [t]);
    case Function(c) =>
      if c == '(' {
        PreserveOpen(st);
      } else if c == ')' {
        PreserveClose(st);
      } else {
        PreserveOperator(st, c);
      }
  }

  lemma PreserveOpen(st: State)
    requires Sound(st)
    ensures Preserved(st, Function('('), State(st.stack + [Function('(')], st.output))
  {
    var t := Function('(');
    var n := State(st.stack + [t], st.output);
    assert Sound(n) by {
      assert forall i | 0 <= i < |st.stack| :: (st.stack + [t])[i] == st.stack[i];
    }
    assert NonParen(n.stack) == NonParen(st.stack) by {
      NonParenAppend(st.stack, [t]);
      assert NonParen([t]) == [] + NonParen([]);
    }
    assert NonParen([t]) == [] + NonParen([]);
    assert Numbers([t]) == [] + Numbers([]);
    assert OpenCount(n.stack) == OpenCount(st.stack) + 1 by {
      assert multiset(n.stack) == multiset(st.stack) + multiset{t};
    }
  }

  lemma PreserveClose(st: State)
    requires Sound(st)
    ensures CloseGroup(st.stack, st.output).Ok? <==> OpenCount(st.stack) > 0
    ensures CloseGroup(st.stack, st.output).Ok? ==>
              Preserved(st, Function(')'), CloseGroup(st.stack, st.output).value)
  {
    OpenMembership(st.stack);
    var r := CloseGroup(st.stack, st.output);
    if r.Ok? {
      var k := |r.value.stack|;
      ClosedAt(st.stack, st.output, k);
      ClosedGroup(st, k);
    }
  }

  /** The shape CloseGroup leaves behind, restated for `ClosedGroup`. */
  lemma ClosedAt(stack: seq<Token>, output: seq<Token>, k: nat)
    requires OperatorStack(stack)
    requires CloseGroup(stack, output).Ok? && k == |CloseGroup(stack, output).value.stack|
    ensures k < |stack| && stack[k] == Function('(') && AllArithmetic(stack[k + 1..])
    ensures CloseGroup(stack, output).value == State(stack[..k], output + Reverse(stack[k + 1..]))
  {
    PoppedArithmetic(stack, k + 1);
  }

  /** Closing a group whose `(` sits at `k` keeps the invariant. */
  lemma ClosedGroup(st: State, k: nat)
    requires Sound(st) && k < |st.stack| && st.stack[k] == Function('(')
    requires AllArithmetic(st.stack[k + 1..])
    ensures Preserved(st, Function(')'), State(st.stack[..k], st.output + Reverse(st.stack[k + 1..])))
  {
    var t := Function(')');
    var stack, out := st.stack, st.output;
    var p := stack[k + 1..];
    var n := State(stack[..k], out + Reverse(p));
    PoppedFacts(p);
    assert Sound(n) by {
      SoundPrefix(stack, k);
      ParenFreeAppend(out, Reverse(p));
    }
    SplitAtOpen(stack, k);
    assert NonParen([t]) == [] + NonParen([]);
    assert multiset(n.output) == multiset(out) + multiset(p);
    assert Numbers(n.output) == Numbers(out) + Numbers([t]) by {
      NumbersAppend(out, Reverse(p));
      assert Numbers([t]) == [] + Numbers([]);
    }
  }

  lemma PreserveOperator(st: State, c: char)
    requires Sound(st) && IsArithmetic(c)
    ensures var t := Function(c);
            var f := Flush(st.stack, st.output, Priority(t));
            Preserved(st, t, State(f.stack + [t], f.output))
  {
    var f := Flush(st.stack, st.output, Priority(Function(c)));
    var k := |f.stack|;
    assert AllArithmetic(st.stack[k..]) by {
      assert forall i | k <= i < |st.stack| :: !IsOpen(st.stack[i]);
      PoppedArithmetic(st.stack, k);
    }
    PushedOperator(st, k, c);
  }

  /** Popping the operators above `k` and pushing the operator `c` keeps the
      invariant. */
  lemma PushedOperator(st: State, k: nat, c: char)
    requires Sound(st) && k <= |st.stack| && IsArithmetic(c)
    requires AllArithmetic(st.stack[k..])
    ensures Preserved(st, Function(c),
                      State(st.stack[..k] + [Function(c)], st.output + Reverse(st.stack[k..])))
  {
    PushedSound(st, k, c);
    PushedMoves(st.stack, st.output, k, c);
    PushedNumbers(st.output, st.stack[k..], c);
    PushedOpenCount(st.stack, k, c);
  }

  lemma PushedSound(st: State, k: nat, c: char)
    requires Sound(st) && k <= |st.stack| && IsArithmetic(c)
    requires AllArithmetic(st.stack[k..])
    ensures Sound(State(st.stack[..k] + [Function(c)], st.output + Reverse(st.stack[k..])))
  {
    var lower := st.stack[..k];
    PoppedFacts(st.stack[k..]);
    SoundPrefix(st.stack, k);
    ParenFreeAppend(st.output, Reverse(st.stack[k..]));
    assert forall i | 0 <= i < k :: (lower + [Function(c)])[i] == lower[i];
  }

  lemma PushedMoves(stack: seq<Token>, out: seq<Token>, k: nat, c: char)
    requires k <= |stack| && IsArithmetic(c) && AllArithmetic(stack[k..])
    ensures multiset(out + Reverse(stack[k..])) + multiset(NonParen(stack[..k] + [Function(c)]))
            == multiset(out) + multiset(NonParen(stack)) + multiset(NonParen([Function(c)]))
  {
    var t := Function(c);
    PushedParts(stack, out, k, c);
    MovesRegroup(multiset(out + Reverse(stack[k..])), multiset(NonParen(stack[..k] + [t])),
                 multiset(NonParen(stack)), multiset(NonParen([t])),
                 multiset(out), multiset(stack[k..]), multiset(NonParen(stack[..k])), multiset([t]));
  }

  lemma PushedParts(stack: seq<Token>, out: seq<Token>, k: nat, c: char)
    requires k <= |stack| && IsArithmetic(c) && AllArithmetic(stack[k..])
    ensures multiset(out + Reverse(stack[k..])) == multiset(out) + multiset(stack[k..])
    ensures multiset(NonParen(stack[..k] + [Function(c)])) == multiset(NonParen(stack[..k])) + multiset([Function(c)])
    ensures multiset(NonParen(stack)) == multiset(NonParen(stack[..k])) + multiset(stack[k..])
    ensures multiset(NonParen([Function(c)])) == multiset([Function(c)])
  {
    ReversedOnto(out, stack[k..]);
    OperatorOnto(stack[..k], c);
    SplitAbove(stack, k);
  }

  lemma ReversedOnto(out: seq<Token>, p: seq<Token>)
    ensures multiset(out + Reverse(p)) == multiset(out) + multiset(p)
  {
    ReverseMultiset(p);
  }

  lemma OperatorOnto(lower: seq<Token>, c: char)
    requires IsArithmetic(c)
    ensures NonParen([Function(c)]) == [Function(c)]
    ensures NonParen(lower + [Function(c)]) == NonParen(lower) + [Function(c)]
  {
    assert NonParen([Function(c)]) == [Function(c)] + NonParen([]);
    NonParenAppend(lower, [Function(c)]);
  }

  lemma MovesRegroup<T>(emitted: multiset<T>, kept: multiset<T>, before: multiset<T>, pushed: multiset<T>,
                        o: multiset<T>, p: multiset<T>, l: multiset<T>, t: multiset<T>)
    requires emitted == o + p && kept == l + t && before == l + p && pushed == t
    ensures emitted + kept == o + before + pushed
  {
  }

  lemma PushedNumbers(out: seq<Token>, p: seq<Token>, c: char)
    requires IsArithmetic(c) && AllArithmetic(p)
    ensures Numbers(out + Reverse(p)) == Numbers(out) + Numbers([Function(c)])
  {
    PoppedFacts(p);
    NumbersAppend(out, Reverse(p));
    assert Numbers([Function(c)]) == [] + Numbers([]);
  }

  lemma PushedOpenCount(stack: seq<Token>, k: nat, c: char)
    requires k <= |stack| && IsArithmetic(c) && AllArithmetic(stack[k..])
    ensures OpenCount(stack[..k] + [Function(c)]) == OpenCount(stack)
  {
    SplitAbove(stack, k);
    assert multiset(stack[..k] + [Function(c)]) == multiset(stack[..k]) + multiset{Function(c)};
  }

  /** A sound stack with no `(` left holds only operators. */
  lemma StackWithoutOpen(stack: seq<Token>)
    requires OperatorStack(stack) && Function('(') !in stack
    ensures AllArithmetic(stack)
  {
    forall i | 0 <= i < |stack|
      ensures stack[i].Function? && IsArithmetic(stack[i].symbol)
    {
      assert stack[i] in stack;
    }
  }

  lemma {:induction false} Uncons(ts: seq<Token>)
    requires ts != []
    ensures NonParen(ts) == NonParen([ts[0]]) + NonParen(ts[1..])
    ensures Numbers(ts) == Numbers([ts[0]]) + Numbers(ts[1..])
  {
    assert ts == [ts[0]] + ts[1..];
    NonParenAppend([ts[0]], ts[1..]);
    NumbersAppend([ts[0]], ts[1..]);
  }

  /** From a sound state, the rest of the conversion succeeds exactly when the
      remaining tokens close every group open on the stack and no more, and
      its only failure is an unbalanced parenthesis. */
  lemma {:induction false} CompleteBalanced(ts: seq<Token>, st: State)
    requires Sound(st) && forall i | 0 <= i < |ts| :: Wellformed(ts[i])
    ensures Complete(ts, st).Ok? <==> BalancedFrom(ts, OpenCount(st.stack))
    ensures Complete(ts, st).Err? ==> Complete(ts, st).error == UnbalancedParenthesis
    decreases |ts|
  {
    if ts == [] {
      OpenMembership(st.stack);
    } else {
      var t := ts[0];
      StepPreserves(st, t);
      match Step(st, t)
      case Err(_) =>
      case Ok(n) =>
        assert Complete(ts, st) == Complete(ts[1..], n);
        WellformedTail(ts);
        CompleteBalanced(ts[1..], n);
    }
  }

  /** The final drain of a sound state with no `(` left. */
  lemma DrainAccounts(st: State)
    requires Sound(st) && Function('(') !in st.stack
    ensures var out := st.output + Reverse(st.stack);
            && ParenFree(out)
            && multiset(out) == multiset(st.output) + multiset(NonParen(st.stack))
            && Numbers(out) == Numbers(st.output)
  {
    StackWithoutOpen(st.stack);
    PoppedFacts(st.stack);
    ParenFreeAppend(st.output, Reverse(st.stack));
    NumbersAppend(st.output, Reverse(st.stack));
  }

  /** One step's token accounting composed with the rest of the run's. */
  lemma AccountsStep(before: multiset<Token>, here: multiset<Token>, ts: seq<Token>, out: seq<Token>)
    requires ts != []
    requires here == before + multiset(NonParen([ts[0]]))
    requires multiset(out) == here + multiset(NonParen(ts[1..]))
    ensures multiset(out) == before + multiset(NonParen(ts))
  {
    Uncons(ts);
    SumRegroup(multiset(out), here, before, multiset(NonParen([ts[0]])), multiset(NonParen(ts[1..])));
  }

  /** One step's number order composed with the rest of the run's. */
  lemma NumbersStep(before: seq<Token>, here: seq<Token>, ts: seq<Token>, out: seq<Token>)
    requires ts != []
    requires Numbers(here) == Numbers(before) + Numbers([ts[0]])
    requires Numbers(out) == Numbers(here) + Numbers(ts[1..])
    ensures Numbers(out) == Numbers(before) + Numbers(ts)
  {
    Uncons(ts);
    ConcatRegroup(Numbers(out), Numbers(here), Numbers(before), Numbers([ts[0]]), Numbers(ts[1..]));
  }

  lemma ConcatRegroup<T>(out: seq<T>, here: seq<T>, before: seq<T>, step: seq<T>, rest: seq<T>)
    requires out == here + rest && here == before + step
    ensures out == before + (step + rest)
  {
  }

  lemma SumRegroup<T>(out: multiset<T>, here: multiset<T>, before: multiset<T>, step: multiset<T>, rest: multiset<T>)
    requires out == here + rest && here == before + step
    ensures out == before + (step + rest)
  {
  }

  /** From a sound state, a successful conversion emits a parenthesis-free
      output that holds every non-parenthesis token once (those already
      emitted, those stacked, those still to come), with the numbers in order. */
  lemma {:induction false} CompleteAccounts(ts: seq<Token>, st: State)
    requires Sound(st) && forall i | 0 <= i < |ts| :: Wellformed(ts[i])
    ensures Complete(ts, st).Ok? ==>
              && ParenFree(Complete(ts, st).value)
              && multiset(Complete(ts, st).value)
                 == multiset(st.output) + multiset(NonParen(st.stack)) + multiset(NonParen(ts))
              && Numbers(Complete(ts, st).value) == Numbers(st.output) + Numbers(ts)
    decreases |ts|
  {
    if ts == [] {
      if Complete(ts, st).Ok? {
        DrainAccounts(st);
        assert NonParen(ts) == [] && Numbers(ts) == [];
      }
    } else {
      var t := ts[0];
      StepPreserves(st, t);
      match Step(st, t)
      case Err(_) =>
      case Ok(n) =>
        assert Complete(ts, st) == Complete(ts[1..], n);
        WellformedTail(ts);
        CompleteAccounts(ts[1..], n);
        if Complete(ts, st).Ok? {
          AccountsCons(ts, st, n, Complete(ts, st).value);
        }
    }
  }

  /** The accounting of the rest of a run, from the state after the first
      token, extended to the whole run. */
  lemma AccountsCons(ts: seq<Token>, st: State, n: State, out: seq<Token>)
    requires ts != [] && Preserved(st, ts[0], n)
    requires multiset(out) == multiset(n.output) + multiset(NonParen(n.stack)) + multiset(NonParen(ts[1..]))
    requires Numbers(out) == Numbers(n.output) + Numbers(ts[1..])
    ensures multiset(out) == multiset(st.output) + multiset(NonParen(st.stack)) + multiset(NonParen(ts))
    ensures Numbers(out) == Numbers(st.output) + Numbers(ts)
  {
    AccountsStep(multiset(st.output) + multiset(NonParen(st.stack)),
                 multiset(n.output) + multiset(NonParen(n.stack)), ts, out);
    NumbersStep(st.output, n.output, ts, out);
  }

  /** The conversion of a tokenized expression: it succeeds exactly on
      balanced parentheses, otherwise reports an unbalanced parenthesis; its
      output is the input without parentheses, as a permutation, with the
      numbers in input order. */
  lemma ConversionProperties(ts: seq<Token>)
    requires forall i | 0 <= i < |ts| :: Wellformed(ts[i])
    ensures ConvertTokens(ts).Ok? <==> Balanced(ts)
    ensures ConvertTokens(ts).Err? ==> ConvertTokens(ts).error == UnbalancedParenthesis
    ensures ConvertTokens(ts).Ok? ==>
              && ParenFree(ConvertTokens(ts).value)
              && multiset(ConvertTokens(ts).value) == multiset(NonParen(ts))
              && |ConvertTokens(ts).value| == |NonParen(ts)|
              && Numbers(ConvertTokens(ts).value) == Numbers(ts)
  {
    var st := State([], []);
    assert Sound(st);
    CompleteBalanced(ts, st);
    CompleteAccounts(ts, st);
    if ConvertTokens(ts).Ok? {
      var out := ConvertTokens(ts).value;
      assert |out| == |multiset(out)| && |NonParen(ts)| == |multiset(NonParen(ts))|;
    }
  }
}
