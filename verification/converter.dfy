/** `convert_rpn` (stack/main.cpp): the simplified Shunting-Yard conversion from
    infix tokens to postfix tokens. The functions below state it over an
    abstract operator stack (a sequence whose last element is the top); the
    methods at the end run it over the bounded array stack the source uses. */
module Converter {
  import opened Results
  import opened Tokens
  import opened Sequences
  import opened Tokenizer
  import ArrayStacks

  /** The operator stack and the postfix output built so far. */
  datatype State = State(stack: seq<Token>, output: seq<Token>)

  /** The shape of a flush for priority `p`: what stays is a bottom part of
      the stack whose top ranks below `p`; what goes ranks `p` or more and is
      appended to the output in pop order. */
  predicate Flushed(stack: seq<Token>, output: seq<Token>, p: nat, r: State)
  {
    && |r.stack| <= |stack| && r.stack == stack[..|r.stack|]
    && (r.stack == [] || Priority(Last(r.stack)) < p)
    && (forall i | |r.stack| <= i < |stack| :: Priority(stack[i]) >= p)
    && r.output == output + Reverse(stack[|r.stack|..])
  }

  /** The operator flush before a new operator of priority `p` is pushed: every
      stacked token of priority `p` or more is popped, top first, onto the output. */
  function Flush(stack: seq<Token>, output: seq<Token>, p: nat): (r: State)
    ensures Flushed(stack, output, p, r)
    decreases |stack|
  {
    if stack != [] && Priority(Last(stack)) >= p then
      var r := Flush(DropLast(stack), output + [Last(stack)], p);
      FlushedPop(stack, output, p, r);
      r
    else
      State(stack, output)
  }

  /** The flush before a binary operator never pops a `(`: the parentheses
      rank below every operator, so each `(` stays where it was stacked. */
  lemma FlushKeepsOpens(stack: seq<Token>, output: seq<Token>, c: char)
    requires IsArithmetic(c)
    ensures var r := Flush(stack, output, Priority(Function(c)));
            && r.stack == stack[..|r.stack|]
            && Function('(') !in stack[|r.stack|..]
  {
    var r := Flush(stack, output, Priority(Function(c)));
    PriorityOrder(c);
    assert forall i | |r.stack| <= i < |stack| :: Priority(stack[i]) > 0;
  }

  /** A flush that popped the top and then flushed the rest. */
  lemma FlushedPop(stack: seq<Token>, output: seq<Token>, p: nat, r: State)
    requires stack != [] && Priority(Last(stack)) >= p
    requires Flushed(DropLast(stack), output + [Last(stack)], p, r)
    ensures Flushed(stack, output, p, r)
  {
    PopSuffix(stack, |r.stack|);
  }

  /** The shape of a successful `)`: the topmost `(` of the stack sits at
      `|r.stack|`, everything above it goes to the output in pop order, and the
      `(` itself is dropped. */
  predicate Closed(stack: seq<Token>, output: seq<Token>, r: State)
  {
    var k := |r.stack|;
    && k < |stack|
    && r.stack == stack[..k]
    && IsOpen(stack[k])
    && (forall i | k < i < |stack| :: !IsOpen(stack[i]))
    && r.output == output + Reverse(stack[k + 1..])
  }

  /** The `)` case: pop onto the output until a `(` is popped (and dropped);
      an emptied stack is an unbalanced parenthesis. */
  function CloseGroup(stack: seq<Token>, output: seq<Token>): (r: Result<State>)
    ensures r.Ok? <==> Function('(') in stack
    ensures r.Err? ==> r.error == UnbalancedParenthesis
    ensures r.Ok? ==> Closed(stack, output, r.value)
    decreases |stack|
  {
    if stack == [] then Err(UnbalancedParenthesis)
    else if IsOpen(Last(stack)) then Ok(State(DropLast(stack), output))
    else
      var r := CloseGroup(DropLast(stack), output + [Last(stack)]);
      assert stack == DropLast(stack) + [Last(stack)];
      if r.Ok? then
        ClosedPop(stack, output, r.value);
        r
      else
        r
  }

  /** A `)` that popped an operator off the top and then closed the rest. */
  lemma ClosedPop(stack: seq<Token>, output: seq<Token>, r: State)
    requires stack != [] && !IsOpen(Last(stack))
    requires Closed(DropLast(stack), output + [Last(stack)], r)
    ensures Closed(stack, output, r)
  {
    PopSuffix(stack, |r.stack| + 1);
  }

  /** End of input: pop everything onto the output; a `(` still stacked is an
      unbalanced parenthesis. */
  function Drain(stack: seq<Token>, output: seq<Token>): (r: Result<seq<Token>>)
    ensures r.Ok? <==> Function('(') !in stack
    ensures r.Ok? ==> r.value == output + Reverse(stack)
    ensures r.Err? ==> r.error == UnbalancedParenthesis
    decreases |stack|
  {
    if stack == [] then Ok(output)
    else if IsOpen(Last(stack)) then Err(UnbalancedParenthesis)
    else
      assert stack == DropLast(stack) + [Last(stack)];
      Drain(DropLast(stack), output + [Last(stack)])
  }

  /** One token of the conversion loop. */
  function Step(st: State, t: Token): (r: Result<State>)
    // only a `)` with no `(` beneath it fails
    ensures r.Err? <==> t == Function(')') && Function('(') !in st.stack
    ensures r.Err? ==> r.error == UnbalancedParenthesis
    // the output only ever grows at its end
    ensures r.Ok? ==> st.output <= r.value.output
    // a number goes straight out; an operator or `(` ends up on top of the stack
    ensures r.Ok? && t.Number? ==> r.value.output == st.output + [t]
    ensures r.Ok? && t.Function? && t.symbol != ')' ==> r.value.stack != [] && Last(r.value.stack) == t
  {
    match t
    case Number(_) => Ok(State(st.stack, st.output + [t]))
    case Function(c) =>
      if c == '(' then Ok(State(st.stack + [t], st.output))
      else if c == ')' then CloseGroup(st.stack, st.output)
      else
        var f := Flush(st.stack, st.output, Priority(t));
        Ok(State(f.stack + [t], f.output))
  }

  /** The conversion loop over a whole token sequence. */
  function Run(ts: seq<Token>, st: State): Result<State>
    decreases |ts|
  {
    if ts == [] then Ok(st)
    else
      match Step(st, ts[0])
      case Err(e) => Err(e)
      case Ok(st') => Run(ts[1..], st')
  }

  /** The conversion loop, then the final drain. */
  function Complete(ts: seq<Token>, st: State): Result<seq<Token>>
  {
    match Run(ts, st)
    case Err(e) => Err(e)
    case Ok(st') => Drain(st'.stack, st'.output)
  }

  /** Conversion of an already tokenized expression. */
  function ConvertTokens(ts: seq<Token>): Result<seq<Token>>
  {
    Complete(ts, State([], []))
  }

  /** The conversion as the source runs it: tokens are drawn from the tokenizer
      one at a time, so a tokenizer failure and a parenthesis failure are
      reported in the order they are met. */
  function ConvertFrom(s: string, pos: nat, st: State): (r: Result<seq<Token>>)
    requires pos <= |s|
    // the tokenizer's refusal and the two parenthesis checks are the only failures
    ensures r.Err? ==> r.error in {InvalidCharacter, UnbalancedParenthesis}
    // what was already emitted stays at the head of the output
    ensures r.Ok? ==> st.output <= r.value
    decreases |s| - pos
  {
    match Next(s, pos)
    case Err(e) => Err(e)
    case Ok(Done) => Drain(st.stack, st.output)
    case Ok(Produced(t, n)) =>
      match Step(st, t)
      case Err(e) => Err(e)
      case Ok(st') => ConvertFrom(s, n, st')
  }

  function Convert(expression: string): Result<seq<Token>>
  {
    ConvertFrom(expression, 0, State([], []))
  }

  // ---------------------------------------------------------------------
  // The conversion over the bounded array stack.

  /** The `)` block: `while (pop(inner) && inner != "(") emit(inner)`, then a
      throw unless the last value `inner` took is `(`. */
  method CloseGroupOnStack(stack: ArrayStacks.ArrayStack<Token>, tokens: seq<Token>)
    returns (ok: bool, stack': ArrayStacks.ArrayStack<Token>, tokens': seq<Token>)
    requires stack.Valid()
    ensures stack'.Valid() && stack'.capacity == stack.capacity
    ensures ok ==> CloseGroup(stack.Contents(), tokens) == Ok(State(stack'.Contents(), tokens'))
    ensures !ok ==> CloseGroup(stack.Contents(), tokens) == Err(UnbalancedParenthesis)
  {
    var inner := Number("");
    stack', tokens' := stack, tokens;
    while true
      invariant stack'.Valid() && stack'.capacity == stack.capacity
      invariant !IsOpen(inner)
      invariant CloseGroup(stack'.Contents(), tokens') == CloseGroup(stack.Contents(), tokens)
      decreases |stack'.Contents()|
    {
      var popped := ArrayStacks.Pop(stack', inner);
      inner, stack' := popped.1, popped.2;
      if !popped.0 || IsOpen(inner) {
        break;
      }
      tokens' := tokens' + [inner];
    }
    ok := IsOpen(inner);
  }

  /** The operator block before the push: while `peek` finds a token whose
      priority is not below `p`, pop it onto the output. */
  method FlushOnStack(stack: ArrayStacks.ArrayStack<Token>, tokens: seq<Token>, p: nat)
    returns (stack': ArrayStacks.ArrayStack<Token>, tokens': seq<Token>)
    requires stack.Valid()
    ensures stack'.Valid() && stack'.capacity == stack.capacity
    ensures Flush(stack.Contents(), tokens, p) == State(stack'.Contents(), tokens')
  {
    var inner := Number("");
    stack', tokens' := stack, tokens;
    while true
      invariant stack'.Valid() && stack'.capacity == stack.capacity
      invariant Flush(stack'.Contents(), tokens', p) == Flush(stack.Contents(), tokens, p)
      decreases |stack'.Contents()|
    {
      var peeked := ArrayStacks.Peek(stack', inner);
      inner := peeked.1;
      if !peeked.0 || Priority(inner) < p {
        break;
      }
      var popped := ArrayStacks.Pop(stack', inner);
      inner, stack' := popped.1, popped.2;
      tokens' := tokens' + [inner];
    }
  }

  /** The final `while (pop(t))` block: each popped token goes to the output,
      a `(` throws. */
  method DrainStack(stack: ArrayStacks.ArrayStack<Token>, tokens: seq<Token>)
    returns (r: Result<seq<Token>>)
    requires stack.Valid()
    ensures r == Drain(stack.Contents(), tokens)
  {
    var t := Number("");
    var stack', tokens' := stack, tokens;
    while true
      invariant stack'.Valid()
      invariant Drain(stack'.Contents(), tokens') == Drain(stack.Contents(), tokens)
      decreases |stack'.Contents()|
    {
      var popped := ArrayStacks.Pop(stack', t);
      t, stack' := popped.1, popped.2;
      if !popped.0 {
        break;
      }
      if IsOpen(t) {
        return Err(UnbalancedParenthesis);
      }
      tokens' := tokens' + [t];
    }
    return Ok(tokens');
  }

  /** `convert_rpn`: the operator stack is an array stack sized to the
      expression length; every token it holds consumed at least one character,
      so a push is never refused. */
  method ConvertRpn(expression: string) returns (r: Result<seq<Token>>)
    ensures r == Convert(expression)
  {
    var stack := ArrayStacks.New(|expression|, Number(""));
    var pos := 0;
    var tokens: seq<Token> := [];
    while true
      invariant pos <= |expression|
      invariant stack.Valid() && stack.capacity == |expression|
      invariant |stack.Contents()| <= pos
      invariant ConvertFrom(expression, pos, State(stack.Contents(), tokens)) == Convert(expression)
      decreases |expression| - pos
    {
      var scan := Next(expression, pos);
      if scan.Err? {
        return Err(scan.error);
      }
      if scan.value.Done? {
        break;
      }
      var t := scan.value.token;
      pos := scan.value.next;
      if t.Number? {
        tokens := tokens + [t];
      } else if t.symbol == '(' {
        var pushed := ArrayStacks.Push(stack, t);
        assert pushed.0;
        stack := pushed.1;
      } else if t.symbol == ')' {
        var ok;
        ok, stack, tokens := CloseGroupOnStack(stack, tokens);
        if !ok {
          return Err(UnbalancedParenthesis);
        }
      } else {
        stack, tokens := FlushOnStack(stack, tokens, Priority(t));
        var pushed := ArrayStacks.Push(stack, t);
        assert pushed.0;
        stack := pushed.1;
      }
    }
    r := DrainStack(stack, tokens);
  }
}
