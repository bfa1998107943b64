/** `evaluate_rpn` (stack/main.cpp): reduces a postfix token sequence with a
    stack of integers. Integers are mathematical; division truncates toward
    zero as C++ `/` does. */
module Evaluator {
  import opened Results
  import opened Tokens
  import opened Sequences
  import ArrayStacks

  function Abs(x: int): nat
  {
    if x < 0 then -x else x
  }

  /** C++ integer division: the quotient rounds toward zero. */
  function TruncDiv(a: int, b: int): (q: int)
    requires b != 0
    // the remainder is smaller than the divisor in magnitude ...
    ensures Abs(a - q * b) < Abs(b)
    // ... and is zero or carries the dividend's sign
    ensures a - q * b == 0 || (a - q * b < 0 <==> a < 0)
  {
    var n := Abs(a) / Abs(b);
    DivisionFacts(Abs(a), Abs(b));
    if (a < 0) == (b < 0) then n else -n
  }

  lemma DivisionFacts(a: nat, b: nat)
    requires b > 0
    ensures a == (a / b) * b + a % b
    ensures 0 <= a % b < b
  {
  }

  function Pow10(k: nat): (p: nat)
    ensures p >= 1
  {
    if k == 0 then 1 else 10 * Pow10(k - 1)
  }

  /** The value of a decimal digit string, as `std::stoi` reads it. */
  function DecimalValue(d: string): (n: nat)
    requires forall i | 0 <= i < |d| :: IsDigit(d[i])
    // k digits stay below 10^k ...
    ensures n < Pow10(|d|)
    // ... and reach 10^(k-1) when the first one is not 0
    ensures |d| > 0 && d[0] != '0' ==> Pow10(|d| - 1) <= n
    decreases |d|
  {
    if d == [] then 0
    else
      assert IsDigit(d[|d| - 1]);
      var v := DecimalValue(DropLast(d));
      var digit := Last(d) as int - '0' as int;
      assert v * 10 + digit < Pow10(|d|) by {
        assert v + 1 <= Pow10(|d| - 1);
        assert (v + 1) * 10 <= Pow10(|d| - 1) * 10;
      }
      assert |d| > 0 && d[0] != '0' ==> Pow10(|d| - 1) <= v * 10 + digit by {
        if |d| > 1 && d[0] != '0' {
          assert DropLast(d)[0] == d[0];
          assert Pow10(|d| - 2) * 10 <= v * 10;
        }
      }
      v * 10 + digit
  }

  /** Read from the front, as `std::stoi` reads: the leading digit counts
      10^k for the k digits after it. */
  lemma {:induction false} DecimalFront(c: char, d: string)
    requires IsDigit(c) && forall i | 0 <= i < |d| :: IsDigit(d[i])
    ensures DecimalValue([c] + d) == (c as int - '0' as int) * Pow10(|d|) + DecimalValue(d)
    decreases |d|
  {
    var lead := c as int - '0' as int;
    if d == [] {
      assert DropLast([c] + d) == [];
    } else {
      var rest := DropLast(d);
      var last := Last(d) as int - '0' as int;
      assert IsDigit(Last(d));
      assert DropLast([c] + d) == [c] + rest && Last([c] + d) == Last(d);
      DecimalFront(c, rest);
      var p, v := Pow10(|rest|), DecimalValue(rest);
      assert DecimalValue([c] + d) == (lead * p + v) * 10 + last;
      assert Pow10(|d|) == p * 10 && DecimalValue(d) == v * 10 + last;
      ShiftDigit(lead, p, v, last);
    }
  }

  lemma ShiftDigit(lead: int, p: int, v: int, last: int)
    ensures (lead * p + v) * 10 + last == lead * (p * 10) + (v * 10 + last)
  {
  }

  /** `left op right` for the operator symbol `op`. */
  function Apply(op: char, left: int, right: int): (r: Result<int>)
    ensures r.Err? <==> !IsArithmetic(op) || (op == '/' && right == 0)
    ensures r.Err? ==> r.error == (if IsArithmetic(op) then DivisionByZero else InvalidOperator)
    ensures op == '/' && right != 0 ==> r == Ok(TruncDiv(left, right))
  {
    if op == '+' then Ok(left + right)
    else if op == '-' then Ok(left - right)
    else if op == '*' then Ok(left * right)
    else if op == '/' then
      if right == 0 then Err(DivisionByZero) else Ok(TruncDiv(left, right))
    else Err(InvalidOperator)
  }

  /** One token of the evaluation loop over the value stack (top last). */
  function EvalToken(t: Token, values: seq<int>): (r: Result<seq<int>>)
    // a number pushes its value: only a token text that is no digit run fails
    ensures t.Number? ==> (r.Ok? <==> IsDigits(t.digits))
    ensures t.Number? && r.Ok? ==> r.value == values + [DecimalValue(t.digits)]
    // an operator needs two values and replaces them by one
    ensures t.Number? && r.Err? ==> r.error == InvalidNumber
    ensures t.Function? && |values| < 2 ==> r == Err(InsufficientOperands)
    // on two values or more it succeeds exactly when the operation does, and fails with its error
    ensures t.Function? && |values| >= 2 ==>
              (r.Ok? <==> Apply(t.symbol, values[|values| - 2], values[|values| - 1]).Ok?)
    ensures t.Function? && |values| >= 2 && r.Err? ==>
              r.error == Apply(t.symbol, values[|values| - 2], values[|values| - 1]).error
    ensures t.Function? && r.Ok? ==>
              && |values| >= 2 && |r.value| == |values| - 1
              && r.value[..|values| - 2] == values[..|values| - 2]
              && Ok(r.value[|values| - 2]) == Apply(t.symbol, values[|values| - 2], values[|values| - 1])
    ensures r.Err? ==> r.error in {InvalidNumber, InsufficientOperands, InvalidOperator, DivisionByZero}
  {
    match t
    case Number(d) =>
      if IsDigits(d) then Ok(values + [DecimalValue(d)]) else Err(InvalidNumber)
    case Function(c) =>
      if |values| < 2 then Err(InsufficientOperands)
      else
        var right := values[|values| - 1];
        var left := values[|values| - 2];
        match Apply(c, left, right)
        case Err(e) => Err(e)
        case Ok(v) => Ok(values[..|values| - 2] + [v])
  }

  function EvalSteps(ts: seq<Token>, values: seq<int>): (r: Result<seq<int>>)
    ensures r.Err? ==> r.error in {InvalidNumber, InsufficientOperands, InvalidOperator, DivisionByZero}
    decreases |ts|
  {
    if ts == [] then Ok(values)
    else
      match EvalToken(ts[0], values)
      case Err(e) => Err(e)
      case Ok(values') => EvalSteps(ts[1..], values')
  }

  /** The whole evaluation: exactly one value must remain. */
  function Evaluate(ts: seq<Token>): (r: Result<int>)
    // a value comes out only of a sequence with one more number than operators
    ensures r.Ok? ==> Arity(ts) == 1
    ensures ts == [] ==> r == Err(MalformedExpression)
    ensures r.Err? ==> r.error in {InvalidNumber, InsufficientOperands, InvalidOperator, DivisionByZero, MalformedExpression}
  {
    EvalStepsArity(ts, []);
    match EvalSteps(ts, [])
    case Err(e) => Err(e)
    case Ok(values) => if |values| != 1 then Err(MalformedExpression) else Ok(values[0])
  }

  /** Numbers minus operators: how much a token sequence grows the value stack. */
  function Arity(ts: seq<Token>): int
    decreases |ts|
  {
    if ts == [] then 0 else (if ts[0].Number? then 1 else -1) + Arity(ts[1..])
  }

  /** Every number adds one value and every operator replaces two by one, so
      a successful run leaves the stack grown by the sequence's arity. */
  lemma {:induction false} EvalStepsArity(ts: seq<Token>, values: seq<int>)
    ensures EvalSteps(ts, values).Ok? ==> |EvalSteps(ts, values).value| == |values| + Arity(ts)
    decreases |ts|
  {
    if ts != [] {
      match EvalToken(ts[0], values)
      case Err(_) =>
      case Ok(values') =>
        EvalStepsArity(ts[1..], values');
    }
  }

  /** A successful evaluation reads exactly one more number than operators. */
  lemma EvaluateArity(ts: seq<Token>)
    ensures Evaluate(ts).Ok? ==> Arity(ts) == 1
  {
    EvalStepsArity(ts, []);
  }

  /** A token that fails ends the run with its error. */
  lemma EvalStepsFails(ts: seq<Token>, i: nat, values: seq<int>)
    requires i < |ts| && EvalToken(ts[i], values).Err?
    ensures EvalSteps(ts[i..], values) == Err(EvalToken(ts[i], values).error)
  {
    assert ts[i..][0] == ts[i];
  }

  /** A token that succeeds hands its value stack to the rest of the run. */
  lemma EvalStepsGo(ts: seq<Token>, i: nat, values: seq<int>, values': seq<int>)
    requires i < |ts| && EvalToken(ts[i], values) == Ok(values')
    ensures EvalSteps(ts[i..], values) == EvalSteps(ts[i + 1..], values')
  {
    assert ts[i..][0] == ts[i] && ts[i..][1..] == ts[i + 1..];
  }

  /** `evaluate_rpn`: the value stack is an array stack sized to the token
      count; each token adds at most one value, so a push is never refused. */
  method EvaluateRpn(tokens: seq<Token>) returns (r: Result<int>)
    ensures r == Evaluate(tokens)
  {
    var result := 0;
    var stack := ArrayStacks.New(|tokens|, 0);
    var i := 0;
    while i < |tokens|
      invariant i <= |tokens|
      invariant stack.Valid() && stack.capacity == |tokens|
      invariant |stack.Contents()| <= i
      invariant EvalSteps(tokens[i..], stack.Contents()) == EvalSteps(tokens, [])
    {
      var t := tokens[i];
      ghost var values := stack.Contents();
      if t.Number? {
        if !IsDigits(t.digits) {
          EvalStepsFails(tokens, i, values);
          return Err(InvalidNumber);
        }
        var pushed := ArrayStacks.Push(stack, DecimalValue(t.digits));
        assert pushed.0;
        stack := pushed.1;
      } else {
        if ArrayStacks.Size(stack) < 2 {
          EvalStepsFails(tokens, i, values);
          return Err(InsufficientOperands);
        }
        var right, left := 0, 0;
        var popped := ArrayStacks.Pop(stack, right);
        right, stack := popped.1, popped.2;
        popped := ArrayStacks.Pop(stack, left);
        left, stack := popped.1, popped.2;
        assert right == values[|values| - 1] && left == values[|values| - 2];
        assert stack.Contents() == values[..|values| - 2];
        var applied := Apply(t.symbol, left, right);
        if applied.Err? {
          EvalStepsFails(tokens, i, values);
          return Err(applied.error);
        }
        result := applied.value;
        var pushed := ArrayStacks.Push(stack, result);
        assert pushed.0;
        stack := pushed.1;
      }
      EvalStepsGo(tokens, i, values, stack.Contents());
      i := i + 1;
    }
    if ArrayStacks.Size(stack) != 1 {
      return Err(MalformedExpression);
    }
    var popped := ArrayStacks.Pop(stack, result);
    result := popped.1;
    return Ok(result);
  }
}
