/** Both realisations of the `stack<T>` contract (stack.h) behave as one
    abstract LIFO sequence: on any sequence of `push`, `peek` and `pop` calls
    that stays within the capacity, they answer exactly as the sequence model
    does and end with the same contents. */
module StackRefinement {
  import Tokens
  import ArrayStacks
  import LinkedStacks

  datatype Op<T> = PushOp(x: T) | PeekOp | PopOp

  /** What a call answers: its `bool`, and the value of the reference
      parameter `item` after the call (`push` leaves it alone). */
  datatype Reply<T> = Reply(ok: bool, item: T)

  datatype Outcome<T> = Outcome(replies: seq<Reply<T>>, contents: seq<T>)

  /** The contract on a plain sequence with the top last, for a stack that
      never runs out of room. */
  function AbstractRun<T>(contents: seq<T>, ops: seq<Op<T>>, item: T): (r: Outcome<T>)
    ensures |r.replies| == |ops|
    decreases |ops|
  {
    if ops == [] then Outcome([], contents)
    else
      var (ok, item', contents') :=
        match ops[0]
        case PushOp(x) => (true, item, contents + [x])
        case PeekOp =>
          if contents == [] then (false, item, contents) else (true, contents[|contents| - 1], contents)
        case PopOp =>
          if contents == [] then (false, item, contents)
          else (true, contents[|contents| - 1], contents[..|contents| - 1]);
      var rest := AbstractRun(contents', ops[1..], item');
      Outcome([Reply(ok, item')] + rest.replies, rest.contents)
  }

  function PushCount<T>(ops: seq<Op<T>>): nat
    decreases |ops|
  {
    if ops == [] then 0 else (if ops[0].PushOp? then 1 else 0) + PushCount(ops[1..])
  }

  function ArrayRun<T>(s: ArrayStacks.ArrayStack<T>, ops: seq<Op<T>>, item: T): Outcome<T>
    requires s.Valid()
    decreases |ops|
  {
    if ops == [] then Outcome([], s.Contents())
    else
      match ops[0]
      case PushOp(x) =>
        var (ok, t) := ArrayStacks.Push(s, x);
        var rest := ArrayRun(t, ops[1..], item);
        Outcome([Reply(ok, item)] + rest.replies, rest.contents)
      case PeekOp =>
        var (ok, item') := ArrayStacks.Peek(s, item);
        var rest := ArrayRun(s, ops[1..], item');
        Outcome([Reply(ok, item')] + rest.replies, rest.contents)
      case PopOp =>
        var (ok, item', t) := ArrayStacks.Pop(s, item);
        var rest := ArrayRun(t, ops[1..], item');
        Outcome([Reply(ok, item')] + rest.replies, rest.contents)
  }

  function LinkedRun<T>(s: LinkedStacks.LinkedStack<T>, ops: seq<Op<T>>, item: T): Outcome<T>
    requires s.Valid()
    decreases |ops|
  {
    if ops == [] then Outcome([], s.Contents())
    else
      match ops[0]
      case PushOp(x) =>
        var (ok, t) := LinkedStacks.Push(s, x);
        var rest := LinkedRun(t, ops[1..], item);
        Outcome([Reply(ok, item)] + rest.replies, rest.contents)
      case PeekOp =>
        var (ok, item') := LinkedStacks.Peek(s, item);
        var rest := LinkedRun(s, ops[1..], item');
        Outcome([Reply(ok, item')] + rest.replies, rest.contents)
      case PopOp =>
        var (ok, item', t) := LinkedStacks.Pop(s, item);
        var rest := LinkedRun(t, ops[1..], item');
        Outcome([Reply(ok, item')] + rest.replies, rest.contents)
  }

  /** The array stack is the sequence model as long as its capacity covers
      every push. */
  lemma {:induction false} ArrayRefines<T>(s: ArrayStacks.ArrayStack<T>, ops: seq<Op<T>>, item: T)
    requires s.Valid() && |s.Contents()| + PushCount(ops) <= s.capacity
    ensures ArrayRun(s, ops, item) == AbstractRun(s.Contents(), ops, item)
    decreases |ops|
  {
    if ops != [] {
      match ops[0]
      case PushOp(x) =>
        var (ok, t) := ArrayStacks.Push(s, x);
        ArrayRefines(t, ops[1..], item);
      case PeekOp =>
        var (ok, item') := ArrayStacks.Peek(s, item);
        ArrayRefines(s, ops[1..], item');
      case PopOp =>
        var (ok, item', t) := ArrayStacks.Pop(s, item);
        ArrayRefines(t, ops[1..], item');
    }
  }

  /** The linked stack is the sequence model as long as it stays below
      SIZE_MAX frames. */
  lemma {:induction false} LinkedRefines<T>(s: LinkedStacks.LinkedStack<T>, ops: seq<Op<T>>, item: T)
    requires s.Valid() && |s.Contents()| + PushCount(ops) <= Tokens.SizeMax
    ensures LinkedRun(s, ops, item) == AbstractRun(s.Contents(), ops, item)
    decreases |ops|
  {
    if ops != [] {
      match ops[0]
      case PushOp(x) =>
        var (ok, t) := LinkedStacks.Push(s, x);
        LinkedRefines(t, ops[1..], item);
      case PeekOp =>
        var (ok, item') := LinkedStacks.Peek(s, item);
        LinkedRefines(s, ops[1..], item');
      case PopOp =>
        var (ok, item', t) := LinkedStacks.Pop(s, item);
        LinkedRefines(t, ops[1..], item');
    }
  }

  /** A fresh array stack with room for every push and a fresh linked stack
      are indistinguishable. */
  lemma StacksAgree<T>(capacity: nat, blank: T, ops: seq<Op<T>>, item: T)
    requires PushCount(ops) <= capacity && capacity <= Tokens.SizeMax
    ensures ArrayRun(ArrayStacks.New(capacity, blank), ops, item)
            == LinkedRun(LinkedStacks.New(), ops, item)
  {
    ArrayRefines(ArrayStacks.New(capacity, blank), ops, item);
    LinkedRefines(LinkedStacks.New<T>(), ops, item);
  }
}
