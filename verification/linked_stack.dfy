/** `linked_stack<T>` (linked_stack.cpp): a chain of frames, each holding a
    value and the frame pushed before it, plus a size counter. */
module LinkedStacks {
  import opened StackContract
  import Tokens

  /** `nullptr` or a frame whose `prev` is the frame below it. */
  datatype Chain<T> = Nil | Frame(value: T, prev: Chain<T>)

  function Length<T>(c: Chain<T>): nat
  {
    match c
    case Nil => 0
    case Frame(_, p) => Length(p) + 1
  }

  /** The values of a chain, bottom first (the top frame's value is last). */
  function Items<T>(c: Chain<T>): (r: seq<T>)
    ensures |r| == Length(c)
  {
    match c
    case Nil => []
    case Frame(v, p) => Items(p) + [v]
  }

  datatype LinkedStack<T> = LinkedStack(size: nat, top: Chain<T>)
  {
    /** `_size` counts the frames of the chain, and never passes SIZE_MAX. */
    predicate Valid()
    {
      size == Length(top) && size <= Tokens.SizeMax
    }

    function Contents(): seq<T>
    {
      Items(top)
    }
  }

  /** Emptiness is decided on the chain (`_top == nullptr`); it agrees with the counter. */
  function IsEmpty<T>(s: LinkedStack<T>): (b: bool)
    requires s.Valid()
    ensures b <==> s.size == 0
    ensures b <==> s.Contents() == []
  {
    s.top.Nil?
  }

  function IsFull<T>(s: LinkedStack<T>): (b: bool)
    requires s.Valid()
    ensures b <==> |s.Contents()| == Tokens.SizeMax
  {
    s.size == Tokens.SizeMax
  }

  function Size<T>(s: LinkedStack<T>): (n: nat)
    requires s.Valid()
    ensures n == |s.Contents()|
  {
    s.size
  }

  /** The constructor: no frames, size zero. */
  function New<T>(): (s: LinkedStack<T>)
    ensures s.Valid() && s.Contents() == []
  {
    LinkedStack(0, Nil)
  }

  /** Links a new frame over the old top and increments the size, unless full. */
  function Push<T>(s: LinkedStack<T>, item: T): (r: (bool, LinkedStack<T>))
    requires s.Valid()
    ensures r.1.Valid()
    ensures PushSpec(s.Contents(), IsFull(s), item, r.0, r.1.Contents())
    ensures r.0 ==> r.1.top.Frame? && r.1.top.prev == s.top
  {
    if IsFull(s) then (false, s)
    else (true, LinkedStack(s.size + 1, Frame(item, s.top)))
  }

  /** The top frame's value; `item` is returned unchanged when empty. */
  function Peek<T>(s: LinkedStack<T>, item: T): (r: (bool, T))
    requires s.Valid()
    ensures PeekSpec(s.Contents(), item, r.0, r.1)
  {
    if IsEmpty(s) then (false, item) else (true, s.top.value)
  }

  /** Unlinks the top frame, hands out its value and decrements the size, unless empty. */
  function Pop<T>(s: LinkedStack<T>, item: T): (r: (bool, T, LinkedStack<T>))
    requires s.Valid()
    ensures r.2.Valid()
    ensures PopSpec(s.Contents(), item, r.0, r.1, r.2.Contents())
    ensures r.0 ==> r.2.top == s.top.prev
  {
    if IsEmpty(s) then (false, item, s)
    else (true, s.top.value, LinkedStack(s.size - 1, s.top.prev))
  }

  /** A pop straight after a successful push hands back the pushed item and
      restores the very same stack. */
  lemma PushThenPop<T>(s: LinkedStack<T>, x: T, y: T)
    requires s.Valid() && !IsFull(s)
    ensures var (ok, t) := Push(s, x);
            var (ok', got, u) := Pop(t, y);
            ok && ok' && got == x && u == s
  {
  }
}
