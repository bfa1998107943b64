/** `array_stack<T>` (stack/array_stack.cpp): a buffer of `capacity` slots and
    the index `top` of the first free slot. */
module ArrayStacks {
  import opened StackContract

  datatype ArrayStack<T> = ArrayStack(capacity: nat, elements: seq<T>, top: nat)
  {
    /** The buffer has `capacity` slots and `top <= capacity`. */
    predicate Valid()
    {
      |elements| == capacity && top <= capacity
    }

    /** The abstract contents: the occupied slots, bottom first. */
    function Contents(): seq<T>
      requires Valid()
    {
      elements[..top]
    }
  }

  function IsEmpty<T>(s: ArrayStack<T>): (b: bool)
    requires s.Valid()
    ensures b <==> s.Contents() == []
  {
    s.top == 0
  }

  function IsFull<T>(s: ArrayStack<T>): (b: bool)
    requires s.Valid()
    ensures b <==> |s.Contents()| == s.capacity
  {
    s.top == s.capacity
  }

  function Size<T>(s: ArrayStack<T>): (n: nat)
    requires s.Valid()
    ensures n == |s.Contents()|
  {
    s.top
  }

  /** The constructor: `capacity` default-initialised slots (`blank`), `top = 0`. */
  function New<T>(capacity: nat, blank: T): (s: ArrayStack<T>)
    ensures s.Valid() && s.capacity == capacity
    ensures s.Contents() == []
  {
    ArrayStack(capacity, seq(capacity, _ => blank), 0)
  }

  /** Stores the item at slot `top` and increments `top`, unless full. */
  function Push<T>(s: ArrayStack<T>, item: T): (r: (bool, ArrayStack<T>))
    requires s.Valid()
    ensures r.1.Valid() && r.1.capacity == s.capacity
    ensures PushSpec(s.Contents(), IsFull(s), item, r.0, r.1.Contents())
    ensures forall i | 0 <= i < s.top :: r.1.elements[i] == s.elements[i]
  {
    if IsFull(s) then (false, s)
    else (true, s.(elements := s.elements[s.top := item], top := s.top + 1))
  }

  /** Reads slot `top - 1`; `item` is returned unchanged when empty. */
  function Peek<T>(s: ArrayStack<T>, item: T): (r: (bool, T))
    requires s.Valid()
    ensures PeekSpec(s.Contents(), item, r.0, r.1)
  {
    if IsEmpty(s) then (false, item) else (true, s.elements[s.top - 1])
  }

  /** Decrements `top` and reads the slot it now names, unless empty. */
  function Pop<T>(s: ArrayStack<T>, item: T): (r: (bool, T, ArrayStack<T>))
    requires s.Valid()
    ensures r.2.Valid() && r.2.capacity == s.capacity
    ensures PopSpec(s.Contents(), item, r.0, r.1, r.2.Contents())
    ensures r.2.elements == s.elements
  {
    if IsEmpty(s) then (false, item, s)
    else (true, s.elements[s.top - 1], s.(top := s.top - 1))
  }

  /** A pop straight after a successful push hands back the pushed item and
      restores the previous contents. */
  lemma PushThenPop<T>(s: ArrayStack<T>, x: T, y: T)
    requires s.Valid() && !IsFull(s)
    ensures var (ok, t) := Push(s, x);
            var (ok', got, u) := Pop(t, y);
            ok && ok' && got == x && u.Contents() == s.Contents()
  {
  }
}
