/** The abstract `stack<T>` contract (stack.h): the stack's contents are a
    sequence, bottom first, whose last element is the top. Each realisation
    states its operations against these relations. */
module StackContract {

  /** `push`: true exactly when the item was added as the new top; a full
      stack refuses and does not change. */
  ghost predicate PushSpec<T>(before: seq<T>, full: bool, item: T, ok: bool, after: seq<T>)
  {
    if full then !ok && after == before else ok && after == before + [item]
  }

  /** `peek`: the most recently added element, stack unchanged; on an empty
      stack false, and the reference parameter keeps its old value. */
  ghost predicate PeekSpec<T>(contents: seq<T>, item: T, ok: bool, item': T)
  {
    if contents == [] then !ok && item' == item
    else ok && item' == contents[|contents| - 1]
  }

  /** `pop`: removes the most recently added element and hands it out; on an
      empty stack false, no change, and the reference parameter keeps its value. */
  ghost predicate PopSpec<T>(before: seq<T>, item: T, ok: bool, item': T, after: seq<T>)
  {
    if before == [] then !ok && item' == item && after == before
    else ok && item' == before[|before| - 1] && after == before[..|before| - 1]
  }
}
