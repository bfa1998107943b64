/** Small sequence helpers shared by the stack and converter models. */
module Sequences {

  function Last<T>(s: seq<T>): T
    requires |s| > 0
  {
    s[|s| - 1]
  }

  function DropLast<T>(s: seq<T>): seq<T>
    requires |s| > 0
  {
    s[..|s| - 1]
  }

  /** The order in which the elements of a stack come off it: top (last) first. */
  function Reverse<T>(s: seq<T>): (r: seq<T>)
    ensures |r| == |s|
    ensures forall i | 0 <= i < |s| :: r[i] == s[|s| - 1 - i]
    decreases |s|
  {
    if s == [] then [] else [Last(s)] + Reverse(DropLast(s))
  }

  lemma ReverseMultiset<T>(s: seq<T>)
    ensures multiset(Reverse(s)) == multiset(s)
    decreases |s|
  {
    if s != [] {
      ReverseMultiset(DropLast(s));
      assert s == DropLast(s) + [Last(s)];
    }
  }

  /** Popping the top of a stack in front of the rest of its pops. */
  lemma ReverseSnoc<T>(s: seq<T>, x: T)
    ensures Reverse(s + [x]) == [x] + Reverse(s)
  {
    assert DropLast(s + [x]) == s;
  }

  /** A suffix of a stack that reaches its top: popping it yields the top
      first and then the same suffix of the rest. */
  lemma PopSuffix<T>(s: seq<T>, k: nat)
    requires k < |s|
    ensures s[k..] == DropLast(s)[k..] + [Last(s)]
    ensures Reverse(s[k..]) == [Last(s)] + Reverse(DropLast(s)[k..])
  {
    assert s[k..] == DropLast(s)[k..] + [Last(s)];
    ReverseSnoc(DropLast(s)[k..], Last(s));
  }

  lemma ReverseAppend<T>(a: seq<T>, b: seq<T>)
    ensures Reverse(a + b) == Reverse(b) + Reverse(a)
  {
  }
}
