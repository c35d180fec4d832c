/** The merge capability of the library: a single binary operation that
    combines two failure accumulations into one. The Swift protocol is
    represented by passing the operation around as a function value; the
    only instance the library provides, for arrays, is `Concat`. */
module Semigroup {

  /** The merge operation groups freely: `(a <> b) <> c == a <> (b <> c)`. */
  ghost predicate Associative<E(!new)>(combine: (E, E) -> E) {
    forall a, b, c :: combine(combine(a, b), c) == combine(a, combine(b, c))
  }

  /** `unit` is neutral for the merge operation on both sides. */
  ghost predicate IsIdentity<E(!new)>(combine: (E, E) -> E, unit: E) {
    forall a :: combine(unit, a) == a && combine(a, unit) == a
  }

  /** The array instance: the left operand's elements, then the right's. */
  function Concat<X>(lhs: seq<X>, rhs: seq<X>): (r: seq<X>)
    ensures |r| == |lhs| + |rhs|
    ensures forall i :: 0 <= i < |lhs| ==> r[i] == lhs[i]
    ensures forall i :: |lhs| <= i < |r| ==> r[i] == rhs[i - |lhs|]
  {
    lhs + rhs
  }

  /** Array merging is associative, so chained merges may be regrouped. */
  lemma ConcatAssociative<X(!new)>()
    ensures Associative<seq<X>>(Concat)
  {
    forall a: seq<X>, b: seq<X>, c: seq<X>
      ensures Concat(Concat(a, b), c) == Concat(a, Concat(b, c))
    {
      assert (a + b) + c == a + (b + c);
    }
  }

  /** The empty array is a two-sided identity for array merging. */
  lemma ConcatIdentity<X(!new)>()
    ensures IsIdentity<seq<X>>(Concat, [])
  {
    forall a: seq<X>
      ensures Concat([], a) == a && Concat(a, []) == a
    {
      assert [] + a == a;
      assert a + [] == a;
    }
  }
}
