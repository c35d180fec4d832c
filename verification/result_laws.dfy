/** Laws of the result algebra: the functor and monad laws of `Map` and
    `FlatMap`, the applicative laws of `Apply`, how `Or` and `And` group
    and which errors each keeps, and, for array errors, which failure
    reasons every operator collects and in which order. */
module ResultLaws {
  import opened Semigroup
  import opened Results

  // ----- Map and FlatMap -----

  /** Mapping the identity changes nothing. */
  lemma MapIdentity<T, E>(r: Result<T, E>)
    ensures Map(r, (x: T) => x) == r
  {
  }

  /** Mapping twice is mapping once with the composed transform. */
  lemma MapComposition<T, U, V, E>(r: Result<T, E>, f: T -> U, g: U -> V)
    ensures Map(Map(r, f), g) == Map(r, (x: T) => g(f(x)))
  {
  }

  /** Chaining into a plain success changes nothing. */
  lemma FlatMapRightIdentity<T, E>(r: Result<T, E>)
    ensures FlatMap(r, (x: T) => Success(x)) == r
  {
  }

  /** Chaining is associative. */
  lemma FlatMapAssociative<T, U, V, E>(r: Result<T, E>, f: T -> Result<U, E>, g: U -> Result<V, E>)
    ensures FlatMap(FlatMap(r, f), g) == FlatMap(r, (x: T) => FlatMap(f(x), g))
  {
  }

  // ----- Apply -----

  /** With a successful function side, applying is mapping that function;
      a failing argument therefore passes through unchanged. */
  lemma ApplySuccessIsMap<T, U, E>(r: Result<T, E>, f: T -> U, combine: (E, E) -> E)
    ensures Apply(r, Success(f), combine) == Map(r, f)
    ensures r.Failure? ==> Apply(r, Success(f), combine) == Failure(r.error)
  {
  }

  /** With a failing function side the result is a failure holding that
      error, merged with the argument's error when the argument fails too. */
  lemma ApplyFailure<T, U, E>(r: Result<T, E>, e1: E, combine: (E, E) -> E)
    ensures r.Success? ==> Apply<T, U, E>(r, Failure(e1), combine) == Failure(e1)
    ensures r.Failure? ==> Apply<T, U, E>(r, Failure(e1), combine) == Failure(combine(e1, r.error))
  {
  }

  /** Applicative identity: applying the identity function changes nothing. */
  lemma ApIdentity<T, E>(v: Result<T, E>, combine: (E, E) -> E)
    ensures Ap(Success((x: T) => x), v, combine) == v
  {
  }

  /** Applicative homomorphism: two plain successes apply to a plain success. */
  lemma ApHomomorphism<T, U, E>(f: T -> U, x: T, combine: (E, E) -> E)
    ensures Ap<T, U, E>(Success(f), Success(x), combine) == Success(f(x))
  {
  }

  /** Applicative interchange: a function result applied to a plain value
      equals the plain "apply to that value" applied to the function result. */
  lemma ApInterchange<T, U, E>(u: Result<T -> U, E>, y: T, combine: (E, E) -> E)
    ensures Ap(u, Success(y), combine) == Ap(Success((f: T -> U) => f(y)), u, combine)
  {
  }

  /** Function composition in curried form, as used by the composition law. */
  function Compose<A, B, C>(): (B -> C) -> ((A -> B) -> (A -> C)) {
    (f: B -> C) => (g: A -> B) => (x: A) => f(g(x))
  }

  /** Applicative composition: when the merge operation is associative,
      a curried chain of applications may be regrouped, and the failures it
      collects are the same, in the same order. */
  lemma ApComposition<A, B, C, E(!new)>(u: Result<B -> C, E>, v: Result<A -> B, E>, w: Result<A, E>,
                                         combine: (E, E) -> E)
    requires Associative(combine)
    ensures Ap(Ap(Ap(Success(Compose<A, B, C>()), u, combine), v, combine), w, combine)
         == Ap(u, Ap(v, w, combine), combine)
  {
  }

  /** With array errors, applying collects the failure reasons of both
      sides, function side first, and fails exactly when one side does. */
  lemma ApplyCollectsErrors<T, U, X>(r: Result<T, seq<X>>, transform: Result<T -> U, seq<X>>)
    ensures Apply(r, transform, Concat).Failure? <==> transform.Failure? || r.Failure?
    ensures Apply(r, transform, Concat).Failure? ==>
              Apply(r, transform, Concat).error == Errors(transform) + Errors(r)
  {
  }

  /** The same for `<*>`, read in written order: the left operand's
      reasons come first. */
  lemma ApCollectsErrors<T, U, X>(lhs: Result<T -> U, seq<X>>, rhs: Result<T, seq<X>>)
    ensures Ap(lhs, rhs, Concat).Success? <==> lhs.Success? && rhs.Success?
    ensures Errors(Ap(lhs, rhs, Concat)) == Errors(lhs) + Errors(rhs)
  {
  }

  // ----- Or -----

  /** `Or` groups freely when the merge operation does. */
  lemma OrAssociative<T, E(!new)>(a: Result<T, E>, b: Result<T, E>, c: Result<T, E>, combine: (E, E) -> E)
    requires Associative(combine)
    ensures Or(Or(a, b, combine), c, combine) == Or(a, Or(b, c, combine), combine)
  {
  }

  /** A failure holding the merge identity is neutral for `Or`. */
  lemma OrIdentity<T, E(!new)>(r: Result<T, E>, unit: E, combine: (E, E) -> E)
    requires IsIdentity(combine, unit)
    ensures Or(Failure(unit), r, combine) == r
    ensures Or(r, Failure(unit), combine) == r
  {
  }

  /** With array errors, `Or` fails only when both sides fail, and then
      keeps every reason of both, the left side's first. */
  lemma OrCollectsErrors<T, X>(a: Result<T, seq<X>>, b: Result<T, seq<X>>)
    ensures Or(a, b, Concat).Failure? <==> a.Failure? && b.Failure?
    ensures Or(a, b, Concat).Failure? ==> Or(a, b, Concat).error == Errors(a) + Errors(b)
  {
  }

  // ----- And -----

  /** `And` groups freely, with no condition on the error type. */
  lemma AndAssociative<T, E>(a: Result<T, E>, b: Result<T, E>, c: Result<T, E>)
    ensures And(And(a, b), c) == And(a, And(b, c))
  {
  }

  /** `And` always returns one of its operands unchanged: it never merges.
      In particular a left failure is returned whatever the right side is. */
  lemma AndReturnsAnOperand<T, E>(a: Result<T, E>, b: Result<T, E>)
    ensures And(a, b) == a || And(a, b) == b
    ensures a.Failure? ==> And(a, b) == a
    ensures a.Success? ==> And(a, b) == b
  {
  }

  /** The asymmetry between `And` and `Or`: when both sides fail with
      array errors, `Or` reports both reasons lists while `And` drops the
      right one, so the two disagree whenever the right side has a reason. */
  lemma AndDropsRightFailure<T, X>(a: Result<T, seq<X>>, b: Result<T, seq<X>>)
    requires a.Failure? && b.Failure? && b.error != []
    ensures And(a, b).error == a.error
    ensures And(a, b).error != Or(a, b, Concat).error
  {
  }
}
