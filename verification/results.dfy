/** The result algebra: a value that is either a success carrying a result
    or a failure carrying accumulated failure information, and the
    operators that compose such values. The operators that may have two
    failures in hand take the merge operation as their last argument. */
module Results {
  import opened Semigroup

  /** Exactly one of the two variants; the payloads are independent. */
  datatype Result<T, E> = Success(value: T) | Failure(error: E)

  /** The failure reasons a result carries when the error type is an
      array: none for a success, the error itself for a failure. */
  function Errors<T, X>(r: Result<T, seq<X>>): seq<X> {
    if r.Success? then [] else r.error
  }

  /** Sequential composition: a success is handed to `transform`, whose
      result (success or failure) is the answer; a failure short-circuits
      and `transform` plays no part. */
  function FlatMap<T, U, E>(r: Result<T, E>, transform: T -> Result<U, E>): (s: Result<U, E>)
    ensures r.Success? ==> s == transform(r.value)
    ensures r.Failure? ==> s == Failure(r.error)
  {
    match r
    case Success(v) => transform(v)
    case Failure(e) => Failure(e)
  }

  /** Transforms a success value, defined, as in the library, by wrapping
      the transform's output in a success and chaining with `FlatMap`. */
  function Map<T, U, E>(r: Result<T, E>, transform: T -> U): (s: Result<U, E>)
    ensures s.Success? <==> r.Success?
    ensures r.Success? ==> s.value == transform(r.value)
    ensures r.Failure? ==> s.error == r.error
  {
    FlatMap(r, (v: T) => Success(transform(v)))
  }

  /** Applicative application of a result holding a function to the
      result `r` holding its argument. It succeeds only when both sides
      do; when both fail the function side's error is merged first. */
  function Apply<T, U, E>(r: Result<T, E>, transform: Result<T -> U, E>, combine: (E, E) -> E): (s: Result<U, E>)
    ensures s.Success? <==> transform.Success? && r.Success?
    ensures s.Success? ==> s.value == transform.value(r.value)
    ensures transform.Success? && r.Failure? ==> s.error == r.error
    ensures transform.Failure? && r.Success? ==> s.error == transform.error
    ensures transform.Failure? && r.Failure? ==> s.error == combine(transform.error, r.error)
  {
    match (transform, r)
    case (Success(f), _) => Map(r, f)
    case (Failure(e), Success(_)) => Failure(e)
    case (Failure(e1), Failure(e2)) => Failure(combine(e1, e2))
  }

  /** The `<*>` operator: `lhs <*> rhs` is `rhs.apply(lhs)`. Read in the
      order it is written, a failing left operand's error comes first. */
  function Ap<T, U, E>(lhs: Result<T -> U, E>, rhs: Result<T, E>, combine: (E, E) -> E): (s: Result<U, E>)
    ensures s.Success? <==> lhs.Success? && rhs.Success?
    ensures s.Success? ==> s.value == lhs.value(rhs.value)
    ensures lhs.Failure? && rhs.Failure? ==> s.error == combine(lhs.error, rhs.error)
    ensures lhs.Failure? != rhs.Failure? ==> s.error == (if lhs.Failure? then lhs.error else rhs.error)
  {
    Apply(rhs, lhs, combine)
  }

  /** Alternative: the first success wins; if neither side succeeds both
      reasons are kept, the left one first. */
  function Or<T, E>(r: Result<T, E>, other: Result<T, E>, combine: (E, E) -> E): (s: Result<T, E>)
    ensures s.Success? <==> r.Success? || other.Success?
    ensures s.Success? ==> s == (if r.Success? then r else other)
    ensures s.Failure? ==> s.error == combine(r.error, other.error)
  {
    match (r, other)
    case (Success(_), _) => r
    case (_, Success(_)) => other
    case (Failure(e1), Failure(e2)) => Failure(combine(e1, e2))
  }

  /** Conjunction: succeeds only when both sides do, with the right value;
      otherwise the first failing operand is returned as it is. It never
      merges, so the library's `E: Semigroup` bound is not needed here. */
  function And<T, E>(r: Result<T, E>, other: Result<T, E>): (s: Result<T, E>)
    ensures s.Success? <==> r.Success? && other.Success?
    ensures s.Success? ==> s == other
    ensures s.Failure? ==> s == (if r.Failure? then r else other)
  {
    match (r, other)
    case (Success(_), Success(_)) => other
    case (Failure(_), _) => r
    case (_, Failure(_)) => other
  }
}
