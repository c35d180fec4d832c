# Result extensions — a Dafny model

This project models a small Swift validation-combinator library. A
`Result<T, E>` is either `success(T)` or `failure(E)`. Operators compose
results so that independent validations report every failure reason, not
only the first. Failure information merges through a `Semigroup`
operation `<>`; its only instance is `Array`, where merging is
concatenation with the left operand first. The library's example builds a
`RegisteredUser` from an `UnregisteredUser` with a curried constructor and
five field validators.

Modules:

- `Semigroup` (semigroup.dfy): associativity and identity as predicates on a
  merge function; the array instance `Concat`.
- `Results` (results.dfy): the `Result` datatype and `FlatMap`, `Map`,
  `Apply`, `Ap` (the `<*>` operator), `Or` and `And`. The merge operation
  is passed as a function argument to the operators that may merge.
- `ResultLaws` (result_laws.dfy): functor, monad and applicative laws,
  grouping laws of `Or` and `And`, and which reasons each operator keeps
  when errors are arrays.
- `Text` (text.dfy): character membership and first-occurrence substring
  search over `seq<char>`, standing in for `String.contains` and
  `String.range(of:)`.
- `Registration` (registration.dfy): the five validators, `Create`, and the
  end-to-end lemmas.

The trailing comment of the playground (Contents.swift:145-150) lists
`"invalid email"` as the second reason for the example user. The code yields
`"invalid gmail address"`: `"test@test.com"` contains `@`, so `validEmail`
succeeds, and `&&` then returns the failing `validGmailEmail` result. The
model follows the code (`Registration.CreateExample`); the comment is stale.

The `and` operator is asymmetric with `or`. When both sides fail, `and`
returns the left failure and drops the right one; `or` merges both. The
model keeps this behaviour and states it (`ResultLaws.AndDropsRightFailure`).

## Model

| member | source | states |
|---|---|---|
| Semigroup.Concat | result-extensions.playground/Contents.swift:18-22 | the merged array has the left operand's elements at their own positions, then the right operand's, and nothing else |
| Semigroup.ConcatAssociative | result-extensions.playground/Contents.swift:11-22 | merging arrays with `<>` is associative |
| Semigroup.ConcatIdentity | result-extensions.playground/Contents.swift:18-22 | the empty array is a left and right identity for `<>` on arrays |
| Results.FlatMap | result-extensions.playground/Contents.swift:33-38 | a success yields exactly what the transform returns for its value, a failure or not; a failure is returned unchanged whatever the transform |
| Results.Map | result-extensions.playground/Contents.swift:29-31 | map, defined through flatMap, keeps the variant; it transforms a success value and leaves a failure's error as it is |
| Results.Apply | result-extensions.playground/Contents.swift:50-56 | apply succeeds exactly when both the function side and the argument succeed, with the function applied to the value; a single failure surfaces alone; two failures merge with the function side's error first |
| Results.Ap | result-extensions.playground/Contents.swift:82-84 | `f <*> x` is `x.apply(f)`: it succeeds only when both succeed, and two failures merge in written order, the left operand's error first |
| Results.Or | result-extensions.playground/Contents.swift:58-64 | or succeeds when either side does, returning the left side if it succeeded and the right otherwise; two failures merge left error first |
| Results.And | result-extensions.playground/Contents.swift:66-72 | and succeeds only when both sides do, returning the right operand; otherwise it returns the first failing operand unchanged |
| ResultLaws.MapIdentity | result-extensions.playground/Contents.swift:29-31 | mapping the identity function returns the result unchanged |
| ResultLaws.MapComposition | result-extensions.playground/Contents.swift:29-31 | mapping f then g equals mapping their composition |
| ResultLaws.FlatMapRightIdentity | result-extensions.playground/Contents.swift:33-38 | chaining into a plain success returns the result unchanged |
| ResultLaws.FlatMapAssociative | result-extensions.playground/Contents.swift:33-38 | chaining f then g equals chaining once into "f, then chain g" |
| ResultLaws.ApplySuccessIsMap | result-extensions.playground/Contents.swift:50-52 | with a successful function side, apply equals map of that function, so a failing argument passes through unchanged |
| ResultLaws.ApplyFailure | result-extensions.playground/Contents.swift:53-54 | with a failing function side, apply yields that failure if the argument succeeded, and the merge of function error then argument error if both failed |
| ResultLaws.ApIdentity | result-extensions.playground/Contents.swift:82-84 | applying a successful identity function with `<*>` returns the argument unchanged |
| ResultLaws.ApHomomorphism | result-extensions.playground/Contents.swift:82-84 | `<*>` on two successes is the success of the function applied to the value |
| ResultLaws.ApInterchange | result-extensions.playground/Contents.swift:82-84 | a function result applied to a plain value equals the plain "apply to that value" applied to the function result |
| ResultLaws.ApComposition | result-extensions.playground/Contents.swift:50-56 | with an associative merge, a curried chain of `<*>` may be regrouped without changing the value or the merged failures |
| ResultLaws.ApplyCollectsErrors | result-extensions.playground/Contents.swift:50-56 | with array errors, apply fails when either side fails, and its reasons are the function side's reasons followed by the argument's |
| ResultLaws.ApCollectsErrors | result-extensions.playground/Contents.swift:82-84 | with array errors, `<*>` succeeds only when both operands do, and its reasons are the left operand's followed by the right operand's |
| ResultLaws.OrAssociative | result-extensions.playground/Contents.swift:58-64 | with an associative merge, or may be regrouped |
| ResultLaws.OrIdentity | result-extensions.playground/Contents.swift:58-64 | a failure carrying the merge identity is a left and right identity for or |
| ResultLaws.OrCollectsErrors | result-extensions.playground/Contents.swift:58-64 | with array errors, or fails exactly when both sides fail, and then reports the left side's reasons followed by the right side's |
| ResultLaws.AndAssociative | result-extensions.playground/Contents.swift:66-72 | and may be regrouped, with no condition on the error type |
| ResultLaws.AndReturnsAnOperand | result-extensions.playground/Contents.swift:66-72 | and always returns one of its operands unchanged: the left one when it failed, otherwise the right one |
| ResultLaws.AndDropsRightFailure | result-extensions.playground/Contents.swift:58-72 | when both sides fail and the right has a reason, and keeps only the left failure, unlike or, which reports both |
| Text.ContainsChar | result-extensions.playground/Contents.swift:122 | the character occurs at some index of the string exactly when the check holds |
| Text.RangeOf | result-extensions.playground/Contents.swift:126 | when found, the index starts an occurrence of the pattern and no occurrence starts earlier; when not found, the pattern occurs nowhere (or is empty) |
| Registration.ValidId | result-extensions.playground/Contents.swift:117-119 | succeeds, passing the id through, exactly when the id is positive; otherwise fails with "invalid id" |
| Registration.ValidEmail | result-extensions.playground/Contents.swift:121-123 | succeeds, passing the address through, exactly when it contains `@`; otherwise fails with "invalid email" |
| Registration.ValidGmailEmail | result-extensions.playground/Contents.swift:125-127 | succeeds, passing the address through, exactly when "gmail" occurs in it; otherwise fails with "invalid gmail address" |
| Registration.ValidMillennial | result-extensions.playground/Contents.swift:129-131 | succeeds, passing the age through, exactly for ages 18 to 34; otherwise fails with "invalid millennial" |
| Registration.ValidGenX | result-extensions.playground/Contents.swift:133-135 | succeeds, passing the age through, exactly for ages 35 to 50; otherwise fails with "invalid gen x" |
| Registration.Create | result-extensions.playground/Contents.swift:107-114 | a successful registration carries exactly the unregistered user's id, email and age |
| Registration.EmailCheck | result-extensions.playground/Contents.swift:112 | the email check passes exactly when the address has `@` and "gmail"; a missing `@` is reported alone, otherwise a missing "gmail" is |
| Registration.AgeCheck | result-extensions.playground/Contents.swift:113 | the millennial-or-gen-x check succeeds with the age exactly for ages 18 to 50, and otherwise reports both reasons, millennial first |
| Registration.CreateCollectsAllReasons | result-extensions.playground/Contents.swift:107-114 | registration succeeds with the user's fields exactly when no field has a reason; otherwise it fails with the id, email and age reasons together, in that order |
| Registration.ExampleFieldReasons | result-extensions.playground/Contents.swift:139 | for the example user the id contributes "invalid id", the email (which has `@` but no "gmail") "invalid gmail address", and the age both generation reasons |
| Registration.CreateExample | result-extensions.playground/Contents.swift:139-140 | the example user (id 0, "test@test.com", age 7) yields failure ["invalid id", "invalid gmail address", "invalid millennial", "invalid gen x"] |

## Left out

- `import Foundation` and `dump` (Contents.swift:1, 142) are I/O and debug printing.
- The precedence group and the `<>` and `<*>` operator declarations (Contents.swift:3-5, 15-16) are syntax only. The model uses named functions, nested to the left as the left associativity dictates.
- `||` and `&&` (Contents.swift:74-80) forward to `or` and `and` with the same argument order. The model uses `Or` and `And` directly. `<*>` swaps its operands, so it is modelled as `Ap`.
- Results.And: takes no merge function. The source requires `E: Semigroup` for `and` but never merges.
- The `Semigroup` protocol (Contents.swift:7-9) is not a Dafny type class. The merge operation is passed as a function value, and `Concat` is the array instance.
- `private init` of `RegisteredUser` (Contents.swift:101) is access control only. Construction is the datatype constructor.
- Swift `Int` is 64 bits wide. The validators only compare, so the model uses unbounded `int`.
- Text.RangeOf: strings are sequences of characters with no Unicode normalisation or grapheme clustering. An empty pattern is never found, following the Foundation convention; the library only searches for "gmail". Only the start index of the found range is returned, since the library only tests whether a range exists.
- The expected-output comment (Contents.swift:145-150) is documentation, not behaviour. It disagrees with the code, as described above.
