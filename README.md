# A verified model of unruly/validation's success-or-failure containers

This project models the core of the `unruly/validation` Java library in Dafny and proves its properties:

- `com.unrulymedia.util.Validation<T, S>`: an immutable value that holds either a success value or a list of errors. Its n-ary `compose` accumulates the errors of every failing element when no error list is null; otherwise it can throw `NullPointerException` (`Validations.ComposeAllThrowsExactly`).
- `com.unrulymedia.util.Validator<T, S>`: the older container with one value and one error.
- `co.unruly.util.function.ExceptionalPredicate` and `ExceptionalFunction`: predicates and functions whose callbacks may throw, with their combinators.

All four source files are pure, so the model is datatypes, functions and lemmas:

- `runtime.dfy` (module `Runtime`): the Java runtime that the containers rely on.
  - Nullable references are `Option` (`None` is null).
  - Exceptions are abstract values `Exn`.
  - Invoking a callback gives `Call<R> = Ok(result) | Throw(exn)`. An exception that is not caught is a `Throw` in the result.
  - A result whose Java error type is the wildcard `?` holds `Fault<E> = Reported(error) | Caught(exn)`.
  - `int` and `long` addition wrap around, as `Integer::sum` and `Long::sum` do.
- `exceptional_function.dfy`, `exceptional_predicate.dfy`: `Fn<T, R> = T -> Call<R>` and `Pred<T> = T -> Call<bool>`, with their default and static methods.
- `validation.dfy` (module `Validations`): `Validation(value: Option<T>, errors: Option<seq<S>>)`, modelling the two final fields directly.
  - Being a success means only that the value is present.
  - `filter` builds failures with an empty list and `map` builds results with a null list, so no invariant ties the two fields together.
  - Every n-ary `compose` preset is the same left fold, `ComposeAll`, from `success(identity)`.
- `validator.dfy` (module `Validators`): `Validator(value: seq<T>, error: Option<S>)`. The private constructor makes the value list empty or one element long.

Where the code differs from what its names or tests suggest, the model follows the code:

- A `Validation` failure need not carry a non-empty error list.
- `Validation.map` on a null mapped value gives a failure whose error list is null, not a `NullPointerException` error.
- `Validation.map` and `Validation.flatMap` do not catch mapper exceptions. Only the `try` family does.
- `Validation.filter` rejects with an empty error list. `Validator.filter` rejects with the value itself as the error.
- `Validator` is the single-error container of `Validator.java`, not a rule set.

## Model

| member | source | states |
|---|---|---|
| `Runtime.Wrap32` | src/main/java/com/unrulymedia/util/Validation.java:177-183 | truncation to 32 bits differs from the exact value by a multiple of 2^32 and is the exact value when that fits |
| `Runtime.Wrap64` | src/main/java/com/unrulymedia/util/Validation.java:185-191 | the same for 64 bits |
| `Runtime.IntSum` | src/main/java/com/unrulymedia/util/Validation.java:177-183 | `Integer::sum` differs from the exact sum by a multiple of 2^32 and is the exact sum when that fits in 32 bits; `Validations.FoldIntSum` folds it |
| `Runtime.LongSum` | src/main/java/com/unrulymedia/util/Validation.java:185-191 | `Long::sum` differs from the exact sum by a multiple of 2^64 and is the exact sum when that fits in 64 bits; `Validations.FoldLongSum` folds it |
| `ExceptionalFunction.Compose` | src/main/java/co/unruly/util/function/ExceptionalFunction.java:9-12 | `f.compose(before)(v)` is `f` applied to `before(v)`; an exception from `before` is thrown as it is |
| `ExceptionalFunction.AndThen` | src/main/java/co/unruly/util/function/ExceptionalFunction.java:14-17 | `f.andThen(after)(t)` is `after` applied to `f(t)`; an exception from `f` is thrown as it is |
| `ExceptionalFunction.Identity` | src/main/java/co/unruly/util/function/ExceptionalFunction.java:19-21 | `identity()`; `IdentityReturnsArgument` proves it returns its argument and never throws, `IdentityIsNeutral` that it is neutral for `compose` and `andThen` |
| `ExceptionalFunction.IdentityReturnsArgument` | src/main/java/co/unruly/util/function/ExceptionalFunction.java:19-21 | `identity()(t)` returns `t` and never throws |
| `ExceptionalFunction.AndThenIsFlippedCompose` | src/main/java/co/unruly/util/function/ExceptionalFunction.java:9-17 | `f.andThen(g)` and `g.compose(f)` agree at every argument |
| `ExceptionalFunction.IdentityIsNeutral` | src/main/java/co/unruly/util/function/ExceptionalFunction.java:9-21 | composing or chaining with `identity` on either side agrees with `f` |
| `ExceptionalFunction.AndThenAssociative` | src/main/java/co/unruly/util/function/ExceptionalFunction.java:14-17 | chaining is associative, exceptions included |
| `ExceptionalFunction.FirstStageThrowSkipsSecond` | src/main/java/co/unruly/util/function/ExceptionalFunction.java:9-17 | when the first stage throws, the result is that exception whatever the second stage is |
| `ExceptionalPredicate.And` | src/main/java/co/unruly/util/function/ExceptionalPredicate.java:9-12 | true exactly when both tests hold; false without the second test when the first is false; the first test's exception escapes |
| `ExceptionalPredicate.Or` | src/main/java/co/unruly/util/function/ExceptionalPredicate.java:18-21 | false exactly when both tests fail; true without the second test when the first holds; the first test's exception escapes |
| `ExceptionalPredicate.Negate` | src/main/java/co/unruly/util/function/ExceptionalPredicate.java:14-16 | the negation of every answer; throws exactly when `p` throws, the same exception |
| `ExceptionalPredicate.IsEqual` | src/main/java/co/unruly/util/function/ExceptionalPredicate.java:23-27 | accepts the target itself; a non-null target rejects null |
| `ExceptionalPredicate.IsEqualExactly` | src/main/java/co/unruly/util/function/ExceptionalPredicate.java:23-27 | accepts exactly the target and never throws: only null for a null target, otherwise the equal values |
| `ExceptionalPredicate.DoubleNegation` | src/main/java/co/unruly/util/function/ExceptionalPredicate.java:14-16 | negating twice agrees with `p` at every argument |
| `ExceptionalPredicate.AndShortCircuits` | src/main/java/co/unruly/util/function/ExceptionalPredicate.java:9-12 | once the first test is false or throws, the second predicate does not affect `and` |
| `ExceptionalPredicate.OrShortCircuits` | src/main/java/co/unruly/util/function/ExceptionalPredicate.java:18-21 | once the first test is true or throws, the second predicate does not affect `or` |
| `ExceptionalPredicate.DeMorgan` | src/main/java/co/unruly/util/function/ExceptionalPredicate.java:9-21 | `negate(p or q)` agrees with `negate(p) and negate(q)`, exceptions included |
| `Validations.Success` | src/main/java/com/unrulymedia/util/Validation.java:24-26 | `success(v)` of a non-null value; `SuccessQueries` proves it is a success with an empty error list on which every query answers with `v` |
| `Validations.SuccessOfRef` | src/main/java/com/unrulymedia/util/Validation.java:24-26 | `success(ref)` of a possibly null reference; `SuccessOfRefRejectsNull` proves it throws `NullPointerException` exactly for null and is `Success` otherwise |
| `Validations.Failure` | src/main/java/com/unrulymedia/util/Validation.java:28-30 | `failure(error)`; `FailureIsSingletonList` proves it is the failure holding exactly the one-element list `[error]` |
| `Validations.FailureList` | src/main/java/com/unrulymedia/util/Validation.java:32-34 | `failure(list)`; `FailureQueries` proves it is a failure that keeps the list unchanged |
| `Validations.IsSuccess` | src/main/java/com/unrulymedia/util/Validation.java:51-53 | a success exactly when the value is present; `SuccessQueries` and `FailureQueries` show that the factories decide it |
| `Validations.IsFailure` | src/main/java/com/unrulymedia/util/Validation.java:55-57 | the negation of `IsSuccess`; `Get`, `OrElse` and the other queries branch on it in their contracts |
| `Validations.GetErrors` | src/main/java/com/unrulymedia/util/Validation.java:63-65 | the error list as stored, null included; `SuccessQueries` proves it is empty on `success`, `FailureQueries` that it is the given list on `failure(list)` |
| `Validations.TryTo` | src/main/java/com/unrulymedia/util/Validation.java:36-43 | a returned value gives `success`; an exception gives a failure with that one error; a null result gives a `NullPointerException` failure |
| `Validations.From` | src/main/java/com/unrulymedia/util/Validation.java:45-48 | a present optional gives `success(v)`, an empty one a `NoSuchElementException` failure |
| `Validations.Get` | src/main/java/com/unrulymedia/util/Validation.java:59-61 | returns the value exactly on a success; throws `NoSuchElementException` on a failure |
| `Validations.OrElse` | src/main/java/com/unrulymedia/util/Validation.java:67-70 | the value on a success, the fallback on a failure |
| `Validations.OrElseGet` | src/main/java/com/unrulymedia/util/Validation.java:76-78 | the value on a success, whatever the supplier; on a failure the supplier's result, its exception included |
| `Validations.OrElseThrow` | src/main/java/com/unrulymedia/util/Validation.java:72-74 | the value on a success, the supplied exception on a failure |
| `Validations.ToOptional` | src/main/java/com/unrulymedia/util/Validation.java:80-82 | present exactly on a success, holding the value |
| `Validations.Stream` | src/main/java/com/unrulymedia/util/Validation.java:84-90 | the one value on a success, empty exactly on a failure |
| `Validations.SuccessOfRefRejectsNull` | src/main/java/com/unrulymedia/util/Validation.java:24-26 | `success(null)` throws `NullPointerException`; any other reference gives the success |
| `Validations.FailureIsSingletonList` | src/main/java/com/unrulymedia/util/Validation.java:28-34 | `failure(error)` is `failure(list)` of the one-element list, with exactly that one error |
| `Validations.SuccessQueries` | src/main/java/com/unrulymedia/util/Validation.java:24-90 | `success(x)` is a success with an empty error list, and every query on it answers with `x` |
| `Validations.FailureQueries` | src/main/java/com/unrulymedia/util/Validation.java:32-90 | `failure(list)` is a failure that keeps the list unchanged, and every query on it gives the list, the fallback or the exception |
| `Validations.OrElseGetThrowingSupplier` | src/main/java/com/unrulymedia/util/Validation.java:76-78 | a supplier that throws does not affect `orElseGet` on a success, and its exception escapes on a failure |
| `Validations.FromToOptionalRoundTrip` | src/main/java/com/unrulymedia/util/Validation.java:45-82 | `from(opt).toOptional()` is `opt`; `from(empty)` fails with one `NoSuchElementException` |
| `Validations.Map` | src/main/java/com/unrulymedia/util/Validation.java:106-114 | a failure keeps its error list; on a success, the mapper's exception escapes, or the result holds the mapped value (possibly null) with a null error list |
| `Validations.FlatMap` | src/main/java/com/unrulymedia/util/Validation.java:130-137 | a failure keeps its error list; on a success the mapper's result, exception included, is returned as it is |
| `Validations.Filter` | src/main/java/com/unrulymedia/util/Validation.java:153-161 | a failure is returned unchanged; a success is kept exactly when the test holds, becomes a failure with an empty list when it fails, and lets its exception escape |
| `Validations.FailureIgnoresCallbacks` | src/main/java/com/unrulymedia/util/Validation.java:106-161 | on a failure the results of `map`, `flatMap` and `filter` do not depend on the callback |
| `Validations.FilterOnlyNarrows` | src/main/java/com/unrulymedia/util/Validation.java:153-161 | a success that comes out of `filter` is the validation that went in |
| `Validations.Lift` | src/main/java/com/unrulymedia/util/Validation.java:92-151 | the same value and the same errors, in order, viewed as errors of the wildcard type |
| `Validations.TryMap` | src/main/java/com/unrulymedia/util/Validation.java:92-104 | as `map`, except that the mapper's exception becomes a failure whose only error is that exception |
| `Validations.TryFlatMap` | src/main/java/com/unrulymedia/util/Validation.java:116-128 | as `flatMap`, except that the mapper's exception becomes a failure whose only error is that exception |
| `Validations.TryFilter` | src/main/java/com/unrulymedia/util/Validation.java:139-151 | as `filter`, except that the test's exception becomes a failure whose only error is that exception |
| `Validations.TryFamilyAgreesUnlessThrown` | src/main/java/com/unrulymedia/util/Validation.java:92-161 | each `try` operation equals its plain twin when the callback does not throw, and is the one-error failure when it does |
| `Validations.Compose` | src/main/java/com/unrulymedia/util/Validation.java:163-175 | failure with failure gives this errors then that errors; success with failure gives that; failure with success gives this; two successes give `success(f(a, b))`; when both fail and either list is null, `NullPointerException` |
| `Validations.ComposeNext` | src/main/java/com/unrulymedia/util/Validation.java:180-182 | one step of the reduction: a thrown exception propagates, otherwise `compose` with the next element; `ComposeAssociative` and `ComposeAllAccumulates` are stated with it |
| `Validations.ComposeAssociative` | src/main/java/com/unrulymedia/util/Validation.java:163-175 | with an associative combiner, grouping three compositions either way gives the same result |
| `Validations.ComposeAll` | src/main/java/com/unrulymedia/util/Validation.java:177-254 | the reduction `reduce(success(identity), (v1, v2) -> v1.compose(v2, f))` shared by every preset; `ComposeAllAccumulates` gives its result for every input |
| `Validations.FailureCount` | src/main/java/com/unrulymedia/util/Validation.java:163-175 | the number of failing elements; `NoFailuresExactly` proves it is zero exactly when every element succeeds |
| `Validations.NoFailuresExactly` | src/main/java/com/unrulymedia/util/Validation.java:163-175 | every element succeeds exactly when no element fails |
| `Validations.FailedOutcome` | src/main/java/com/unrulymedia/util/Validation.java:163-182 | the reference outcome once an element fails: the failure with every failing element's errors in order when no failing list is null; otherwise `NullPointerException` for two or more failures and the lone failure unchanged for one |
| `Validations.Values` | src/main/java/com/unrulymedia/util/Validation.java:180-182 | the values of all-success elements, one per element, in order |
| `Validations.ComposeAllAccumulates` | src/main/java/com/unrulymedia/util/Validation.java:177-254 | for every input, null error lists included, the fold from `success(identity)` is the success of the left fold of the values when all succeed, and otherwise `FailedOutcome` |
| `Validations.ComposeAllThrowsExactly` | src/main/java/com/unrulymedia/util/Validation.java:163-182 | the reduction throws exactly when two or more elements fail and one of them has a null error list, and what it throws is `NullPointerException` |
| `Validations.NoFailuresNoErrors` | src/main/java/com/unrulymedia/util/Validation.java:163-175 | successes contribute no errors to the accumulation |
| `Validations.ComposeAllEmpty` | src/main/java/com/unrulymedia/util/Validation.java:177-183 | no suppliers give `success(identity)` |
| `Validations.FoldIntSum` | src/main/java/com/unrulymedia/util/Validation.java:177-183 | folding `Integer::sum` from 0 is the exact sum wrapped to 32 bits |
| `Validations.FoldLongSum` | src/main/java/com/unrulymedia/util/Validation.java:185-191 | folding `Long::sum` from 0 is the exact sum wrapped to 64 bits |
| `Validations.FoldLogicalAnd` | src/main/java/com/unrulymedia/util/Validation.java:209-215 | folding `Boolean::logicalAnd` from true holds exactly when every element holds |
| `Validations.FoldConcat` | src/main/java/com/unrulymedia/util/Validation.java:217-234 | folding concatenation from empty joins all elements in order |
| `Validations.FlattenAppend` | src/main/java/com/unrulymedia/util/Validation.java:225-234 | one more list in the fold is appended at the end |
| `Validations.FoldUnion` | src/main/java/com/unrulymedia/util/Validation.java:236-244 | folding union from the empty set holds exactly the elements of some set |
| `Validations.FoldMerge` | src/main/java/com/unrulymedia/util/Validation.java:246-254 | folding the merge from the empty map holds every key of some map, bound to its value in the last map that has it |
| `Validations.ComposeInts` | src/main/java/com/unrulymedia/util/Validation.java:177-183 | the integer preset, `ComposeAll` from 0 with `Integer::sum`; `ComposeIntsSums` gives its result |
| `Validations.ComposeLongs` | src/main/java/com/unrulymedia/util/Validation.java:185-191 | the long preset, `ComposeAll` from 0 with `Long::sum`; `ComposeLongsSums` gives its result |
| `Validations.LogicalAnd` | src/main/java/com/unrulymedia/util/Validation.java:209-215 | `Boolean::logicalAnd`; `FoldLogicalAnd` proves its fold from true holds exactly when every element holds |
| `Validations.ComposeBooleans` | src/main/java/com/unrulymedia/util/Validation.java:209-215 | the boolean preset, `ComposeAll` from true with `Boolean::logicalAnd`; `ComposeBooleansConjoins` gives its result |
| `Validations.Concat` | src/main/java/com/unrulymedia/util/Validation.java:217-234 | `String::concat` and the list concatenation: the result is as long as both together, starts with the first and ends with the second |
| `Validations.ComposeStrings` | src/main/java/com/unrulymedia/util/Validation.java:217-223 | the string preset, `ComposeAll` from `""` with `String::concat`; `ComposeStringsConcatenates` gives its result |
| `Validations.ComposeLists` | src/main/java/com/unrulymedia/util/Validation.java:225-234 | the list preset, `ComposeAll` from the empty list with concatenation; `ComposeListsConcatenates` gives its result |
| `Validations.Union` | src/main/java/com/unrulymedia/util/Validation.java:236-244 | the set collected from both streams holds both sets and nothing else |
| `Validations.ComposeSets` | src/main/java/com/unrulymedia/util/Validation.java:236-244 | the set preset, `ComposeAll` from the empty set with union; `ComposeSetsUnites` gives its result |
| `Validations.Merge` | src/main/java/com/unrulymedia/util/Validation.java:246-254 | `toMap` over both entry sets with `(c, d) -> d`: the keys of both maps, each bound to the second map's value when it has the key and to the first map's value otherwise |
| `Validations.ComposeMaps` | src/main/java/com/unrulymedia/util/Validation.java:246-254 | the map preset, `ComposeAll` from the empty map with the merge; `ComposeMapsMerges` gives its result |
| `Validations.ComposeIntsSums` | src/main/java/com/unrulymedia/util/Validation.java:177-183 | when every element succeeds, the integer preset gives the sum of the values wrapped to 32 bits, which is the exact sum when that fits; when one fails, `FailedOutcome` |
| `Validations.ComposeLongsSums` | src/main/java/com/unrulymedia/util/Validation.java:185-191 | when every element succeeds, the long preset gives the sum of the values wrapped to 64 bits, which is the exact sum when that fits; when one fails, `FailedOutcome` |
| `Validations.ComposeBooleansConjoins` | src/main/java/com/unrulymedia/util/Validation.java:209-215 | when every element succeeds, the boolean preset is true exactly when every value is true; when one fails, `FailedOutcome` |
| `Validations.ComposeStringsConcatenates` | src/main/java/com/unrulymedia/util/Validation.java:217-223 | the string preset joins the values in argument order when every element succeeds, and `FailedOutcome` when one fails |
| `Validations.ComposeListsConcatenates` | src/main/java/com/unrulymedia/util/Validation.java:225-234 | the list preset joins the lists in argument order when every element succeeds, and `FailedOutcome` when one fails |
| `Validations.ComposeSetsUnites` | src/main/java/com/unrulymedia/util/Validation.java:236-244 | the set preset holds exactly the elements of some value when every element succeeds, and `FailedOutcome` when one fails |
| `Validations.ComposeMapsMerges` | src/main/java/com/unrulymedia/util/Validation.java:246-254 | the map preset holds every key of some value, bound to its value in the last map that has it, when every element succeeds, and `FailedOutcome` when one fails |
| `Validations.ComposeIntsExample` | src/main/java/com/unrulymedia/util/Validation.java:177-183 | composing `success(3)` and `success(4)` gives `success(7)` |
| `Validations.ComposeIntsFailureExample` | src/main/java/com/unrulymedia/util/Validation.java:177-183 | successes 1 and 3 then `failure("doh")` give exactly `failure("doh")` |
| `Validations.ComposeMapsExample` | src/main/java/com/unrulymedia/util/Validation.java:246-254 | `{foo: 3, bar: 4}` merged with `{bar: 5, baz: 6}` gives `{foo: 3, bar: 5, baz: 6}` |
| `Validators.Success` | src/main/java/com/unrulymedia/util/Validator.java:25-27 | `success(v)` of a non-null value; `SuccessQueries` proves it holds exactly `v` and no error |
| `Validators.SuccessOfRef` | src/main/java/com/unrulymedia/util/Validator.java:25-27 | `success(ref)` of a possibly null reference; `SuccessOfRefRejectsNull` proves it throws `NullPointerException` exactly for null and is `Success` otherwise |
| `Validators.Failure` | src/main/java/com/unrulymedia/util/Validator.java:29-31 | `failure(e)` of a non-null error; `FailureQueries` proves it holds no value and exactly the error `e` |
| `Validators.IsSuccess` | src/main/java/com/unrulymedia/util/Validator.java:47-49 | a success exactly when the value list is not empty; `SuccessQueries` and `FailureQueries` show that the factories decide it |
| `Validators.IsFailure` | src/main/java/com/unrulymedia/util/Validator.java:51-53 | the negation of `IsSuccess`; the queries branch on it in their contracts |
| `Validators.Make` | src/main/java/com/unrulymedia/util/Validator.java:20-23 | at most one value, present exactly for a non-null value; the error as given |
| `Validators.SuccessOfRefRejectsNull` | src/main/java/com/unrulymedia/util/Validator.java:25-27 | `success(null)` throws `NullPointerException`; any other reference gives the success |
| `Validators.TryTo` | src/main/java/com/unrulymedia/util/Validator.java:33-39 | a returned value gives `success`; an exception or a null result gives the one-error failure |
| `Validators.From` | src/main/java/com/unrulymedia/util/Validator.java:41-44 | a present optional gives `success(v)`, an empty one a `NoSuchElementException` failure |
| `Validators.First` | src/main/java/com/unrulymedia/util/Validator.java:55-78 | element 0 on a success; `IndexOutOfBoundsException` exactly on a failure |
| `Validators.Get` | src/main/java/com/unrulymedia/util/Validator.java:55-57 | the value on a success; `IndexOutOfBoundsException` on a failure |
| `Validators.GetError` | src/main/java/com/unrulymedia/util/Validator.java:59-61 | the error when there is one; `NoSuchElementException` otherwise, which includes every success |
| `Validators.OrElse` | src/main/java/com/unrulymedia/util/Validator.java:63-66 | the value on a success; `IndexOutOfBoundsException` on a failure |
| `Validators.OrElseThrow` | src/main/java/com/unrulymedia/util/Validator.java:68-70 | the value on a success; `IndexOutOfBoundsException` on a failure |
| `Validators.OrElseGet` | src/main/java/com/unrulymedia/util/Validator.java:72-74 | the value on a success; `IndexOutOfBoundsException` on a failure |
| `Validators.ToOptional` | src/main/java/com/unrulymedia/util/Validator.java:76-78 | the present value on a success; `IndexOutOfBoundsException` on a failure |
| `Validators.SuccessQueries` | src/main/java/com/unrulymedia/util/Validator.java:25-78 | `success(x)` holds exactly `x` and no error: every value query answers with `x`, and `getError` throws `NoSuchElementException` |
| `Validators.FailureQueries` | src/main/java/com/unrulymedia/util/Validator.java:29-78 | `failure(e)` holds no value and the error `e`; as written every value query throws `IndexOutOfBoundsException`, and the intended ones give the fallback |
| `Validators.GetIntended` | src/main/java/com/unrulymedia/util/Validator.java:55-57 | agrees with `get` on a success; `NoSuchElementException` on a failure |
| `Validators.OrElseIntended` | src/main/java/com/unrulymedia/util/Validator.java:63-66 | agrees with `orElse` on a success; the fallback on a failure |
| `Validators.OrElseThrowIntended` | src/main/java/com/unrulymedia/util/Validator.java:68-70 | agrees with `orElseThrow` on a success; the supplied exception on a failure |
| `Validators.OrElseGetIntended` | src/main/java/com/unrulymedia/util/Validator.java:72-74 | agrees with `orElseGet` on a success; on a failure the supplier's result, its exception included |
| `Validators.ToOptionalIntended` | src/main/java/com/unrulymedia/util/Validator.java:76-78 | agrees with `toOptional` on a success; empty on a failure |
| `Validators.GetOfFailureMisreports` | src/main/java/com/unrulymedia/util/Validator.java:55-57 | `failure("bugger").get()` throws `IndexOutOfBoundsException`, where the intended `get` throws `NoSuchElementException` |
| `Validators.OrElseOfFailureThrows` | src/main/java/com/unrulymedia/util/Validator.java:63-66 | `failure("boo").orElse("meh")` throws, where the intended `orElse` gives `"meh"` |
| `Validators.OrElseThrowOfFailureMisreports` | src/main/java/com/unrulymedia/util/Validator.java:68-70 | `failure("hi there").orElseThrow(Exception::new)` throws `IndexOutOfBoundsException`, not the supplied exception |
| `Validators.OrElseGetOfFailureThrows` | src/main/java/com/unrulymedia/util/Validator.java:72-74 | `failure("yay").orElseGet(() -> "boo")` throws, where the intended `orElseGet` gives `"boo"` |
| `Validators.ToOptionalOfFailureThrows` | src/main/java/com/unrulymedia/util/Validator.java:76-78 | `failure("meh").toOptional()` throws, where the intended `toOptional` is empty |
| `Validators.FromToOptionalRoundTrip` | src/main/java/com/unrulymedia/util/Validator.java:41-78 | `from(of(v)).toOptional()` is `of(v)`; `from(empty)` fails with a `NoSuchElementException` error |
| `Validators.Map` | src/main/java/com/unrulymedia/util/Validator.java:80-95 | a failure gets its old optional error as its new error; on a success a mapper exception or null result becomes the one error, otherwise the mapped success |
| `Validators.FlatMap` | src/main/java/com/unrulymedia/util/Validator.java:97-109 | a failure gets its old optional error as its new error; on a success a mapper exception or null result becomes the one error, otherwise the result has the mapper's value list and the mapper's error, when it has one |
| `Validators.FromMapperResult` | src/main/java/com/unrulymedia/util/Validator.java:103-104 | the mapper's validator returned as it is, its error seen through the wildcard type; `FlatMap` states that it keeps the value list and the error |
| `Validators.AsKept` | src/main/java/com/unrulymedia/util/Validator.java:111-123 | the same value list and the same error |
| `Validators.Filter` | src/main/java/com/unrulymedia/util/Validator.java:111-123 | a failure is unchanged; a success is kept when the test holds; otherwise the rejected value is the error; a test exception becomes the one error |
| `Validators.FailureIgnoresCallbacks` | src/main/java/com/unrulymedia/util/Validator.java:80-123 | on a failure the results of `map`, `flatMap` and `filter` do not depend on the callback |
| `Validators.OperationsKeepShape` | src/main/java/com/unrulymedia/util/Validator.java:20-123 | `map` and `filter` keep at most one value and no error beside a value |
| `Validators.FlatMapKeepsShape` | src/main/java/com/unrulymedia/util/Validator.java:97-109 | `flatMap` keeps at most one value and no error beside a value when every validator the mapper returns has that shape |
| `Validators.FactoriesAreShaped` | src/main/java/com/unrulymedia/util/Validator.java:20-44 | every factory gives at most one value and no error beside a value |

## Left out

- The float and double n-ary `compose` presets (`Validation.java:193-207`): floating point is not modelled.
- `Validator.compose` (`Validator.java:133-146`) and `ComposedValidator.compose` return null with their bodies removed. There is nothing to model.
- `toString`, `hashCode`, and Java's `equals` are not modelled; the model uses Dafny's structural equality. In Java, `equals` on a `Validation` whose own error list is null throws `NullPointerException` when compared with another `Validation` that is not the same object. The model does not capture that.
- The `MapException` wrapping inside `tryMap`, `tryFlatMap` and `tryFilter` is modelled by its net effect only: the callback's own exception becomes the sole error.
- Exception classes and messages are abstract `Exn` values. Unchecked casts such as `(V) e` are not modelled. `java.lang.Error`, which `catch (Exception e)` does not catch, is not modelled either.
- Error lists are compared by contents. When `map` or `flatMap` passes a failure's list along, it is the same list object in Java, and the model does not capture that identity.
- A null callback is not modelled: callbacks are total Dafny functions. In Java, `map`, `flatMap`, `filter` and the `ExceptionalFunction` and `ExceptionalPredicate` combinators reject it through `Objects.requireNonNull`. In `tryTo` and the `try` family it becomes a `NullPointerException` failure, in the `try` family only on a success. `compose(that, f)` throws only when two successes meet.
- `ExceptionalSupplier` is a bare interface. Suppliers are functions returning a `Call`.
- `Validations.OrElseThrow`, `Validators.OrElseThrow`: the exception supplier is represented by the exception it supplies.
- `Validations.ComposeAll`: the suppliers of the n-ary `compose` are given as the validations they return. A supplier that throws, or that returns a null validation, is not modelled.
- `Validations.Compose`: the `BinaryOperator` is a total function with non-null results. A combiner that throws, or that returns null, which `success` rejects, is not modelled.
- `Validations.ComposeMaps`: map values are taken to be non-null. `Collectors.toMap` throws `NullPointerException` on a null value (`Validation.java:252`), which is not modelled.
- `Validations.ComposeMapsMerges`: states the merge for non-null map values only, as `Validations.ComposeMaps` does.
- `Validations.FailureList` takes a non-null list. `failure((List) null)` is the value `Validation(None, None)`, which every operation of the model accepts and which `Validations.FailedOutcome` covers, but no factory of the model builds it.
- `Validations.FlatMap`, `Validations.TryFlatMap`: the mapper returns a non-null validation. Returning null, which `flatMap` then returns as is, is not modelled.
- `Validators.Failure` takes a non-null error. `failure(null)` is the private constructor with neither value nor error, `Validators.Make(None, None)`.
- `ExceptionalPredicate.IsEqual`: `targetRef.equals` is modelled by equality of values. An `equals` that is not an equivalence, or that throws, is not modelled.
- The `Validation` rule-set classes of package `co.unruly.util` and the Hamcrest matchers are not part of this model.

## Findings

| source | as written | input that shows it | evidently intended | confidence | as-written member | corrected member |
|---|---|---|---|---|---|---|
| src/main/java/com/unrulymedia/util/Validator.java:55-57 | `get` reads `value.get(0)`, so a failure throws `IndexOutOfBoundsException` | `Validator.failure("bugger").get()` | throw `NoSuchElementException` (ValidatorGetAndGetErrorTest.java:26-30) | high, not executed | `Validators.GetOfFailureMisreports` | `Validators.GetIntended` |
| src/main/java/com/unrulymedia/util/Validator.java:63-66 | `orElse` reads `value.get(0)` before the fallback, so a failure throws | `Validator.failure("boo").orElse("meh")` | return `"meh"` (ValidatorGetAndGetErrorTest.java:44-48) | high, not executed | `Validators.OrElseOfFailureThrows` | `Validators.OrElseIntended` |
| src/main/java/com/unrulymedia/util/Validator.java:68-70 | `orElseThrow` reads `value.get(0)` first, so a failure throws `IndexOutOfBoundsException`, not the supplied exception | `Validator.failure("hi there").orElseThrow(Exception::new)` | throw the supplied exception (ValidatorGetAndGetErrorTest.java:56-60 only checks for some `Exception`) | medium, not executed | `Validators.OrElseThrowOfFailureMisreports` | `Validators.OrElseThrowIntended` |
| src/main/java/com/unrulymedia/util/Validator.java:72-74 | `orElseGet` reads `value.get(0)` before the supplier, so a failure throws | `Validator.failure("yay").orElseGet(() -> "boo")` | return `"boo"` (ValidatorGetAndGetErrorTest.java:68-72) | high, not executed | `Validators.OrElseGetOfFailureThrows` | `Validators.OrElseGetIntended` |
| src/main/java/com/unrulymedia/util/Validator.java:76-78 | `toOptional` reads `value.get(0)`, so a failure throws | `Validator.failure("meh").toOptional()` | return `Optional.empty()` (ValidatorToAndFromOptionalTest.java:35-40) | high, not executed | `Validators.ToOptionalOfFailureThrows` | `Validators.ToOptionalIntended` |
