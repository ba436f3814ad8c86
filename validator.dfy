/**
 * `com.unrulymedia.util.Validator<T, S>`: the older single-error container.
 *
 * `value` is the `List<T>` field, which the private constructor makes empty
 * or a one-element list; `error` is the `Optional<S>` field. Being a
 * success means the value list is not empty. `map`, `flatMap` and `filter`
 * always catch callback exceptions, and a null mapper result becomes a
 * `NullPointerException` failure.
 */
module Validators {
  import opened Runtime

  datatype Validator<T, S> = Validator(value: seq<T>, error: Option<S>)

  /** Where an error of a `flatMap` result comes from, short of a caught exception. */
  datatype Origin<S, E> =
    | FromSource(wrapped: Option<S>)
    | FromMapper(error: E)

  /** Where an error of a `filter` result comes from, short of a caught exception. */
  datatype Rejection<S, T> =
    | Kept(error: S)
    | Rejected(value: T)

  // ---------------------------------------------------------------------------
  // Factories
  // ---------------------------------------------------------------------------

  /**
   * The private constructor `Validator(value, error)`: a one-element value
   * list for a non-null value and an empty one for null, and the error
   * wrapped with `Optional.ofNullable`.
   */
  function Make<T, S>(value: Option<T>, error: Option<S>): (r: Validator<T, S>)
    ensures |r.value| <= 1
    ensures IsSuccess(r) <==> value.Some?
    ensures value.Some? ==> r.value[0] == value.value
    ensures r.error == error
  {
    match value
    case None => Validator([], error)
    case Some(x) => Validator([x], error)
  }

  /** `Validator.success(value)` for a non-null value. */
  function Success<T, S>(v: T): Validator<T, S> {
    Make(Some(v), None)
  }

  /** `Validator.success(ref)`: `Objects.requireNonNull` rejects null. */
  function SuccessOfRef<T, S>(ref: Option<T>): Call<Validator<T, S>> {
    match ref
    case None => Throw(NullPointer)
    case Some(v) => Ok(Success(v))
  }

  /** `Validator.failure(error)` for a non-null error. */
  function Failure<T, S>(e: S): Validator<T, S> {
    Make(None, Some(e))
  }

  /** `Validator.tryTo(supplier)`: a thrown exception or a null result becomes the one error. */
  function TryTo<U>(supplier: () -> Call<Option<U>>): (r: Validator<U, Exn>)
    ensures supplier().Throw? ==> r == Failure(supplier().exn)
    ensures supplier() == Ok(None) ==> r == Failure(NullPointer)
    ensures supplier().Ok? && supplier().result.Some? ==> r == Success(supplier().result.value)
  {
    match supplier()
    case Throw(e) => Failure(e)
    case Ok(ref) =>
      match SuccessOfRef(ref)
      case Throw(e) => Failure(e)
      case Ok(s) => s
  }

  /** `Validator.from(optional)`. */
  function From<U>(opt: Option<U>): (r: Validator<U, Exn>)
    ensures opt.Some? ==> r == Success(opt.value)
    ensures opt.None? ==> r == Failure(NoSuchElement)
  {
    match opt
    case Some(v) => Success(v)
    case None => Failure(NoSuchElement)
  }

  /** `success(ref)` throws exactly on null and otherwise gives `success(value)`. */
  lemma SuccessOfRefRejectsNull<T, S>(ref: Option<T>)
    ensures ref.None? <==> SuccessOfRef<T, S>(ref) == Throw(NullPointer)
    ensures ref.Some? ==> SuccessOfRef<T, S>(ref) == Ok(Success(ref.value))
  {
  }

  // ---------------------------------------------------------------------------
  // Queries
  // ---------------------------------------------------------------------------

  predicate IsSuccess<T, S>(v: Validator<T, S>) {
    |v.value| != 0
  }

  predicate IsFailure<T, S>(v: Validator<T, S>) {
    !IsSuccess(v)
  }

  /** Element 0 of the value list, as `value.get(0)` reads it. */
  function First<T, S>(v: Validator<T, S>): (r: Call<T>)
    ensures IsFailure(v) <==> r == Throw(IndexOutOfBounds)
    ensures IsSuccess(v) ==> r == Ok(v.value[0])
  {
    if |v.value| == 0 then Throw(IndexOutOfBounds) else Ok(v.value[0])
  }

  /** `get()`, as written: element 0, so a failure throws `IndexOutOfBoundsException`. */
  function Get<T, S>(v: Validator<T, S>): (r: Call<T>)
    ensures IsSuccess(v) ==> r == Ok(v.value[0])
    ensures IsFailure(v) ==> r == Throw(IndexOutOfBounds)
  {
    First(v)
  }

  /** `getError()`: the error, or `NoSuchElementException` when there is none. */
  function GetError<T, S>(v: Validator<T, S>): (r: Call<S>)
    ensures r.Ok? <==> v.error.Some?
    ensures r.Ok? ==> v.error == Some(r.result)
    ensures v.error.None? ==> r == Throw(NoSuchElement)
  {
    match v.error
    case None => Throw(NoSuchElement)
    case Some(e) => Ok(e)
  }

  /** `orElse(other)`, as written: it reads element 0 before looking at `other`. */
  function OrElse<T, S>(v: Validator<T, S>, other: T): (r: Call<T>)
    ensures IsSuccess(v) ==> r == Ok(v.value[0])
    ensures IsFailure(v) ==> r == Throw(IndexOutOfBounds)
  {
    match First(v)
    case Throw(e) => Throw(e)
    case Ok(x) => Ok(x)
  }

  /** `orElseGet(supplier)`, as written: it reads element 0 before asking the supplier. */
  function OrElseGet<T, S>(v: Validator<T, S>, other: () -> Call<T>): (r: Call<T>)
    ensures IsSuccess(v) ==> r == Ok(v.value[0])
    ensures IsFailure(v) ==> r == Throw(IndexOutOfBounds)
  {
    match First(v)
    case Throw(e) => Throw(e)
    case Ok(x) => Ok(x)
  }

  /** `orElseThrow(exceptionSupplier)`, as written: element 0 is read first. */
  function OrElseThrow<T, S>(v: Validator<T, S>, exn: Exn): (r: Call<T>)
    ensures IsSuccess(v) ==> r == Ok(v.value[0])
    ensures IsFailure(v) ==> r == Throw(IndexOutOfBounds)
  {
    match First(v)
    case Throw(e) => Throw(e)
    case Ok(x) => Ok(x)
  }

  /** `toOptional()`, as written: element 0 is read first. */
  function ToOptional<T, S>(v: Validator<T, S>): (r: Call<Option<T>>)
    ensures IsSuccess(v) ==> r == Ok(Some(v.value[0]))
    ensures IsFailure(v) ==> r == Throw(IndexOutOfBounds)
  {
    match First(v)
    case Throw(e) => Throw(e)
    case Ok(x) => Ok(Some(x))
  }

  // The same reads as the tests expect them, on the empty value list too.

  /** `get()` as intended: `NoSuchElementException` on a failure. */
  function GetIntended<T, S>(v: Validator<T, S>): (r: Call<T>)
    ensures IsSuccess(v) ==> r == Get(v)
    ensures IsFailure(v) ==> r == Throw(NoSuchElement)
  {
    if IsSuccess(v) then Ok(v.value[0]) else Throw(NoSuchElement)
  }

  /** `orElse(other)` as intended: the fallback on a failure. */
  function OrElseIntended<T, S>(v: Validator<T, S>, other: T): (r: T)
    ensures IsSuccess(v) ==> OrElse(v, other) == Ok(r)
    ensures IsFailure(v) ==> r == other
  {
    if IsSuccess(v) then v.value[0] else other
  }

  /**
   * `orElseGet(supplier)` as intended: the supplier is asked only on a
   * failure, and an exception it throws there escapes.
   */
  function OrElseGetIntended<T, S>(v: Validator<T, S>, other: () -> Call<T>): (r: Call<T>)
    ensures IsSuccess(v) ==> r == OrElseGet(v, other)
    ensures IsFailure(v) ==> r == other()
  {
    if IsSuccess(v) then Ok(v.value[0]) else other()
  }

  /** `orElseThrow(exceptionSupplier)` as intended: the supplied exception on a failure. */
  function OrElseThrowIntended<T, S>(v: Validator<T, S>, exn: Exn): (r: Call<T>)
    ensures IsSuccess(v) ==> r == OrElseThrow(v, exn)
    ensures IsFailure(v) ==> r == Throw(exn)
  {
    if IsSuccess(v) then Ok(v.value[0]) else Throw(exn)
  }

  /** `toOptional()` as intended: empty on a failure. */
  function ToOptionalIntended<T, S>(v: Validator<T, S>): (r: Option<T>)
    ensures IsSuccess(v) ==> ToOptional(v) == Ok(r) && r.Some?
    ensures IsFailure(v) ==> r == None
  {
    if IsSuccess(v) then Some(v.value[0]) else None
  }

  /** `failure("bugger").get()` throws `IndexOutOfBoundsException`, not `NoSuchElementException`. */
  lemma GetOfFailureMisreports()
    ensures Get(Failure<string, string>("bugger")) == Throw(IndexOutOfBounds)
    ensures GetIntended(Failure<string, string>("bugger")) == Throw(NoSuchElement)
  {
  }

  /** `failure("boo").orElse("meh")` throws instead of returning `"meh"`. */
  lemma OrElseOfFailureThrows()
    ensures OrElse(Failure<string, string>("boo"), "meh") == Throw(IndexOutOfBounds)
    ensures OrElseIntended(Failure<string, string>("boo"), "meh") == "meh"
  {
  }

  /** `failure("yay").orElseGet(() -> "boo")` throws instead of returning `"boo"`. */
  lemma OrElseGetOfFailureThrows()
    ensures OrElseGet(Failure<string, string>("yay"), () => Ok("boo")) == Throw(IndexOutOfBounds)
    ensures OrElseGetIntended(Failure<string, string>("yay"), () => Ok("boo")) == Ok("boo")
  {
  }

  /** `failure("hi there").orElseThrow(Exception::new)` throws the wrong exception. */
  lemma OrElseThrowOfFailureMisreports()
    ensures OrElseThrow(Failure<string, string>("hi there"), Raised("Exception", "")) == Throw(IndexOutOfBounds)
    ensures OrElseThrowIntended(Failure<string, string>("hi there"), Raised("Exception", "")) == Throw(Raised("Exception", ""))
  {
  }

  /** `failure("meh").toOptional()` throws instead of returning an empty optional. */
  lemma ToOptionalOfFailureThrows()
    ensures ToOptional(Failure<string, string>("meh")) == Throw(IndexOutOfBounds)
    ensures ToOptionalIntended(Failure<string, string>("meh")) == None
  {
  }

  /** Every success answers every query with its value, and has no error. */
  lemma SuccessQueries<T, S>(x: T, other: T, supplier: () -> Call<T>, exn: Exn)
    ensures var v := Success<T, S>(x);
      && IsSuccess(v) && !IsFailure(v) && v.value == [x]
      && Get(v) == Ok(x) && GetError(v) == Throw(NoSuchElement)
      && OrElse(v, other) == Ok(x) && OrElseGet(v, supplier) == Ok(x)
      && OrElseThrow(v, exn) == Ok(x) && ToOptional(v) == Ok(Some(x))
  {
  }

  /**
   * Every failure carries its error and no value. As written, each value
   * query throws `IndexOutOfBoundsException` on it; the intended queries
   * give the fallback instead.
   */
  lemma FailureQueries<T, S>(e: S, other: T, supplier: () -> Call<T>, exn: Exn)
    ensures var v := Failure<T, S>(e);
      && IsFailure(v) && !IsSuccess(v) && v.value == []
      && GetError(v) == Ok(e)
      && Get(v) == Throw(IndexOutOfBounds) && OrElse(v, other) == Throw(IndexOutOfBounds)
      && OrElseGet(v, supplier) == Throw(IndexOutOfBounds)
      && OrElseThrow(v, exn) == Throw(IndexOutOfBounds) && ToOptional(v) == Throw(IndexOutOfBounds)
      && GetIntended(v) == Throw(NoSuchElement) && OrElseIntended(v, other) == other
      && OrElseGetIntended(v, supplier) == supplier()
      && OrElseThrowIntended(v, exn) == Throw(exn) && ToOptionalIntended(v) == None
  {
  }

  /** `from` followed by `toOptional` gives back a present optional; an empty one becomes a failure. */
  lemma FromToOptionalRoundTrip<U>(opt: Option<U>)
    ensures opt.Some? ==> ToOptional(From(opt)) == Ok(opt)
    ensures ToOptionalIntended(From(opt)) == opt
    ensures opt.None? ==> IsFailure(From(opt)) && GetError(From(opt)) == Ok(NoSuchElement)
  {
  }

  // ---------------------------------------------------------------------------
  // map, flatMap, filter: callback exceptions are always caught
  // ---------------------------------------------------------------------------

  /**
   * `map(mapper)`. A failure is rebuilt without calling the mapper; its new
   * error is the old `Optional` error itself, passed as the error argument.
   * On a success, an exception from the mapper or a null result becomes the
   * one error; otherwise the result holds the mapped value.
   */
  function Map<T, S, U>(v: Validator<T, S>, mapper: T -> Call<Option<U>>): (r: Validator<U, Fault<Option<S>>>)
    ensures |r.value| <= 1
    ensures IsFailure(v) ==> IsFailure(r) && r.error == Some(Reported(v.error))
    ensures IsSuccess(v) && mapper(v.value[0]).Throw? ==> r == Failure(Caught(mapper(v.value[0]).exn))
    ensures IsSuccess(v) && mapper(v.value[0]) == Ok(None) ==> r == Failure(Caught(NullPointer))
    ensures IsSuccess(v) && mapper(v.value[0]).Ok? && mapper(v.value[0]).result.Some? ==>
              r == Success(mapper(v.value[0]).result.value)
  {
    if IsFailure(v) then
      Make(None, Some(Reported(v.error)))
    else
      match mapper(v.value[0])
      case Throw(e) => Failure(Caught(e))
      case Ok(None) => Failure(Caught(NullPointer))
      case Ok(Some(mapped)) => Make(Some(mapped), None)
  }

  /** The mapper's own result, seen through the wildcard error type of `flatMap`. */
  function FromMapperResult<U, S, E>(w: Validator<U, E>): Validator<U, Fault<Origin<S, E>>> {
    match w.error
    case None => Validator(w.value, None)
    case Some(e) => Validator(w.value, Some(Reported(FromMapper(e))))
  }

  /**
   * `flatMap(mapper)`. A failure is rebuilt as in `map`. On a success the
   * mapper's result is returned as it is; an exception from the mapper or a
   * null result becomes the one error.
   */
  function FlatMap<T, S, U, E>(v: Validator<T, S>, mapper: T -> Call<Option<Validator<U, E>>>): (r: Validator<U, Fault<Origin<S, E>>>)
    ensures IsFailure(v) ==> IsFailure(r) && r.error == Some(Reported(FromSource(v.error)))
    ensures IsSuccess(v) && mapper(v.value[0]).Throw? ==> r == Failure(Caught(mapper(v.value[0]).exn))
    ensures IsSuccess(v) && mapper(v.value[0]) == Ok(None) ==> r == Failure(Caught(NullPointer))
    ensures IsSuccess(v) && mapper(v.value[0]).Ok? && mapper(v.value[0]).result.Some? ==>
              var w := mapper(v.value[0]).result.value;
              && r.value == w.value
              && (w.error.None? <==> r.error.None?)
              && (w.error.Some? ==> r.error == Some(Reported(FromMapper(w.error.value))))
  {
    if IsFailure(v) then
      Make(None, Some(Reported(FromSource(v.error))))
    else
      match mapper(v.value[0])
      case Throw(e) => Failure(Caught(e))
      case Ok(None) => Failure(Caught(NullPointer))
      case Ok(Some(mapped)) => FromMapperResult(mapped)
  }

  /** This validator, seen through the wildcard error type of `filter`. */
  function AsKept<T, S>(v: Validator<T, S>): (r: Validator<T, Fault<Rejection<S, T>>>)
    ensures r.value == v.value
    ensures v.error.None? <==> r.error.None?
    ensures v.error.Some? ==> r.error == Some(Reported(Kept(v.error.value)))
  {
    match v.error
    case None => Validator(v.value, None)
    case Some(e) => Validator(v.value, Some(Reported(Kept(e))))
  }

  /**
   * `filter(test)`. A failure is returned unchanged and a success is kept
   * when the test holds. A rejected value becomes the error of the new
   * failure, and an exception from the test becomes the one error.
   */
  function Filter<T, S>(v: Validator<T, S>, test: T -> Call<bool>): (r: Validator<T, Fault<Rejection<S, T>>>)
    ensures IsFailure(v) ==> r == AsKept(v)
    ensures IsSuccess(v) && test(v.value[0]) == Ok(true) ==> r == AsKept(v)
    ensures IsSuccess(v) && test(v.value[0]) == Ok(false) ==> r == Failure(Reported(Rejected(v.value[0])))
    ensures IsSuccess(v) && test(v.value[0]).Throw? ==> r == Failure(Caught(test(v.value[0]).exn))
  {
    if IsFailure(v) then AsKept(v)
    else
      match test(v.value[0])
      case Throw(e) => Failure(Caught(e))
      case Ok(keep) => if keep then AsKept(v) else Failure(Reported(Rejected(v.value[0])))
  }

  /** On a failure the callbacks do not matter: they are never invoked. */
  lemma FailureIgnoresCallbacks<T, S, U, E>(v: Validator<T, S>,
                                            m1: T -> Call<Option<U>>, m2: T -> Call<Option<U>>,
                                            f1: T -> Call<Option<Validator<U, E>>>,
                                            f2: T -> Call<Option<Validator<U, E>>>,
                                            p1: T -> Call<bool>, p2: T -> Call<bool>)
    requires IsFailure(v)
    ensures Map(v, m1) == Map(v, m2)
    ensures FlatMap(v, f1) == FlatMap(v, f2)
    ensures Filter(v, p1) == Filter(v, p2)
  {
  }

  /**
   * The shape the private constructor gives when `success` calls it:
   * at most one value, and no error beside a value.
   */
  predicate Shaped<T, S>(v: Validator<T, S>) {
    |v.value| <= 1 && (IsSuccess(v) ==> v.error.None?)
  }

  /** `map` always builds that shape, and `filter` keeps it. */
  lemma OperationsKeepShape<T, S, U>(v: Validator<T, S>, mapper: T -> Call<Option<U>>, test: T -> Call<bool>)
    requires Shaped(v)
    ensures Shaped(Map(v, mapper))
    ensures Shaped(Filter(v, test))
  {
  }

  /**
   * `flatMap` keeps that shape when every validator the mapper returns has
   * it: a failure is rebuilt with one error, a thrown or null result becomes
   * one error, and the mapper's result is passed on with its value list.
   */
  lemma FlatMapKeepsShape<T, S, U, E>(v: Validator<T, S>, mapper: T -> Call<Option<Validator<U, E>>>)
    requires Shaped(v)
    requires forall x :: mapper(x).Ok? && mapper(x).result.Some? ==> Shaped(mapper(x).result.value)
    ensures Shaped(FlatMap(v, mapper))
  {
  }

  /** Every factory builds that shape. */
  lemma FactoriesAreShaped<T, S>(x: T, e: S, supplier: () -> Call<Option<T>>, opt: Option<T>)
    ensures Shaped(Success<T, S>(x)) && Shaped(Failure<T, S>(e))
    ensures Shaped(TryTo(supplier)) && Shaped(From(opt))
  {
  }
}
