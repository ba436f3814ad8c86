/**
 * `com.unrulymedia.util.Validation<T, S>`: an immutable container that holds
 * either a success value or a list of accumulated errors.
 *
 * The two final fields are modelled as they are: `value` is the
 * `Optional<T>`, and `errors` is the `List<S>` reference, `None` when it is
 * null. Being a success means only that the value is present. `filter` builds
 * failures with an empty error list and `map` builds results whose error list
 * is null, so no invariant ties the two fields together.
 */
module Validations {
  import opened Runtime

  datatype Validation<T, S> = Validation(value: Option<T>, errors: Option<seq<S>>)

  // ---------------------------------------------------------------------------
  // Factories
  // ---------------------------------------------------------------------------

  /** `Validation.success(value)` for a non-null value. */
  function Success<T, S>(v: T): Validation<T, S> {
    Validation(Some(v), Some([]))
  }

  /**
   * `Validation.success(ref)` for a reference that may be null:
   * `Objects.requireNonNull` throws `NullPointerException` on null.
   */
  function SuccessOfRef<T, S>(ref: Option<T>): Call<Validation<T, S>> {
    match ref
    case None => Throw(NullPointer)
    case Some(v) => Ok(Success(v))
  }

  /** `Validation.failure(error)`: no value, and exactly the one error. */
  function Failure<T, S>(e: S): Validation<T, S> {
    Validation(None, Some([e]))
  }

  /** `Validation.failure(list)`: no value, and the list as given. */
  function FailureList<T, S>(l: seq<S>): Validation<T, S> {
    Validation(None, Some(l))
  }

  /**
   * `Validation.tryTo(supplier)`. The supplier's result goes through
   * `success` inside the `try`, so a null result is caught as well.
   */
  function TryTo<U>(supplier: () -> Call<Option<U>>): (r: Validation<U, Exn>)
    ensures supplier().Throw? ==> r == Failure(supplier().exn)
    ensures supplier() == Ok(None) ==> r == Failure(NullPointer)
    ensures supplier().Ok? && supplier().result.Some? ==> r == Success(supplier().result.value)
  {
    match supplier()
    case Throw(e) => Failure(e)
    case Ok(ref) =>
      match SuccessOfRef(ref)
      case Throw(e) => Failure(e)
      case Ok(s) => s
  }

  /** `Validation.from(optional)`. */
  function From<U>(opt: Option<U>): (r: Validation<U, Exn>)
    ensures opt.Some? ==> r == Success(opt.value)
    ensures opt.None? ==> r == Failure(NoSuchElement)
  {
    match opt
    case Some(v) => Success(v)
    case None => Failure(NoSuchElement)
  }

  // ---------------------------------------------------------------------------
  // Queries
  // ---------------------------------------------------------------------------

  predicate IsSuccess<T, S>(v: Validation<T, S>) {
    v.value.Some?
  }

  predicate IsFailure<T, S>(v: Validation<T, S>) {
    !IsSuccess(v)
  }

  /** `get()`: the value, or `NoSuchElementException` on a failure. */
  function Get<T, S>(v: Validation<T, S>): (r: Call<T>)
    ensures r.Ok? <==> IsSuccess(v)
    ensures IsFailure(v) ==> r == Throw(NoSuchElement)
    ensures r.Ok? ==> v.value == Some(r.result)
  {
    match v.value
    case None => Throw(NoSuchElement)
    case Some(x) => Ok(x)
  }

  /** `getErrors()`: the error list reference, as stored. */
  function GetErrors<T, S>(v: Validation<T, S>): Option<seq<S>> {
    v.errors
  }

  /** `orElse(other)`. */
  function OrElse<T, S>(v: Validation<T, S>, other: T): (r: T)
    ensures IsSuccess(v) ==> Get(v) == Ok(r)
    ensures IsFailure(v) ==> r == other
  {
    match v.value
    case None => other
    case Some(x) => x
  }

  /**
   * `orElseGet(supplier)`: the supplier is asked only on a failure, and an
   * exception it throws there escapes.
   */
  function OrElseGet<T, S>(v: Validation<T, S>, other: () -> Call<T>): (r: Call<T>)
    ensures IsSuccess(v) ==> r == Get(v)
    ensures IsFailure(v) ==> r == other()
  {
    match v.value
    case None => other()
    case Some(x) => Ok(x)
  }

  /** `orElseThrow(exceptionSupplier)`, given the exception it supplies. */
  function OrElseThrow<T, S>(v: Validation<T, S>, exn: Exn): (r: Call<T>)
    ensures IsSuccess(v) ==> r == Get(v)
    ensures IsFailure(v) ==> r == Throw(exn)
  {
    match v.value
    case None => Throw(exn)
    case Some(x) => Ok(x)
  }

  /** `toOptional()`. */
  function ToOptional<T, S>(v: Validation<T, S>): (r: Option<T>)
    ensures r.Some? <==> IsSuccess(v)
    ensures r.Some? ==> Get(v) == Ok(r.value)
  {
    v.value
  }

  /** `stream()`: the value alone on a success, nothing on a failure. */
  function Stream<T, S>(v: Validation<T, S>): (r: seq<T>)
    ensures IsSuccess(v) ==> r == [v.value.value] && Get(v) == Ok(r[0])
    ensures IsFailure(v) <==> r == []
  {
    if IsSuccess(v) then [v.value.value] else []
  }

  /** Every success answers every query with its value. */
  lemma SuccessQueries<T, S>(x: T, other: T, supplier: () -> Call<T>, exn: Exn)
    ensures var v := Success<T, S>(x);
      && IsSuccess(v) && !IsFailure(v)
      && Get(v) == Ok(x) && GetErrors(v) == Some([])
      && OrElse(v, other) == x && OrElseGet(v, supplier) == Ok(x)
      && OrElseThrow(v, exn) == Ok(x)
      && ToOptional(v) == Some(x) && Stream(v) == [x]
  {
  }

  /** Every failure built from a list keeps that list and answers with fallbacks. */
  lemma FailureQueries<T, S>(l: seq<S>, other: T, supplier: () -> Call<T>, exn: Exn)
    ensures var v := FailureList<T, S>(l);
      && IsFailure(v) && !IsSuccess(v)
      && Get(v) == Throw(NoSuchElement) && GetErrors(v) == Some(l)
      && OrElse(v, other) == other && OrElseGet(v, supplier) == supplier()
      && OrElseThrow(v, exn) == Throw(exn)
      && ToOptional(v) == None && Stream(v) == []
  {
  }

  /** `success(ref)` throws exactly on null and otherwise gives `success(value)`. */
  lemma SuccessOfRefRejectsNull<T, S>(ref: Option<T>)
    ensures ref.None? <==> SuccessOfRef<T, S>(ref) == Throw(NullPointer)
    ensures ref.Some? ==> SuccessOfRef<T, S>(ref) == Ok(Success(ref.value))
  {
  }

  /** The one-error failure is the failure of the one-element list, so it answers as `FailureQueries` says. */
  lemma FailureIsSingletonList<T, S>(e: S)
    ensures Failure<T, S>(e) == FailureList<T, S>([e])
    ensures IsFailure(Failure<T, S>(e)) && GetErrors(Failure<T, S>(e)) == Some([e])
  {
  }

  /**
   * `orElseGet` with a supplier that throws: a success never asks it, and on
   * a failure its exception escapes.
   */
  lemma OrElseGetThrowingSupplier<T, S>(x: T, l: seq<S>)
    ensures var throwing: () -> Call<T> := () => Throw(Raised("IllegalStateException", ""));
      && OrElseGet(Success<T, S>(x), throwing) == Ok(x)
      && OrElseGet(FailureList<T, S>(l), throwing) == Throw(Raised("IllegalStateException", ""))
  {
  }

  /** `from` followed by `toOptional` gives back the optional. */
  lemma FromToOptionalRoundTrip<U>(opt: Option<U>)
    ensures ToOptional(From(opt)) == opt
    ensures opt.None? ==> IsFailure(From(opt)) && GetErrors(From(opt)) == Some([NoSuchElement])
  {
  }

  // ---------------------------------------------------------------------------
  // map, flatMap, filter: callback exceptions escape
  // ---------------------------------------------------------------------------

  /**
   * `map(mapper)`. A failure keeps its error list (the same reference) and
   * the mapper is not called; a success is replaced by the mapped value
   * with a null error list, so a null mapped value gives a failure whose
   * error list is null. An exception from the mapper escapes.
   */
  function Map<T, S, U>(v: Validation<T, S>, mapper: T -> Call<Option<U>>): (r: Call<Validation<U, S>>)
    ensures IsFailure(v) ==> r.Ok? && IsFailure(r.result) && GetErrors(r.result) == GetErrors(v)
    ensures IsSuccess(v) ==> (r.Throw? <==> mapper(v.value.value).Throw?)
    ensures IsSuccess(v) && r.Throw? ==> r.exn == mapper(v.value.value).exn
    ensures IsSuccess(v) && r.Ok? ==> ToOptional(r.result) == mapper(v.value.value).result && GetErrors(r.result).None?
  {
    match v.value
    case None => Ok(Validation(None, v.errors))
    case Some(x) =>
      match mapper(x)
      case Throw(e) => Throw(e)
      case Ok(mapped) => Ok(Validation(mapped, None))
  }

  /**
   * `flatMap(mapper)`. A failure keeps its error list and the mapper is not
   * called; on a success the mapper's own result is returned as it is,
   * including an exception it throws.
   */
  function FlatMap<T, S, U>(v: Validation<T, S>, mapper: T -> Call<Validation<U, S>>): (r: Call<Validation<U, S>>)
    ensures IsFailure(v) ==> r.Ok? && IsFailure(r.result) && GetErrors(r.result) == GetErrors(v)
    ensures IsSuccess(v) ==> r == mapper(v.value.value)
  {
    match v.value
    case None => Ok(Validation(None, v.errors))
    case Some(x) => mapper(x)
  }

  /**
   * `filter(predicate)`. A failure is returned unchanged; a success is kept
   * exactly when the predicate holds and otherwise becomes a failure with
   * an empty error list. An exception from the predicate escapes.
   */
  function Filter<T, S>(v: Validation<T, S>, test: T -> Call<bool>): (r: Call<Validation<T, S>>)
    ensures IsFailure(v) ==> r == Ok(v)
    ensures IsSuccess(v) ==> (r == Ok(v) <==> test(v.value.value) == Ok(true))
    ensures IsSuccess(v) && test(v.value.value) == Ok(false) ==> r == Ok(FailureList([]))
    ensures IsSuccess(v) && test(v.value.value).Throw? ==> r == Throw(test(v.value.value).exn)
  {
    match v.value
    case None => Ok(v)
    case Some(x) =>
      match test(x)
      case Throw(e) => Throw(e)
      case Ok(keep) => if keep then Ok(v) else Ok(FailureList([]))
  }

  /** On a failure the callbacks do not matter: they are never invoked. */
  lemma FailureIgnoresCallbacks<T, S, U>(v: Validation<T, S>,
                                         m1: T -> Call<Option<U>>, m2: T -> Call<Option<U>>,
                                         f1: T -> Call<Validation<U, S>>, f2: T -> Call<Validation<U, S>>,
                                         p1: T -> Call<bool>, p2: T -> Call<bool>)
    requires IsFailure(v)
    ensures Map(v, m1) == Map(v, m2)
    ensures FlatMap(v, f1) == FlatMap(v, f2)
    ensures Filter(v, p1) == Filter(v, p2) == Ok(v)
  {
  }

  /** `filter` never turns a failure into a success, and never invents a value. */
  lemma FilterOnlyNarrows<T, S>(v: Validation<T, S>, test: T -> Call<bool>)
    ensures Filter(v, test).Ok? && IsSuccess(Filter(v, test).result) ==> Filter(v, test) == Ok(v)
  {
  }

  // ---------------------------------------------------------------------------
  // tryMap, tryFlatMap, tryFilter: callback exceptions become failures
  // ---------------------------------------------------------------------------

  /** The errors of a result, viewed through the wildcard error type. */
  function Lift<U, S>(w: Validation<U, S>): (r: Validation<U, Fault<S>>)
    ensures r.value == w.value
    ensures r.errors.Some? <==> w.errors.Some?
    ensures w.errors.Some? ==> |r.errors.value| == |w.errors.value|
    ensures w.errors.Some? ==> forall i :: 0 <= i < |w.errors.value| ==> r.errors.value[i] == Reported(w.errors.value[i])
  {
    match w.errors
    case None => Validation(w.value, None)
    case Some(l) => Validation(w.value, Some(seq(|l|, i requires 0 <= i < |l| => Reported(l[i]))))
  }

  /**
   * `tryMap(mapper)`: `map`, except that an exception from the mapper
   * (wrapped in a `MapException` and unwrapped again) becomes a failure
   * whose only error is that exception.
   */
  function TryMap<T, S, U>(v: Validation<T, S>, mapper: T -> Call<Option<U>>): (r: Validation<U, Fault<S>>)
    ensures IsFailure(v) ==> r == Lift(Validation(None, v.errors))
    ensures IsSuccess(v) && mapper(v.value.value).Throw? ==> r == Failure(Caught(mapper(v.value.value).exn))
    ensures IsSuccess(v) && mapper(v.value.value).Ok? ==> r == Validation(mapper(v.value.value).result, None)
  {
    match Map(v, mapper)
    case Ok(w) => Lift(w)
    case Throw(e) => Failure(Caught(e))
  }

  /** `tryFlatMap(mapper)`: `flatMap`, with the mapper's exception caught. */
  function TryFlatMap<T, S, U>(v: Validation<T, S>, mapper: T -> Call<Validation<U, S>>): (r: Validation<U, Fault<S>>)
    ensures IsFailure(v) ==> r == Lift(Validation(None, v.errors))
    ensures IsSuccess(v) && mapper(v.value.value).Throw? ==> r == Failure(Caught(mapper(v.value.value).exn))
    ensures IsSuccess(v) && mapper(v.value.value).Ok? ==> r == Lift(mapper(v.value.value).result)
  {
    match FlatMap(v, mapper)
    case Ok(w) => Lift(w)
    case Throw(e) => Failure(Caught(e))
  }

  /** `tryFilter(predicate)`: `filter`, with the predicate's exception caught. */
  function TryFilter<T, S>(v: Validation<T, S>, test: T -> Call<bool>): (r: Validation<T, Fault<S>>)
    ensures IsFailure(v) ==> r == Lift(v)
    ensures IsSuccess(v) && test(v.value.value) == Ok(true) ==> r == Lift(v)
    ensures IsSuccess(v) && test(v.value.value) == Ok(false) ==> r == FailureList([])
    ensures IsSuccess(v) && test(v.value.value).Throw? ==> r == Failure(Caught(test(v.value.value).exn))
  {
    match Filter(v, test)
    case Ok(w) => Lift(w)
    case Throw(e) => Failure(Caught(e))
  }

  /**
   * The two families agree whenever the callback does not throw; when it
   * does, only the `try` family returns, with the exception as sole error.
   */
  lemma TryFamilyAgreesUnlessThrown<T, S, U>(v: Validation<T, S>, m: T -> Call<Option<U>>,
                                             f: T -> Call<Validation<U, S>>, p: T -> Call<bool>)
    ensures Map(v, m).Ok? ==> TryMap(v, m) == Lift(Map(v, m).result)
    ensures Map(v, m).Throw? ==> TryMap(v, m) == Failure(Caught(Map(v, m).exn))
    ensures FlatMap(v, f).Ok? ==> TryFlatMap(v, f) == Lift(FlatMap(v, f).result)
    ensures FlatMap(v, f).Throw? ==> TryFlatMap(v, f) == Failure(Caught(FlatMap(v, f).exn))
    ensures Filter(v, p).Ok? ==> TryFilter(v, p) == Lift(Filter(v, p).result)
    ensures Filter(v, p).Throw? ==> TryFilter(v, p) == Failure(Caught(Filter(v, p).exn))
  {
  }

  // ---------------------------------------------------------------------------
  // Pairwise composition
  // ---------------------------------------------------------------------------

  /**
   * `this.compose(that, f)`. Two failures concatenate their error lists,
   * this one's first; a single failure wins as it is; two successes combine
   * their values with `f`. Concatenating streams each list, so a null
   * error list on either failing side throws `NullPointerException`.
   */
  function Compose<T, S>(a: Validation<T, S>, b: Validation<T, S>, f: (T, T) -> T): (r: Call<Validation<T, S>>)
    ensures IsFailure(a) && IsFailure(b) && a.errors.Some? && b.errors.Some? ==>
              r.Ok? && IsFailure(r.result) && GetErrors(r.result) == Some(a.errors.value + b.errors.value)
    ensures IsFailure(a) && IsFailure(b) && (a.errors.None? || b.errors.None?) ==> r == Throw(NullPointer)
    ensures IsSuccess(a) && IsFailure(b) ==> r == Ok(b)
    ensures IsFailure(a) && IsSuccess(b) ==> r == Ok(a)
    ensures IsSuccess(a) && IsSuccess(b) ==>
              r.Ok? && Get(r.result) == Ok(f(a.value.value, b.value.value)) && GetErrors(r.result) == Some([])
  {
    if IsFailure(a) && IsFailure(b) then
      match (a.errors, b.errors)
      case (Some(ea), Some(eb)) => Ok(FailureList(ea + eb))
      case _ => Throw(NullPointer)
    else if IsFailure(b) then Ok(b)
    else if IsFailure(a) then Ok(a)
    else Ok(Success(f(a.value.value, b.value.value)))
  }

  /** Continue with a second composition unless the first one threw. */
  function ComposeNext<T, S>(c: Call<Validation<T, S>>, b: Validation<T, S>, f: (T, T) -> T): Call<Validation<T, S>> {
    match c
    case Throw(e) => Throw(e)
    case Ok(a) => Compose(a, b, f)
  }

  /** Composing `b` and `c` into `a` before or after does not matter when `f` is associative. */
  lemma ComposeAssociative<T, S>(a: Validation<T, S>, b: Validation<T, S>, c: Validation<T, S>, f: (T, T) -> T)
    requires forall x, y, z :: f(f(x, y), z) == f(x, f(y, z))
    ensures ComposeNext(Compose(a, b, f), c, f) ==
            (match Compose(b, c, f) case Throw(e) => Throw(e) case Ok(bc) => Compose(a, bc, f))
  {
    if IsSuccess(a) && IsSuccess(b) && IsSuccess(c) {
      var x, y, z := a.value.value, b.value.value, c.value.value;
      assert f(f(x, y), z) == f(x, f(y, z));
    } else if IsFailure(a) && IsFailure(b) && IsFailure(c)
              && a.errors.Some? && b.errors.Some? && c.errors.Some? {
      var ea, eb, ec := a.errors.value, b.errors.value, c.errors.value;
      assert (ea + eb) + ec == ea + (eb + ec);
    }
  }

  // ---------------------------------------------------------------------------
  // n-ary composition: Stream.reduce from success(identity)
  // ---------------------------------------------------------------------------

  /** Left fold: `((seed f xs[0]) f xs[1]) ...`. */
  function FoldLeft<T>(f: (T, T) -> T, seed: T, xs: seq<T>): T
    decreases |xs|
  {
    if xs == [] then seed else f(FoldLeft(f, seed, xs[..|xs| - 1]), xs[|xs| - 1])
  }

  /**
   * The reduction behind every n-ary `compose`: start from `success(seed)`
   * and compose each supplied validation in turn, left to right.
   */
  function ComposeAll<T, S>(seed: T, f: (T, T) -> T, vs: seq<Validation<T, S>>): Call<Validation<T, S>>
    decreases |vs|
  {
    if vs == [] then Ok(Success(seed))
    else ComposeNext(ComposeAll(seed, f, vs[..|vs| - 1]), vs[|vs| - 1], f)
  }

  predicate AllSucceed<T, S>(vs: seq<Validation<T, S>>) {
    forall i :: 0 <= i < |vs| ==> IsSuccess(vs[i])
  }

  /** No failing element carries a null error list. */
  predicate ErrorsDefined<T, S>(vs: seq<Validation<T, S>>) {
    forall i :: 0 <= i < |vs| ==> IsFailure(vs[i]) ==> vs[i].errors.Some?
  }

  /** The values of a sequence of successes, in order. */
  function Values<T, S>(vs: seq<Validation<T, S>>): (r: seq<T>)
    requires AllSucceed(vs)
    ensures |r| == |vs|
    ensures forall i :: 0 <= i < |vs| ==> Get(vs[i]) == Ok(r[i])
  {
    seq(|vs|, i requires 0 <= i < |vs| => vs[i].value.value)
  }

  /** The errors of every failing element, concatenated in order. */
  function FailedErrors<T, S>(vs: seq<Validation<T, S>>): seq<S>
    decreases |vs|
  {
    if vs == [] then []
    else
      var last := vs[|vs| - 1];
      FailedErrors(vs[..|vs| - 1]) + (if IsFailure(last) && last.errors.Some? then last.errors.value else [])
  }

  /** The number of failing elements. */
  function FailureCount<T, S>(vs: seq<Validation<T, S>>): nat
    decreases |vs|
  {
    if vs == [] then 0 else FailureCount(vs[..|vs| - 1]) + (if IsFailure(vs[|vs| - 1]) then 1 else 0)
  }

  /**
   * What the n-ary `compose` gives once some element fails. With no null
   * error list among the failures it is the failure holding all their
   * errors in argument order. A null list is only dereferenced when two
   * failures meet, so two or more failures with a null list among them throw
   * `NullPointerException`, while a single failure with a null list comes
   * back as it is.
   */
  function FailedOutcome<T, S>(vs: seq<Validation<T, S>>): Call<Validation<T, S>> {
    if ErrorsDefined(vs) then Ok(FailureList(FailedErrors(vs)))
    else if FailureCount(vs) >= 2 then Throw(NullPointer)
    else Ok(Validation(None, None))
  }

  /** How the whole-sequence predicates split off the last element. */
  lemma SplitLast<T, S>(vs: seq<Validation<T, S>>)
    requires vs != []
    ensures AllSucceed(vs) <==> AllSucceed(vs[..|vs| - 1]) && IsSuccess(vs[|vs| - 1])
    ensures ErrorsDefined(vs) <==>
              ErrorsDefined(vs[..|vs| - 1]) && (IsFailure(vs[|vs| - 1]) ==> vs[|vs| - 1].errors.Some?)
  {
    var init := vs[..|vs| - 1];
    assert forall i :: 0 <= i < |init| ==> init[i] == vs[i];
  }

  /** Every element succeeds exactly when none fails. */
  lemma {:induction false} NoFailuresExactly<T, S>(vs: seq<Validation<T, S>>)
    ensures AllSucceed(vs) <==> FailureCount(vs) == 0
    decreases |vs|
  {
    if vs != [] {
      NoFailuresExactly(vs[..|vs| - 1]);
      SplitLast(vs);
    }
  }

  /**
   * What the n-ary `compose` computes: the success of the left fold of the
   * values when every element is a success (the seed alone for no
   * elements), and otherwise `FailedOutcome`.
   */
  lemma {:induction false} ComposeAllAccumulates<T, S>(seed: T, f: (T, T) -> T, vs: seq<Validation<T, S>>)
    ensures ComposeAll(seed, f, vs) ==
            if AllSucceed(vs) then Ok(Success(FoldLeft(f, seed, Values(vs)))) else FailedOutcome(vs)
    decreases |vs|
  {
    if vs != [] {
      var init, last := vs[..|vs| - 1], vs[|vs| - 1];
      ComposeAllAccumulates(seed, f, init);
      SplitLast(vs);
      NoFailuresExactly(init);
      if AllSucceed(vs) {
        assert Values(vs) == Values(init) + [last.value.value];
      } else if AllSucceed(init) {
        // The one failure is the last element, returned by `compose` as it is.
        NoFailuresNoErrors(init);
        assert ErrorsDefined(init);
        assert last == Validation(None, last.errors);
        assert ComposeAll(seed, f, vs) == Ok(last);
        assert FailedErrors(vs) == (if last.errors.Some? then last.errors.value else []);
        assert FailureCount(vs) == 1;
      } else if ErrorsDefined(init) && IsFailure(last) && last.errors.Some? {
        assert FailedErrors(vs) == FailedErrors(init) + last.errors.value;
      } else if IsSuccess(last) {
        // A trailing success leaves the failed prefix's outcome alone.
        assert FailureCount(vs) == FailureCount(init);
        assert FailedErrors(vs) == FailedErrors(init);
      } else {
        // Two failures meet and one of them has a null list.
        assert FailureCount(vs) >= 2;
      }
    }
  }

  /**
   * The n-ary `compose` throws exactly when two or more elements fail and
   * one of them has a null error list, and then it throws
   * `NullPointerException`.
   */
  lemma ComposeAllThrowsExactly<T, S>(seed: T, f: (T, T) -> T, vs: seq<Validation<T, S>>)
    ensures ComposeAll(seed, f, vs).Throw? <==> FailureCount(vs) >= 2 && !ErrorsDefined(vs)
    ensures ComposeAll(seed, f, vs).Throw? ==> ComposeAll(seed, f, vs).exn == NullPointer
  {
    ComposeAllAccumulates(seed, f, vs);
    NoFailuresExactly(vs);
  }

  /** A sequence of successes contributes no errors. */
  lemma {:induction false} NoFailuresNoErrors<T, S>(vs: seq<Validation<T, S>>)
    requires AllSucceed(vs)
    ensures FailedErrors(vs) == []
    decreases |vs|
  {
    if vs != [] {
      SplitLast(vs);
      NoFailuresNoErrors(vs[..|vs| - 1]);
    }
  }

  /** No suppliers at all give `success(identity)`. */
  lemma ComposeAllEmpty<T, S>(seed: T, f: (T, T) -> T)
    ensures ComposeAll<T, S>(seed, f, []) == Ok(Success(seed))
  {
  }

  // ---------------------------------------------------------------------------
  // The n-ary presets: a fixed seed and combiner per success type
  // ---------------------------------------------------------------------------

  /** `compose(IntegerValidationSupplier...)`: `Integer::sum` from 0. */
  function ComposeInts<E>(vs: seq<Validation<int32, E>>): Call<Validation<int32, E>> {
    ComposeAll(0, IntSum, vs)
  }

  /** `compose(LongValidationSupplier...)`: `Long::sum` from 0. */
  function ComposeLongs<E>(vs: seq<Validation<int64, E>>): Call<Validation<int64, E>> {
    ComposeAll(0, LongSum, vs)
  }

  /** `Boolean::logicalAnd`. */
  function LogicalAnd(a: bool, b: bool): bool {
    a && b
  }

  /** `compose(BooleanValidationSupplier...)`: logical and from `true`. */
  function ComposeBooleans<E>(vs: seq<Validation<bool, E>>): Call<Validation<bool, E>> {
    ComposeAll(true, LogicalAnd, vs)
  }

  /** `String::concat`, and the concatenation of two lists' streams. */
  function Concat<X>(a: seq<X>, b: seq<X>): (r: seq<X>)
    ensures |r| == |a| + |b|
    ensures r[..|a|] == a && r[|a|..] == b
  {
    a + b
  }

  /** `compose(StringValidationSupplier...)`: concatenation from `""`. */
  function ComposeStrings<E>(vs: seq<Validation<string, E>>): Call<Validation<string, E>> {
    ComposeAll("", Concat, vs)
  }

  /** `compose(ListValidationSupplier...)`: concatenation from the empty list. */
  function ComposeLists<X, E>(vs: seq<Validation<seq<X>, E>>): Call<Validation<seq<X>, E>> {
    ComposeAll([], Concat, vs)
  }

  /** Both sets' elements collected into one set. */
  function Union<X>(a: set<X>, b: set<X>): (r: set<X>)
    ensures a <= r && b <= r
    ensures forall x | x in r :: x in a || x in b
  {
    a + b
  }

  /** `compose(SetValidationSupplier...)`: union from the empty set. */
  function ComposeSets<X, E>(vs: seq<Validation<set<X>, E>>): Call<Validation<set<X>, E>> {
    ComposeAll({}, Union, vs)
  }

  /** Both maps' entries collected with `toMap(..., (c, d) -> d)`: the right one wins. */
  function Merge<K, V>(a: map<K, V>, b: map<K, V>): (r: map<K, V>)
    ensures r.Keys == a.Keys + b.Keys
    ensures forall k | k in b :: r[k] == b[k]
    ensures forall k | k in a && k !in b :: r[k] == a[k]
  {
    a + b
  }

  /** `compose(MapValidationSupplier...)`: right-biased merge from the empty map. */
  function ComposeMaps<K, V, E>(vs: seq<Validation<map<K, V>, E>>): Call<Validation<map<K, V>, E>> {
    ComposeAll(map[], Merge, vs)
  }

  /** The exact sum of 32-bit integers. */
  function SumInts(xs: seq<int32>): int
    decreases |xs|
  {
    if xs == [] then 0 else SumInts(xs[..|xs| - 1]) + xs[|xs| - 1] as int
  }

  /** The exact sum of 64-bit integers. */
  function SumLongs(xs: seq<int64>): int
    decreases |xs|
  {
    if xs == [] then 0 else SumLongs(xs[..|xs| - 1]) + xs[|xs| - 1] as int
  }

  /** All lists joined end to end, in order. */
  function Flatten<X>(ls: seq<seq<X>>): seq<X>
    decreases |ls|
  {
    if ls == [] then [] else ls[0] + Flatten(ls[1..])
  }

  /** Folding `Integer::sum` wraps the exact sum once, at the end. */
  lemma {:induction false} FoldIntSum(xs: seq<int32>)
    ensures FoldLeft(IntSum, 0, xs) == Wrap32(SumInts(xs))
    decreases |xs|
  {
    if xs != [] {
      var init, last := xs[..|xs| - 1], xs[|xs| - 1];
      FoldIntSum(init);
      Wrap32Add(SumInts(init), last as int);
    }
  }

  /** Folding `Long::sum` wraps the exact sum once, at the end. */
  lemma {:induction false} FoldLongSum(xs: seq<int64>)
    ensures FoldLeft(LongSum, 0, xs) == Wrap64(SumLongs(xs))
    decreases |xs|
  {
    if xs != [] {
      var init, last := xs[..|xs| - 1], xs[|xs| - 1];
      FoldLongSum(init);
      Wrap64Add(SumLongs(init), last as int);
    }
  }

  /** Folding logical and from `true` holds exactly when every element holds. */
  lemma {:induction false} FoldLogicalAnd(bs: seq<bool>)
    ensures FoldLeft(LogicalAnd, true, bs) <==> forall i :: 0 <= i < |bs| ==> bs[i]
    decreases |bs|
  {
    if bs != [] {
      var init := bs[..|bs| - 1];
      FoldLogicalAnd(init);
      assert forall i :: 0 <= i < |init| ==> init[i] == bs[i];
    }
  }

  /** Folding concatenation from the empty list joins all lists in order. */
  lemma {:induction false} FoldConcat<X>(ls: seq<seq<X>>)
    ensures FoldLeft(Concat, [], ls) == Flatten(ls)
    decreases |ls|
  {
    if ls != [] {
      var init, last := ls[..|ls| - 1], ls[|ls| - 1];
      FoldConcat(init);
      FlattenAppend(init, last);
      assert init + [last] == ls;
    }
  }

  /** Appending one more list to flatten adds it at the end. */
  lemma {:induction false} FlattenAppend<X>(ls: seq<seq<X>>, l: seq<X>)
    ensures Flatten(ls + [l]) == Flatten(ls) + l
    decreases |ls|
  {
    if ls == [] {
      assert [] + [l] == [l];
      assert Flatten([l]) == l + Flatten([]);
    } else {
      assert (ls + [l])[0] == ls[0];
      assert (ls + [l])[1..] == ls[1..] + [l];
      FlattenAppend(ls[1..], l);
    }
  }

  /** Folding union from the empty set holds exactly the elements of some set. */
  lemma {:induction false} FoldUnion<X>(ss: seq<set<X>>)
    ensures forall x :: x in FoldLeft(Union, {}, ss) <==> exists i :: 0 <= i < |ss| && x in ss[i]
    decreases |ss|
  {
    if ss != [] {
      var init := ss[..|ss| - 1];
      FoldUnion(init);
      assert forall i :: 0 <= i < |init| ==> init[i] == ss[i];
    }
  }

  /**
   * Folding the right-biased merge from the empty map holds every key of
   * some map, bound to its value in the last map that has it.
   */
  lemma {:induction false} FoldMerge<K, V>(ms: seq<map<K, V>>)
    ensures forall k :: k in FoldLeft(Merge, map[], ms) <==> exists i :: 0 <= i < |ms| && k in ms[i]
    ensures forall i, k ::
              (0 <= i < |ms| && k in ms[i] && forall j :: i < j < |ms| ==> k !in ms[j]) ==>
              k in FoldLeft(Merge, map[], ms) && FoldLeft(Merge, map[], ms)[k] == ms[i][k]
    decreases |ms|
  {
    if ms != [] {
      var init := ms[..|ms| - 1];
      FoldMerge(init);
      assert forall i :: 0 <= i < |init| ==> init[i] == ms[i];
    }
  }

  /** The integer preset: the 32-bit wrapped sum of all values, or `FailedOutcome` once one fails. */
  lemma ComposeIntsSums<E>(vs: seq<Validation<int32, E>>)
    ensures AllSucceed(vs) ==> ComposeInts(vs) == Ok(Success(Wrap32(SumInts(Values(vs)))))
    ensures AllSucceed(vs) && -TWO_31 <= SumInts(Values(vs)) < TWO_31 ==>
              ComposeInts(vs) == Ok(Success(SumInts(Values(vs)) as int32))
    ensures !AllSucceed(vs) ==> ComposeInts(vs) == FailedOutcome(vs)
  {
    ComposeAllAccumulates(0, IntSum, vs);
    if AllSucceed(vs) {
      FoldIntSum(Values(vs));
    }
  }

  /** The long preset: the 64-bit wrapped sum of all values, or `FailedOutcome` once one fails. */
  lemma ComposeLongsSums<E>(vs: seq<Validation<int64, E>>)
    ensures AllSucceed(vs) ==> ComposeLongs(vs) == Ok(Success(Wrap64(SumLongs(Values(vs)))))
    ensures AllSucceed(vs) && -TWO_63 <= SumLongs(Values(vs)) < TWO_63 ==>
              ComposeLongs(vs) == Ok(Success(SumLongs(Values(vs)) as int64))
    ensures !AllSucceed(vs) ==> ComposeLongs(vs) == FailedOutcome(vs)
  {
    ComposeAllAccumulates(0, LongSum, vs);
    if AllSucceed(vs) {
      FoldLongSum(Values(vs));
    }
  }

  /** The boolean preset: true exactly when every value is true. */
  lemma ComposeBooleansConjoins<E>(vs: seq<Validation<bool, E>>)
    ensures AllSucceed(vs) ==>
              ComposeBooleans(vs) == Ok(Success(forall i :: 0 <= i < |vs| ==> vs[i].value == Some(true)))
    ensures !AllSucceed(vs) ==> ComposeBooleans(vs) == FailedOutcome(vs)
  {
    ComposeAllAccumulates(true, LogicalAnd, vs);
    if AllSucceed(vs) {
      FoldLogicalAnd(Values(vs));
    }
  }

  /** The string preset: all values joined in argument order. */
  lemma ComposeStringsConcatenates<E>(vs: seq<Validation<string, E>>)
    ensures AllSucceed(vs) ==> ComposeStrings(vs) == Ok(Success(Flatten(Values(vs))))
    ensures !AllSucceed(vs) ==> ComposeStrings(vs) == FailedOutcome(vs)
  {
    ComposeAllAccumulates("", Concat, vs);
    if AllSucceed(vs) {
      FoldConcat(Values(vs));
    }
  }

  /** The list preset: all lists joined in argument order. */
  lemma ComposeListsConcatenates<X, E>(vs: seq<Validation<seq<X>, E>>)
    ensures AllSucceed(vs) ==> ComposeLists(vs) == Ok(Success(Flatten(Values(vs))))
    ensures !AllSucceed(vs) ==> ComposeLists(vs) == FailedOutcome(vs)
  {
    ComposeAllAccumulates([], Concat, vs);
    if AllSucceed(vs) {
      FoldConcat(Values(vs));
    }
  }

  /** The set preset: exactly the elements of some value. */
  lemma ComposeSetsUnites<X, E>(vs: seq<Validation<set<X>, E>>)
    ensures AllSucceed(vs) ==> ComposeSets(vs).Ok? && IsSuccess(ComposeSets(vs).result)
    ensures AllSucceed(vs) ==> forall x :: x in ComposeSets(vs).result.value.value <==>
              exists i :: 0 <= i < |vs| && x in Values(vs)[i]
    ensures !AllSucceed(vs) ==> ComposeSets(vs) == FailedOutcome(vs)
  {
    ComposeAllAccumulates({}, Union, vs);
    if AllSucceed(vs) {
      FoldUnion(Values(vs));
    }
  }

  /**
   * The map preset: every key of some value, bound to its value in the
   * last map that has it.
   */
  lemma ComposeMapsMerges<K, V, E>(vs: seq<Validation<map<K, V>, E>>)
    ensures AllSucceed(vs) ==> ComposeMaps(vs).Ok? && IsSuccess(ComposeMaps(vs).result)
    ensures AllSucceed(vs) ==> forall k :: k in ComposeMaps(vs).result.value.value <==>
              exists i :: 0 <= i < |vs| && k in Values(vs)[i]
    ensures AllSucceed(vs) ==>
              forall i, k ::
                (0 <= i < |vs| && k in Values(vs)[i] && forall j :: i < j < |vs| ==> k !in Values(vs)[j]) ==>
                ComposeMaps(vs).result.value.value[k] == Values(vs)[i][k]
    ensures !AllSucceed(vs) ==> ComposeMaps(vs) == FailedOutcome(vs)
  {
    ComposeAllAccumulates(map[], Merge, vs);
    if AllSucceed(vs) {
      FoldMerge(Values(vs));
    }
  }

  /** `compose(() -> success(3), () -> success(4))` is `success(7)`. */
  lemma ComposeIntsExample()
    ensures ComposeInts<string>([Success(3), Success(4)]) == Ok(Success(7))
  {
    var vs: seq<Validation<int32, string>> := [Success(3), Success(4)];
    ComposeIntsSums(vs);
    assert Values(vs) == [3, 4];
    assert [3, 4][..1] == [3 as int32] && [3 as int32][..0] == [];
    assert SumInts([3, 4]) == 7;
  }

  /** Successes 1 and 3 followed by `failure("doh")` give exactly `failure("doh")`. */
  lemma ComposeIntsFailureExample()
    ensures ComposeInts<string>([Success(1), Success(3), Failure("doh")]) == Ok(Failure("doh"))
  {
    var vs: seq<Validation<int32, string>> := [Success(1), Success(3), Failure("doh")];
    ComposeIntsSums(vs);
    assert AllSucceed(vs[..2]) && !AllSucceed(vs);
    NoFailuresNoErrors(vs[..2]);
    assert FailedErrors(vs) == ["doh"];
  }

  /** `{foo: 3, bar: 4}` merged with `{bar: 5, baz: 6}` is `{foo: 3, bar: 5, baz: 6}`. */
  lemma ComposeMapsExample()
    ensures ComposeMaps<string, int, string>([Success(map["foo" := 3, "bar" := 4]), Success(map["bar" := 5, "baz" := 6])])
            == Ok(Success(map["foo" := 3, "bar" := 5, "baz" := 6]))
  {
    var first, second := map["foo" := 3, "bar" := 4], map["bar" := 5, "baz" := 6];
    var vs: seq<Validation<map<string, int>, string>> := [Success(first), Success(second)];
    ComposeAllAccumulates(map[], Merge, vs);
    assert Values(vs) == [first, second];
    var none: seq<map<string, int>> := [];
    assert [first, second][..1] == [first] && [first][..0] == none;
    var empty: map<string, int> := map[];
    assert empty + first == first;
    assert FoldLeft(Merge, empty, [first]) == first;
    assert FoldLeft(Merge, map[], [first, second]) == first + second;
    assert first + second == map["foo" := 3, "bar" := 5, "baz" := 6];
  }
}
