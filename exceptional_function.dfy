/**
 * `ExceptionalFunction<T, R, E>`: a function whose `apply` may throw.
 * A value of type `Fn<T, R>` is such a function; applying it gives
 * `Ok(result)` or `Throw(exception)`.
 */
module ExceptionalFunction {
  import opened Runtime

  type Fn<!T, R> = T -> Call<R>

  /** `f.compose(before)`: run `before`, then `f` on its result. */
  function Compose<V(!new), T(!new), R>(f: Fn<T, R>, before: Fn<V, T>): (g: Fn<V, R>)
    ensures forall v, x :: before(v) == Ok(x) ==> g(v) == f(x)
    ensures forall v :: before(v).Throw? ==> g(v) == Throw(before(v).exn)
  {
    v => match before(v)
         case Throw(e) => Throw(e)
         case Ok(x) => f(x)
  }

  /** `f.andThen(after)`: run `f`, then `after` on its result. */
  function AndThen<T(!new), R(!new), V>(f: Fn<T, R>, after: Fn<R, V>): (g: Fn<T, V>)
    ensures forall t, y :: f(t) == Ok(y) ==> g(t) == after(y)
    ensures forall t :: f(t).Throw? ==> g(t) == Throw(f(t).exn)
  {
    t => match f(t)
         case Throw(e) => Throw(e)
         case Ok(y) => after(y)
  }

  /** `ExceptionalFunction.identity()`: returns its argument and never throws. */
  function Identity<T>(): Fn<T, T> {
    t => Ok(t)
  }

  /** `identity()` returns its argument and never throws. */
  lemma IdentityReturnsArgument<T>(t: T)
    ensures Identity<T>()(t) == Ok(t)
  {
  }

  /** `f.andThen(g)` and `g.compose(f)` are the same function. */
  lemma AndThenIsFlippedCompose<T(!new), R(!new), V>(f: Fn<T, R>, g: Fn<R, V>, t: T)
    ensures AndThen(f, g)(t) == Compose(g, f)(t)
  {
  }

  /** Chaining or composing with `identity` on either side gives back `f`. */
  lemma IdentityIsNeutral<T(!new), R(!new)>(f: Fn<T, R>, t: T)
    ensures Compose(f, Identity())(t) == f(t)
    ensures Compose(Identity(), f)(t) == f(t)
    ensures AndThen(f, Identity())(t) == f(t)
    ensures AndThen(Identity(), f)(t) == f(t)
  {
  }

  /** Chaining is associative, including where an exception stops the chain. */
  lemma AndThenAssociative<A(!new), B(!new), C(!new), D>(f: Fn<A, B>, g: Fn<B, C>, h: Fn<C, D>, a: A)
    ensures AndThen(AndThen(f, g), h)(a) == AndThen(f, AndThen(g, h))(a)
  {
  }

  /**
   * When the first stage throws, the chained function throws that same
   * exception whatever the second stage is: the second stage is not run.
   */
  lemma FirstStageThrowSkipsSecond<T(!new), R(!new), V>(f: Fn<T, R>, g1: Fn<R, V>, g2: Fn<R, V>, t: T)
    requires f(t).Throw?
    ensures AndThen(f, g1)(t) == AndThen(f, g2)(t) == Throw(f(t).exn)
    ensures Compose(g1, f)(t) == Compose(g2, f)(t) == Throw(f(t).exn)
  {
  }
}
