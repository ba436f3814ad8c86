/**
 * `ExceptionalPredicate<T, E>`: a predicate whose `test` may throw.
 * `and` and `or` evaluate left to right and short-circuit like Java's
 * `&&` and `||`; an exception from the first test ends the evaluation.
 */
module ExceptionalPredicate {
  import opened Runtime

  type Pred<!T> = T -> Call<bool>

  /** `p.and(q)`: `p(t) && q(t)`. */
  function And<T(!new)>(p: Pred<T>, q: Pred<T>): (r: Pred<T>)
    ensures forall t :: r(t) == Ok(true) <==> p(t) == Ok(true) && q(t) == Ok(true)
    ensures forall t :: p(t) == Ok(false) ==> r(t) == Ok(false)
    ensures forall t :: p(t).Throw? ==> r(t) == p(t)
    ensures forall t :: p(t) == Ok(true) ==> r(t) == q(t)
  {
    t => match p(t)
         case Throw(e) => Throw(e)
         case Ok(b) => if b then q(t) else Ok(false)
  }

  /** `p.or(q)`: `p(t) || q(t)`. */
  function Or<T(!new)>(p: Pred<T>, q: Pred<T>): (r: Pred<T>)
    ensures forall t :: r(t) == Ok(false) <==> p(t) == Ok(false) && q(t) == Ok(false)
    ensures forall t :: p(t) == Ok(true) ==> r(t) == Ok(true)
    ensures forall t :: p(t).Throw? ==> r(t) == p(t)
    ensures forall t :: p(t) == Ok(false) ==> r(t) == q(t)
  {
    t => match p(t)
         case Throw(e) => Throw(e)
         case Ok(b) => if b then Ok(true) else q(t)
  }

  /** `p.negate()`: `!p(t)`. */
  function Negate<T(!new)>(p: Pred<T>): (r: Pred<T>)
    ensures forall t, b :: p(t) == Ok(b) <==> r(t) == Ok(!b)
    ensures forall t :: p(t).Throw? <==> r(t).Throw?
    ensures forall t :: p(t).Throw? ==> r(t) == p(t)
  {
    t => match p(t)
         case Throw(e) => Throw(e)
         case Ok(b) => Ok(!b)
  }

  /**
   * `ExceptionalPredicate.isEqual(targetRef)`: `Objects::isNull` when the
   * target is null, `targetRef::equals` otherwise; equality of values is
   * modelled by Dafny equality.
   */
  function IsEqual<T(==)>(target: Option<T>): (r: Pred<Option<T>>)
    ensures r(target) == Ok(true)
    ensures target.Some? ==> r(None) == Ok(false)
  {
    if target.None? then
      (t: Option<T>) => Ok(t.None?)
    else
      (t: Option<T>) => Ok(t.Some? && target.value == t.value)
  }

  /** `isEqual(target)` accepts exactly the target and never throws. */
  lemma IsEqualExactly<T>(target: Option<T>, t: Option<T>)
    ensures IsEqual(target)(t) == Ok(t == target)
  {
  }

  /** Negating twice gives back `p` at every argument. */
  lemma DoubleNegation<T(!new)>(p: Pred<T>, t: T)
    ensures Negate(Negate(p))(t) == p(t)
  {
  }

  /** The second predicate is irrelevant once the first one decides `and`. */
  lemma AndShortCircuits<T(!new)>(p: Pred<T>, q1: Pred<T>, q2: Pred<T>, t: T)
    requires p(t) != Ok(true)
    ensures And(p, q1)(t) == And(p, q2)(t)
  {
  }

  /** The second predicate is irrelevant once the first one decides `or`. */
  lemma OrShortCircuits<T(!new)>(p: Pred<T>, q1: Pred<T>, q2: Pred<T>, t: T)
    requires p(t) != Ok(false)
    ensures Or(p, q1)(t) == Or(p, q2)(t)
  {
  }

  /** De Morgan: `!(p || q)` is `!p && !q`, exceptions included. */
  lemma DeMorgan<T(!new)>(p: Pred<T>, q: Pred<T>, t: T)
    ensures Negate(Or(p, q))(t) == And(Negate(p), Negate(q))(t)
  {
  }
}
