/** Nullable values. `None` stands for Java's `null`, and the member functions
    are the `java.util.Optional` operations the seat parser chains together. */
module Wrappers {

  datatype Option<+T> = None | Some(value: T) {

    /** `Optional.map`: apply `f` to a present value. */
    function Map<U>(f: T -> U): (r: Option<U>)
      ensures r.Some? <==> Some?
      ensures Some? ==> r.value == f(value)
    {
      match this
      case None => None
      case Some(v) => Some(f(v))
    }

    /** `Optional.flatMap`, and `Optional.map` with a function that may return `null`. */
    function FlatMap<U>(f: T -> Option<U>): (r: Option<U>)
      ensures None? ==> r.None?
      ensures Some? ==> r == f(value)
    {
      match this
      case None => None
      case Some(v) => f(v)
    }

    /** `Optional.filter`: keep a present value only if it satisfies `p`. */
    function Filter(p: T -> bool): (r: Option<T>)
      ensures r.Some? <==> Some? && p(value)
      ensures r.Some? ==> r.value == value
    {
      match this
      case Some(v) => if p(v) then this else None
      case None => None
    }

    /** `Optional.orElse`: the present value, or `default`. */
    function GetOr(default: T): (r: T)
      ensures Some? ==> r == value
      ensures None? ==> r == default
    {
      match this
      case Some(v) => v
      case None => default
    }

    /** `Optional.ofNullable(x).orElse(y)` where `y` may itself be `null`. */
    function Or(other: Option<T>): (r: Option<T>)
      ensures Some? ==> r == this
      ensures None? ==> r == other
    {
      match this
      case Some(_) => this
      case None => other
    }
  }
}
