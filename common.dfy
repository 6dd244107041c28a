/** Small value wrappers shared by every module of the model. */
module Common {

  /** A value that may be absent: a nullable column, an optional argument. */
  datatype Option<+T> = None | Some(value: T)

  /** The outcome of an operation that can fail with an error value. */
  datatype Result<+T, +E> = Ok(value: T) | Err(error: E)

  /** The errors the client API throws that the model keeps (backend failures are not modelled). */
  datatype ApiError =
    | NotAuthenticated   // no signed-in user
    | VideoTooLarge      // a workout video over the size limit

  /** `x || 0` on a nullable integer column: null (and 0) read as 0. */
  function OrZero(x: Option<int>): int
  {
    match x
    case Some(v) => v
    case None => 0
  }

  /** `x || 0` on a nullable real-valued argument. */
  function OrZeroReal(x: Option<real>): real
  {
    match x
    case Some(v) => v
    case None => 0.0
  }

  function Min(a: int, b: int): int { if a <= b then a else b }

  function Max(a: int, b: int): int { if a >= b then a else b }

  function MinReal(a: real, b: real): real { if a <= b then a else b }

  function MaxReal(a: real, b: real): real { if a >= b then a else b }

  /** `list || []`: a missing list reads as the empty list. */
  function OrEmpty<T>(x: Option<seq<T>>): seq<T>
  {
    match x
    case Some(s) => s
    case None => []
  }

  /** A sequence without members is empty. */
  lemma EmptyWhenNoMember<T>(s: seq<T>)
    ensures (forall x :: x !in s) ==> s == []
  {
    if s != [] {
      assert s[0] in s;
    }
  }
}
