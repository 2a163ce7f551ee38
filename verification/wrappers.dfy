/** Optional values and results that either hold a value or name the exception
    the Kotlin code would have thrown. */
module Wrappers {

  datatype Option<+T> = None | Some(value: T) {
    function GetOr(default: T): T {
      match this
      case Some(v) => v
      case None => default
    }
  }

  /** Why an operation of the sign software would abort with an exception. */
  datatype Crash =
    | IndexOutOfBounds      // list.get / removeAt / add outside the valid range
    | DivisionByZero        // `%` by a zero advertisement period
    | NoSuchElement         // `first()` on an empty list
    | ClassCast             // `as GPTQuery` on an entry of another class
    | IllegalArgument       // `MSGTYPE.valueOf` or an unknown Marquee subclass

  datatype Result<+T> = Ok(value: T) | Fail(crash: Crash)
}
