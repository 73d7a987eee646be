/** Rust's `Option` and `Result` with the combinators the samples call. */
module Wrappers {

  datatype Option<T> = None | Some(value: T) {

    /** `Option::unwrap_or` */
    function UnwrapOr(default: T): T
    {
      match this
      case Some(v) => v
      case None => default
    }
  }

  datatype Result<T, E> = Ok(value: T) | Err(error: E) {

    /** `Result::map` */
    function Map<U>(f: T --> U): Result<U, E>
      requires Ok? ==> f.requires(value)
    {
      match this
      case Ok(v) => Ok(f(v))
      case Err(e) => Err(e)
    }

    /** `Result::map_err` */
    function MapErr<F>(f: E -> F): Result<T, F>
    {
      match this
      case Ok(v) => Ok(v)
      case Err(e) => Err(f(e))
    }

    /** `Result::and_then` */
    function AndThen<U>(f: T --> Result<U, E>): Result<U, E>
      requires Ok? ==> f.requires(value)
    {
      match this
      case Ok(v) => f(v)
      case Err(e) => Err(e)
    }

    /** `Result::or_else` */
    function OrElse<F>(f: E -> Result<T, F>): Result<T, F>
    {
      match this
      case Ok(v) => Ok(v)
      case Err(e) => f(e)
    }

    /** `Result::unwrap_or` */
    function UnwrapOr(default: T): T
    {
      match this
      case Ok(v) => v
      case Err(_) => default
    }

    /** `Result::unwrap_or_else` */
    function UnwrapOrElse(f: E -> T): T
    {
      match this
      case Ok(v) => v
      case Err(e) => f(e)
    }
  }
}
