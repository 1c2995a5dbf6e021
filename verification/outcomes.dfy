/** How the action's Python code says "nothing here" and "this raised":
    a JSON member or environment variable that may be missing, and a step
    of `run` that either yields its value or raises an exception. */
module Outcomes {

  /** A JSON member or environment variable: `None` when it is not set. */
  datatype Option<T> = None | Some(value: T) {

    /** `d.get(key, fallback)` and `os.environ.get(name, fallback)`. */
    function GetOr(fallback: T): T {
      if Some? then value else fallback
    }
  }

  /** A step of `run`: it yields a value or raises `error`. */
  datatype Result<T, X> = Success(value: T) | Failure(error: X)
}
