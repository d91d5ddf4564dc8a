/** Abstract stand-ins for the operating-system queries the monitor makes.

    Every call into win32gui, win32process or psutil either returns a value or
    raises; the model takes the outcome of each such call as an input instead of
    performing it.
 */
module OsCalls {

  /** A value that may be missing: Python's `None` or a value. */
  datatype Option<+T> = None | Some(value: T)

  /** The exceptions the monitor tells apart: the two psutil exceptions it
      catches by name, and every other exception. */
  datatype ProcError = NoSuchProcess | AccessDenied | OtherError

  /** The outcome of one call into the operating system. */
  datatype Call<+T> = Returned(value: T) | Raised(error: ProcError)

  /** True of the exceptions `except (psutil.NoSuchProcess, psutil.AccessDenied)`
      catches; any other exception escapes to the enclosing handler. */
  predicate CaughtByName(e: ProcError)
    ensures CaughtByName(e) <==> e != OtherError
  {
    e.NoSuchProcess? || e.AccessDenied?
  }
}
