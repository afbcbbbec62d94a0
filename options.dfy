/** Optional values and pass/fail outcomes, standing for Python's `None` and for
    guards that either return normally or raise. */
module Options {

  datatype Option<+T> = None | Some(value: T)

  datatype Outcome<+E> = Pass | Fail(error: E)
}
