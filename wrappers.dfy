/** Values that may be missing, and the end of a run. */
module Wrappers {
  datatype Option<T> = None | Some(value: T)

  /** Either the generator goes on with a value, or the process ends with an
      exit status (`sys.exit` / `process.exit`). */
  datatype Outcome<T> = Continue(value: T) | Exit(status: nat)
}
