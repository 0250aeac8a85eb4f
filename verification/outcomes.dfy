/** How a `Load` ends: with the loaded setting, or with an exception that
    escapes to the caller. */
module Outcomes {

  /** An exception that escapes `Load`, by type name. */
  datatype LoadError = Rethrown(exception: string)

  datatype Loaded<T> = Ok(setting: T) | Failed(error: LoadError)
}
