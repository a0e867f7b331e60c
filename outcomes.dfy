/** Failure-carrying values shared by every stage of the pipeline. */
module Outcomes {

  datatype Option<+T> = None | Some(value: T)

  /** The exceptions the modelled code can raise. */
  datatype Error =
    | KeyError(key: string)          // a missing dictionary key or dataframe column
    | FileNotFound(path: string)     // a file or directory that cannot be opened
    | InvalidPath                    // `None` handed to a reader in place of a path
    | CustomException(cause: Error)  // the project's stage-level wrapper around a cause

  datatype Result<+T> = Ok(value: T) | Err(error: Error)

  /** True when `e` is the project's wrapper around some cause. */
  predicate IsWrapped(e: Error) {
    e.CustomException?
  }
}
