/** Error values and the result type shared by every component. */
module Wrappers {

  /** The failures the parser reports to its callers. */
  datatype Error =
    | BadRequest                 // blank or sentinel subject name, page number below 1
    | Transport(url: string)     // the page at `url` could not be fetched or read
    | UpdateDateNotFound         // the index page carries no publication-date marker

  /** A value or the error that prevented it. */
  datatype Result<+T> = Ok(value: T) | Err(error: Error)
}
