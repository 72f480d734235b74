/** Optional values and error-or-value results, standing for the Python code's
    `None`/empty fall-backs and its `{"error": ...}` dictionaries. */
module Results {

  datatype Option<+T> = None | Some(value: T)

  /** `Err` carries the message the analysers put under the "error" key. */
  datatype Result<+T> = Ok(value: T) | Err(error: string)
}
