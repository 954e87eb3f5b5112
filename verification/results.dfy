/** Optional and failure-carrying values shared by the binning and scoring stages. */
module Results {

  /** A value that may be missing (pandas' NaN for a value outside every bin). */
  datatype Option<+T> = None | Some(value: T)

  /** The outcome of a stage that can fail: a value, or the reason it could not be computed. */
  datatype Result<+T, +E> = Ok(value: T) | Err(error: E)
}
