/** Outcomes of the validators: the canonical code, or the kind of failure. */
module Results {

  /** Why a validation failed. `Overflow` and `Syntax` are the two ways
      strconv.Atoi fails on the letter expansion; the error text is not modelled. */
  datatype Error = TooShort | Overflow | Syntax | ChecksumFailed

  datatype Result<+T> = Ok(value: T) | Err(error: Error)
}
