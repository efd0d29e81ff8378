/** Outcomes of the filter-design scripts: a value, or the Python exception that
    the scripts would raise. */
module Results {

  /** The exceptions the modelled code can raise, named after the Python ones. */
  datatype Error =
    | ValueError          // numpy shape mismatch, min/max of an empty sequence, zero-length FFT
    | IndexError          // out-of-range integer index
    | ZeroDivisionError   // division by a zero sample rate, coefficient peak or step
    | AssertionError      // a failed `assert` in the half-band designer
    | KeyError            // a descriptor key that is absent
    | TypeError           // arithmetic on None (an order search that found nothing)

  datatype Option<+T> = None | Some(value: T)

  datatype Result<+T> = Ok(value: T) | Err(error: Error)
}
