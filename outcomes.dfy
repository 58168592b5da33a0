/** Option and Result values, and the failures the modelled Python code can raise. */
module Outcomes {

  datatype Option<T> = None | Some(value: T)

  /** The exceptions the core can end in. */
  datatype Error =
    | ZeroDivision          // ZeroDivisionError: calibration / w with w == 0
    | MissingDistance       // AttributeError: a Face built without calibration has no `distance`
    | InsufficientSamples   // only in the corrected calibration: no detection to average

  datatype Result<T> = Ok(value: T) | Err(error: Error)
}
