/** The library's exception kinds, as the error half of a result. */
module Errors {

  /** One constructor per error message the modelled code can throw. */
  datatype Error =
    | SizesDontMatch               // E::SIZES_DONT_MATCH
    | ImageNotForged               // E::IMAGE_NOT_FORGED
    | ArrayParameterWrongLength    // E::ARRAY_PARAMETER_WRONG_LENGTH
    | DimensionalitiesDontMatch    // E::DIMENSIONALITIES_DONT_MATCH
    | OutputSizeMismatch           // "Output size must match input size for dimensions not being processed"
    | KernelNotBinary              // E::KERNEL_NOT_BINARY
    | DataTypeNotSupported         // E::DATA_TYPE_NOT_SUPPORTED
    | InvalidFlag                  // DIP_THROW_INVALID_FLAG
    | DimensionalityNotSupported   // E::DIMENSIONALITY_NOT_SUPPORTED
    | NTensorElemDontMatch         // E::NTENSORELEM_DONT_MATCH
    | CoordinatesOutOfRange        // E::COORDINATES_OUT_OF_RANGE

  /** A value, or the exception that was thrown instead. */
  datatype Result<T> = Success(value: T) | Failure(error: Error)
}
