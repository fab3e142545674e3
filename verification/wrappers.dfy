/** Failure-compatible wrappers used throughout the model: Python's `None`
    becomes `None`, a raised exception becomes `Failure`. */
module Wrappers {

  datatype Option<+T> = None | Some(value: T)

  datatype Result<+R, +E> = Success(value: R) | Failure(error: E) {

    predicate IsFailure() {
      Failure?
    }

    function PropagateFailure<U>(): Result<U, E>
      requires Failure?
    {
      Failure(error)
    }

    function Extract(): R
      requires Success?
    {
      value
    }
  }
}

/** The errors the extraction engine raises. */
module Errors {

  datatype ExtractionError =
      /** `getattr(feature_calculators, name)` found no calculator of that name */
    | UnknownCalculator(name: string)
      /** the supplied distributor is not a `DistributorBaseClass` */
    | InvalidDistributor
      /** the pivot met a second record for an (id, variable) cell */
    | DuplicateCell(id: string, variable: string)
}
