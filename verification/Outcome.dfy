/** Result types shared by the modules of the model. */
module Outcome {

  datatype Option<+T> = None | Some(value: T)

  /** `Failure` stands for an exception the source raises, or an error response. */
  datatype Result<+T, +E> = Success(value: T) | Failure(error: E)

  /** Always true; a proof writes it to name the point at which it needs two functions to agree. */
  ghost predicate At<T>(x: T) { true }

  ghost predicate Agree<T(!new), U>(f: T -> U, g: T -> U) {
    forall x {:trigger At(x)} :: At(x) ==> f(x) == g(x)
  }
}
