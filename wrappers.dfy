/** Option and Result values shared by every module of the model. */
module Wrappers {

  datatype Option<+T> = None | Some(value: T)

  /** The outcome of an operation that can raise: `Err` stands for the exception. */
  datatype Result<+T, +E> = Ok(value: T) | Err(error: E)

  /** The lookup found no row (`DoesNotExist`, or `Http404` from `get_object_or_404`). */
  datatype NotFound = NotFound
}
