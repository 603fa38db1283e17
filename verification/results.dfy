/** Optional and value-or-error wrappers shared by the model: an optional value (the
    Java null) and a value-or-error result (a thrown exception). */
module Results {

  /** `None` stands for a Java reference that was never assigned (null). */
  datatype Option<+T> = None | Some(value: T)

  /** `Failure` stands for an exception the operation raises instead of returning. */
  datatype Result<+T, +E> = Success(value: T) | Failure(error: E)
}
