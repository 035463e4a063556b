/** The exceptions the modelled Kotlin code can raise, and a failure-compatible
    Result type standing for "returns a value or throws", and an Option type
    for a lookup or a parse that may find nothing. */
module Exceptions {

  datatype Exception =
    /** kotlin.IllegalStateException, as thrown by `checkNotNull` */
    | IllegalState(message: string)
    /** java.lang.ClassCastException: the value under `key` is not of the kind read */
    | ClassCast(key: string)
    /** java.lang.NullPointerException: a member was called on a null reference */
    | NullPointer
    /** kotlin.UninitializedPropertyAccessException: a `lateinit` property read before assignment */
    | UninitializedProperty(name: string)
    /** A failed future from the connection pool library, with its message */
    | PoolFailure(message: string)

  datatype Result<+T> = Ok(value: T) | Err(error: Exception) {

    predicate IsFailure() {
      Err?
    }

    function PropagateFailure<U>(): Result<U>
      requires Err?
    {
      Err(error)
    }

    function Extract(): T
      requires Ok?
    {
      value
    }
  }

  /** A value that may be missing. */
  datatype Option<+T> = None | Some(value: T)
}
