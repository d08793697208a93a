/** The failure that ends a conversion early, and a Result type for it. */
module Results {

  /** The converter looks up a per-coach move list that `Song` does not have
      (only `moves0` .. `moves3` exist). In the program this is a TypeError
      thrown by `.push` or `.sort` on `undefined`, which aborts the run. */
  datatype Error = NoMoveList(coach: int)

  datatype Result<+T> = Ok(value: T) | Err(error: Error) {

    predicate IsFailure() {
      Err?
    }

    function PropagateFailure<U>(): Result<U>
      requires Err?
    {
      Err(error)
    }

    function Extract(): T
      requires Ok?
    {
      value
    }
  }
}
