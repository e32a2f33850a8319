/** What several of the models share. */
module Common {

  datatype Option<+T> = None | Some(value: T)

  /** A flag of a state that has many of them: a datatype of its own keeps such records cheap to reason about. */
  datatype Flag = Off | On
}
