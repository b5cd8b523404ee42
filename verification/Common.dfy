/** What several parts of the model share. */
module Common {
  datatype Option<+T> = None | Some(value: T)

  /** In nanoseconds. */
  const SECOND := 1_000_000_000
}
