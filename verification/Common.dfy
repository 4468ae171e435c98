/** What several components share. */
module Common {
  /** A result that may be missing. */
  datatype Option<T> = None | Some(value: T)

  /** How many results Python's `lru_cache` keeps when it is not told. */
  const CACHE_SIZE: nat := 128
}
