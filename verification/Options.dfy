/** Values that may be absent: SQL NULLs, missing keys, null returns. */
module Options {
  datatype Option<+T> = None | Some(value: T)
}
