// Bytes and the option type, shared by all modules.
module Common {

  // A byte of a page or of a record.
  type byte = x: int | 0 <= x < 256

  datatype Option<+T> = None | Some(value: T)
}
