/** Small shared definitions. */
module Wrappers {
  type Bytes = string

  datatype Option<+T> = None | Some(value: T)

  function Max(a: int, b: int): (r: int)
  {
    if a < b then b else a
  }

  function Min(a: int, b: int): (r: int)
  {
    if a < b then a else b
  }
}
