/** Small shared definitions: an optional value and the byte type. */
module Common {

  /** An optional value; `None` stands for Go's `nil` where the source returns one. */
  datatype Option<+T> = None | Some(value: T)

  /** One byte of the instruction stream. */
  type Byte = x: int | 0 <= x < 256
}
