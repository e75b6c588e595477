/** Shared vocabulary: bytes and an optional value. */
module Base {

  /** One octet of a Node `Buffer`. */
  newtype byte = x: int | 0 <= x < 256

  /** The contents of a `Buffer`, in order. */
  type Bytes = seq<byte>

  /** A slot that is either empty (`null` in the source) or holds a value. */
  datatype Option<+T> = None | Some(value: T)
}
