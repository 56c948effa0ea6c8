/** Types and constants that several parts of the kernel share. */
module Types {

  const MAXOPBLOCKS: nat := 10
  const UINT: nat := 0x1_0000_0000

  type Byte = x: int | 0 <= x < 256

  datatype Option<T> = None | Some(value: T)
}
