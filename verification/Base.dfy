/** Shared vocabulary: optional values, bytes and byte strings. */
module Base {

  datatype Option<+T> = None | Some(value: T)

  type Byte = x: int | 0 <= x < 256

  type Bytes = seq<Byte>

  /** CECFrame::MAX_LENGTH */
  const MAX_LENGTH := 128

  /** A frame the receive callback accepts, and the least a sender must supply. */
  predicate ValidFrame(bytes: Bytes) {
    1 <= |bytes| <= MAX_LENGTH
  }

  function High(b: Byte): Byte { b / 16 }

  function Low(b: Byte): Byte { b % 16 }

  /** How often `x` occurs in `s`. */
  ghost function Count<T>(s: seq<T>, x: T): nat {
    multiset(s)[x]
  }
}
