/** Byte strings, keys and the byte that each tree level looks at. */
module Keys {
  type Byte = b: int | 0 <= b < 256
  type Bytes = seq<Byte>

  const KEY_LEN: nat := 8

  /** Length of the path of a key: one byte for the root slot and the key's own bytes. */
  const PATH_LEN: nat := 9

  type Key = k: Bytes | |k| == KEY_LEN witness seq(KEY_LEN, _ => 0)

  /** The bytes a search looks at, level by level: level 0 is the constant byte of the root slot. */
  function Path(k: Key): (p: Bytes) {
    [0] + k
  }

  /** `a` is a prefix of `b`. */
  predicate Ext(a: Bytes, b: Bytes) {
    |a| <= |b| && forall i :: 0 <= i < |a| ==> a[i] == b[i]
  }
}
