/** Machine integers and the Option/Result wrappers the codecs return. */
module Primitives {

  /** An unsigned 8-bit integer (Rust `u8`). */
  newtype byte = x: int | 0 <= x < 0x100

  /** An unsigned 16-bit integer (Rust `u16`). */
  newtype u16 = x: int | 0 <= x < 0x1_0000

  datatype Option<+T> = None | Some(value: T)

  datatype Result<+T, +E> = Ok(value: T) | Err(error: E)

  /** Bounds-checked indexing, as Rust's `slice::get`. */
  function Get(s: seq<byte>, i: nat): (r: Option<byte>)
    ensures r.Some? <==> i < |s|
    ensures r.Some? ==> r.value == s[i]
  {
    if i < |s| then Some(s[i]) else None
  }

  /** Low byte of a 16-bit value (Rust `x as u8`). */
  function Low(x: u16): byte { (x % 0x100) as byte }

  /** High byte of a 16-bit value (Rust `(x >> 8) as u8`). */
  function High(x: u16): byte { (x / 0x100) as byte }

  /** `lo as u16 | (hi as u16) << 8`: the two bytes do not overlap, so `|` is `+`. */
  function Join16(lo: byte, hi: byte): (r: u16)
    ensures Low(r) == lo && High(r) == hi
  {
    (lo as int + 0x100 * hi as int) as u16
  }

  lemma SplitJoin16(x: u16)
    ensures Join16(Low(x), High(x)) == x
  {
  }
}
