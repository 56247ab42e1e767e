/** Types the other modules share, and how a write call proceeds. */
module Prelude {
  datatype Option<+T> = None | Some(value: T)

  datatype Result<+T, +E> = Ok(value: T) | Err(error: E)

  newtype byte = x: int | 0 <= x < 256

  type Bytes = seq<byte>

  /** The pieces that successive writes accept cover so many bytes. */
  predicate Accepts(n: nat, pieces: seq<nat>) {
    n == 0 || (pieces != [] && pieces[0] > 0 && (pieces[0] >= n || Accepts(n - pieces[0], pieces[1..])))
  }
}
