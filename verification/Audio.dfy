/** Constants of the 8 kHz mu-law telephone audio that the audio modules share. */
module Audio {

  type Byte = b: int | 0 <= b < 256

  /** A frame, in bytes and in ms. */
  const FRAME_BYTES: nat := 160
  const FRAME_MS: nat := 20
  const BYTES_PER_MS: nat := 8

  /** The mu-law code of a zero sample. */
  const SILENCE: Byte := 0xFF

  /** `n` copies of `v`. */
  function Repeat<T>(v: T, n: nat): (r: seq<T>)
    ensures |r| == n
    ensures forall i :: 0 <= i < n ==> r[i] == v
  {
    seq(n, _ => v)
  }

  /** The chunks of a stream as one sequence. */
  function Flatten<T>(chunks: seq<seq<T>>): seq<T> {
    if chunks == [] then [] else Flatten(chunks[..|chunks| - 1]) + chunks[|chunks| - 1]
  }
}
