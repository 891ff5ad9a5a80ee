/** The eight-bit bytes that frames, streams and blobs are made of. */
module Bytes {
  newtype byte = x: int | 0 <= x < 256
}
