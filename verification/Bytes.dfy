/**
  Bytes, hashes and the small result types shared by every module.

  The hash function is never fixed: each statement about hashing takes an
  arbitrary function from byte strings to 32-byte strings and holds for all of
  them. Such a function always has collisions, so no statement assumes it is
  injective; where a collision would matter, the hypothesis names the finite
  set of strings that must not collide.
 */
module Bytes {

  type byte = b: int | 0 <= b < 256

  type Bytes = seq<byte>

  type Hash = h: Bytes | |h| == 32 witness seq(32, _ => 0)

  type Keccak = Bytes -> Hash

  datatype Option<+T> = None | Some(value: T)

  datatype Result<+T> = Ok(value: T) | Err(error: Error)

  datatype Error =
    | MissingNode(hash: Hash)  // a referenced node is not in the store
    | Malformed                // bytes that do not decode to a trie node
    | Panic                    // the program stops with a run-time panic
}
