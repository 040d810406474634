/** Small things many modules use. */
module Basics {

  type Byte = x: int | 0 <= x < 256

  type Bytes = seq<Byte>

  datatype Option<+T> = None | Some(value: T)

  /** The largest blob a receiver makes a buffer for is smaller than this. */
  const MAX_BLOB_SIZE: nat := 128 * 1024 * 1024

  function Min(a: int, b: int): int { if a < b then a else b }

  function Max(a: int, b: int): int { if a < b then b else a }

  lemma Assoc<T>(a: seq<T>, b: seq<T>, c: seq<T>)
    ensures (a + b) + c == a + (b + c)
  {
  }

  /** A whole made of two parts, the second of which is made of two parts itself. */
  lemma Regroup<T>(whole: seq<T>, before: seq<T>, pending: seq<T>, step: seq<T>, after: seq<T>)
    requires whole == before + pending && pending == step + after
    ensures whole == (before + step) + after
  {
  }
}
