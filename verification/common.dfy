/** Small shared vocabulary: optional values and the fixed-width integers of the C++ code. */
module Common {

  /** A value that may be absent. */
  datatype Option<+T> = None | Some(value: T) {

    /** The encapsulated value, or `default` when there is none. */
    function GetOr(default: T): T {
      match this
      case Some(v) => v
      case None => default
    }
  }

  /** C++ `int` (32 bits, two's complement). */
  newtype int32 = x: int | -0x8000_0000 <= x < 0x8000_0000

  /** One byte, as produced by a cryptographic hash. */
  newtype byte = x: int | 0 <= x < 0x100

  predicate InInt32Range(n: int) {
    -0x8000_0000 <= n < 0x8000_0000
  }

  /** Concatenation is associative; a step the verifier sometimes needs spelled out. */
  lemma ConcatAssoc<T>(a: seq<T>, b: seq<T>, c: seq<T>)
    ensures a + (b + c) == (a + b) + c
  {
  }
}
