/**
 Bytes, byte strings and the few sequence facts every other module leans on.
 */
module Bytes {

  type byte = b: int | 0 <= b < 256
  type bytes = seq<byte>
  type uint32 = n: int | 0 <= n < 0x1_0000_0000

  datatype Option<+T> = None | Some(value: T)

  /** The bytes of an ASCII text. */
  function Ascii(s: string): bytes {
    seq(|s|, k requires 0 <= k < |s| => if s[k] < 128 as char then s[k] as int else 0x3F)
  }

  /** All the parts, one after the other. */
  function Concat(parts: seq<bytes>): bytes {
    if parts == [] then [] else parts[0] + Concat(parts[1..])
  }

  lemma {:induction false} ConcatAppend(a: seq<bytes>, b: seq<bytes>)
    ensures Concat(a + b) == Concat(a) + Concat(b)
  {
    if a == [] {
      assert a + b == b;
    } else {
      assert (a + b)[1..] == a[1..] + b;
      ConcatAppend(a[1..], b);
      Assoc(a[0], Concat(a[1..]), Concat(b));
    }
  }

  lemma Assoc(a: bytes, b: bytes, c: bytes)
    ensures a + b + c == a + (b + c)
  {
  }
}
