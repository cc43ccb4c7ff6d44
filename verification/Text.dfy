/**
 Command text. Bytes above 0x7F are ordinary, never white space and without case: the
 text of commands is taken to be ASCII.
 */
module Text {
  import opened Bytes

  const CR: byte := 0x0D
  const LF: byte := 0x0A

  predicate IsSpace(b: byte) {
    b == 0x20 || 0x09 <= b <= 0x0D
  }

  predicate IsEol(b: byte) {
    b == CR || b == LF
  }

  /** No byte of s ends a line. */
  predicate OneLine(s: bytes) {
    forall k :: 0 <= k < |s| ==> !IsEol(s[k])
  }

  function TrimRight(s: bytes): (r: bytes)
    ensures r <= s && (r == [] || !IsSpace(r[|r| - 1]))
    ensures s == [] || !IsSpace(s[|s| - 1]) ==> r == s
    ensures s != [] && !IsSpace(s[0]) ==> r != []
  {
    if s == [] || !IsSpace(s[|s| - 1]) then s else TrimRight(s[..|s| - 1])
  }

  function TrimLeft(s: bytes): (r: bytes)
    ensures s == [] || !IsSpace(s[0]) ==> r == s
  {
    if s == [] || !IsSpace(s[0]) then s else TrimLeft(s[1..])
  }

  /** strings.TrimSpace. */
  function Trim(s: bytes): bytes {
    TrimRight(TrimLeft(s))
  }

  function UpperByte(b: byte): byte {
    if 0x61 <= b <= 0x7A then b - 0x20 else b
  }

  /** strings.ToUpper. */
  function Upper(s: bytes): (r: bytes)
    ensures |r| == |s|
  {
    seq(|s|, k requires 0 <= k < |s| => UpperByte(s[k]))
  }

  // The texts the commands are recognised by.
  const AT: bytes := [0x41, 0x54]
  const ATD: bytes := AT + [0x44]
  const ATDT: bytes := ATD + [0x54]
  const ATDP: bytes := ATD + [0x50]
  const AT_REG: bytes := AT + [0x2B, 0x52, 0x45, 0x47, 0x3D] // AT+REG=
  const AT_CONNECT: bytes := AT + [0x2B, 0x43, 0x4F, 0x4E, 0x4E, 0x45, 0x43, 0x54, 0x3D] // AT+CONNECT=
}
