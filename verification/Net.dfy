/**
 The writing side of a connection, for code that runs on one goroutine: each write is one
 step that succeeds or fails.
 */
module Net {
  import opened Bytes

  class Conn {
    /** Whether the n-th write on this connection succeeds. */
    const succeeds: nat -> bool
    var attempts: nat
    /** The writes that succeeded, in order. */
    var out: seq<bytes>

    constructor (succeeds: nat -> bool)
      ensures this.succeeds == succeeds && attempts == 0 && out == []
    {
      this.succeeds, this.attempts, this.out := succeeds, 0, [];
    }

    method Write(data: bytes) returns (ok: bool)
      modifies this
      ensures ok == succeeds(old(attempts)) && attempts == old(attempts) + 1
      ensures out == if ok then old(out) + [data] else old(out)
    {
      ok := succeeds(attempts);
      attempts := attempts + 1;
      if ok {
        out := out + [data];
      }
    }
  }
}
