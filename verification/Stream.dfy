/**
 What a connection delivers, and the buffered reader every handler reads it through
 (Go's bufio.Reader over a net.Conn).
 */
module Stream {
  import opened Bytes

  /** One thing the reader can meet next; when there is no next one, the connection has failed. */
  datatype Event = Byte(b: byte) | Timeout

  /** What one Read on the connection returns: some bytes, or an expired deadline. */
  datatype Arrival = Chunk(data: bytes) | Deadline

  function ByteEvents(d: bytes): seq<Event> {
    seq(|d|, k requires 0 <= k < |d| => Byte(d[k]))
  }

  /** The bytes among some events. */
  function BytesOf(ev: seq<Event>): bytes {
    if ev == [] then [] else (if ev[0].Byte? then [ev[0].b] else []) + BytesOf(ev[1..])
  }

  function Delivered(arrivals: seq<Arrival>): seq<Event> {
    if arrivals == [] then []
    else (if arrivals[0].Chunk? then ByteEvents(arrivals[0].data) else [Timeout]) + Delivered(arrivals[1..])
  }

  lemma FirstByte(buf: bytes, rest: seq<Event>, all: seq<Event>, i: nat)
    requires buf != [] && i <= |all| && ByteEvents(buf) + rest == all[i..]
    ensures i < |all| && all[i] == Byte(buf[0]) && ByteEvents(buf[1..]) + rest == all[i + 1..]
  {
    assert all[i] == all[i..][0] == ByteEvents(buf)[0];
    assert all[i..][1..] == all[i + 1..];
    assert ByteEvents(buf)[1..] == ByteEvents(buf[1..]);
  }

  /** A full buffer leaves the rest of the chunk to be read. */
  lemma SplitChunk(data: bytes, rest: seq<Arrival>)
    requires |data| > BUFFER_SIZE
    ensures ByteEvents(data) + Delivered(rest) ==
            ByteEvents(data[..BUFFER_SIZE]) + Delivered([Chunk(data[BUFFER_SIZE..])] + rest)
  {
    var left := [Chunk(data[BUFFER_SIZE..])] + rest;
    assert left[1..] == rest;
    assert ByteEvents(data) == ByteEvents(data[..BUFFER_SIZE]) + ByteEvents(data[BUFFER_SIZE..]);
  }

  datatype ReadError = NoError | TimedOut | Failed

  const BUFFER_SIZE := 4096

  /**
   The reader. all is the whole stream as events and consumed says how many of them have
   been taken; what the buffer and the connection still hold is the rest.
   */
  class BufReader {
    ghost const all: seq<Event>
    var consumed: nat
    var buf: bytes
    var arrivals: seq<Arrival>

    ghost predicate Valid()
      reads this
    {
      && consumed <= |all|
      && (forall a :: a in arrivals && a.Chunk? ==> a.data != [])
      && ByteEvents(buf) + Delivered(arrivals) == all[consumed..]
    }

    constructor (arrivals: seq<Arrival>)
      requires forall a :: a in arrivals && a.Chunk? ==> a.data != []
      ensures Valid() && all == Delivered(arrivals) && consumed == 0 && buf == []
    {
      this.arrivals, this.all, this.consumed, this.buf := arrivals, Delivered(arrivals), 0, [];
    }

    /** One Read on the connection, into an empty buffer. */
    method Fill() returns (err: ReadError)
      requires Valid() && buf == []
      modifies this
      ensures Valid()
      ensures err == if old(consumed) == |all| then Failed
                     else if all[old(consumed)].Timeout? then TimedOut else NoError
      ensures consumed == old(consumed) + if err == TimedOut then 1 else 0
      ensures err == NoError <==> buf != []
    {
      if arrivals == [] {
        return Failed;
      }
      var next, rest := arrivals[0], arrivals[1..];
      assert arrivals == [next] + rest;
      match next {
        case Deadline =>
          consumed, arrivals, err := consumed + 1, rest, TimedOut;
        case Chunk(data) =>
          assert all[consumed..] == ByteEvents(data) + Delivered(rest);
          if |data| <= BUFFER_SIZE {
            buf, arrivals, err := data, rest, NoError;
          } else {
            SplitChunk(data, rest);
            buf, arrivals, err := data[..BUFFER_SIZE], [Chunk(data[BUFFER_SIZE..])] + rest, NoError;
          }
      }
    }

    method ReadByte() returns (b: byte, err: ReadError)
      requires Valid()
      modifies this
      ensures Valid()
      ensures err == if old(consumed) == |all| then Failed
                     else if all[old(consumed)].Timeout? then TimedOut else NoError
      ensures consumed == old(consumed) + if err == Failed then 0 else 1
      ensures err == NoError ==> b == all[old(consumed)].b
    {
      b, err := 0, NoError;
      if buf == [] {
        err := Fill();
      }
      if err == NoError {
        FirstByte(buf, Delivered(arrivals), all, consumed);
        b, buf, consumed := buf[0], buf[1..], consumed + 1;
      }
    }

    /** Peek(1): the next byte stays; a timeout met while looking is used up. */
    method Peek() returns (next: Option<byte>)
      requires Valid()
      modifies this
      ensures Valid()
      ensures old(consumed) < |all| && all[old(consumed)].Byte? ==>
        next == Some(all[old(consumed)].b) && consumed == old(consumed)
      ensures old(consumed) < |all| && all[old(consumed)].Timeout? ==>
        next == None && consumed == old(consumed) + 1
      ensures old(consumed) == |all| ==> next == None && consumed == old(consumed)
    {
      var err := NoError;
      if buf == [] {
        err := Fill();
      }
      next := None;
      if err == NoError {
        assert all[consumed] == all[consumed..][0] == Byte(buf[0]);
        next := Some(buf[0]);
      }
    }

    /** Buffered and Read together: everything the buffer holds, without touching the connection. */
    method TakeBuffered() returns (data: bytes)
      requires Valid()
      modifies this
      ensures Valid() && buf == [] && arrivals == old(arrivals)
      ensures data == old(buf) && consumed == old(consumed) + |data|
      ensures ByteEvents(data) == all[old(consumed)..consumed]
    {
      data := buf;
      var rest := ByteEvents(buf) + Delivered(arrivals);
      assert rest[|buf|..] == Delivered(arrivals) && rest[..|buf|] == ByteEvents(buf);
      assert all[consumed + |buf|..] == all[consumed..][|buf|..];
      assert all[consumed..consumed + |buf|] == all[consumed..][..|buf|];
      buf, consumed := [], consumed + |buf|;
    }
  }
}
