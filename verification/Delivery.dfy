/**
 From the client's first byte to the device: the command reader, the command loop, the
 hand-off and the bridge put together. What the device is sent is the translated presets
 and then everything behind the CONNECT line, however that was split between the reader's
 buffer and the bridge.
 */
module Delivery {
  import opened Bytes
  import opened Text
  import opened Stream
  import Rfc2217
  import opened UsrVcom
  import opened Protocol
  import opened ReaderProperties
  import opened Preamble
  import Net
  import opened CommandLoop
  import opened Devices
  import opened Sessions
  import opened SessionIds
  import opened HandOff
  import Bridge

  /** What preset segments come to on the device side. */
  function Translate(segments: seq<Segment>): bytes {
    match LastConfig(segments, None)
    case Some(cfg) => Rfc2217.Print(Commands(cfg))
    case None => RawPresets(Plain(segments))
  }

  /** Without a 55 AA 55 at their head or at that of a segment, presets lose their line ends and nothing else. */
  lemma PlainPresetsUnchanged(ev: seq<Event>, j: nat)
    requires j < |ev| && ev[j].Byte? && NoATBetween(ev, 0, j)
    requires forall s :: s in Cut(ev, 0, j, []) ==> !IsUSRVCOM(s.data)
    requires !IsUSRVCOM(WithoutEol(Slice(ev, 0, j)))
    ensures Translate(Cut(ev, 0, j, [])) == WithoutEol(Slice(ev, 0, j))
  {
    CutKeepsBytes(ev, 0, j, []);
    UnheadedArePlain(Cut(ev, 0, j, []), None);
    assert [] + WithoutEol(Slice(ev, 0, j)) == WithoutEol(Slice(ev, 0, j));
  }

  /**
   A packet and then a pause become the packet's settings; but nothing at all when the
   packet holds 41 54, which is AT.
   */
  lemma PacketThenPause(ev: seq<Event>, n: nat, j: nat)
    requires PACKET_LEN <= n <= j <= |ev|
    requires forall k {:trigger ev[k]} :: 0 <= k < n ==> ev[k].Byte? && !IsEol(ev[k].b)
    requires forall k {:trigger ev[k]} :: n <= k < j ==> ev[k].Timeout?
    requires IsUSRVCOM(Slice(ev, 0, n)) && (n < j || NoATBetween(ev, 0, j))
    ensures |Slice(ev, 0, n)| == n
    ensures Translate(Cut(ev, 0, j, [])) == if NoATBetween(ev, 0, n) then OnTheWire(Slice(ev, 0, n), 0) else []
  {
    var p := Slice(ev, 0, n);
    SliceLength(ev, 0, n);
    HeadedIsFound(p);
    if NoATBetween(ev, 0, n) {
      PacketCut(ev, 0, n, j, [], p);
      PrintInNumbers(p, 0);
    } else {
      PacketDropped(ev, 0, n, j, []);
    }
  }

  lemma {:induction false} PacketDropped(ev: seq<Event>, i: nat, n: nat, j: nat, cur: bytes)
    requires i <= n < j <= |ev| && !NoATBetween(ev, i, n)
    requires forall k {:trigger ev[k]} :: i <= k < n ==> ev[k].Byte? && !IsEol(ev[k].b)
    requires forall k {:trigger ev[k]} :: n <= k < j ==> ev[k].Timeout?
    ensures Plain(Cut(ev, i, j, cur)) == [] && LastConfig(Cut(ev, i, j, cur), None) == None
    decreases n - i
  {
    if ATAt(ev, i) {
      CommandEndsAt(ev, i, n);
      PauseKeepsConfig(ev, n + 1, j, None);
    } else {
      assert AfterByte(ev, i) == i + 1 by {
        var k :| i <= k < n && ATAt(ev, k);
        assert i + 1 < n;
      }
      PacketDropped(ev, i + 1, n, j, cur + [ev[i].b]);
    }
  }

  /** The last decodable packet decides, whatever other presets there are. */
  lemma ConfiguredPresets(segments: seq<Segment>, k: nat)
    requires k < |segments| && IsUSRVCOM(segments[k].data) && |segments[k].data| >= PACKET_LEN
    requires forall j :: k < j < |segments| ==> !Decodable(segments[j].data)
    ensures Translate(segments) == OnTheWire(segments[k].data, 0)
  {
    HeadedIsFound(segments[k].data);
    LastConfigIsLast(segments, None, k);
    PrintInNumbers(segments[k].data, 0);
  }

  lemma {:induction false} SliceLength(ev: seq<Event>, i: nat, n: nat)
    requires i <= n <= |ev| && forall k {:trigger ev[k]} :: i <= k < n ==> ev[k].Byte?
    ensures |Slice(ev, i, n)| == n - i
    decreases n - i
  {
    if i < n {
      SliceStep(ev, i, n);
      SliceLength(ev, i + 1, n);
    } else {
      assert ev[i..i] == [];
    }
  }

  lemma {:induction false} PacketCut(ev: seq<Event>, i: nat, n: nat, j: nat, cur: bytes, p: bytes)
    requires i <= n <= j <= |ev| && cur + Slice(ev, i, n) == p && Decodable(p) && NoATBetween(ev, i, n)
    requires forall k {:trigger ev[k]} :: i <= k < n ==> ev[k].Byte? && !IsEol(ev[k].b)
    requires forall k {:trigger ev[k]} :: n <= k < j ==> ev[k].Timeout?
    ensures LastConfig(Cut(ev, i, j, cur), None) == Parse(p)
    decreases n - i
  {
    if i == n {
      assert ev[i..i] == [] && cur + [] == cur;
      PacketEnds(ev, n, j, p);
    } else {
      assert !ATAt(ev, i);
      var k, cur' := AfterByte(ev, i), cur + [ev[i].b];
      SliceStep(ev, i, n);
      Assoc(cur, [ev[i].b], Slice(ev, i + 1, n));
      assert Cut(ev, i, j, cur) == Cut(ev, k, j, cur');
      if k == i + 2 {
        assert i + 1 == n && ev[n..n] == [] && cur' + [] == cur';
        PacketEnds(ev, k, j, p);
      } else {
        PacketCut(ev, i + 1, n, j, cur', p);
      }
    }
  }

  /** The packet is complete, and a pause follows. */
  lemma PacketEnds(ev: seq<Event>, i: nat, j: nat, p: bytes)
    requires j <= |ev| && Decodable(p)
    requires forall k {:trigger ev[k]} :: i <= k < j ==> ev[k].Timeout?
    ensures LastConfig(Cut(ev, i, j, p), None) == Parse(p)
  {
    var segments := Cut(ev, i, j, p);
    if i < j {
      assert segments[1..] == Cut(ev, i + 1, j, []);
      PauseKeepsConfig(ev, i + 1, j, Parse(p));
    } else {
      assert segments[1..] == [];
    }
  }

  lemma {:induction false} PauseKeepsConfig(ev: seq<Event>, i: nat, j: nat, cfg: Option<Config>)
    requires j <= |ev| && forall k {:trigger ev[k]} :: i <= k < j ==> ev[k].Timeout?
    ensures LastConfig(Cut(ev, i, j, []), cfg) == cfg && Plain(Cut(ev, i, j, [])) == []
    decreases |ev| - i
  {
    var segments := Cut(ev, i, j, []);
    if i < j {
      assert segments[1..] == Cut(ev, i + 1, j, []);
      PauseKeepsConfig(ev, i + 1, j, cfg);
    } else {
      assert segments[1..] == [];
    }
  }

  // ----- The command -----

  /** Bytes with no AT, whatever deadlines fire between them, up to j, then a CONNECT line, all in time. */
  predicate Connects(ev: seq<Event>, j: nat, tok: bytes, clock: nat -> int, timeout: int) {
    && Patient(ev, 0, j, Wait(clock, clock(0), timeout))
    && Spells(ev, j, Printed(Connect, tok)) && OneLine(tok)
  }

  /** The preset segments before the line. */
  function Before(ev: seq<Event>, j: nat): seq<Segment>
    requires j <= |ev|
  {
    Cut(ev, 0, j, [])
  }

  /** Where the client's data begins. */
  function DataStart(j: nat, tok: bytes): nat {
    j + |Printed(Connect, tok)|
  }

  function ConnectCommand(segments: seq<Segment>, tok: bytes): ATCommand {
    ATCommand(Connect, TrimRight(tok), Plain(segments), LastConfig(segments, None))
  }

  lemma LineIsConnect(ev: seq<Event>, j: nat, tok: bytes)
    requires Spells(ev, j, Printed(Connect, tok)) && OneLine(tok)
    ensures var m := j + |Opening(Connect)| + |tok|;
            && WholeLine(ev, j, m) && Slice(ev, j, m) == Opening(Connect) + tok
            && DataStart(j, tok) <= |ev| && BehindEol(ev, m) == DataStart(j, tok)
  {
    var s, k := Printed(Connect, tok), |Opening(Connect)| + |tok|;
    OpeningIsOneLine(Connect);
    PrintedLine(ev, j, Connect, tok);
    assert FirstEol(tok) == |tok| && tok[..|tok|] == tok;
    assert s[k] == CR && s[k + 1] == LF;
    assert ev[j + k] == Byte(s[k]) && ev[j + (k + 1)] == Byte(s[k + 1]);
  }

  lemma ConnectIsRead(ev: seq<Event>, j: nat, tok: bytes, clock: nat -> int, timeout: int)
    requires Connects(ev, j, tok, clock, timeout)
    ensures ReadCommand(ev, 0, clock, timeout) == Got(ConnectCommand(Before(ev, j), tok), DataStart(j, tok))
  {
    LineIsConnect(ev, j, tok);
    PrintedIsCommand(Connect, tok);
    CommandAfterPreamble(ev, 0, j, j + |Opening(Connect)| + |tok|, clock, timeout);
  }

  /** The loop leaves at the CONNECT line, having written nothing and consumed nothing behind it. */
  lemma LoopConnects(ev: seq<Event>, j: nat, tok: bytes, env: Setting, timeout: int, writes: nat)
    requires Connects(ev, j, tok, env.clock, timeout)
    ensures var cmd := ConnectCommand(Before(ev, j), tok);
            Loop(ev, 0, env, timeout, START, writes) == Run([cmd], [], Client(cmd, None), DataStart(j, tok))
  {
    var cmd := ConnectCommand(Before(ev, j), tok);
    ConnectIsRead(ev, j, tok, env.clock, timeout);
    LoopLeaves(ev, 0, env, timeout, START, writes, cmd, DataStart(j, tok), Client(cmd, None));
  }

  /** Presets and then a registration line, all in time. */
  predicate Registers(ev: seq<Event>, j: nat, tok: bytes, clock: nat -> int, timeout: int) {
    && Patient(ev, 0, j, Wait(clock, clock(0), timeout))
    && Spells(ev, j, Printed(Reg, tok)) && OneLine(tok)
  }

  lemma RegistrationIsRead(ev: seq<Event>, j: nat, tok: bytes, clock: nat -> int, timeout: int)
    requires Registers(ev, j, tok, clock, timeout)
    ensures var r := ReadCommand(ev, 0, clock, timeout); r.Got? && r.cmd.kind == Reg && r.cmd.param == TrimRight(tok)
  {
    PrintedLine(ev, j, Reg, tok);
    assert FirstEol(tok) == |tok| && tok[..|tok|] == tok;
    PrintedIsCommand(Reg, tok);
    CommandAfterPreamble(ev, 0, j, j + |Opening(Reg)| + |tok|, clock, timeout);
  }

  /** The loop leaves at a REG line with its token, for handleDevice. */
  lemma LoopRegisters(ev: seq<Event>, j: nat, tok: bytes, env: Setting, timeout: int, writes: nat)
    requires Registers(ev, j, tok, env.clock, timeout)
    ensures var run := Loop(ev, 0, env, timeout, START, writes);
            |run.commands| == 1 && run.commands[0].kind == Reg && run.out == [] && run.end == CommandLoop.Device(TrimRight(tok))
  {
    RegistrationIsRead(ev, j, tok, env.clock, timeout);
    var r := ReadCommand(ev, 0, env.clock, timeout);
    LoopLeaves(ev, 0, env, timeout, START, writes, r.cmd, r.next, CommandLoop.Device(TrimRight(tok)));
  }

  lemma {:induction false} LastConfigValid(segments: seq<Segment>, cfg: Option<Config>)
    requires cfg.Some? ==> cfg.value.valid
    ensures LastConfig(segments, cfg).Some? ==> LastConfig(segments, cfg).value.valid
  {
    if segments != [] {
      LastConfigValid(segments[1..], if Decodable(segments[0].data) then Parse(segments[0].data) else cfg);
    }
  }

  lemma PresetsAreTranslated(segments: seq<Segment>, tok: bytes)
    ensures PresetBytes(ConnectCommand(segments, tok)) == Translate(segments)
  {
    LastConfigValid(segments, None);
  }

  // ----- The hand-off -----

  /**
   Buffered bytes go out as they are, except a whole packet at their very beginning, which
   goes out translated and takes the rest of the buffer with it.
   */
  lemma BufferedUnchanged(b: bytes, raw: bytes)
    ensures BufferedBytes(b) + raw == b + raw <==> !(IsUSRVCOM(b) && |b| >= PACKET_LEN)
  {
    if IsUSRVCOM(b) && |b| >= PACKET_LEN {
      assert FindPacket(b, 0) == Some(0);
      PrintLayout(b, 0);
      assert (BufferedBytes(b) + raw)[0] == Rfc2217.IAC && (b + raw)[0] == 0x55;
    }
  }

  /** The data survives every split between buffer and bridge unless it begins with a whole packet. */
  lemma EverySplitDelivers(r: bytes)
    ensures (forall k :: 0 <= k <= |r| ==> BufferedBytes(r[..k]) + r[k..] == r) <==> !(IsUSRVCOM(r) && |r| >= PACKET_LEN)
  {
    forall k | 0 <= k <= |r|
      ensures BufferedBytes(r[..k]) + r[k..] == r <==> !(IsUSRVCOM(r[..k]) && k >= PACKET_LEN)
    {
      assert r[..k] + r[k..] == r;
      BufferedUnchanged(r[..k], r[k..]);
    }
    if |r| >= PACKET_LEN {
      assert IsUSRVCOM(r[..PACKET_LEN]) <==> IsUSRVCOM(r);
    }
    assert forall k :: 0 <= k <= |r| && IsUSRVCOM(r[..k]) ==> IsUSRVCOM(r);
  }

  // ----- End to end -----

  /** What has gone to the device once the bridge is in state t. */
  function ToDevice(cmd: ATCommand, buffered: bytes, t: Bridge.State): bytes {
    PresetBytes(cmd) + BufferedBytes(buffered) + Bridge.DataOf(t.device.out)
  }

  /**
   In every run of the bridge, for every split of the client's data between the buffer and
   the bridge: the device has got a beginning of the translated presets and the data, and
   all of it once everything the client sent was read and the copier is back at its read.
   */
  lemma BridgeDelivers(p: seq<Segment>, tok: bytes, buffered: bytes, raw: bytes,
                       s: Bridge.State, steps: seq<Bridge.Step>, t: Bridge.State)
    requires !(IsUSRVCOM(buffered) && |buffered| >= PACKET_LEN)
    requires Bridge.Init(s) && s.client.input == raw && Bridge.Runs(s, steps, t)
    ensures var got, sent := ToDevice(ConnectCommand(p, tok), buffered, t), Translate(p) + (buffered + raw);
            && got <= sent
            && (t.client.taken == |raw| && t.up.pc == Bridge.Reading ==> got == sent)
  {
    PresetsAreTranslated(p, tok);
    BufferedUnchanged(buffered, []);
    assert BufferedBytes(buffered) + [] == BufferedBytes(buffered) && buffered + [] == buffered;
    Bridge.DeliveredWhenRead(s, steps, t);
    PrefixBehind(Translate(p), buffered, Bridge.DataOf(t.device.out), raw);
  }

  /** The same from the client's first byte: what the loop hands over is what the bridge completes. */
  lemma EndToEnd(ev: seq<Event>, j: nat, tok: bytes, env: Setting, timeout: int, buffered: bytes, raw: bytes,
                 s: Bridge.State, steps: seq<Bridge.Step>, t: Bridge.State)
    requires Connects(ev, j, tok, env.clock, timeout)
    requires Slice(ev, DataStart(j, tok), |ev|) == buffered + raw
    requires !(IsUSRVCOM(buffered) && |buffered| >= PACKET_LEN)
    requires Bridge.Init(s) && s.client.input == raw && Bridge.Runs(s, steps, t)
    ensures var end, sent := Loop(ev, 0, env, timeout, START, 0).end,
                             Translate(Before(ev, j)) + Slice(ev, DataStart(j, tok), |ev|);
            && end.Client? && ToDevice(end.cmd, buffered, t) <= sent
            && (t.client.taken == |raw| && t.up.pc == Bridge.Reading ==> ToDevice(end.cmd, buffered, t) == sent)
  {
    LoopConnects(ev, j, tok, env, timeout, 0);
    BridgeDelivers(Before(ev, j), tok, buffered, raw, s, steps, t);
  }

  lemma PrefixBehind(p: bytes, b: bytes, data: bytes, raw: bytes)
    requires data <= raw
    ensures p + b + data <= p + (b + raw) && (data == raw ==> p + b + data == p + (b + raw))
  {
    Assoc(p, b, raw);
    assert raw == data + raw[|data|..];
    Assoc(p + b, data, raw[|data|..]);
  }

  lemma BytesOfEvents(d: bytes)
    ensures BytesOf(ByteEvents(d)) == d
  {
    if d != [] {
      assert ByteEvents(d)[1..] == ByteEvents(d[1..]);
      BytesOfEvents(d[1..]);
    }
  }

  /** Writes that succeed carry their bytes. */
  lemma AllSent(device: Net.Conn, attempts: nat, presets: bytes, buffered: bytes)
    requires forall n: nat :: device.succeeds(n)
    ensures Concat(BeforeBridge(device, attempts, presets, buffered)) == presets + BufferedBytes(buffered)
  {
    var b := BufferedBytes(buffered);
    var first := Sent(device, attempts, presets);
    ConcatAppend(first, Sent(device, if presets == [] then attempts else attempts + 1, b));
    assert Concat([presets]) == presets + Concat([]);
    assert Concat([b]) == b + Concat([]);
  }

  /** What is left of the stream is what the buffer holds and what is still to arrive. */
  lemma DataSplits(all: seq<Event>, from: nat, buffered: bytes, arrivals: seq<Arrival>)
    requires from <= |all| && ByteEvents(buffered) + Delivered(arrivals) == all[from..]
    ensures Slice(all, from, |all|) == buffered + BytesOf(Delivered(arrivals))
  {
    BytesOfAppend(ByteEvents(buffered), Delivered(arrivals));
    BytesOfEvents(buffered);
    assert all[from..|all|] == all[from..];
  }

  lemma WritesDeliver(device: Net.Conn, attempts: nat, presets: bytes, buffered: bytes, rest: bytes)
    requires forall n: nat :: device.succeeds(n)
    ensures !(IsUSRVCOM(buffered + rest) && |buffered + rest| >= PACKET_LEN) ==>
      Concat(BeforeBridge(device, attempts, presets, buffered)) + rest == presets + (buffered + rest)
  {
    BufferedUnchanged(buffered, rest);
    AllSent(device, attempts, presets, buffered);
    Assoc(presets, BufferedBytes(buffered), rest);
    assert IsUSRVCOM(buffered) ==> IsUSRVCOM(buffered + rest);
  }

  /** The hand-off on values: the writes to the device and what is still to arrive. */
  lemma HandOffDelivers(all: seq<Event>, j: nat, tok: bytes, buffered: bytes, arrivals: seq<Arrival>,
                        device: Net.Conn, attempts: nat)
    requires j <= DataStart(j, tok) <= |all|
    requires ByteEvents(buffered) + Delivered(arrivals) == all[DataStart(j, tok)..]
    requires forall n: nat :: device.succeeds(n)
    ensures var p, data := Before(all, j), Slice(all, DataStart(j, tok), |all|);
            var writes := BeforeBridge(device, attempts, PresetBytes(ConnectCommand(p, tok)), buffered);
            !(IsUSRVCOM(data) && |data| >= PACKET_LEN) ==>
              && Concat(writes) + BytesOf(Delivered(arrivals)) == Translate(p) + data
              && Completed(Concat(writes), BytesOf(Delivered(arrivals)), Translate(p) + data)
  {
    PresetsAreTranslated(Before(all, j), tok);
    DataSplits(all, DataStart(j, tok), buffered, arrivals);
    WritesDeliver(device, attempts, Translate(Before(all, j)), buffered, BytesOf(Delivered(arrivals)));
    BridgeCompletes(Concat(BeforeBridge(device, attempts, Translate(Before(all, j)), buffered)), BytesOf(Delivered(arrivals)));
  }

  /**
   What was written before the bridge is completed by it: in every run of a bridge whose
   client has raw left to send, written and the bridge's data to the device are a prefix of
   sent, and all of it once everything was read and the copier is back at its read.
   */
  ghost predicate Completed(written: bytes, raw: bytes, sent: bytes) {
    forall s, t {:trigger Bridge.Reaches(s, t)} :: Bridge.Init(s) && s.client.input == raw && Bridge.Reaches(s, t) ==>
      var got := written + Bridge.DataOf(t.device.out);
      got <= sent && (t.client.taken == |raw| && t.up.pc == Bridge.Reading ==> got == sent)
  }

  lemma BridgeCompletes(written: bytes, raw: bytes)
    ensures Completed(written, raw, written + raw)
  {
    forall s, t | Bridge.Init(s) && s.client.input == raw && Bridge.Reaches(s, t)
      ensures written + Bridge.DataOf(t.device.out) <= written + raw
      ensures t.client.taken == |raw| && t.up.pc == Bridge.Reading ==> written + Bridge.DataOf(t.device.out) == written + raw
    {
      var steps :| Bridge.Runs(s, steps, t);
      Bridge.DeliveredWhenRead(s, steps, t);
      var data := Bridge.DataOf(t.device.out);
      assert raw == data + raw[|data|..];
      Assoc(written, data, raw[|data|..]);
    }
  }

  /** HandleClient when the device is free and writes succeed. */
  method HandOffToFree(auth: bytes, conn: Net.Conn, reader: BufReader, cmd: ATCommand, registry: Registry,
                       manager: Manager, now: int, ghost device: Device)
    returns (sess: Session)
    requires reader.Valid() && manager.Valid() && manager.counter + 1 < WRAP
    requires FreeDevice(auth, cmd, registry) == Some(device)
    requires forall d :: d in registry.devices.Values ==> d.conn != conn
    requires conn.succeeds(conn.attempts)
    modifies conn, reader, manager, registry.devices.Values, set d | d in registry.devices.Values :: d.conn
    ensures reader.Valid() && reader.arrivals == old(reader.arrivals)
    ensures conn.out == old(conn.out) + [OK] && sess.client == conn && sess.device == device.conn
    ensures device.inSession && device.sessionId == Key(sess.sid)
    ensures manager.sessions == old(manager.sessions)[Key(sess.sid) := sess]
    ensures device.conn.out == old(device.conn.out)
      + BeforeBridge(device.conn, old(device.conn.attempts), PresetBytes(cmd), old(reader.buf))
  {
    var outcome := HandleClient(auth, conn, reader, cmd, null, registry, manager, now);
    sess := outcome.sess;
  }

  /**
   Handle on a connection whose client presets a port and connects: with a free device and
   working writes a session is opened, the client is told OK, and what is written to the
   device here is completed, in every run of the bridge that follows, to the translated
   presets and the data.
   */
  method ServeConnect(auth: bytes, conn: Net.Conn, reader: BufReader, clock: nat -> int, initTimeout: int,
                      postConnectTimeout: int, registry: Registry, manager: Manager, now: int,
                      ghost j: nat, ghost tok: bytes, ghost device: Device)
    returns (sess: Session)
    requires reader.Valid() && reader.consumed == 0 && Connects(reader.all, j, tok, clock, initTimeout)
    requires manager.Valid() && manager.counter + 1 < WRAP
    requires FreeDevice(auth, ConnectCommand(Before(reader.all, j), tok), registry) == Some(device)
    requires forall d :: d in registry.devices.Values ==> d.conn != conn
    requires forall n: nat :: conn.succeeds(n) && device.conn.succeeds(n)
    modifies conn, reader, manager, registry.devices.Values, set d | d in registry.devices.Values :: d.conn
    ensures conn.out == old(conn.out) + [OK] && sess.client == conn && sess.device == device.conn
    ensures device.inSession && device.sessionId == Key(sess.sid)
    ensures manager.sessions == old(manager.sessions)[Key(sess.sid) := sess]
    ensures old(device.conn.out) <= device.conn.out
    ensures var data, written := Slice(reader.all, DataStart(j, tok), |reader.all|), device.conn.out[|old(device.conn.out)|..];
            !(IsUSRVCOM(data) && |data| >= PACKET_LEN) ==>
              && Concat(written) + BytesOf(Delivered(reader.arrivals)) == Translate(Before(reader.all, j)) + data
              && Completed(Concat(written), BytesOf(Delivered(reader.arrivals)), Translate(Before(reader.all, j)) + data)
  {
    ghost var cmd := ConnectCommand(Before(reader.all, j), tok);
    LoopConnects(reader.all, j, tok, Setting(clock, postConnectTimeout, conn.succeeds), initTimeout, conn.attempts);
    var end, run := Handle(reader, conn, clock, initTimeout, postConnectTimeout);
    assert end == Client(cmd, None) && conn.out == old(conn.out);
    ghost var buffered := reader.buf;
    sess := HandOffToFree(auth, conn, reader, end.cmd, registry, manager, now, device);
    HandOffDelivers(reader.all, j, tok, buffered, reader.arrivals, device.conn, old(device.conn.attempts));
  }
}
