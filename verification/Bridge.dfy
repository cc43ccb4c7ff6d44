/**
 internal/session/bridge.go as a step system. Two copiers, the keepalive goroutine, Run
 itself and everything outside that touches the two connections interleave in any order:
 Terminate, a caller of End, the device handler's own readers, keepalive and late answers
 (internal/connection/handler.go), and, when two clients got past the busy check together,
 the other session's bridge on the same device. Every Read, Write, atomic operation,
 channel operation and Close is one step.
 */
module Bridge {
  import opened Bytes

  const BUFFER_SIZE := 4096
  const NOP: bytes := [0xFF, 0xF1]
  const OK: bytes := [0x4F, 0x4B, 0x0D, 0x0A] // OK, CR, LF

  // ----- Connections -----

  /** Data is this bridge's; Answer is an OK of the device handler; Foreign is all that another session writes. */
  datatype Tag = Data | Nop | Answer | Foreign

  /** One write on a connection: who made it, the bytes that went out, and whether it reported no error. */
  datatype Write = Write(tag: Tag, data: bytes, whole: bool)

  /** input is all the peer will ever send; the first taken bytes of it have been read. */
  datatype Conn = Conn(input: bytes, taken: nat, out: seq<Write>, closed: bool)

  /** The data writes alone: what is left when all other tagged writes are erased. */
  function DataOf(out: seq<Write>): bytes {
    if out == [] then []
    else
      var last := out[|out| - 1];
      DataOf(out[..|out| - 1]) + (if last.tag == Data then last.data else [])
  }

  // ----- Copiers (copyWithActivity) -----

  /** last: the loop will end behind this chunk, because the read or the write reported an error. */
  datatype CopierPc =
    | Reading
    | Storing(chunk: bytes, last: bool)   // activity time stamp
    | Writing(chunk: bytes, last: bool)
    | Counting(n: nat, last: bool)        // atomic add to the byte counter
    | Finished

  /** read is everything this copier has read so far; counter is BytesIn or BytesOut. */
  datatype Copier = Copier(pc: CopierPc, read: bytes, counter: nat)

  datatype CopyStep = Read(n: nat, fails: bool) | Store | Send(n: nat, fails: bool) | Count

  predicate CopyEnabled(c: Copier, src: Conn, dst: Conn, a: CopyStep) {
    match a
    case Read(n, fails) =>
      && c.pc == Reading && n <= BUFFER_SIZE && src.taken + n <= |src.input|
      && (src.closed ==> n == 0 && fails)
    case Store => c.pc.Storing?
    case Send(n, fails) =>
      && c.pc.Writing? && n <= |c.pc.chunk| && (n < |c.pc.chunk| ==> fails)
      && (dst.closed ==> n == 0 && fails)
    case Count => c.pc.Counting?
  }

  function Again(last: bool): CopierPc {
    if last then Finished else Reading
  }

  function Copy(c: Copier, src: Conn, dst: Conn, a: CopyStep): (Copier, Conn, Conn)
    requires CopyEnabled(c, src, dst, a)
  {
    match a
    case Read(n, fails) =>
      var chunk := src.input[src.taken..src.taken + n];
      (Copier(if n > 0 then Storing(chunk, fails) else Again(fails), c.read + chunk, c.counter),
       src.(taken := src.taken + n), dst)
    case Store => (c.(pc := Writing(c.pc.chunk, c.pc.last)), src, dst)
    case Send(n, fails) =>
      var last := c.pc.last || fails;
      (c.(pc := if n > 0 then Counting(n, last) else Again(last)), src,
       dst.(out := dst.out + [Write(Data, c.pc.chunk[..n], !fails)]))
    case Count => (c.(pc := Again(c.pc.last), counter := c.counter + c.pc.n), src, dst)
  }

  // ----- The whole system -----

  datatype KeepalivePc = Ticking | AtClient | AtDevice | ClosingClient | ClosingDevice | Stopped
  datatype RunPc = Waiting | StoppingKeepalive | ClosingClientConn | ClosingDeviceConn | Joining | Returned

  datatype Taker = ByBridge | ByHandler | ByOther

  /** One read of the device stream. */
  datatype Take = Take(taker: Taker, data: bytes)

  datatype State = State(
    client: Conn,
    device: Conn,
    up: Copier,              // client to device
    down: Copier,            // device to client
    keepalive: KeepalivePc,
    run: RunPc,
    stop: bool,              // stopKeepalive is closed
    done: bool,              // session.done is closed
    answers: nat,            // OKs the device handler has yet to write: to the registration, to a dial
    shared: bool,            // another session has the same device
    takes: seq<Take>)

  datatype Step =
    | Up(a: CopyStep)
    | Down(a: CopyStep)
    | Tick                                        // the ticker fires
    | CheckClient(idle: bool, n: nat, fails: bool)
    | CheckDevice(idle: bool, n: nat, fails: bool)
    | KeepaliveCloses
    | KeepaliveStops
    | RunWakes
    | RunGoesOn
    | Close(device: bool)                         // Terminate, or the device handler
    | SessionDone                                 // End closes session.done
    | HandlerReads(n: nat)                        // the device handler's own readers
    | HandlerNop(n: nat, fails: bool)             // deviceKeepalive
    | HandlerAnswers(n: nat, fails: bool)         // WriteOK of handleDevice
    | OtherReads(n: nat)                          // the other session's copier
    | OtherWrites(data: bytes, n: nat, fails: bool)

  /** A write of n bytes of text on conn can go like this. */
  predicate TextEnabled(conn: Conn, text: bytes, n: nat, fails: bool) {
    n <= |text| && (n < |text| ==> fails) && (conn.closed ==> n == 0 && fails)
  }

  function WithText(conn: Conn, tag: Tag, text: bytes, n: nat, fails: bool): Conn
    requires TextEnabled(conn, text, n, fails)
  {
    conn.(out := conn.out + [Write(tag, text[..n], !fails)])
  }

  /** Somebody other than the bridge reads n bytes from the device. */
  predicate TakeEnabled(s: State, n: nat) {
    !s.device.closed && n <= BUFFER_SIZE && s.device.taken + n <= |s.device.input|
  }

  function WithTake(s: State, who: Taker, n: nat): State
    requires TakeEnabled(s, n)
  {
    s.(device := s.device.(taken := s.device.taken + n),
       takes := s.takes + [Take(who, s.device.input[s.device.taken..s.device.taken + n])])
  }

  predicate Enabled(s: State, a: Step) {
    match a
    case Up(c) => CopyEnabled(s.up, s.client, s.device, c)
    case Down(c) => CopyEnabled(s.down, s.device, s.client, c)
    case Tick => s.keepalive == Ticking
    case CheckClient(_, n, fails) => s.keepalive == AtClient && TextEnabled(s.client, NOP, n, fails)
    case CheckDevice(_, n, fails) => s.keepalive == AtDevice && TextEnabled(s.device, NOP, n, fails)
    case KeepaliveCloses => s.keepalive == ClosingClient || s.keepalive == ClosingDevice
    case KeepaliveStops => s.keepalive == Ticking && s.stop
    case RunWakes => s.run == Waiting && ((s.up.pc == Finished && s.down.pc == Finished) || s.done)
    case RunGoesOn =>
      s.run in {StoppingKeepalive, ClosingClientConn, ClosingDeviceConn}
      || (s.run == Joining && s.up.pc == Finished && s.down.pc == Finished)
    case Close(_) => true
    case SessionDone => true
    case HandlerReads(n) => TakeEnabled(s, n)
    case HandlerNop(n, fails) => TextEnabled(s.device, NOP, n, fails)
    case HandlerAnswers(n, fails) => s.answers > 0 && TextEnabled(s.device, OK, n, fails)
    case OtherReads(n) => s.shared && TakeEnabled(s, n)
    case OtherWrites(data, n, fails) => s.shared && TextEnabled(s.device, data, n, fails)
  }

  function Next(s: State, a: Step): State
    requires Enabled(s, a)
  {
    match a
    case Up(c) =>
      var (up, client, device) := Copy(s.up, s.client, s.device, c);
      s.(up := up, client := client, device := device)
    case Down(c) =>
      var (down, device, client) := Copy(s.down, s.device, s.client, c);
      s.(down := down, device := device, client := client,
         takes := if c.Read? then s.takes + [Take(ByBridge, s.device.input[s.device.taken..device.taken])] else s.takes)
    case Tick => s.(keepalive := AtClient)
    case CheckClient(idle, n, fails) =>
      if !idle then s.(keepalive := AtDevice)
      else s.(client := WithText(s.client, Nop, NOP, n, fails), keepalive := if fails then ClosingClient else AtDevice)
    case CheckDevice(idle, n, fails) =>
      if !idle then s.(keepalive := Ticking)
      else s.(device := WithText(s.device, Nop, NOP, n, fails), keepalive := if fails then ClosingDevice else Ticking)
    case KeepaliveCloses =>
      if s.keepalive == ClosingClient then s.(client := s.client.(closed := true), keepalive := Stopped)
      else s.(device := s.device.(closed := true), keepalive := Stopped)
    case KeepaliveStops => s.(keepalive := Stopped)
    case RunWakes => s.(run := StoppingKeepalive)
    case RunGoesOn =>
      (match s.run
       case StoppingKeepalive => s.(stop := true, run := ClosingClientConn)
       case ClosingClientConn => s.(client := s.client.(closed := true), run := ClosingDeviceConn)
       case ClosingDeviceConn => s.(device := s.device.(closed := true), run := Joining)
       case _ => s.(run := Returned))
    case Close(device) =>
      if device then s.(device := s.device.(closed := true)) else s.(client := s.client.(closed := true))
    case SessionDone => s.(done := true)
    case HandlerReads(n) => WithTake(s, ByHandler, n)
    case HandlerNop(n, fails) => s.(device := WithText(s.device, Nop, NOP, n, fails))
    case HandlerAnswers(n, fails) =>
      s.(device := WithText(s.device, Answer, OK, n, fails), answers := if fails then 0 else s.answers - 1)
    case OtherReads(n) => WithTake(s, ByOther, n)
    case OtherWrites(data, n, fails) => s.(device := WithText(s.device, Foreign, data, n, fails))
  }

  /** The bridge starts on two connections nothing has been read from or written to since. */
  predicate Init(s: State) {
    && s.client.taken == 0 && s.client.out == []
    && s.device.taken == 0 && s.device.out == []
    && s.up == Copier(Reading, [], 0) && s.down == Copier(Reading, [], 0)
    && (s.keepalive == Ticking || s.keepalive == Stopped)
    && s.run == Waiting && !s.stop && s.takes == [] && s.answers <= 2
  }

  /** The steps lead from s to t. */
  ghost predicate Runs(s: State, steps: seq<Step>, t: State)
    decreases |steps|
  {
    if steps == [] then s == t
    else Enabled(s, steps[0]) && Runs(Next(s, steps[0]), steps[1..], t)
  }

  /** Some run leads from s to t. */
  ghost predicate Reaches(s: State, t: State) {
    exists steps :: Runs(s, steps, t)
  }

  // ----- What every state of every run satisfies -----

  /** A copier and the data it has written: nothing lost or reordered, at most one buffer behind, and counted. */
  predicate CopierOk(c: Copier, data: bytes) {
    && (match c.pc
        case Reading => data == c.read
        case Storing(chunk, _) => 0 < |chunk| <= BUFFER_SIZE && data + chunk == c.read
        case Writing(chunk, _) => 0 < |chunk| <= BUFFER_SIZE && data + chunk == c.read
        case Counting(n, last) => n <= |data| && (!last ==> data == c.read)
        case Finished => true)
    && data <= c.read && |c.read| - |data| <= BUFFER_SIZE
    && c.counter + (if c.pc.Counting? then c.pc.n else 0) == |data|
  }

  /** The write is all of text unless it reported an error, and then a beginning. */
  predicate Begun(w: Write, text: bytes) {
    w.data <= text && (w.whole ==> w.data == text)
  }

  /** Every write but data is a NOP; or an OK, or another session's, where those can be. */
  predicate WritesOk(out: seq<Write>, answers: bool, foreign: bool) {
    forall w :: w in out ==>
      match w.tag
      case Data => true
      case Nop => Begun(w, [0xFF, 0xF1])
      case Answer => answers && Begun(w, [79, 75, 13, 10])
      case Foreign => foreign
  }

  function TakenBy(takes: seq<Take>, who: Taker): bytes {
    if takes == [] then []
    else
      var last := takes[|takes| - 1];
      TakenBy(takes[..|takes| - 1], who) + (if last.taker == who then last.data else [])
  }

  function AllTaken(takes: seq<Take>): bytes {
    if takes == [] then [] else AllTaken(takes[..|takes| - 1]) + takes[|takes| - 1].data
  }

  /** Run is only where it can be with the connections closed and the copiers finished as they are. */
  predicate RunOk(s: State) {
    && (s.run in {ClosingDeviceConn, Joining, Returned} ==> s.client.closed)
    && (s.run in {Joining, Returned} ==> s.device.closed)
    && (s.run == Returned ==> s.up.pc == Finished && s.down.pc == Finished)
    && (s.run in {ClosingClientConn, ClosingDeviceConn, Joining, Returned} ==> s.stop)
  }

  predicate Inv(s: State) {
    && s.client.taken <= |s.client.input| && s.device.taken <= |s.device.input|
    && CopierOk(s.up, DataOf(s.device.out)) && CopierOk(s.down, DataOf(s.client.out))
    && WritesOk(s.client.out, false, false) && WritesOk(s.device.out, true, s.shared)
    && s.up.read == s.client.input[..s.client.taken]
    && s.down.read == TakenBy(s.takes, ByBridge)
    && AllTaken(s.takes) == s.device.input[..s.device.taken]
    && RunOk(s)
  }

  lemma OutGrows(out: seq<Write>, w: Write)
    ensures DataOf(out + [w]) == DataOf(out) + (if w.tag == Data then w.data else [])
  {
    assert (out + [w])[..|out|] == out;
  }

  lemma TakesGrow(takes: seq<Take>, t: Take)
    ensures AllTaken(takes + [t]) == AllTaken(takes) + t.data
    ensures forall who :: TakenBy(takes + [t], who) == TakenBy(takes, who) + (if t.taker == who then t.data else [])
  {
    assert (takes + [t])[..|takes|] == takes;
  }

  lemma CopyKeeps(c: Copier, src: Conn, dst: Conn, a: CopyStep, answers: bool, foreign: bool)
    requires CopyEnabled(c, src, dst, a) && CopierOk(c, DataOf(dst.out)) && src.taken <= |src.input|
    requires WritesOk(dst.out, answers, foreign)
    ensures var (c', src', dst') := Copy(c, src, dst, a);
            && CopierOk(c', DataOf(dst'.out)) && WritesOk(dst'.out, answers, foreign)
            && src.taken <= src'.taken <= |src.input| && src' == src.(taken := src'.taken) && dst' == dst.(out := dst'.out)
            && c'.read == c.read + src.input[src.taken..src'.taken]
            && (!a.Read? ==> src' == src)
  {
    CopyKeepsWrites(c, src, dst, a, answers, foreign);
    CopyKeepsData(c, src, dst, a);
  }

  lemma CopyKeepsWrites(c: Copier, src: Conn, dst: Conn, a: CopyStep, answers: bool, foreign: bool)
    requires CopyEnabled(c, src, dst, a) && WritesOk(dst.out, answers, foreign)
    ensures WritesOk(Copy(c, src, dst, a).2.out, answers, foreign)
  {
  }

  lemma CopyKeepsData(c: Copier, src: Conn, dst: Conn, a: CopyStep)
    requires CopyEnabled(c, src, dst, a) && CopierOk(c, DataOf(dst.out)) && src.taken <= |src.input|
    ensures var (c', src', dst') := Copy(c, src, dst, a);
            && CopierOk(c', DataOf(dst'.out))
            && src.taken <= src'.taken <= |src.input| && src' == src.(taken := src'.taken) && dst' == dst.(out := dst'.out)
            && c'.read == c.read + src.input[src.taken..src'.taken]
            && (!a.Read? ==> src' == src)
  {
    if a.Send? {
      OutGrows(dst.out, Write(Data, c.pc.chunk[..a.n], !a.fails));
      assert c.pc.chunk[..|c.pc.chunk|] == c.pc.chunk;
    }
    assert src.input[src.taken..src.taken] == [];
  }

  lemma UpKeepsInv(s: State, c: CopyStep)
    requires Inv(s) && Enabled(s, Up(c))
    ensures Inv(Next(s, Up(c)))
  {
    CopyKeeps(s.up, s.client, s.device, c, true, s.shared);
    var client := Next(s, Up(c)).client;
    assert s.client.input[..s.client.taken] + s.client.input[s.client.taken..client.taken] == s.client.input[..client.taken];
  }

  /** A read at the front of what is left takes the next stretch of the stream. */
  lemma NextTake(takes: seq<Take>, who: Taker, input: bytes, i: nat, j: nat)
    requires i <= j <= |input| && AllTaken(takes) == input[..i]
    ensures var takes' := takes + [Take(who, input[i..j])];
            && AllTaken(takes') == input[..j]
            && TakenBy(takes', who) == TakenBy(takes, who) + input[i..j]
            && forall other :: other != who ==> TakenBy(takes', other) == TakenBy(takes, other)
  {
    TakesGrow(takes, Take(who, input[i..j]));
    assert input[..i] + input[i..j] == input[..j];
    assert forall other :: other != who ==> TakenBy(takes, other) + [] == TakenBy(takes, other);
  }

  lemma DownKeepsInv(s: State, c: CopyStep)
    requires Inv(s) && Enabled(s, Down(c))
    ensures Inv(Next(s, Down(c)))
  {
    CopyKeeps(s.down, s.device, s.client, c, false, false);
    var device := Next(s, Down(c)).device;
    NextTake(s.takes, ByBridge, s.device.input, s.device.taken, device.taken);
    if !c.Read? {
      assert s.device.input[s.device.taken..device.taken] == [];
    }
  }

  lemma TakeKeepsInv(s: State, who: Taker, n: nat)
    requires Inv(s) && TakeEnabled(s, n) && who != ByBridge
    ensures Inv(WithTake(s, who, n))
  {
    NextTake(s.takes, who, s.device.input, s.device.taken, s.device.taken + n);
  }

  lemma TextKeeps(conn: Conn, tag: Tag, text: bytes, n: nat, fails: bool, answers: bool, foreign: bool)
    requires TextEnabled(conn, text, n, fails) && WritesOk(conn.out, answers, foreign)
    requires match tag
             case Data => false
             case Nop => text == NOP
             case Answer => answers && text == OK
             case Foreign => foreign
    ensures var conn' := WithText(conn, tag, text, n, fails);
            && WritesOk(conn'.out, answers, foreign) && DataOf(conn'.out) == DataOf(conn.out)
            && conn' == conn.(out := conn'.out)
  {
    var w := Write(tag, text[..n], !fails);
    OutGrows(conn.out, w);
    assert Begun(w, text) by {
      assert text[..|text|] == text;
    }
    assert forall v :: v in conn.out + [w] <==> v in conn.out || v == w;
  }

  /** The invariant does not see the keepalive counter, the answers owed, nor writes that are not data. */
  lemma SameData(s: State, client: Conn, device: Conn, keepalive: KeepalivePc, answers: nat)
    requires Inv(s) && client == s.client.(out := client.out) && device == s.device.(out := device.out)
    requires DataOf(client.out) == DataOf(s.client.out) && DataOf(device.out) == DataOf(s.device.out)
    requires WritesOk(client.out, false, false) && WritesOk(device.out, true, s.shared)
    ensures Inv(s.(client := client, device := device, keepalive := keepalive, answers := answers))
  {
  }

  lemma ClientNopKeepsInv(s: State, n: nat, fails: bool)
    requires Inv(s) && Enabled(s, CheckClient(true, n, fails))
    ensures Inv(Next(s, CheckClient(true, n, fails)))
  {
    TextKeeps(s.client, Nop, NOP, n, fails, false, false);
    SameData(s, WithText(s.client, Nop, NOP, n, fails), s.device, if fails then ClosingClient else AtDevice, s.answers);
  }

  lemma DeviceTextKeepsInv(s: State, tag: Tag, text: bytes, n: nat, fails: bool, keepalive: KeepalivePc, answers: nat)
    requires Inv(s) && TextEnabled(s.device, text, n, fails)
    requires (tag == Nop && text == NOP) || (tag == Answer && text == OK) || (tag == Foreign && s.shared)
    ensures Inv(s.(device := WithText(s.device, tag, text, n, fails), keepalive := keepalive, answers := answers))
  {
    TextKeeps(s.device, tag, text, n, fails, true, s.shared);
    SameData(s, s.client, WithText(s.device, tag, text, n, fails), keepalive, answers);
  }

  predicate ControlStep(a: Step) {
    a.Tick? || a.KeepaliveCloses? || a.KeepaliveStops? || a.RunWakes? || a.RunGoesOn? || a.Close? || a.SessionDone?
  }

  lemma ControlKeepsInv(s: State, a: Step)
    requires Inv(s) && Enabled(s, a) && ControlStep(a)
    ensures Inv(Next(s, a))
  {
    var t := Next(s, a);
    ControlLeavesData(s, a);
    SameStreams(s, t);
  }

  lemma ControlLeavesData(s: State, a: Step)
    requires RunOk(s) && Enabled(s, a) && ControlStep(a)
    ensures OnlyControl(s, Next(s, a))
  {
    if a.RunGoesOn? {
      RunLeavesData(s);
    }
  }

  lemma RunLeavesData(s: State)
    requires RunOk(s) && Enabled(s, RunGoesOn)
    ensures OnlyControl(s, Next(s, RunGoesOn))
  {
  }

  /** Nothing was read or written, and Run is where it can be. */
  predicate OnlyControl(s: State, t: State) {
    && t.client == s.client.(closed := t.client.closed) && t.device == s.device.(closed := t.device.closed)
    && t.up == s.up && t.down == s.down && t.takes == s.takes && t.shared == s.shared
    && RunOk(t)
  }

  lemma SameStreams(s: State, t: State)
    requires Inv(s) && OnlyControl(s, t)
    ensures Inv(t)
  {
  }

  lemma ClientCheckKeepsInv(s: State, idle: bool, n: nat, fails: bool)
    requires Inv(s) && Enabled(s, CheckClient(idle, n, fails))
    ensures Inv(Next(s, CheckClient(idle, n, fails)))
  {
    if idle {
      ClientNopKeepsInv(s, n, fails);
    } else {
      SameStreams(s, s.(keepalive := AtDevice));
    }
  }

  lemma DeviceCheckKeepsInv(s: State, idle: bool, n: nat, fails: bool)
    requires Inv(s) && Enabled(s, CheckDevice(idle, n, fails))
    ensures Inv(Next(s, CheckDevice(idle, n, fails)))
  {
    if idle {
      DeviceTextKeepsInv(s, Nop, NOP, n, fails, if fails then ClosingDevice else Ticking, s.answers);
    } else {
      SameStreams(s, s.(keepalive := Ticking));
    }
  }

  lemma HandlerKeepsInv(s: State, a: Step)
    requires Inv(s) && Enabled(s, a) && (a.HandlerNop? || a.HandlerAnswers? || a.HandlerReads?)
    ensures Inv(Next(s, a))
  {
    match a
    case HandlerNop(n, fails) => DeviceTextKeepsInv(s, Nop, NOP, n, fails, s.keepalive, s.answers);
    case HandlerAnswers(n, fails) =>
      DeviceTextKeepsInv(s, Answer, OK, n, fails, s.keepalive, if fails then 0 else s.answers - 1);
    case HandlerReads(n) => TakeKeepsInv(s, ByHandler, n);
  }

  lemma OtherKeepsInv(s: State, a: Step)
    requires Inv(s) && Enabled(s, a) && (a.OtherWrites? || a.OtherReads?)
    ensures Inv(Next(s, a))
  {
    match a
    case OtherWrites(data, n, fails) => DeviceTextKeepsInv(s, Foreign, data, n, fails, s.keepalive, s.answers);
    case OtherReads(n) => TakeKeepsInv(s, ByOther, n);
  }

  lemma StepKeepsInv(s: State, a: Step)
    requires Inv(s) && Enabled(s, a)
    ensures Inv(Next(s, a))
  {
    if a.Up? {
      UpKeepsInv(s, a.a);
    } else if a.Down? {
      DownKeepsInv(s, a.a);
    } else if a.CheckClient? {
      ClientCheckKeepsInv(s, a.idle, a.n, a.fails);
    } else if a.CheckDevice? {
      DeviceCheckKeepsInv(s, a.idle, a.n, a.fails);
    } else if a.HandlerNop? || a.HandlerAnswers? || a.HandlerReads? {
      HandlerKeepsInv(s, a);
    } else if a.OtherWrites? || a.OtherReads? {
      OtherKeepsInv(s, a);
    } else {
      ControlKeepsInv(s, a);
    }
  }

  lemma {:induction false} RunKeepsInv(s: State, steps: seq<Step>, t: State)
    requires Inv(s) && Runs(s, steps, t)
    ensures Inv(t)
    decreases |steps|
  {
    if steps != [] {
      StepKeepsInv(s, steps[0]);
      RunKeepsInv(Next(s, steps[0]), steps[1..], t);
    }
  }

  /** No step touches what the peers send, nor whether the device is shared. */
  lemma StepKeepsInputs(s: State, a: Step)
    requires Enabled(s, a)
    ensures var t := Next(s, a);
            t.client.input == s.client.input && t.device.input == s.device.input && t.shared == s.shared
  {
    match a
    case Up(c) => CopyKeepsInputs(s.up, s.client, s.device, c);
    case Down(c) => CopyKeepsInputs(s.down, s.device, s.client, c);
    case _ =>
  }

  lemma CopyKeepsInputs(c: Copier, src: Conn, dst: Conn, a: CopyStep)
    requires CopyEnabled(c, src, dst, a)
    ensures var (c', src', dst') := Copy(c, src, dst, a); src'.input == src.input && dst'.input == dst.input
  {
  }

  lemma {:induction false} InputsStay(s: State, steps: seq<Step>, t: State)
    requires Runs(s, steps, t)
    ensures t.client.input == s.client.input && t.device.input == s.device.input && t.shared == s.shared
    decreases |steps|
  {
    if steps != [] {
      StepKeepsInputs(s, steps[0]);
      InputsStay(Next(s, steps[0]), steps[1..], t);
    }
  }

  // ----- Transparency -----

  /**
   In every interleaving: what was written to the device as data is a prefix of what the
   client sent and at most one buffer behind what was read; BytesIn counts it exactly,
   save for a write whose count is still pending. To the client every other write is a NOP;
   to the device it is a NOP, an OK of the device handler, of which there are no more than
   it owed, or another session's when the device is shared.
   */
  lemma Transparent(s: State, steps: seq<Step>, t: State)
    requires Init(s) && Runs(s, steps, t)
    ensures var data := DataOf(t.device.out);
            && data <= t.up.read <= s.client.input && |t.up.read| - |data| <= 4096
            && t.up.counter + (if t.up.pc.Counting? then t.up.pc.n else 0) == |data|
    ensures var data := DataOf(t.client.out);
            && data <= t.down.read && |t.down.read| - |data| <= 4096
            && t.down.counter + (if t.down.pc.Counting? then t.down.pc.n else 0) == |data|
    ensures WritesOk(t.client.out, false, false) && WritesOk(t.device.out, s.answers > 0, s.shared)
    ensures Answers(t.device.out) + t.answers <= s.answers
    ensures t.run == Returned ==>
      t.up.counter == |DataOf(t.device.out)| && t.down.counter == |DataOf(t.client.out)|
      && t.stop && t.client.closed && t.device.closed
  {
    InitInv(s);
    RunKeepsInv(s, steps, t);
    InputsStay(s, steps, t);
    AnswersAreOwed(s, steps, t);
    if s.answers == 0 {
      NoAnswers(t.device.out);
    }
  }

  /** The OKs among some writes. */
  function Answers(out: seq<Write>): nat {
    if out == [] then 0 else Answers(out[..|out| - 1]) + (if out[|out| - 1].tag == Answer then 1 else 0)
  }

  lemma {:induction false} NoAnswers(out: seq<Write>)
    requires Answers(out) == 0
    ensures forall w :: w in out ==> w.tag != Answer
  {
    if out != [] {
      NoAnswers(out[..|out| - 1]);
      assert out == out[..|out| - 1] + [out[|out| - 1]];
    }
  }

  /** One write more at most, and an answer only when one less is owed. */
  predicate OneMore(out: seq<Write>, answers: nat, out': seq<Write>, answers': nat) {
    || (out' == out && answers' == answers)
    || (out' != [] && out'[..|out'| - 1] == out && answers' + (if out'[|out'| - 1].tag == Answer then 1 else 0) <= answers)
  }

  lemma OneMoreIsOwed(out: seq<Write>, answers: nat, out': seq<Write>, answers': nat)
    requires OneMore(out, answers, out', answers')
    ensures Answers(out') + answers' <= Answers(out) + answers
  {
  }

  lemma CopyWritesData(s: State, c: CopyStep)
    requires Enabled(s, Up(c))
    ensures OneMore(s.device.out, s.answers, Next(s, Up(c)).device.out, s.answers)
  {
    var out := Next(s, Up(c)).device.out;
    if c.Send? {
      assert out[..|out| - 1] == s.device.out;
    }
  }

  lemma OthersWrite(s: State, a: Step)
    requires Enabled(s, a) && !a.Up? && !a.Down?
    ensures OneMore(s.device.out, s.answers, Next(s, a).device.out, Next(s, a).answers)
  {
    var out := Next(s, a).device.out;
    if out != s.device.out {
      assert out[..|out| - 1] == s.device.out;
    }
  }

  lemma StepKeepsOwed(s: State, a: Step)
    requires Enabled(s, a)
    ensures var t := Next(s, a); Answers(t.device.out) + t.answers <= Answers(s.device.out) + s.answers
  {
    if a.Up? {
      CopyWritesData(s, a.a);
    } else if !a.Down? {
      OthersWrite(s, a);
    }
    OneMoreIsOwed(s.device.out, s.answers, Next(s, a).device.out, Next(s, a).answers);
  }

  lemma {:induction false} AnswersAreOwed(s: State, steps: seq<Step>, t: State)
    requires Runs(s, steps, t)
    ensures Answers(t.device.out) + t.answers <= Answers(s.device.out) + s.answers
    decreases |steps|
  {
    if steps != [] {
      StepKeepsOwed(s, steps[0]);
      AnswersAreOwed(Next(s, steps[0]), steps[1..], t);
    }
  }

  /** Every write that is not data and reported no error is a NOP. */
  predicate OnlyNops(out: seq<Write>) {
    forall w :: w in out && w.tag != Data && w.whole ==> w.data == [0xFF, 0xF1]
  }

  /**
   On the device NOPs are the only other writes in every run if and only if the device
   handler owes no answer and no other session has the device.
   */
  lemma OnlyNopsIff(s: State)
    requires Init(s) && !s.device.closed
    ensures (forall t :: Reaches(s, t) ==> OnlyNops(t.device.out)) <==> s.answers == 0 && !s.shared
  {
    if s.answers == 0 && !s.shared {
      forall t | Reaches(s, t)
        ensures OnlyNops(t.device.out)
      {
        var steps :| Runs(s, steps, t);
        Transparent(s, steps, t);
      }
    } else {
      var steps, t := SomethingElse(s);
      assert Reaches(s, t);
    }
  }

  lemma SomethingElse(s: State) returns (steps: seq<Step>, t: State)
    requires Init(s) && !s.device.closed && (s.answers > 0 || s.shared)
    ensures Runs(s, steps, t) && !OnlyNops(t.device.out)
  {
    var a := if s.shared then OtherWrites([0], 1, false) else HandlerAnswers(4, false);
    steps, t := [a], Next(s, a);
    assert [a][1..] == [];
    var w := t.device.out[0];
    assert w in t.device.out && w.whole && w.tag != Data && |w.data| != |NOP|;
  }

  /** An answer that is owed can land between two data writes. */
  lemma AnswerBetweenData(s: State) returns (steps: seq<Step>, t: State)
    requires Init(s) && !s.client.closed && !s.device.closed && |s.client.input| >= 2 && s.answers > 0
    ensures Runs(s, steps, t)
    ensures t.device.out ==
            [Write(Data, [s.client.input[0]], true), Write(Answer, [79, 75, 13, 10], true), Write(Data, [s.client.input[1]], true)]
  {
    var first, u := ClientByteCrosses(s);
    var a := HandlerAnswers(4, false);
    var v := Next(u, a);
    assert OK[..4] == OK;
    var second;
    second, t := ClientByteCrosses(v);
    assert [a][1..] == [] && Runs(v, [], v) && Runs(u, [a], v);
    RunsOn(s, first, u, [a], v);
    RunsOn(s, first + [a], v, second, t);
    steps := first + [a] + second;
  }

  /** One byte goes from the client to the device, and the copier is back at its read. */
  lemma ClientByteCrosses(s: State) returns (steps: seq<Step>, t: State)
    requires s.up.pc == Reading && !s.client.closed && !s.device.closed && s.client.taken < |s.client.input|
    ensures Runs(s, steps, t)
    ensures t == s.(up := t.up, client := s.client.(taken := s.client.taken + 1),
                    device := s.device.(out := s.device.out + [Write(Data, [s.client.input[s.client.taken]], true)]))
    ensures t.up.pc == Reading
  {
    var b := s.client.input[s.client.taken];
    assert s.client.input[s.client.taken..s.client.taken + 1] == [b] && [b][..1] == [b];
    steps := [Up(Read(1, false)), Up(Store), Up(Send(1, false)), Up(Count)];
    var s1 := Next(s, steps[0]);
    var s2 := Next(s1, steps[1]);
    var s3 := Next(s2, steps[2]);
    t := Next(s3, steps[3]);
    FourSteps(s, s1, s2, s3, t, steps);
  }

  lemma FourSteps(s: State, s1: State, s2: State, s3: State, t: State, steps: seq<Step>)
    requires |steps| == 4
    requires Enabled(s, steps[0]) && s1 == Next(s, steps[0]) && Enabled(s1, steps[1]) && s2 == Next(s1, steps[1])
    requires Enabled(s2, steps[2]) && s3 == Next(s2, steps[2]) && Enabled(s3, steps[3]) && t == Next(s3, steps[3])
    ensures Runs(s, steps, t)
  {
    assert steps[1..][1..][1..][1..] == [];
    assert Runs(s3, steps[1..][1..][1..], t);
    assert Runs(s2, steps[1..][1..], t);
    assert Runs(s1, steps[1..], t);
  }

  lemma {:induction false} RunsOn(s: State, steps: seq<Step>, t: State, more: seq<Step>, u: State)
    requires Runs(s, steps, t) && Runs(t, more, u)
    ensures Runs(s, steps + more, u)
    decreases |steps|
  {
    if steps == [] {
      assert steps + more == more;
    } else {
      assert (steps + more)[1..] == steps[1..] + more;
      RunsOn(Next(s, steps[0]), steps[1..], t, more, u);
    }
  }

  /** The device's data is what the client sent, up to what is still under way. */
  lemma DeliveredWhenRead(s: State, steps: seq<Step>, t: State)
    requires Init(s) && Runs(s, steps, t)
    ensures DataOf(t.device.out) <= s.client.input
    ensures t.client.taken == |s.client.input| && t.up.pc == Reading ==> DataOf(t.device.out) == s.client.input
  {
    InitInv(s);
    RunKeepsInv(s, steps, t);
    InputsStay(s, steps, t);
  }

  lemma InitInv(s: State)
    requires Init(s)
    ensures Inv(s)
  {
  }

  /**
   In every interleaving the reads of the device stream are an order-preserving partition
   of what the device sent: taken together they are its beginning, and the bridge has read
   exactly its own share. When nobody else reads the client gets a prefix.
   */
  lemma DeviceStreamSplit(s: State, steps: seq<Step>, t: State)
    requires Init(s) && Runs(s, steps, t)
    ensures AllTaken(t.takes) <= s.device.input
    ensures DataOf(t.client.out) <= TakenBy(t.takes, ByBridge)
    ensures |AllTaken(t.takes)| ==
            |TakenBy(t.takes, ByBridge)| + |TakenBy(t.takes, ByHandler)| + |TakenBy(t.takes, ByOther)|
    ensures TakenBy(t.takes, ByHandler) == [] && TakenBy(t.takes, ByOther) == [] ==> DataOf(t.client.out) <= s.device.input
    ensures !s.shared ==> TakenBy(t.takes, ByOther) == []
  {
    InitInv(s);
    RunKeepsInv(s, steps, t);
    InputsStay(s, steps, t);
    SharesAddUp(t.takes);
    if !s.shared {
      NobodyElse(s, steps, t);
    }
  }

  lemma {:induction false} SharesAddUp(takes: seq<Take>)
    ensures |AllTaken(takes)| == |TakenBy(takes, ByBridge)| + |TakenBy(takes, ByHandler)| + |TakenBy(takes, ByOther)|
    ensures TakenBy(takes, ByHandler) == [] && TakenBy(takes, ByOther) == [] ==> TakenBy(takes, ByBridge) == AllTaken(takes)
  {
    if takes != [] {
      SharesAddUp(takes[..|takes| - 1]);
    }
  }

  lemma {:induction false} NobodyElse(s: State, steps: seq<Step>, t: State)
    requires Runs(s, steps, t) && !s.shared && TakenBy(s.takes, ByOther) == []
    ensures TakenBy(t.takes, ByOther) == []
    decreases |steps|
  {
    if steps != [] {
      StepKeepsInputs(s, steps[0]);
      StepTakesNothingElse(s, steps[0]);
      NobodyElse(Next(s, steps[0]), steps[1..], t);
    }
  }

  lemma StepTakesNothingElse(s: State, a: Step)
    requires Enabled(s, a) && !s.shared
    ensures TakenBy(Next(s, a).takes, ByOther) == TakenBy(s.takes, ByOther)
  {
    var takes := Next(s, a).takes;
    if takes != s.takes {
      var last := takes[|s.takes|];
      assert takes == s.takes + [last];
      TakesGrow(s.takes, last);
    }
  }

  /** All bytes are the same. */
  predicate Uniform(d: bytes) {
    forall k :: 0 <= k < |d| ==> d[k] == d[0]
  }

  lemma {:induction false} TakenIsAmongAll(takes: seq<Take>, who: Taker)
    ensures |TakenBy(takes, who)| <= |AllTaken(takes)|
    ensures forall b :: b in TakenBy(takes, who) ==> b in AllTaken(takes)
  {
    if takes != [] {
      TakenIsAmongAll(takes[..|takes| - 1], who);
    }
  }

  lemma UniformPrefix(data: bytes, share: bytes, all: bytes, input: bytes)
    requires Uniform(input) && all <= input && data <= share && |share| <= |all| && forall b :: b in share ==> b in all
    ensures data <= input
  {
    forall k | 0 <= k < |data|
      ensures data[k] == input[k]
    {
      assert data[k] == share[k] && share[k] in share;
      var j :| 0 <= j < |all| && all[j] == share[k];
      assert all[j] == input[j] && input[k] == input[0];
    }
  }

  /**
   The device handler's reader goes on reading during a session and discards what it gets.
   So the client is sure of a prefix of the device stream only if the bytes are all alike.
   */
  lemma PlainPrefixIff(s: State)
    requires Init(s) && !s.client.closed && !s.device.closed
    ensures (forall t :: Reaches(s, t) ==> DataOf(t.client.out) <= s.device.input) <==> Uniform(s.device.input)
  {
    if Uniform(s.device.input) {
      forall t | Reaches(s, t)
        ensures DataOf(t.client.out) <= s.device.input
      {
        var steps :| Runs(s, steps, t);
        DeviceStreamSplit(s, steps, t);
        TakenIsAmongAll(t.takes, ByBridge);
        UniformPrefix(DataOf(t.client.out), TakenBy(t.takes, ByBridge), AllTaken(t.takes), s.device.input);
      }
    } else {
      var k :| 0 <= k < |s.device.input| && s.device.input[k] != s.device.input[0];
      var steps, t := PrefixIsLost(s, k);
      assert Reaches(s, t);
    }
  }

  /** The device handler takes the first k bytes, the client gets the next one. */
  lemma PrefixIsLost(s: State, k: nat) returns (steps: seq<Step>, t: State)
    requires Init(s) && !s.client.closed && !s.device.closed && k < |s.device.input| && s.device.input[k] != s.device.input[0]
    ensures Runs(s, steps, t) && DataOf(t.client.out) == [s.device.input[k]] && !(DataOf(t.client.out) <= s.device.input)
  {
    var first, u := HandlerTakes(s, k);
    var second;
    second, t := DeviceByteCrosses(u);
    steps := first + second;
    RunsOn(s, first, u, second, t);
    OutGrows(u.client.out, t.client.out[0]);
  }

  /** The device handler's reader takes k bytes, one by one. */
  lemma {:induction false} HandlerTakes(s: State, k: nat) returns (steps: seq<Step>, t: State)
    requires !s.device.closed && s.device.taken + k <= |s.device.input|
    ensures Runs(s, steps, t)
    ensures t == s.(device := s.device.(taken := s.device.taken + k), takes := t.takes)
    decreases k
  {
    if k == 0 {
      steps, t := [], s;
    } else {
      var a := HandlerReads(1);
      steps, t := HandlerTakes(Next(s, a), k - 1);
      assert ([a] + steps)[1..] == steps;
      steps := [a] + steps;
    }
  }

  /** One byte goes from the device to the client. */
  lemma DeviceByteCrosses(s: State) returns (steps: seq<Step>, t: State)
    requires s.down.pc == Reading && !s.client.closed && !s.device.closed && s.device.taken < |s.device.input|
    ensures Runs(s, steps, t)
    ensures t.client.out == s.client.out + [Write(Data, [s.device.input[s.device.taken]], true)]
  {
    var b := s.device.input[s.device.taken];
    assert s.device.input[s.device.taken..s.device.taken + 1] == [b] && [b][..1] == [b];
    steps := [Down(Read(1, false)), Down(Store), Down(Send(1, false)), Down(Count)];
    var s1 := Next(s, steps[0]);
    var s2 := Next(s1, steps[1]);
    var s3 := Next(s2, steps[2]);
    t := Next(s3, steps[3]);
    FourSteps(s, s1, s2, s3, t, steps);
  }

  // ----- A copier ends only at an error, and until then can deliver everything -----

  /** The read or write reports an error. */
  predicate Fails(a: CopyStep) {
    (a.Read? || a.Send?) && a.fails
  }

  /** The copier has met an error: its loop ends, if it has not ended yet. */
  predicate Ending(pc: CopierPc) {
    match pc
    case Reading => false
    case Storing(_, last) => last
    case Writing(_, last) => last
    case Counting(_, last) => last
    case Finished => true
  }

  lemma EndsAtError(c: Copier, src: Conn, dst: Conn, a: CopyStep)
    requires CopyEnabled(c, src, dst, a)
    ensures Ending(Copy(c, src, dst, a).0.pc) <==> Ending(c.pc) || Fails(a)
  {
  }

  /** What can have happened in a run. */
  datatype Event = UpFails | DownFails | ClientNopFails | DeviceNopFails | KeepaliveTold

  predicate Is(a: Step, e: Event) {
    match e
    case UpFails => a.Up? && Fails(a.a)
    case DownFails => a.Down? && Fails(a.a)
    case ClientNopFails => a.CheckClient? && a.idle && a.fails
    case DeviceNopFails => a.CheckDevice? && a.idle && a.fails
    case KeepaliveTold => a.KeepaliveStops?
  }

  predicate Happened(steps: seq<Step>, e: Event) {
    exists k :: 0 <= k < |steps| && Is(steps[k], e)
  }

  lemma FirstOrLater(steps: seq<Step>, e: Event)
    requires steps != []
    ensures Happened(steps, e) <==> Is(steps[0], e) || Happened(steps[1..], e)
  {
    if Happened(steps, e) && !Is(steps[0], e) {
      var k :| 0 <= k < |steps| && Is(steps[k], e);
      assert steps[1..][k - 1] == steps[k];
    }
    if Happened(steps[1..], e) {
      var k :| 0 <= k < |steps[1..]| && Is(steps[1..][k], e);
      assert steps[k + 1] == steps[1..][k];
    }
  }

  lemma StepEndsAtError(s: State, a: Step)
    requires Enabled(s, a)
    ensures Ending(Next(s, a).up.pc) <==> Ending(s.up.pc) || Is(a, UpFails)
    ensures Ending(Next(s, a).down.pc) <==> Ending(s.down.pc) || Is(a, DownFails)
  {
    match a
    case Up(c) => EndsAtError(s.up, s.client, s.device, c);
    case Down(c) => EndsAtError(s.down, s.device, s.client, c);
    case _ => assert Next(s, a).up == s.up && Next(s, a).down == s.down;
  }

  lemma {:induction false} RunEndsAtError(s: State, steps: seq<Step>, t: State)
    requires Runs(s, steps, t)
    ensures Ending(t.up.pc) <==> Ending(s.up.pc) || Happened(steps, UpFails)
    ensures Ending(t.down.pc) <==> Ending(s.down.pc) || Happened(steps, DownFails)
    decreases |steps|
  {
    if steps != [] {
      StepEndsAtError(s, steps[0]);
      FirstOrLater(steps, UpFails);
      FirstOrLater(steps, DownFails);
      RunEndsAtError(Next(s, steps[0]), steps[1..], t);
    }
  }

  /** In every run a copier is ending or has ended if and only if one of its own reads or writes failed. */
  lemma CopierEndsAtError(s: State, steps: seq<Step>, t: State)
    requires Init(s) && Runs(s, steps, t)
    ensures Ending(t.up.pc) <==> Happened(steps, UpFails)
    ensures Ending(t.down.pc) <==> Happened(steps, DownFails)
  {
    RunEndsAtError(s, steps, t);
  }

  /** What a copier that meets no error does next, when there is something left. */
  function GoOn(c: Copier, src: Conn): CopyStep
    requires !Ending(c.pc) && src.taken <= |src.input|
  {
    var left := |src.input| - src.taken;
    match c.pc
    case Reading => Read(if left < BUFFER_SIZE then left else BUFFER_SIZE, false)
    case Storing(_, _) => Store
    case Writing(chunk, _) => Send(|chunk|, false)
    case Counting(_, _) => Count
    case Finished => Store
  }

  /** It has read everything and is back at its read. */
  predicate Idle(c: Copier, src: Conn) {
    c.pc == Reading && src.taken == |src.input|
  }

  /** Work left for a copier that meets no error. */
  function ToDo(c: Copier, src: Conn): nat
    requires src.taken <= |src.input|
  {
    5 * (|src.input| - src.taken) + if c.pc == Reading then 0 else CopierWork(c)
  }

  lemma GoesOn(c: Copier, src: Conn, dst: Conn)
    requires src.taken <= |src.input| && !src.closed && !dst.closed && !Ending(c.pc) && !Idle(c, src)
    requires c.pc.Writing? || c.pc.Storing? ==> c.pc.chunk != []
    ensures var a := GoOn(c, src);
            && CopyEnabled(c, src, dst, a) && !Fails(a)
            && var (c', src', dst') := Copy(c, src, dst, a);
               && src'.taken <= |src'.input| && src'.closed == src.closed && dst'.closed == dst.closed
               && !Ending(c'.pc) && ToDo(c', src') < ToDo(c, src)
  {
  }

  /** While both ends are open and it has met no error, the copier from the client can still deliver everything. */
  lemma {:induction false} UpDelivers(s: State) returns (steps: seq<Step>, t: State)
    requires Inv(s) && !s.client.closed && !s.device.closed && !Ending(s.up.pc)
    ensures Runs(s, steps, t) && forall a :: a in steps ==> a.Up? && !Fails(a.a)
    ensures t.client.taken == |s.client.input| && t.up.pc == Reading && DataOf(t.device.out) == s.client.input
    decreases ToDo(s.up, s.client)
  {
    if Idle(s.up, s.client) {
      steps, t := [], s;
      assert s.client.input[..|s.client.input|] == s.client.input;
    } else {
      var a := Up(GoOn(s.up, s.client));
      GoesOn(s.up, s.client, s.device);
      StepKeepsInv(s, a);
      StepKeepsInputs(s, a);
      steps, t := UpDelivers(Next(s, a));
      assert ([a] + steps)[1..] == steps;
      steps := [a] + steps;
    }
  }

  /** So can the copier from the device deliver all that nobody else has taken. */
  lemma {:induction false} DownDelivers(s: State) returns (steps: seq<Step>, t: State)
    requires Inv(s) && !s.client.closed && !s.device.closed && !Ending(s.down.pc)
    ensures Runs(s, steps, t) && forall a :: a in steps ==> a.Down? && !Fails(a.a)
    ensures t.device.taken == |s.device.input| && t.down.pc == Reading
    ensures DataOf(t.client.out) == TakenBy(s.takes, ByBridge) + s.device.input[s.device.taken..]
    decreases ToDo(s.down, s.device)
  {
    if Idle(s.down, s.device) {
      steps, t := [], s;
      assert s.device.input[|s.device.input|..] == [];
    } else {
      var c := GoOn(s.down, s.device);
      var a := Down(c);
      GoesOn(s.down, s.device, s.client);
      StepKeepsInv(s, a);
      StepKeepsInputs(s, a);
      DownTakes(s, c);
      steps, t := DownDelivers(Next(s, a));
      assert ([a] + steps)[1..] == steps;
      steps := [a] + steps;
    }
  }

  /** What the copier reads moves from what is left to its share. */
  lemma DownTakes(s: State, c: CopyStep)
    requires Inv(s) && Enabled(s, Down(c))
    ensures var t := Next(s, Down(c));
            t.device.taken <= |s.device.input| &&
            TakenBy(t.takes, ByBridge) + s.device.input[t.device.taken..]
            == TakenBy(s.takes, ByBridge) + s.device.input[s.device.taken..]
  {
    CopyKeeps(s.down, s.device, s.client, c, false, false);
    var input, i, j := s.device.input, s.device.taken, Next(s, Down(c)).device.taken;
    if c.Read? {
      NextTake(s.takes, ByBridge, input, i, j);
      assert input[i..] == input[i..j] + input[j..];
      Assoc(TakenBy(s.takes, ByBridge), input[i..j], input[j..]);
    }
  }

  /** From every state a bridge gets into with both ends open, a copier that met no error can deliver everything. */
  lemma CanDeliver(s: State, before: seq<Step>, m: State) returns (steps: seq<Step>, t: State)
    requires Init(s) && Runs(s, before, m) && !m.client.closed && !m.device.closed && !Happened(before, UpFails)
    ensures Runs(m, steps, t) && forall a :: a in steps ==> a.Up? && !Fails(a.a)
    ensures t.client.taken == |s.client.input| && DataOf(t.device.out) == s.client.input
  {
    InitInv(s);
    RunKeepsInv(s, before, m);
    InputsStay(s, before, m);
    CopierEndsAtError(s, before, m);
    steps, t := UpDelivers(m);
  }

  /** The same for the other direction: the client gets the bridge's share, to the end of the device stream. */
  lemma CanDeliverDown(s: State, before: seq<Step>, m: State) returns (steps: seq<Step>, t: State)
    requires Init(s) && Runs(s, before, m) && !m.client.closed && !m.device.closed && !Happened(before, DownFails)
    ensures Runs(m, steps, t) && forall a :: a in steps ==> a.Down? && !Fails(a.a)
    ensures m.device.taken <= |s.device.input| && t.device.taken == |s.device.input|
    ensures DataOf(t.client.out) == TakenBy(m.takes, ByBridge) + s.device.input[m.device.taken..]
  {
    InitInv(s);
    RunKeepsInv(s, before, m);
    InputsStay(s, before, m);
    CopierEndsAtError(s, before, m);
    steps, t := DownDelivers(m);
  }

  // ----- The keepalive goroutine -----

  /** Where the keepalive can be, given where it was and what happened, and what it has closed. */
  predicate KeepaliveOk(from: KeepalivePc, steps: seq<Step>, t: State) {
    var client := from == ClosingClient || Happened(steps, ClientNopFails);
    var device := from == ClosingDevice || Happened(steps, DeviceNopFails);
    match t.keepalive
    case Ticking | AtClient | AtDevice => from != Stopped && !client && !device && !Happened(steps, KeepaliveTold)
    case ClosingClient => client && !device
    case ClosingDevice => device && !client
    case Stopped =>
      from == Stopped || Happened(steps, KeepaliveTold) || (client && t.client.closed) || (device && t.device.closed)
  }

  lemma {:induction false} KeepaliveRun(s: State, steps: seq<Step>, t: State)
    requires Runs(s, steps, t)
    ensures KeepaliveOk(s.keepalive, steps, t)
    ensures (s.client.closed ==> t.client.closed) && (s.device.closed ==> t.device.closed)
    decreases |steps|
  {
    if steps != [] {
      var a, u := steps[0], Next(s, steps[0]);
      FirstOrLater(steps, ClientNopFails);
      FirstOrLater(steps, DeviceNopFails);
      FirstOrLater(steps, KeepaliveTold);
      KeepaliveStep(s, a);
      KeepaliveRun(u, steps[1..], t);
      if s.keepalive == Stopped || Is(a, KeepaliveTold) || a.KeepaliveCloses? {
        StaysStopped(u, steps[1..], t);
      }
    }
  }

  lemma ClosedStays(s: State, a: Step)
    requires Enabled(s, a)
    ensures var u := Next(s, a); (s.client.closed ==> u.client.closed) && (s.device.closed ==> u.device.closed)
  {
  }

  predicate KeepaliveMoves(a: Step) {
    a.Tick? || a.CheckClient? || a.CheckDevice? || a.KeepaliveCloses? || a.KeepaliveStops?
  }

  lemma KeepaliveUntouched(s: State, a: Step)
    requires Enabled(s, a) && !KeepaliveMoves(a)
    ensures Next(s, a).keepalive == s.keepalive
  {
  }

  lemma KeepaliveStep(s: State, a: Step)
    requires Enabled(s, a)
    ensures var u := Next(s, a);
            && (s.client.closed ==> u.client.closed) && (s.device.closed ==> u.device.closed)
            && (Is(a, ClientNopFails) <==> s.keepalive != ClosingClient && u.keepalive == ClosingClient)
            && (Is(a, DeviceNopFails) <==> s.keepalive != ClosingDevice && u.keepalive == ClosingDevice)
            && (Is(a, KeepaliveTold) || a.KeepaliveCloses? <==> s.keepalive != Stopped && u.keepalive == Stopped)
            && (s.keepalive == Stopped ==> u.keepalive == Stopped)
            && (s.keepalive == ClosingClient ==>
                  u.keepalive == ClosingClient || (a.KeepaliveCloses? && u.client.closed))
            && (s.keepalive == ClosingDevice ==>
                  u.keepalive == ClosingDevice || (a.KeepaliveCloses? && u.device.closed))
            && (a.KeepaliveCloses? ==> s.keepalive == ClosingClient || s.keepalive == ClosingDevice)
  {
    ClosedStays(s, a);
    if !KeepaliveMoves(a) {
      KeepaliveUntouched(s, a);
    }
  }

  lemma {:induction false} StaysStopped(s: State, steps: seq<Step>, t: State)
    requires Runs(s, steps, t) && s.keepalive == Stopped
    ensures t.keepalive == Stopped && (s.client.closed ==> t.client.closed) && (s.device.closed ==> t.device.closed)
    decreases |steps|
  {
    if steps != [] {
      KeepaliveStep(s, steps[0]);
      StaysStopped(Next(s, steps[0]), steps[1..], t);
    }
  }

  /**
   In every run a keepalive that was started has stopped only because it was told to, or
   because a NOP failed; then it has closed the connection of that NOP.
   */
  lemma KeepaliveEnds(s: State, steps: seq<Step>, t: State)
    requires Init(s) && s.keepalive == Ticking && Runs(s, steps, t) && t.keepalive == Stopped
    ensures Happened(steps, KeepaliveTold) || (Happened(steps, ClientNopFails) && t.client.closed)
         || (Happened(steps, DeviceNopFails) && t.device.closed)
  {
    KeepaliveRun(s, steps, t);
  }

  // ----- Shutdown -----

  /** The steps of the copiers and of Run. */
  predicate Working(a: Step) {
    a.Up? || a.Down? || a.RunWakes? || a.RunGoesOn?
  }

  function CopierWork(c: Copier): nat {
    match c.pc
    case Storing(_, _) => 4
    case Writing(_, _) => 3
    case Counting(_, _) => 2
    case Reading => 1
    case Finished => 0
  }

  function RunWork(r: RunPc): nat {
    match r
    case Waiting => 5
    case StoppingKeepalive => 4
    case ClosingClientConn => 3
    case ClosingDeviceConn => 2
    case Joining => 1
    case Returned => 0
  }

  function Work(s: State): nat {
    CopierWork(s.up) + CopierWork(s.down) + RunWork(s.run)
  }

  function WorkingSteps(steps: seq<Step>): nat {
    if steps == [] then 0 else (if Working(steps[0]) then 1 else 0) + WorkingSteps(steps[1..])
  }

  lemma ClosedStep(s: State, a: Step)
    requires Inv(s) && Enabled(s, a) && s.client.closed && s.device.closed
    ensures var t := Next(s, a);
            && t.client.closed && t.device.closed
            && (if Working(a) then Work(t) < Work(s) else Work(t) == Work(s))
  {
    match a
    case Up(c) => CopyClosed(s.up, s.client, s.device, c);
    case Down(c) => CopyClosed(s.down, s.device, s.client, c);
    case _ => OtherClosedStep(s, a);
  }

  lemma OtherClosedStep(s: State, a: Step)
    requires Enabled(s, a) && s.client.closed && s.device.closed && !a.Up? && !a.Down?
    ensures var t := Next(s, a);
            && t.client.closed && t.device.closed && t.up == s.up && t.down == s.down
            && (if Working(a) then RunWork(t.run) < RunWork(s.run) else t.run == s.run)
  {
  }

  lemma CopyClosed(c: Copier, src: Conn, dst: Conn, a: CopyStep)
    requires CopyEnabled(c, src, dst, a) && src.closed && dst.closed
    ensures var (c', src', dst') := Copy(c, src, dst, a);
            CopierWork(c') < CopierWork(c) && src'.closed && dst'.closed
  {
  }

  /**
   Once both connections are closed the copiers and Run take at most thirteen more steps
   altogether, whatever else goes on; and until Run has returned one of them can move.
   */
  lemma {:induction false} ShutdownIsBounded(s: State, steps: seq<Step>, t: State)
    requires Inv(s) && s.client.closed && s.device.closed && Runs(s, steps, t)
    ensures WorkingSteps(steps) + Work(t) <= Work(s) <= 13
    ensures t.run == Returned || exists a :: Working(a) && Enabled(t, a)
    decreases |steps|
  {
    if steps == [] {
      CanMove(s);
    } else {
      ClosedStep(s, steps[0]);
      StepKeepsInv(s, steps[0]);
      ShutdownIsBounded(Next(s, steps[0]), steps[1..], t);
    }
  }

  /** So it is from any state a bridge can get into. */
  lemma ShutdownFromStart(s: State, before: seq<Step>, m: State, steps: seq<Step>, t: State)
    requires Init(s) && Runs(s, before, m) && m.client.closed && m.device.closed && Runs(m, steps, t)
    ensures WorkingSteps(steps) <= 13
    ensures t.run == Returned || exists a :: Working(a) && Enabled(t, a)
  {
    InitInv(s);
    RunKeepsInv(s, before, m);
    ShutdownIsBounded(m, steps, t);
  }

  lemma CanMove(s: State)
    requires Inv(s) && s.client.closed && s.device.closed
    ensures s.run == Returned || exists a :: Working(a) && Enabled(s, a)
  {
    if s.up.pc != Finished {
      var a := CopierMove(s.up, s.client, s.device);
      assert Enabled(s, Up(a)) && Working(Up(a));
    } else if s.down.pc != Finished {
      var a := CopierMove(s.down, s.device, s.client);
      assert Enabled(s, Down(a)) && Working(Down(a));
    } else if s.run == Waiting {
      assert Enabled(s, RunWakes) && Working(RunWakes);
    } else if s.run != Returned {
      assert Enabled(s, RunGoesOn) && Working(RunGoesOn);
    }
  }

  lemma CopierMove(c: Copier, src: Conn, dst: Conn) returns (a: CopyStep)
    requires c.pc != Finished && src.taken <= |src.input|
    requires c.pc.Writing? ==> |c.pc.chunk| > 0
    ensures CopyEnabled(c, src, dst, a)
  {
    a := match c.pc
      case Reading => Read(0, true)
      case Storing(_, _) => Store
      case Writing(_, _) => Send(0, true)
      case _ => Count;
  }

  // ----- Half-closed bridges -----

  /** Run has not left its wait before both copiers finished, and nothing else has woken it. */
  predicate Patient(s: State) {
    !s.done && (s.run != Waiting ==> s.up.pc == Finished && s.down.pc == Finished)
  }

  lemma StepKeepsPatient(s: State, a: Step)
    requires Patient(s) && Enabled(s, a) && a != SessionDone
    ensures Patient(Next(s, a))
  {
    match a
    case Up(c) => assert s.up.pc != Finished;
    case Down(c) => assert s.down.pc != Finished;
    case _ =>
  }

  /** Run does not end when one direction does: until End closes session.done it waits for both copiers. */
  lemma {:induction false} RunWaitsForBoth(s: State, steps: seq<Step>, t: State)
    requires Patient(s) && Runs(s, steps, t) && SessionDone !in steps
    ensures Patient(t)
    decreases |steps|
  {
    if steps != [] {
      var a := steps[0];
      assert a in steps;
      StepKeepsPatient(s, a);
      RunWaitsForBoth(Next(s, a), steps[1..], t);
    }
  }

  /** So a bridge whose client is gone can wait on, with its device still served. */
  lemma HalfClosedWaits(s: State) returns (steps: seq<Step>, t: State)
    requires Init(s) && !s.done
    ensures Runs(s, steps, t) && SessionDone !in steps
    ensures t.client.closed && t.up.pc == Finished && t.down.pc == Reading && t.run == Waiting && !Enabled(t, RunWakes)
  {
    var a, b := Close(false), Up(Read(0, true));
    steps := [a, b];
    var u := Next(s, a);
    t := Next(u, b);
    assert steps[1..] == [b] && [b][1..] == [];
  }
}
