/**
 handleClient (internal/connection/handler.go) up to the bridge: the token, the device, the
 session, and what is written to the device before the bridge takes over.
 */
module HandOff {
  import opened Bytes
  import opened Stream
  import Rfc2217
  import opened UsrVcom
  import opened Protocol
  import opened Net
  import opened Modem
  import opened CommandLoop
  import opened Devices
  import opened Sessions
  import opened SessionIds

  const PLUS: byte := 0x2B

  // ----- Tokens -----

  function FirstPlus(s: bytes): (n: nat)
    ensures n <= |s| && PLUS !in s[..n] && (n < |s| ==> s[n] == PLUS)
  {
    if s == [] || s[0] == PLUS then 0
    else
      var n := FirstPlus(s[1..]);
      assert s[..n + 1] == [s[0]] + s[1..][..n];
      n + 1
  }

  /** The device a token asks for: with an auth token configured, what follows it and a plus. */
  function DeviceId(auth: bytes, token: bytes): Option<bytes> {
    if token == [] then None
    else if auth == [] then Some(token)
    else
      var n := FirstPlus(token);
      if n == |token| || token[..n] != auth || token[n + 1..] == [] then None else Some(token[n + 1..])
  }

  /**
   The ID is the token itself without an auth token, and otherwise what follows auth and a
   plus; it is never empty, and a configured token with a plus in it never matches.
   */
  lemma TokenMatches(auth: bytes, token: bytes, id: bytes)
    ensures DeviceId(auth, token) == Some(id) <==>
      id != [] && if auth == [] then token == id else 0x2B !in auth && token == auth + [0x2B] + id
  {
    if auth != [] {
      var n := FirstPlus(token);
      if DeviceId(auth, token) == Some(id) {
        assert token == token[..n] + [token[n]] + token[n + 1..];
      }
      if PLUS !in auth && id != [] && token == auth + [PLUS] + id {
        assert token[|auth|] == PLUS && token[..|auth|] == auth;
        assert forall k :: 0 <= k < |auth| ==> token[k] == auth[k] && auth[k] in auth;
        assert forall k :: 0 <= k < n ==> token[k] == token[..n][k] && token[..n][k] in token[..n];
        assert n == |auth|;
        assert token[..n] == auth && token[n + 1..] == id;
      }
    }
  }

  // ----- What the device is sent before the bridge -----

  /** Preset bytes not headed 55 AA 55 go out as they are; a packet goes out translated, or not at all. */
  function RawPresets(skipped: bytes): bytes {
    if !IsUSRVCOM(skipped) then skipped
    else match Parse(skipped)
      case Some(cfg) => Rfc2217.Print(Commands(cfg))
      case None => []
  }

  /** A valid configuration overrides raw presets. */
  function PresetBytes(cmd: ATCommand): bytes {
    if cmd.cfg.Some? && cmd.cfg.value.valid then Rfc2217.Print(Commands(cmd.cfg.value))
    else RawPresets(cmd.skipped)
  }

  /** What was buffered behind the command line goes out as it is, unless it begins with a whole packet. */
  function BufferedBytes(b: bytes): bytes {
    if IsUSRVCOM(b) && Parse(b).Some? then Rfc2217.Print(Commands(Parse(b).value)) else b
  }

  /** Byte for byte: a buffer headed by a whole packet becomes that packet's settings; any other goes out as it is. */
  lemma BufferedOnTheWire(b: bytes)
    ensures BufferedBytes(b) == if IsUSRVCOM(b) && |b| >= PACKET_LEN then OnTheWire(b, 0) else b
  {
    if IsUSRVCOM(b) {
      HeadedIsFound(b);
      if |b| >= PACKET_LEN {
        PrintInNumbers(b, 0);
      }
    }
  }

  /** So the receiver of what was buffered ends with the settings of such a packet. */
  lemma BufferedMeans(b: bytes, before: Settings)
    requires IsUSRVCOM(b) && |b| >= PACKET_LEN && !Rfc2217.HasTerminator(BaudBytes(b, 0))
    ensures Apply(Rfc2217.Scan(BufferedBytes(b)), before) == SettingsOf(b, 0)
  {
    BufferedOnTheWire(b);
    WireMeans(b, 0, before);
  }

  /** Raw presets headed 55 AA 55: the settings of a whole packet, and nothing for less than one. */
  lemma RawPresetsOnTheWire(skipped: bytes)
    ensures RawPresets(skipped) ==
            if !IsUSRVCOM(skipped) then skipped
            else if |skipped| >= PACKET_LEN then OnTheWire(skipped, 0) else []
  {
    if IsUSRVCOM(skipped) {
      HeadedIsFound(skipped);
      if |skipped| >= PACKET_LEN {
        PrintInNumbers(skipped, 0);
      }
    }
  }

  lemma RawPresetsMean(skipped: bytes, before: Settings)
    requires IsUSRVCOM(skipped) && |skipped| >= PACKET_LEN && !Rfc2217.HasTerminator(BaudBytes(skipped, 0))
    ensures Apply(Rfc2217.Scan(RawPresets(skipped)), before) == SettingsOf(skipped, 0)
  {
    RawPresetsOnTheWire(skipped);
    WireMeans(skipped, 0, before);
  }

  /** The presets of the client as the buffer to forward, if there is one. */
  method BuildPresets(cmd: ATCommand) returns (buf: Option<Rfc2217.Buffer>)
    ensures PresetBytes(cmd) == if buf.Some? then buf.value.rawData else []
  {
    buf := None;
    if cmd.cfg.Some? && cmd.cfg.value.valid {
      var commands := ToRFC2217Commands(cmd.cfg.value);
      var packet := BuildRFC2217Packet(cmd.cfg.value);
      buf := Some(Rfc2217.Buffer(commands, packet));
    }
    if buf.None? && |cmd.skipped| > 0 {
      if IsUSRVCOM(cmd.skipped) {
        var cfg := ParseUSRVCOM(cmd.skipped);
        if cfg.Some? && cfg.value.valid {
          var commands := ToRFC2217Commands(cfg.value);
          var packet := BuildRFC2217Packet(cfg.value);
          buf := Some(Rfc2217.Buffer(commands, packet));
        }
      } else {
        var parsed := Rfc2217.ParseRFC2217Commands(cmd.skipped);
        buf := Some(parsed);
      }
    }
  }

  /** ForwardRFC2217ToDevice: one write of the raw data, if there is any. */
  method ForwardRFC2217ToDevice(device: Conn, buf: Rfc2217.Buffer)
    modifies device
    ensures device.attempts == old(device.attempts) + (if buf.rawData == [] then 0 else 1)
    ensures device.out == old(device.out) + Sent(device, old(device.attempts), buf.rawData)
  {
    if |buf.rawData| == 0 {
      return;
    }
    var _ := device.Write(buf.rawData);
  }

  /** What a write of data as the n-th attempt adds to a connection; empty data is not written. */
  function Sent(conn: Conn, n: nat, data: bytes): seq<bytes> {
    if data == [] then [] else Written(conn.succeeds(n), data)
  }

  /** Forwarding of what the reader still has buffered. */
  method ForwardBuffered(reader: BufReader, device: Conn)
    requires reader.Valid()
    modifies reader, device
    ensures reader.Valid() && reader.buf == [] && reader.arrivals == old(reader.arrivals)
    ensures reader.consumed == old(reader.consumed) + |old(reader.buf)|
    ensures device.out == old(device.out) + Sent(device, old(device.attempts), BufferedBytes(old(reader.buf)))
  {
    var buffered := reader.TakeBuffered();
    if |buffered| > 0 {
      var parsed: Option<Rfc2217.Buffer> := None;
      if IsUSRVCOM(buffered) {
        var cfg := ParseUSRVCOM(buffered);
        if cfg.Some? && cfg.value.valid {
          var commands := ToRFC2217Commands(cfg.value);
          var packet := BuildRFC2217Packet(cfg.value);
          PacketNotEmpty(cfg.value);
          parsed := Some(Rfc2217.Buffer(commands, packet));
        }
      } else if |buffered| >= 3 && Rfc2217.HeaderAt(buffered, 0) {
        var found := Rfc2217.ParseRFC2217Commands(buffered);
        parsed := Some(found);
      }
      if parsed.Some? && |parsed.value.commands| > 0 {
        ForwardRFC2217ToDevice(device, parsed.value);
      } else {
        var _ := device.Write(buffered);
      }
    }
  }

  lemma PacketNotEmpty(c: Config)
    requires c.valid
    ensures Commands(c) != [] && Rfc2217.Print(Commands(c)) != []
  {
    assert Rfc2217.Print(Commands(c)) == Rfc2217.Frame(Commands(c)[0]) + Rfc2217.Print(Commands(c)[1..]);
  }

  // ----- The handler -----

  datatype Outcome =
    | TurnedAway               // no such device, busy, or a bad token: an error reply
    | ConnectFailed            // the connect reply could not be written
    | Bridged(sess: Session)   // the bridge runs next

  function ErrorReply(modem: Option<Mode>): bytes {
    match modem
    case Some(m) => NoCarrierText(m.verbose)
    case None => ERROR
  }

  function ConnectReply(modem: Option<Mode>): bytes {
    match modem
    case Some(m) => ConnectText(m.verbose)
    case None => OK
  }

  /** Byte for byte. */
  lemma RepliesInNumbers(m: Mode)
    ensures ErrorReply(None) == [69, 82, 82, 79, 82, 13, 10] && ConnectReply(None) == [79, 75, 13, 10]
    ensures ErrorReply(Some(m)) == if m.verbose then [13, 10, 78, 79, 32, 67, 65, 82, 82, 73, 69, 82, 13, 10] else [51, 13]
    ensures ConnectReply(Some(m)) ==
            if m.verbose then [13, 10, 67, 79, 78, 78, 69, 67, 84, 32, 57, 54, 48, 48, 13, 10] else [49, 13]
  {
    DialInNumbers();
  }

  method WriteReply(conn: Conn, modem: ModemState?, connect: bool) returns (ok: bool)
    modifies conn
    ensures ok == conn.succeeds(old(conn.attempts))
    ensures conn.out == old(conn.out) + Written(ok, if connect then ConnectReply(ModeOf(modem)) else ErrorReply(ModeOf(modem)))
  {
    if modem != null {
      if connect {
        ok := modem.WriteModemConnect(conn);
      } else {
        ok := modem.WriteModemNoCarrier(conn);
      }
    } else {
      ok := conn.Write(if connect then OK else ERROR);
    }
  }

  /** The device a command leads to: registered under the asked name and in no session. */
  ghost function FreeDevice(auth: bytes, cmd: ATCommand, registry: Registry): Option<Device>
    reads registry, registry.devices.Values
  {
    var id := DeviceId(auth, cmd.param);
    if id.Some? && id.value in registry.devices && !registry.devices[id.value].inSession
    then Some(registry.devices[id.value]) else None
  }

  /** Looks the device up; an error reply has been written when there is none to be had. */
  method FindDevice(auth: bytes, conn: Conn, cmd: ATCommand, modem: ModemState?, registry: Registry)
    returns (device: Option<Device>)
    modifies conn
    ensures device == FreeDevice(auth, cmd, registry)
    ensures device.Some? ==> conn.out == old(conn.out) && conn.attempts == old(conn.attempts)
    ensures device.None? ==>
      conn.out == old(conn.out) + Written(conn.succeeds(old(conn.attempts)), ErrorReply(ModeOf(modem)))
  {
    var id := DeviceId(auth, cmd.param);
    if id.None? {
      var _ := WriteReply(conn, modem, false);
      return None;
    }
    device := registry.Get(id.value);
    if device.None? {
      var _ := WriteReply(conn, modem, false);
      return None;
    }
    var busy := device.value.IsInSession();
    if busy {
      var _ := WriteReply(conn, modem, false);
      return None;
    }
  }

  /** End and ClearSession, in that order. */
  method CloseSession(sess: Session, device: Device, manager: Manager)
    requires manager.Valid() && Key(sess.sid) in manager.sessions && manager.sessions[Key(sess.sid)] == sess
    modifies manager, sess, device
    ensures manager.Valid() && manager.sessions == old(manager.sessions) - {Key(sess.sid)}
    ensures sess.done && !device.inSession && device.sessionId == ""
  {
    manager.End(Key(sess.sid));
    device.ClearSession();
  }

  /** Create and SetSession, then the reply; when the reply fails End and ClearSession undo both. */
  method OpenSession(conn: Conn, modem: ModemState?, device: Device, manager: Manager, now: int)
    returns (sess: Option<Session>)
    requires manager.Valid() && manager.counter + 1 < WRAP
    modifies conn, manager, device
    ensures manager.Valid()
    ensures var ok := conn.succeeds(old(conn.attempts));
            && conn.out == old(conn.out) + Written(ok, ConnectReply(old(ModeOf(modem))))
            && (sess.Some? <==> ok)
            && device.inSession == ok
    ensures match sess
            case None => manager.sessions == old(manager.sessions) && device.sessionId == ""
            case Some(sess) =>
              && fresh(sess) && sess.client == conn && sess.device == device.conn && !sess.done
              && Key(sess.sid) !in old(manager.sessions)
              && manager.sessions == old(manager.sessions)[Key(sess.sid) := sess]
              && device.sessionId == Key(sess.sid)
  {
    var created := manager.Create(now, device.id, conn, device.conn);
    device.SetSession(Key(created.sid));
    var ok := WriteReply(conn, modem, true);
    if ok {
      return Some(created);
    }
    CloseSession(created, device, manager);
    AddThenRemove(old(manager.sessions), Key(created.sid), created);
    sess := None;
  }

  lemma AddThenRemove<T>(table: map<string, T>, id: string, entry: T)
    requires id !in table
    ensures table[id := entry] - {id} == table
  {
  }

  /** The writes a device sees before the bridge: the presets, then what was buffered. */
  function BeforeBridge(device: Conn, attempts: nat, presets: bytes, buffered: bytes): seq<bytes> {
    Sent(device, attempts, presets) + Sent(device, if presets == [] then attempts else attempts + 1, BufferedBytes(buffered))
  }

  /** Presets and buffered bytes to the device. */
  method SendToDevice(reader: BufReader, device: Conn, presets: Option<Rfc2217.Buffer>)
    requires reader.Valid()
    modifies reader, device
    ensures reader.Valid() && reader.buf == [] && reader.arrivals == old(reader.arrivals)
    ensures reader.consumed == old(reader.consumed) + |old(reader.buf)|
    ensures device.out == old(device.out)
      + BeforeBridge(device, old(device.attempts), if presets.Some? then presets.value.rawData else [], old(reader.buf))
  {
    if presets.Some? && |presets.value.rawData| > 0 {
      ForwardRFC2217ToDevice(device, presets.value);
    }
    ForwardBuffered(reader, device);
  }

  /** The look-up and the session: a session for a free device, or what the client was told instead. */
  method Admit(auth: bytes, conn: Conn, cmd: ATCommand, modem: ModemState?, registry: Registry, manager: Manager, now: int)
    returns (outcome: Outcome)
    requires manager.Valid() && manager.counter + 1 < WRAP
    modifies conn, manager, registry.devices.Values
    ensures manager.Valid()
    ensures forall d :: d in registry.devices.Values && old(FreeDevice(auth, cmd, registry)) != Some(d) ==> unchanged(d)
    ensures var device := old(FreeDevice(auth, cmd, registry));
            var ok := conn.succeeds(old(conn.attempts));
            match outcome
            case TurnedAway =>
              && device == None && manager.sessions == old(manager.sessions)
              && conn.out == old(conn.out) + Written(ok, ErrorReply(old(ModeOf(modem))))
            case ConnectFailed =>
              && device.Some? && !ok && conn.out == old(conn.out)
              && manager.sessions == old(manager.sessions) && !device.value.inSession && device.value.sessionId == ""
            case Bridged(sess) =>
              && device.Some? && ok && conn.out == old(conn.out) + [ConnectReply(old(ModeOf(modem)))]
              && fresh(sess) && sess.client == conn && sess.device == device.value.conn
              && Key(sess.sid) !in old(manager.sessions)
              && manager.sessions == old(manager.sessions)[Key(sess.sid) := sess]
              && device.value.inSession && device.value.sessionId == Key(sess.sid)
  {
    var found := FindDevice(auth, conn, cmd, modem, registry);
    if found.None? {
      return TurnedAway;
    }
    var sess := OpenSession(conn, modem, found.value, manager, now);
    outcome := if sess.None? then ConnectFailed else Bridged(sess.value);
  }

  /**
   A client that finds its device free gets a session: the device is marked with it, the
   client is told, and the device is sent the presets and then what was buffered behind
   the command. A failed connect reply undoes the session. Each handler has a connection
   of its own, so the client's is none of the devices'.
   */
  method HandleClient(auth: bytes, conn: Conn, reader: BufReader, cmd: ATCommand, modem: ModemState?,
                      registry: Registry, manager: Manager, now: int)
    returns (outcome: Outcome)
    requires reader.Valid() && manager.Valid() && manager.counter + 1 < WRAP
    requires forall d :: d in registry.devices.Values ==> d.conn != conn
    modifies conn, reader, manager, registry.devices.Values, set d | d in registry.devices.Values :: d.conn
    ensures reader.Valid() && manager.Valid()
    ensures outcome.Bridged? || unchanged(reader)
    ensures forall d :: d in registry.devices.Values && old(FreeDevice(auth, cmd, registry)) != Some(d) ==> unchanged(d)
    ensures forall d :: d in registry.devices.Values && (outcome.Bridged? ==> outcome.sess.device != d.conn) ==> unchanged(d.conn)
    ensures var device := old(FreeDevice(auth, cmd, registry));
            var ok := conn.succeeds(old(conn.attempts));
            match outcome
            case TurnedAway =>
              && device == None && manager.sessions == old(manager.sessions)
              && conn.out == old(conn.out) + Written(ok, ErrorReply(old(ModeOf(modem))))
            case ConnectFailed =>
              && device.Some? && !ok && conn.out == old(conn.out)
              && manager.sessions == old(manager.sessions) && !device.value.inSession && device.value.sessionId == ""
            case Bridged(sess) =>
              && device.Some? && ok && conn.out == old(conn.out) + [ConnectReply(old(ModeOf(modem)))]
              && fresh(sess) && sess.client == conn && sess.device == device.value.conn
              && Key(sess.sid) !in old(manager.sessions)
              && manager.sessions == old(manager.sessions)[Key(sess.sid) := sess]
              && device.value.inSession && device.value.sessionId == Key(sess.sid)
              && reader.buf == [] && reader.arrivals == old(reader.arrivals)
              && reader.consumed == old(reader.consumed) + |old(reader.buf)|
              && sess.device.out == old(device.value.conn.out)
                 + BeforeBridge(sess.device, old(device.value.conn.attempts), PresetBytes(cmd), old(reader.buf))
  {
    var presets := BuildPresets(cmd);
    outcome := Admit(auth, conn, cmd, modem, registry, manager, now);
    if outcome.Bridged? {
      SendToDevice(reader, outcome.sess.device, presets);
    }
  }

  /** What handleClient does once the bridge has returned. */
  method FinishClient(sess: Session, device: Device, conn: Conn, modem: ModemState?, manager: Manager)
    requires manager.Valid() && Key(sess.sid) in manager.sessions && manager.sessions[Key(sess.sid)] == sess
    modifies manager, sess, device, conn
    ensures manager.Valid() && manager.sessions == old(manager.sessions) - {Key(sess.sid)}
    ensures sess.done && !device.inSession && device.sessionId == ""
    ensures conn.out == old(conn.out) + match old(ModeOf(modem))
                                        case Some(m) => Written(conn.succeeds(old(conn.attempts)), NoCarrierText(m.verbose))
                                        case None => []
  {
    CloseSession(sess, device, manager);
    if modem != null {
      var _ := modem.WriteModemNoCarrier(conn);
    }
  }
}
