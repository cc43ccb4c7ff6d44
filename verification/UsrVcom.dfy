/**
 The USR-VCOM baud-rate packet (doc/USR-VCOM.md) and its translation to RFC 2217
 commands, as internal/connection/usrvcom.go does it. Packet: 55 AA 55, three bytes of
 big-endian baud rate, a parameter byte, a checksum. A wrong checksum is only logged.
 */
module UsrVcom {
  import opened Bytes
  import opened Rfc2217

  const PACKET_LEN := 8

  /** parity: 0 none, 1 odd, 2 even, 3 mark, 4 space. */
  datatype Config = Config(baudRate: uint32, dataBits: byte, parity: byte, stopBits: byte, valid: bool, rawData: bytes)

  predicate HeaderAt55(d: bytes, i: nat) {
    i + 2 < |d| && d[i] == 0x55 && d[i + 1] == 0xAA && d[i + 2] == 0x55
  }

  predicate IsUSRVCOM(d: bytes) {
    HeaderAt55(d, 0)
  }

  /** The n-th bit of a byte, 0 the lowest. */
  predicate Bit(b: byte, n: nat)
    requires n < 8
  {
    var weight := match n
      case 0 => 1
      case 1 => 2
      case 2 => 4
      case 3 => 8
      case 4 => 16
      case 5 => 32
      case 6 => 64
      case 7 => 128;
    (b / weight) % 2 == 1
  }

  /** Two neighbouring bits as the number they spell. */
  lemma BitPairs(b: byte)
    ensures b % 4 == (if Bit(b, 1) then 2 else 0) + (if Bit(b, 0) then 1 else 0)
    ensures (b / 16) % 4 == (if Bit(b, 5) then 2 else 0) + (if Bit(b, 4) then 1 else 0)
  {
    LowPair(b);
    LowPair(b / 16);
    assert b / 32 == b / 16 / 2;
  }

  lemma LowPair(n: nat)
    ensures n % 4 == 2 * ((n / 2) % 2) + n % 2
  {
    var q := n / 4;
    assert n == 4 * q + n % 4;
    assert n / 2 == 2 * q + (n % 4) / 2;
  }

  /** 0 while bit 3 leaves parity off. */
  function ParityOf(param: byte): byte {
    if Bit(param, 3) then 1 + (param / 16) % 4 else 0
  }

  /** Decoding of a packet that starts at i. */
  function Decode(d: bytes, i: nat): (c: Config)
    requires i + PACKET_LEN <= |d|
    ensures c.valid && 5 <= c.dataBits <= 8 && c.parity <= 4 && 1 <= c.stopBits <= 2 && c.baudRate < 0x100_0000
  {
    var param := d[i + 6];
    Config(d[i + 3] as int * 0x1_0000 + d[i + 4] as int * 0x100 + d[i + 5],
           5 + param % 4,
           ParityOf(param),
           if Bit(param, 2) then 2 else 1,
           true,
           d[i..i + PACKET_LEN])
  }

  /** The first 55 AA 55 with a whole packet behind it, looking from i on. */
  function FindPacket(d: bytes, i: nat): Option<nat>
    decreases |d| - i
  {
    if i + PACKET_LEN > |d| then None
    else if HeaderAt55(d, i) then Some(i)
    else FindPacket(d, i + 1)
  }

  function Parse(d: bytes): Option<Config> {
    match FindPacket(d, 0)
    case None => None
    case Some(i) => FoundAt(d, 0, i); Some(Decode(d, i))
  }

  lemma {:induction false} FoundAt(d: bytes, from: nat, i: nat)
    requires FindPacket(d, from) == Some(i)
    ensures from <= i && i + PACKET_LEN <= |d| && HeaderAt55(d, i)
    ensures forall j :: from <= j < i ==> !HeaderAt55(d, j)
    decreases |d| - from
  {
    if !HeaderAt55(d, from) {
      FoundAt(d, from + 1, i);
    }
  }

  method ParseUSRVCOM(data: bytes) returns (cfg: Option<Config>)
    ensures cfg == Parse(data)
  {
    if |data| < PACKET_LEN {
      return None;
    }
    var idx := -1;
    var i := 0;
    while i <= |data| - PACKET_LEN
      invariant 0 <= i <= |data| - PACKET_LEN + 1
      invariant idx == -1 && FindPacket(data, 0) == FindPacket(data, i)
    {
      if data[i] == 0x55 && data[i + 1] == 0xAA && data[i + 2] == 0x55 {
        idx := i;
        break;
      }
      i := i + 1;
    }
    if idx < 0 {
      return None;
    }
    var packet := data[idx..idx + PACKET_LEN];
    var baudRate := packet[3] as int * 0x1_0000 + packet[4] as int * 0x100 + packet[5];
    var param := packet[6];
    var dataBits: byte := 5 + param % 4;
    var stopBits: byte := 1;
    if (param / 4) % 2 != 0 {
      stopBits := 2;
    }
    var parity: byte := 0;
    if (param / 8) % 2 != 0 {
      var parityType := (param / 16) % 4;
      if parityType == 0 {
        parity := 1;
      } else if parityType == 1 {
        parity := 2;
      } else if parityType == 2 {
        parity := 3;
      } else {
        parity := 4;
      }
    }
    cfg := Some(Config(baudRate, dataBits, parity, stopBits, true, packet));
  }

  // ----- Translation -----

  function BaudData(baud: uint32): bytes
  {
    [baud / 0x100_0000, (baud / 0x1_0000) % 256, (baud / 0x100) % 256, baud % 256]
  }

  /** ToRFC2217Commands: the four settings in the order they are appended. */
  function Commands(c: Config): seq<Command>
  {
    if !c.valid then []
    else [Command(SET_BAUDRATE, BaudData(c.baudRate)),
          Command(SET_DATASIZE, [c.dataBits]),
          Command(SET_PARITY, [(c.parity + 1) % 256]),
          Command(SET_STOPSIZE, [c.stopBits])]
  }

  method ToRFC2217Commands(c: Config) returns (commands: seq<Command>)
    ensures commands == Commands(c)
  {
    if !c.valid {
      return [];
    }
    commands := [Command(SET_BAUDRATE, BaudData(c.baudRate))];
    commands := commands + [Command(SET_DATASIZE, [c.dataBits])];
    commands := commands + [Command(SET_PARITY, [(c.parity + 1) % 256])];
    commands := commands + [Command(SET_STOPSIZE, [c.stopBits])];
  }

  method BuildRFC2217Packet(c: Config) returns (packet: bytes)
    ensures packet == Print(Commands(c))
  {
    var commands := ToRFC2217Commands(c);
    packet := PrintCommands(commands);
  }

  /** The loop of BuildRFC2217Packet. */
  method PrintCommands(commands: seq<Command>) returns (packet: bytes)
    ensures packet == Print(commands)
  {
    packet := [];
    for k := 0 to |commands|
      invariant packet == Print(commands[..k])
    {
      var cmd := commands[k];
      ghost var before := packet;
      packet := packet + [IAC, SB, COM_PORT_OPTION, cmd.code];
      packet := packet + cmd.data;
      packet := packet + [IAC, SE];
      assert packet == before + Frame(cmd);
      assert commands[..k + 1] == commands[..k] + [cmd];
      PrintAppend(commands[..k], [cmd]);
    }
    assert commands[..|commands|] == commands;
  }

  lemma {:induction false} PrintAppend(a: seq<Command>, b: seq<Command>)
    ensures Print(a + b) == Print(a) + Print(b)
  {
    if a == [] {
      assert a + b == b;
    } else {
      assert (a + b)[1..] == a[1..] + b;
      PrintAppend(a[1..], b);
      Assoc(Frame(a[0]), Print(a[1..]), Print(b));
    }
  }

  // ----- What the translation means -----

  /** The three baud bytes of the packet at i. */
  function BaudBytes(d: bytes, i: nat): bytes
    requires i + PACKET_LEN <= |d|
  {
    d[i + 3..i + 6]
  }

  /** The settings a receiver of RFC 2217 commands ends up with. */
  datatype Settings = Settings(baudRate: int, dataSize: byte, parity: byte, stopSize: byte)

  /**
   A command sets its field, by the numbers of section 3 of RFC 2217: 1 the baud rate, 2 the
   data size, 3 the parity, 4 the stop size. One whose data has the wrong length is ignored.
   */
  function ApplyOne(c: Command, s: Settings): Settings {
    if c.code == 1 && |c.data| == 4 then s.(baudRate := BigEndian(c.data))
    else if c.code == 2 && |c.data| == 1 then s.(dataSize := c.data[0])
    else if c.code == 3 && |c.data| == 1 then s.(parity := c.data[0])
    else if c.code == 4 && |c.data| == 1 then s.(stopSize := c.data[0])
    else s
  }

  function Apply(cmds: seq<Command>, s: Settings): Settings {
    if cmds == [] then s else Apply(cmds[1..], ApplyOne(cmds[0], s))
  }

  /** The parameter byte read as doc/USR-VCOM.md lays it out, in the numbers RFC 2217 uses. */
  function Documented(baud: int, param: byte): Settings {
    Settings(baud,
             if Bit(param, 1) then (if Bit(param, 0) then 8 else 7) else (if Bit(param, 0) then 6 else 5),
             if !Bit(param, 3) then 1
             else if Bit(param, 5) then (if Bit(param, 4) then 5 else 4)
             else (if Bit(param, 4) then 3 else 2),
             if Bit(param, 2) then 2 else 1)
  }

  /** The parameter bytes doc/USR-VCOM.md gives as examples: 8N1, 8N2, 8E1, 8O1 and 7E1. */
  lemma DocumentedExamples(baud: int)
    ensures Documented(baud, 0x03) == Settings(baud, 8, 1, 1)
    ensures Documented(baud, 0x07) == Settings(baud, 8, 1, 2)
    ensures Documented(baud, 0x1B) == Settings(baud, 8, 3, 1)
    ensures Documented(baud, 0x0B) == Settings(baud, 8, 2, 1)
    ensures Documented(baud, 0x1A) == Settings(baud, 7, 3, 1)
  {
  }

  /** What the packet at i says. */
  function SettingsOf(d: bytes, i: nat): Settings
    requires i + PACKET_LEN <= |d|
  {
    Documented(d[i + 3] as int * 0x1_0000 + d[i + 4] as int * 0x100 + d[i + 5], d[i + 6])
  }

  /** The settings of a packet as 31 numbers, laid out as section 3 of RFC 2217 has it. */
  function OnTheWire(d: bytes, i: nat): bytes
    requires i + PACKET_LEN <= |d|
  {
    var s := SettingsOf(d, i);
    [0xFF, 0xFA, 0x2C, 0x01, 0x00, d[i + 3], d[i + 4], d[i + 5], 0xFF, 0xF0]
    + [0xFF, 0xFA, 0x2C, 0x02, s.dataSize, 0xFF, 0xF0]
    + [0xFF, 0xFA, 0x2C, 0x03, s.parity, 0xFF, 0xF0]
    + [0xFF, 0xFA, 0x2C, 0x04, s.stopSize, 0xFF, 0xF0]
  }

  /** The print of a packet, number by number. */
  lemma PrintInNumbers(d: bytes, i: nat)
    requires i + PACKET_LEN <= |d|
    ensures Print(Commands(Decode(d, i))) == OnTheWire(d, i)
  {
    PrintLayout(d, i);
    BitPairs(d[i + 6]);
    var c := Decode(d, i);
    assert BaudBytes(d, i) == [d[i + 3], d[i + 4], d[i + 5]];
    assert BaudFrame(BaudBytes(d, i)) == [0xFF, 0xFA, 0x2C, 0x01, 0x00, d[i + 3], d[i + 4], d[i + 5], 0xFF, 0xF0];
  }

  /** And scanned and applied again: the receiver ends with the settings of the packet, if the baud bytes lack FF F0. */
  lemma WireMeans(d: bytes, i: nat, before: Settings)
    requires i + PACKET_LEN <= |d| && !HasTerminator(BaudBytes(d, i))
    ensures Apply(Scan(OnTheWire(d, i)), before) == SettingsOf(d, i)
  {
    PrintInNumbers(d, i);
    PacketRoundTrip(d, i);
    TranslationMeans(d, i, before);
  }

  /** A packet at the very beginning is the one that is found. */
  lemma HeadedIsFound(d: bytes)
    requires IsUSRVCOM(d)
    ensures if |d| >= PACKET_LEN then Parse(d) == Some(Decode(d, 0)) else Parse(d) == None
  {
  }

  /** No packet is found only where there is none. */
  lemma {:induction false} NoneFound(d: bytes, from: nat)
    requires FindPacket(d, from) == None
    ensures forall j :: from <= j && j + PACKET_LEN <= |d| ==> !HeaderAt55(d, j)
    decreases |d| - from
  {
    if from + PACKET_LEN <= |d| {
      NoneFound(d, from + 1);
    }
  }

  /** Whatever the receiver had before, the commands leave it with the documented settings. */
  lemma TranslationMeans(d: bytes, i: nat, before: Settings)
    requires i + PACKET_LEN <= |d|
    ensures Apply(Commands(Decode(d, i)), before) == SettingsOf(d, i)
  {
    var c := Decode(d, i);
    BaudDataOf(d, i);
    BitPairs(d[i + 6]);
    ApplyFour(Command(SET_BAUDRATE, BaudData(c.baudRate)), Command(SET_DATASIZE, [c.dataBits]),
              Command(SET_PARITY, [c.parity + 1]), Command(SET_STOPSIZE, [c.stopBits]), before);
  }

  lemma ApplyFour(a: Command, b: Command, c: Command, d: Command, s: Settings)
    ensures Apply([a, b, c, d], s) == ApplyOne(d, ApplyOne(c, ApplyOne(b, ApplyOne(a, s))))
  {
    var s1 := ApplyOne(a, s);
    var s2 := ApplyOne(b, s1);
    var s3 := ApplyOne(c, s2);
    assert [a, b, c, d][1..] == [b, c, d] && [b, c, d][1..] == [c, d] && [c, d][1..] == [d];
    assert Apply([d], s3) == ApplyOne(d, s3);
    assert Apply([c, d], s2) == Apply([d], s3);
    assert Apply([b, c, d], s1) == Apply([c, d], s2);
  }

  lemma BaudDataOf(d: bytes, i: nat)
    requires i + PACKET_LEN <= |d|
    ensures BaudData(Decode(d, i).baudRate) == [0, d[i + 3], d[i + 4], d[i + 5]]
  {
    ThreeBytes(d[i + 3], d[i + 4], d[i + 5]);
  }

  lemma ThreeBytes(h: int, m: int, l: int)
    requires 0 <= h < 256 && 0 <= m < 256 && 0 <= l < 256
    ensures var n := h * 0x1_0000 + m * 0x100 + l;
            n / 0x100_0000 == 0 && (n / 0x1_0000) % 256 == h && (n / 0x100) % 256 == m && n % 256 == l
  {
    var n := h * 0x1_0000 + m * 0x100 + l;
    assert n / 0x1_0000 == h;
    assert n / 0x100 == h * 256 + m;
    assert (h * 256 + m) % 256 == m;
    assert n == (h * 256 + m) * 256 + l;
  }

  /** Only a zero baud rate makes one of the four commands a query. */
  lemma OnlyZeroBaudQueries(d: bytes, i: nat, c: Command)
    requires i + PACKET_LEN <= |d| && c in Commands(Decode(d, i))
    ensures IsQuery(c) <==> c.code == SET_BAUDRATE && Decode(d, i).baudRate == 0
  {
    BaudDataOf(d, i);
  }

  lemma TerminatorPastPrefix(x: byte, y: byte, b: bytes)
    requires x != IAC && y != IAC
    ensures HasTerminator([x, y] + b) <==> HasTerminator(b)
  {
    var body := [x, y] + b;
    assert forall j: nat :: j < |b| ==> body[j + 2] == b[j];
    if j: nat :| j < |b| && TerminatorAt(b, j) {
      assert TerminatorAt(body, j + 2);
    }
    if j: nat :| j < |body| && TerminatorAt(body, j) {
      assert TerminatorAt(b, j - 2);
    }
  }

  lemma CleanCommands(d: bytes, i: nat)
    requires i + PACKET_LEN <= |d|
    ensures (forall c :: c in Commands(Decode(d, i)) ==> Clean(c)) <==> !HasTerminator(BaudBytes(d, i))
  {
    var cmds := Commands(Decode(d, i));
    BaudDataOf(d, i);
    TerminatorPastPrefix(SET_BAUDRATE, 0, BaudBytes(d, i));
    assert Body(cmds[0]) == [SET_BAUDRATE, 0] + BaudBytes(d, i);
    assert Clean(cmds[1]) && Clean(cmds[2]) && Clean(cmds[3]);
    assert cmds[0] in cmds;
  }

  /** The print is 31 bytes and scans back to the four commands iff the baud bytes lack FF F0. */
  lemma PacketRoundTrip(d: bytes, i: nat)
    requires i + PACKET_LEN <= |d|
    ensures |Print(Commands(Decode(d, i)))| == 31
    ensures Scan(Print(Commands(Decode(d, i)))) == Commands(Decode(d, i)) <==> !HasTerminator(BaudBytes(d, i))
  {
    RoundTrip(Commands(Decode(d, i)));
    CleanCommands(d, i);
    PrintLayout(d, i);
  }

  function BaudFrame(b: bytes): bytes {
    [IAC, SB, COM_PORT_OPTION, SET_BAUDRATE, 0] + b + [IAC, SE]
  }

  function ByteFrame(code: byte, b: byte): bytes {
    [IAC, SB, COM_PORT_OPTION, code, b, IAC, SE]
  }

  /** The print, frame by frame. */
  lemma PrintLayout(d: bytes, i: nat)
    requires i + PACKET_LEN <= |d|
    ensures var c := Decode(d, i);
            Print(Commands(c)) ==
            BaudFrame(BaudBytes(d, i)) + ByteFrame(SET_DATASIZE, c.dataBits) + ByteFrame(SET_PARITY, c.parity + 1)
            + ByteFrame(SET_STOPSIZE, c.stopBits)
  {
    var c := Decode(d, i);
    BaudDataOf(d, i);
    var baud := Command(SET_BAUDRATE, BaudData(c.baudRate));
    PrintFour(baud, Command(SET_DATASIZE, [c.dataBits]),
              Command(SET_PARITY, [c.parity + 1]), Command(SET_STOPSIZE, [c.stopBits]));
    assert Body(baud) == [SET_BAUDRATE, 0] + BaudBytes(d, i);
    assert Frame(baud) == BaudFrame(BaudBytes(d, i));
    assert Frame(Command(SET_DATASIZE, [c.dataBits])) == ByteFrame(SET_DATASIZE, c.dataBits);
    assert Frame(Command(SET_PARITY, [c.parity + 1])) == ByteFrame(SET_PARITY, c.parity + 1);
    assert Frame(Command(SET_STOPSIZE, [c.stopBits])) == ByteFrame(SET_STOPSIZE, c.stopBits);
  }

  lemma SameParts(a: bytes, b: bytes, x: bytes, y: bytes)
    requires |a| == |x|
    ensures a + b == x + y <==> a == x && b == y
  {
    if a + b == x + y {
      assert a == (a + b)[..|a|] && b == (a + b)[|a|..];
      assert x == (x + y)[..|a|] && y == (x + y)[|a|..];
    }
  }

  lemma SameFrame(code: byte, a: byte, b: byte)
    ensures ByteFrame(code, a) == ByteFrame(code, b) <==> a == b
  {
    assert ByteFrame(code, a)[4] == a && ByteFrame(code, b)[4] == b;
  }

  lemma SameBaudFrame(a: bytes, b: bytes)
    requires |a| == |b|
    ensures BaudFrame(a) == BaudFrame(b) <==> a == b
  {
    var opening := [IAC, SB, COM_PORT_OPTION, SET_BAUDRATE, 0];
    SameParts(opening + a, [IAC, SE], opening + b, [IAC, SE]);
    SameParts(opening, a, opening, b);
  }

  /** Two packets print the same iff they agree on everything but ignored parameter bits. */
  lemma SamePrint(d: bytes, i: nat, e: bytes, j: nat)
    requires i + PACKET_LEN <= |d| && j + PACKET_LEN <= |e|
    ensures Print(Commands(Decode(d, i))) == Print(Commands(Decode(e, j))) <==>
            BaudBytes(d, i) == BaudBytes(e, j) && SameParameter(d[i + 6], e[j + 6])
  {
    var a, b := Decode(d, i), Decode(e, j);
    PrintLayout(d, i);
    PrintLayout(e, j);
    var a1, b1 := BaudFrame(BaudBytes(d, i)), BaudFrame(BaudBytes(e, j));
    var a2, b2 := ByteFrame(SET_DATASIZE, a.dataBits), ByteFrame(SET_DATASIZE, b.dataBits);
    var a3, b3 := ByteFrame(SET_PARITY, a.parity + 1), ByteFrame(SET_PARITY, b.parity + 1);
    var a4, b4 := ByteFrame(SET_STOPSIZE, a.stopBits), ByteFrame(SET_STOPSIZE, b.stopBits);
    SameParts(a1 + a2 + a3, a4, b1 + b2 + b3, b4);
    SameParts(a1 + a2, a3, b1 + b2, b3);
    SameParts(a1, a2, b1, b2);
    SameBaudFrame(BaudBytes(d, i), BaudBytes(e, j));
    SameFrame(SET_DATASIZE, a.dataBits, b.dataBits);
    SameFrame(SET_PARITY, a.parity + 1, b.parity + 1);
    SameFrame(SET_STOPSIZE, a.stopBits, b.stopBits);
    SameSettings(d[i + 6], e[j + 6]);
  }

  /** Equal on bits 0 to 3, and on bits 4 and 5 where bit 3 switches parity on. */
  predicate SameParameter(p: byte, q: byte) {
    && Bit(p, 0) == Bit(q, 0) && Bit(p, 1) == Bit(q, 1) && Bit(p, 2) == Bit(q, 2) && Bit(p, 3) == Bit(q, 3)
    && (Bit(p, 3) ==> Bit(p, 4) == Bit(q, 4) && Bit(p, 5) == Bit(q, 5))
  }

  lemma SameSettings(p: byte, q: byte)
    ensures SameParameter(p, q) <==> p % 4 == q % 4 && Bit(p, 2) == Bit(q, 2) && ParityOf(p) == ParityOf(q)
  {
    BitPairs(p);
    BitPairs(q);
  }

  lemma PrintFour(a: Command, b: Command, c: Command, d: Command)
    ensures Print([a, b, c, d]) == Frame(a) + Frame(b) + Frame(c) + Frame(d)
  {
    calc {
      Print([a, b, c, d]);
      { assert [a, b, c, d] == [a, b] + [c, d]; PrintAppend([a, b], [c, d]); }
      Print([a, b]) + Print([c, d]);
      { PrintTwo(a, b); PrintTwo(c, d); }
      (Frame(a) + Frame(b)) + (Frame(c) + Frame(d));
      Frame(a) + Frame(b) + Frame(c) + Frame(d);
    }
  }

  lemma PrintTwo(a: Command, b: Command)
    ensures Print([a, b]) == Frame(a) + Frame(b)
  {
    assert [a, b][1..] == [b];
    assert Print([b]) == Frame(b) + Print([]);
  }
}
