/**
 internal/connection/protocol.go: reading one AT command, and whatever comes before it,
 from a byte stream whose deadlines may fire between any two bytes.
 */
module Protocol {
  import opened Bytes
  import opened Text
  import opened Stream
  import opened UsrVcom

  datatype Kind = Reg | Connect | DialTone | DialPulse | Modem

  datatype ATCommand = ATCommand(kind: Kind, param: bytes, skipped: bytes, cfg: Option<Config>)

  // ----- readLineWithSkipped -----

  datatype LineEnd = Completed | Expired | Broken

  /** One call: the AT line, the bytes before it, how it ended and the position after it. */
  datatype Line = Line(line: bytes, skipped: bytes, end: LineEnd, next: nat)

  predicate ByteAt(ev: seq<Event>, i: nat, b: byte) {
    i < |ev| && ev[i] == Byte(b)
  }

  predicate TimeoutAt(ev: seq<Event>, i: nat) {
    i < |ev| && ev[i].Timeout?
  }

  /** Where reading goes on behind the line end at i: an LF, or a timeout, behind a CR is used up. */
  function BehindEol(ev: seq<Event>, i: nat): nat
    requires i < |ev|
  {
    if ByteAt(ev, i, CR) && (ByteAt(ev, i + 1, LF) || TimeoutAt(ev, i + 1)) then i + 2 else i + 1
  }

  /** Reading on from position i inside a line. A look-ahead uses up a timeout it meets. */
  function LineFrom(ev: seq<Event>, i: nat, inAT: bool, line: bytes, skipped: bytes): (r: Line)
    requires i <= |ev|
    ensures i <= r.next <= |ev| && (r.end != Broken ==> i < r.next)
    decreases |ev| - i
  {
    if i == |ev| then Line(line, skipped, Broken, i)
    else if ev[i].Timeout? then Line(line, skipped, Expired, i + 1)
    else
      var b := ev[i].b;
      if IsEol(b) then
        Line(line, skipped, Completed, BehindEol(ev, i))
      else if inAT then LineFrom(ev, i + 1, true, line + [b], skipped)
      else if b == AT[0] && ByteAt(ev, i + 1, AT[1]) then LineFrom(ev, i + 1, true, line + [b], skipped)
      else LineFrom(ev, if b == AT[0] && TimeoutAt(ev, i + 1) then i + 2 else i + 1, false, line, skipped + [b])
  }

  function ReadLine(ev: seq<Event>, i: nat): Line
    requires i <= |ev|
  {
    LineFrom(ev, i, false, [], [])
  }

  /** Behind a CR an LF is read too. */
  method SkipLF(reader: BufReader, b: byte, ghost at: nat)
    requires reader.Valid() && at < |reader.all| && reader.all[at] == Byte(b) && reader.consumed == at + 1
    modifies reader
    ensures reader.Valid() && reader.consumed == BehindEol(reader.all, at)
  {
    if b == CR {
      var next := reader.Peek();
      if next == Some(LF) {
        var _, _ := reader.ReadByte();
      }
    }
  }

  /** The body of the loop: one byte, and the line when it is over. */
  method TakeByte(reader: BufReader, inAT: bool, line: bytes, skipped: bytes)
    returns (over: Option<Line>, inAT': bool, line': bytes, skipped': bytes)
    requires reader.Valid()
    modifies reader
    ensures reader.Valid()
    ensures var whole := LineFrom(reader.all, old(reader.consumed), inAT, line, skipped);
            match over
            case Some(l) => l == whole && reader.consumed == l.next
            case None =>
              old(reader.consumed) < reader.consumed && whole == LineFrom(reader.all, reader.consumed, inAT', line', skipped')
  {
    over, inAT', line', skipped' := None, inAT, line, skipped;
    ghost var at := reader.consumed;
    var b, err := reader.ReadByte();
    if err != NoError {
      over := Some(Line(line, skipped, if err == TimedOut then Expired else Broken, reader.consumed));
      return;
    }
    if b == CR || b == LF {
      SkipLF(reader, b, at);
      over := Some(Line(line, skipped, Completed, reader.consumed));
      return;
    }
    if !inAT && b == AT[0] {
      var next := reader.Peek();
      if next == Some(AT[1]) {
        inAT', line' := true, line + [b];
        return;
      }
    }
    if inAT {
      line' := line + [b];
    } else {
      skipped' := skipped + [b];
    }
  }

  method ReadLineWithSkipped(reader: BufReader) returns (r: Line)
    requires reader.Valid()
    modifies reader
    ensures reader.Valid()
    ensures r == ReadLine(reader.all, old(reader.consumed)) && reader.consumed == r.next
  {
    var line, skipped, inAT := [], [], false;
    while true
      invariant reader.Valid()
      invariant ReadLine(reader.all, old(reader.consumed)) == LineFrom(reader.all, reader.consumed, inAT, line, skipped)
      decreases |reader.all| - reader.consumed
    {
      var over;
      over, inAT, line, skipped := TakeByte(reader, inAT, line, skipped);
      if over.Some? {
        return over.value;
      }
    }
  }

  // ----- parseATCommand -----

  /** The command a line spells; None when it is not an AT command. */
  function ParseATCommand(s: bytes): Option<(Kind, bytes)> {
    var upper := Upper(s);
    if AT_REG <= s then Some((Reg, s[|AT_REG|..]))
    else if AT_CONNECT <= s then Some((Connect, s[|AT_CONNECT|..]))
    else if ATDT <= upper then Some((DialTone, s[4..]))
    else if ATDP <= upper then Some((DialPulse, s[4..]))
    else if ATD <= upper && |s| > 3 then Some((DialTone, s[3..]))
    else if AT <= upper then Some((Modem, s))
    else None
  }

  // ----- ReadATCommandWithPresets -----

  datatype WaitError = WaitExpired | LineExpired | ConnectionFailed | UnknownCommand(line: bytes)

  /** The command, or why none came and whether a USR-VCOM configuration had been accepted. */
  datatype ReadResult =
    | Got(cmd: ATCommand, next: nat)
    | NoCommand(err: WaitError, cfg: Option<Config>, next: nat)

  /** What one line leads to: read on with what is known so far, or stop. */
  datatype Verdict = More(cfg: Option<Config>, kept: bytes) | Stop(result: ReadResult)

  /** Bytes before an AT line, once the line is complete. */
  function Presets(skipped: bytes, cfg: Option<Config>, kept: bytes): (Option<Config>, bytes) {
    if skipped == [] then (cfg, kept)
    else if IsUSRVCOM(skipped) then (if Parse(skipped).Some? then Parse(skipped) else cfg, kept)
    else (cfg, kept + skipped)
  }

  /** elapsed is the time since the wait began, read after the line. */
  function Judge(l: Line, elapsed: int, timeout: int, cfg: Option<Config>, kept: bytes): Verdict {
    match l.end
    case Broken => Stop(NoCommand(ConnectionFailed, cfg, l.next))
    case Expired =>
      if l.skipped != [] && l.line == [] then
        if IsUSRVCOM(l.skipped) && Parse(l.skipped).Some? then More(Parse(l.skipped), kept)
        else More(cfg, kept + l.skipped)
      else if cfg.Some? || (timeout > 0 && elapsed < timeout) then More(cfg, kept)
      else Stop(NoCommand(LineExpired, cfg, l.next))
    case Completed =>
      var (cfg', kept') := Presets(l.skipped, cfg, kept);
      var text := Trim(l.line);
      if text == [] then More(cfg', kept')
      else match ParseATCommand(text)
        case Some((kind, param)) => Stop(Got(ATCommand(kind, param, kept', cfg'), l.next))
        case None => if cfg'.Some? then More(cfg', kept') else Stop(NoCommand(UnknownCommand(text), cfg', l.next))
  }

  /** When the wait is limited, and by what: clock(i) is the time once i events have been taken. */
  datatype Wait = Wait(clock: nat -> int, start: int, timeout: int) {
    function Elapsed(i: nat): int {
      clock(i) - start
    }

    predicate Over(i: nat) {
      timeout > 0 && Elapsed(i) > timeout
    }
  }

  function ReadFrom(ev: seq<Event>, i: nat, w: Wait, cfg: Option<Config>, kept: bytes): (r: ReadResult)
    requires i <= |ev|
    ensures i <= r.next <= |ev| && (r.Got? ==> i < r.next)
    decreases |ev| - i
  {
    if w.Over(i) then NoCommand(WaitExpired, cfg, i)
    else
      var l := ReadLine(ev, i);
      match Judge(l, w.Elapsed(l.next), w.timeout, cfg, kept)
      case More(cfg', kept') => ReadFrom(ev, l.next, w, cfg', kept')
      case Stop(r) => r
  }

  function ReadCommand(ev: seq<Event>, i: nat, clock: nat -> int, timeout: int): ReadResult
    requires i <= |ev|
  {
    ReadFrom(ev, i, Wait(clock, clock(i), timeout), None, [])
  }

  method ReadATCommandWithPresets(reader: BufReader, clock: nat -> int, timeout: int) returns (r: ReadResult)
    requires reader.Valid()
    modifies reader
    ensures reader.Valid()
    ensures r == ReadCommand(reader.all, old(reader.consumed), clock, timeout) && reader.consumed == r.next
  {
    var usrvcomCfg: Option<Config> := None;
    var allSkipped: bytes := [];
    var startTime := clock(reader.consumed);
    ghost var w := Wait(clock, startTime, timeout);
    ghost var whole := ReadCommand(reader.all, reader.consumed, clock, timeout);
    while true
      invariant reader.Valid()
      invariant whole ==
                ReadFrom(reader.all, reader.consumed, w, usrvcomCfg, allSkipped)
      decreases |reader.all| - reader.consumed
    {
      if timeout > 0 && clock(reader.consumed) - startTime > timeout {
        return NoCommand(WaitExpired, usrvcomCfg, reader.consumed);
      }
      var l := ReadLineWithSkipped(reader);
      if l.end != Completed {
        if l.end == Expired {
          if |l.skipped| > 0 && |l.line| == 0 {
            if IsUSRVCOM(l.skipped) {
              var cfg := ParseUSRVCOM(l.skipped);
              if cfg.Some? && cfg.value.valid {
                usrvcomCfg := cfg;
                continue;
              }
            }
            allSkipped := allSkipped + l.skipped;
            continue;
          }
          if usrvcomCfg.Some? {
            continue;
          }
          if timeout > 0 && clock(reader.consumed) - startTime < timeout {
            continue;
          }
          return NoCommand(LineExpired, usrvcomCfg, reader.consumed);
        }
        return NoCommand(ConnectionFailed, usrvcomCfg, reader.consumed);
      }
      if |l.skipped| > 0 {
        if IsUSRVCOM(l.skipped) {
          var cfg := ParseUSRVCOM(l.skipped);
          if cfg.Some? && cfg.value.valid {
            usrvcomCfg := cfg;
          }
        } else {
          allSkipped := allSkipped + l.skipped;
        }
      }
      var cmdLine := Trim(l.line);
      if cmdLine == [] {
        continue;
      }
      var cmd := ParseATCommand(cmdLine);
      if cmd.Some? {
        return Got(ATCommand(cmd.value.0, cmd.value.1, allSkipped, usrvcomCfg), reader.consumed);
      }
      if usrvcomCfg.Some? {
        continue;
      }
      return NoCommand(UnknownCommand(cmdLine), usrvcomCfg, reader.consumed);
    }
  }
}
