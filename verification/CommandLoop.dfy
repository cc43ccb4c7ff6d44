/**
 The command loop of Handle (internal/connection/handler.go): it reads commands one after
 the other, answers the ones that keep the connection in command mode, and hands the
 connection to the device or the client handler.
 */
module CommandLoop {
  import opened Bytes
  import Text
  import opened Stream
  import opened UsrVcom
  import opened Protocol
  import opened ReaderProperties
  import opened Net
  import opened Modem

  const OK := Ascii("OK\r\n")
  const ERROR := Ascii("ERROR\r\n")

  /** What the loop remembers between commands. */
  datatype State = State(cfg: Option<Config>, presets: bytes, modem: Option<Mode>)

  /** How the loop leaves the connection. */
  datatype End =
    | Refused                                          // no command came: ERROR and close
    | Dropped                                          // an OK could not be written: close
    | Device(token: bytes)                             // handleDevice
    | Client(cmd: ATCommand, modem: Option<Mode>)      // handleClient

  datatype Reaction =
    | Answer(state: State, reply: bytes, needed: bool) // needed: a failed write ends the loop
    | Leave(end: End)

  function Known(s: State, cmd: ATCommand): Option<Config> {
    if cmd.cfg.Some? then cmd.cfg else s.cfg
  }

  function React(s: State, cmd: ATCommand): Reaction {
    var cfg := Known(s, cmd);
    match cmd.kind
    case Reg => Leave(Device(cmd.param))
    case Connect => Leave(Client(cmd.(cfg := cfg), None))
    case DialTone | DialPulse =>
      if cmd.param != [] && s.modem.Some? then
        Leave(Client(ATCommand(Connect, cmd.param, if s.presets != [] && cmd.skipped == [] then s.presets else cmd.skipped, cfg), s.modem))
      else if s.modem.Some? then Answer(s.(cfg := cfg), OkText(s.modem.value.verbose), false)
      else Answer(s.(cfg := cfg), OK, true)
    case Modem =>
      var mode := if s.modem.Some? then s.modem.value else INITIAL;
      var order := Classify(cmd.param);
      Answer(State(cfg, s.presets + cmd.skipped, Some(After(mode, order))), Reply(mode, order), false)
  }

  /** The commands read, what was written to the connection, and how the loop ended. */
  datatype Run = Run(commands: seq<ATCommand>, out: seq<bytes>, end: End, next: nat)

  /** The fixed surroundings of one loop: the clock, the later timeout, and which writes succeed. */
  datatype Setting = Setting(clock: nat -> int, postConnectTimeout: int, succeeds: nat -> bool)

  function Written(succeeded: bool, data: bytes): seq<bytes> {
    if succeeded then [data] else []
  }

  /** A run that begins with one answered command. */
  function Prepend(cmd: ATCommand, out: seq<bytes>, rest: Run): Run {
    Run([cmd] + rest.commands, out + rest.out, rest.end, rest.next)
  }

  function Loop(ev: seq<Event>, i: nat, env: Setting, timeout: int, s: State, writes: nat): (r: Run)
    requires i <= |ev|
    ensures i <= r.next <= |ev|
    decreases |ev| - i
  {
    match ReadCommand(ev, i, env.clock, timeout)
    case NoCommand(_, _, next) => Run([], Written(env.succeeds(writes), ERROR), Refused, next)
    case Got(cmd, next) =>
      match React(s, cmd)
      case Leave(end) => Run([cmd], [], end, next)
      case Answer(s', reply, needed) =>
        if needed && !env.succeeds(writes) then Run([cmd], [], Dropped, next)
        else
          Prepend(cmd, Written(env.succeeds(writes), reply), Loop(ev, next, env, env.postConnectTimeout, s', writes + 1))
  }

  lemma LoopLeaves(ev: seq<Event>, i: nat, env: Setting, timeout: int, s: State, writes: nat, cmd: ATCommand, next: nat, end: End)
    requires i <= |ev| && ReadCommand(ev, i, env.clock, timeout) == Got(cmd, next) && React(s, cmd) == Leave(end)
    ensures Loop(ev, i, env, timeout, s, writes) == Run([cmd], [], end, next)
  {
  }

  const START := State(None, [], None)

  ghost function ModeOf(modem: ModemState?): Option<Mode>
    reads modem
  {
    if modem == null then None else Some(modem.Current())
  }

  /** The reader's promise about the text of a generic modem command. */
  predicate Readable(cmd: ATCommand) {
    cmd.kind == Kind.Modem ==> !Classify(cmd.param).NotAT?
  }

  lemma ReaderDelivers(ev: seq<Event>, i: nat, clock: nat -> int, timeout: int)
    requires i <= |ev|
    ensures var r := ReadCommand(ev, i, clock, timeout);
            r.Got? ==> Readable(r.cmd)
  {
    NoUnknownCommand(ev, i, Wait(clock, clock(i), timeout), None, []);
    var r := ReadCommand(ev, i, clock, timeout);
    if r.Got? && r.cmd.kind == Kind.Modem {
      HandledIffAT(r.cmd.param);
      UpperKeepsAT(r.cmd.param);
    }
  }

  lemma UpperKeepsAT(s: bytes)
    requires Text.AT <= s
    ensures Text.AT <= Text.Upper(s)
  {
    assert Text.Upper(s)[0] == Text.AT[0] && Text.Upper(s)[1] == Text.AT[1];
  }

  /** The case of a dial. */
  method Dial(conn: Conn, command: ATCommand, usrvcomCfg: Option<Config>, presets: bytes, modem: ModemState?)
    returns (end: Option<End>)
    requires command.kind in {DialTone, DialPulse} && (command.cfg.Some? ==> usrvcomCfg == command.cfg)
    modifies conn
    ensures match React(State(usrvcomCfg, presets, old(ModeOf(modem))), command)
            case Leave(e) => end == Some(e) && conn.out == old(conn.out)
            case Answer(s, reply, needed) =>
              var ok := conn.succeeds(old(conn.attempts));
              && conn.attempts == old(conn.attempts) + 1 && conn.out == old(conn.out) + Written(ok, reply)
              && s == State(usrvcomCfg, presets, old(ModeOf(modem)))
              && end == if needed && !ok then Some(Dropped) else None
  {
    var cmd := command;
    end := None;
    if cmd.param != [] && modem != null {
      cmd := cmd.(kind := Connect);
      if usrvcomCfg.Some? && cmd.cfg.None? {
        cmd := cmd.(cfg := usrvcomCfg);
      }
      if |presets| > 0 && |cmd.skipped| == 0 {
        cmd := cmd.(skipped := presets);
      }
      end := Some(Client(cmd, Some(modem.Current())));
      return;
    }
    if modem != null {
      var _ := modem.WriteModemOK(conn);
    } else {
      var ok := conn.Write(OK);
      if !ok {
        end := Some(Dropped);
      }
    }
  }

  /** The body of the loop behind the read: the switch on the command. */
  method Dispatch(conn: Conn, command: ATCommand, cfg: Option<Config>, presets: bytes, modem: ModemState?)
    returns (end: Option<End>, presets': bytes, modem': ModemState?)
    requires Readable(command)
    modifies conn, modem
    ensures modem' != null && modem' != modem ==> fresh(modem')
    ensures var reaction := React(State(cfg, presets, old(ModeOf(modem))), command);
            match reaction
            case Leave(e) => end == Some(e) && conn.out == old(conn.out)
            case Answer(s, reply, needed) =>
              var ok := conn.succeeds(old(conn.attempts));
              && conn.attempts == old(conn.attempts) + 1
              && conn.out == old(conn.out) + Written(ok, reply)
              && (if needed && !ok then end == Some(Dropped)
                  else end == None && s == State(Known(State(cfg, presets, None), command), presets', ModeOf(modem')))
  {
    var usrvcomCfg := cfg;
    if command.cfg.Some? {
      usrvcomCfg := command.cfg;
    }
    var cmd := command;
    end, presets', modem' := None, presets, modem;
    match cmd.kind {
      case DialTone | DialPulse =>
        end := Dial(conn, cmd, usrvcomCfg, presets, modem);
      case Reg =>
        end := Some(Device(cmd.param));
      case Connect =>
        if usrvcomCfg.Some? && cmd.cfg.None? {
          cmd := cmd.(cfg := usrvcomCfg);
        }
        end := Some(Client(cmd, None));
      case Modem =>
        if modem == null {
          modem' := new ModemState();
        }
        if |cmd.skipped| > 0 {
          presets' := presets + cmd.skipped;
        }
        var handled := modem'.HandleCommand(conn, cmd.param);
    }
  }

  /** What the whole run is, given what has happened so far and the run of the rest. */
  ghost predicate Tail(whole: Run, read: seq<ATCommand>, out: seq<bytes>, before: seq<bytes>, rest: Run) {
    && whole.commands == read + rest.commands
    && before + whole.out == out + rest.out
    && whole.end == rest.end && whole.next == rest.next
  }

  /** One answered command moves from the rest of the run to its past. */
  lemma TailMoves(whole: Run, read: seq<ATCommand>, out: seq<bytes>, before: seq<bytes>, rest: Run,
                  cmd: seq<ATCommand>, reply: seq<bytes>, rest': Run)
    requires Tail(whole, read, out, before, rest)
    requires rest == Run(cmd + rest'.commands, reply + rest'.out, rest'.end, rest'.next)
    ensures Tail(whole, read + cmd, out + reply, before, rest')
  {
    assert read + (cmd + rest'.commands) == read + cmd + rest'.commands;
    assert out + (reply + rest'.out) == out + reply + rest'.out;
  }

  /** What one round does, as a relation on values. */
  predicate RoundOk(ev: seq<Event>, i: nat, env: Setting, timeout: int, s: State, writes: nat,
                    left: Option<End>, s': State, writes': nat, next: nat, cmd: seq<ATCommand>, reply: seq<bytes>)
    requires i <= |ev|
  {
    match ReadCommand(ev, i, env.clock, timeout)
    case NoCommand(_, _, n) =>
      left == Some(Refused) && next == n && cmd == [] && reply == Written(env.succeeds(writes), ERROR)
    case Got(c, n) =>
      && next == n && cmd == [c]
      && match React(s, c)
         case Leave(end) => left == Some(end) && reply == []
         case Answer(t, text, needed) =>
           && writes' == writes + 1 && reply == Written(env.succeeds(writes), text)
           && (if needed && !env.succeeds(writes) then left == Some(Dropped) && reply == [] else left == None && s' == t)
  }

  lemma RoundLeaves(ev: seq<Event>, i: nat, env: Setting, timeout: int, s: State, writes: nat,
                    left: Option<End>, s': State, writes': nat, next: nat, cmd: seq<ATCommand>, reply: seq<bytes>)
    requires i <= |ev| && RoundOk(ev, i, env, timeout, s, writes, left, s', writes', next, cmd, reply)
    requires left.Some?
    ensures next <= |ev| && Loop(ev, i, env, timeout, s, writes) == Run(cmd, reply, left.value, next)
  {
  }

  lemma RoundGoesOn(ev: seq<Event>, i: nat, env: Setting, timeout: int, s: State, writes: nat,
                    left: Option<End>, s': State, writes': nat, next: nat, cmd: seq<ATCommand>, reply: seq<bytes>)
    requires i <= |ev| && RoundOk(ev, i, env, timeout, s, writes, left, s', writes', next, cmd, reply)
    requires left.None?
    ensures next <= |ev| && |cmd| == 1
    ensures Loop(ev, i, env, timeout, s, writes) == Prepend(cmd[0], reply, Loop(ev, next, env, env.postConnectTimeout, s', writes'))
  {
    var c := ReadCommand(ev, i, env.clock, timeout).cmd;
    assert React(s, c) == Answer(s', React(s, c).reply, React(s, c).needed);
    AnswerGoesOn(ev, i, env, timeout, s, writes, c, next, React(s, c));
  }

  lemma AnswerGoesOn(ev: seq<Event>, i: nat, env: Setting, timeout: int, s: State, writes: nat,
                     c: ATCommand, next: nat, reaction: Reaction)
    requires i <= |ev| && ReadCommand(ev, i, env.clock, timeout) == Got(c, next)
    requires React(s, c) == reaction && reaction.Answer? && !(reaction.needed && !env.succeeds(writes))
    ensures Loop(ev, i, env, timeout, s, writes)
         == Prepend(c, Written(env.succeeds(writes), reaction.reply),
                    Loop(ev, next, env, env.postConnectTimeout, reaction.state, writes + 1))
  {
  }

  /** One round of the loop: None to go on. */
  method Round(reader: BufReader, conn: Conn, clock: nat -> int, timeout: int, ghost env: Setting,
               cfg: Option<Config>, presets: bytes, modem: ModemState?)
    returns (left: Option<End>, cfg': Option<Config>, presets': bytes, modem': ModemState?,
             ghost cmd: seq<ATCommand>, ghost reply: seq<bytes>)
    requires reader.Valid() && env.clock == clock && env.succeeds == conn.succeeds
    modifies reader, conn, modem
    ensures reader.Valid() && (modem' != null && modem' != modem ==> fresh(modem'))
    ensures conn.out == old(conn.out) + reply
    ensures left == None ==> old(reader.consumed) < reader.consumed
    ensures RoundOk(reader.all, old(reader.consumed), env, timeout, State(cfg, presets, old(ModeOf(modem))), old(conn.attempts),
                    left, State(cfg', presets', ModeOf(modem')), conn.attempts, reader.consumed, cmd, reply)
  {
    ReaderDelivers(reader.all, reader.consumed, clock, timeout);
    left, cfg', presets', modem', cmd, reply := None, cfg, presets, modem, [], [];
    ghost var attempt := conn.attempts;
    var r := ReadATCommandWithPresets(reader, clock, timeout);
    if r.NoCommand? {
      var ok := conn.Write(ERROR);
      reply := Written(ok, ERROR);
      left := Some(Refused);
      return;
    }
    cmd := [r.cmd];
    ghost var reaction := React(State(cfg, presets, ModeOf(modem)), r.cmd);
    left, presets', modem' := Dispatch(conn, r.cmd, cfg, presets, modem);
    reply := if reaction.Answer? then Written(conn.succeeds(attempt), reaction.reply) else [];
    if r.cmd.cfg.Some? {
      cfg' := r.cmd.cfg;
    }
  }

  method Handle(reader: BufReader, conn: Conn, clock: nat -> int, initTimeout: int, postConnectTimeout: int)
    returns (end: End, ghost run: Run)
    requires reader.Valid()
    modifies reader, conn
    ensures reader.Valid() && reader.consumed == run.next
    ensures run == Loop(reader.all, old(reader.consumed), Setting(clock, postConnectTimeout, conn.succeeds),
                        initTimeout, START, old(conn.attempts))
    ensures end == run.end && conn.out == old(conn.out) + run.out
  {
    var usrvcomCfg: Option<Config> := None;
    var rfc2217Presets: bytes := [];
    var modem: ModemState? := null;
    var timeout := initTimeout;
    ghost var env := Setting(clock, postConnectTimeout, conn.succeeds);
    ghost var read: seq<ATCommand> := [];
    run := Loop(reader.all, reader.consumed, env, initTimeout, START, conn.attempts);
    assert Tail(run, read, conn.out, conn.out, run);
    while true
      invariant reader.Valid() && (modem != null ==> fresh(modem))
      invariant Tail(run, read, conn.out, old(conn.out),
                     Loop(reader.all, reader.consumed, env, timeout,
                          State(usrvcomCfg, rfc2217Presets, ModeOf(modem)), conn.attempts))
      decreases |reader.all| - reader.consumed
    {
      ghost var rest := Loop(reader.all, reader.consumed, env, timeout,
                             State(usrvcomCfg, rfc2217Presets, ModeOf(modem)), conn.attempts);
      ghost var out, i, t, s, writes :=
        conn.out, reader.consumed, timeout, State(usrvcomCfg, rfc2217Presets, ModeOf(modem)), conn.attempts;
      var left: Option<End>;
      ghost var cmd, reply;
      left, usrvcomCfg, rfc2217Presets, modem, cmd, reply :=
        Round(reader, conn, clock, timeout, env, usrvcomCfg, rfc2217Presets, modem);
      if left.Some? {
        RoundLeaves(reader.all, i, env, t, s, writes, left, State(usrvcomCfg, rfc2217Presets, ModeOf(modem)),
                    conn.attempts, reader.consumed, cmd, reply);
        assert old(conn.out) + run.out == out + reply;
        return left.value, run;
      }
      RoundGoesOn(reader.all, i, env, t, s, writes, left, State(usrvcomCfg, rfc2217Presets, ModeOf(modem)),
                  conn.attempts, reader.consumed, cmd, reply);
      timeout := postConnectTimeout;
      TailMoves(run, read, out, old(conn.out), rest, cmd, reply,
                Loop(reader.all, reader.consumed, env, timeout,
                     State(usrvcomCfg, rfc2217Presets, ModeOf(modem)), conn.attempts));
      read := read + cmd;
    }
  }
}
