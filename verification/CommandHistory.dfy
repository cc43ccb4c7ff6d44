/**
 The command loop as a function of the history of commands: what a session is set up from,
 and what the client has been told, can be read off the list of commands alone.
 */
module CommandHistory {
  import opened Bytes
  import opened Stream
  import opened UsrVcom
  import opened Protocol
  import opened Modem
  import opened CommandLoop

  /** The configuration the last command that carried one carried. */
  function LatestConfig(cmds: seq<ATCommand>): Option<Config> {
    if cmds == [] then None
    else
      var last := cmds[|cmds| - 1];
      if last.cfg.Some? then last.cfg else LatestConfig(cmds[..|cmds| - 1])
  }

  /** Everything the generic modem commands came with, in order. */
  function ModemPresets(cmds: seq<ATCommand>): bytes {
    if cmds == [] then []
    else
      var last := cmds[|cmds| - 1];
      ModemPresets(cmds[..|cmds| - 1]) + (if last.kind == Kind.Modem then last.skipped else [])
  }

  /** The orders of the generic modem commands. */
  function ModemOrders(cmds: seq<ATCommand>): seq<Order> {
    if cmds == [] then []
    else
      var last := cmds[|cmds| - 1];
      ModemOrders(cmds[..|cmds| - 1]) + (if last.kind == Kind.Modem then [Classify(last.param)] else [])
  }

  /** The modem mode a history leaves; there is a modem only after a generic modem command. */
  function ModeOfHistory(cmds: seq<ATCommand>): Option<Mode> {
    if ModemOrders(cmds) == [] then None else Some(ModeAfter(INITIAL, ModemOrders(cmds)))
  }

  function StateOf(cmds: seq<ATCommand>): State {
    State(LatestConfig(cmds), ModemPresets(cmds), ModeOfHistory(cmds))
  }

  /** The command keeps the connection in command mode. */
  predicate Stays(before: seq<ATCommand>, cmd: ATCommand) {
    match cmd.kind
    case Reg | Connect => false
    case DialTone | DialPulse => cmd.param == [] || ModemOrders(before) == []
    case Modem => true
  }

  function ReplyTo(before: seq<ATCommand>, cmd: ATCommand): bytes {
    if cmd.kind == Kind.Modem then Reply(if ModeOfHistory(before).Some? then ModeOfHistory(before).value else INITIAL, Classify(cmd.param))
    else if ModeOfHistory(before).Some? then OkText(ModeOfHistory(before).value.verbose)
    else OK
  }

  /** A plain OK that could not be written ends the loop: that to a dial while there is no modem. */
  predicate NeedsWrite(before: seq<ATCommand>, cmd: ATCommand) {
    (cmd.kind == DialTone || cmd.kind == DialPulse) && ModemOrders(before) == []
  }

  lemma StateGrows(before: seq<ATCommand>, cmd: ATCommand)
    ensures React(StateOf(before), cmd).Answer? <==> Stays(before, cmd)
    ensures Stays(before, cmd) ==>
      React(StateOf(before), cmd) == Answer(StateOf(before + [cmd]), ReplyTo(before, cmd), NeedsWrite(before, cmd))
  {
    var all := before + [cmd];
    assert all[..|all| - 1] == before;
    if cmd.kind == Kind.Modem {
      var orders := ModemOrders(all);
      assert orders[..|orders| - 1] == ModemOrders(before);
      assert ModeAfter(INITIAL, []) == INITIAL;
    } else {
      assert ModemOrders(all) == ModemOrders(before) && ModemPresets(all) == ModemPresets(before);
    }
  }

  /** The commands of a run and its end, told from the history and the writes that fail. */
  predicate Explains(before: seq<ATCommand>, cmds: seq<ATCommand>, end: End, env: Setting, writes: nat)
    decreases |cmds|
  {
    if cmds == [] then end.Refused?
    else if !Stays(before, cmds[0]) then |cmds| == 1 && React(StateOf(before), cmds[0]) == Leave(end)
    else if NeedsWrite(before, cmds[0]) && !env.succeeds(writes) then |cmds| == 1 && end.Dropped?
    else Explains(before + [cmds[0]], cmds[1..], end, env, writes + 1)
  }

  /** The replies to the commands that stayed, as far as the writes succeeded. */
  function RepliesTo(before: seq<ATCommand>, cmds: seq<ATCommand>, env: Setting, writes: nat): seq<bytes>
    decreases |cmds|
  {
    if cmds == [] then []
    else
      (if Stays(before, cmds[0]) then Written(env.succeeds(writes), ReplyTo(before, cmds[0])) else [])
      + RepliesTo(before + [cmds[0]], cmds[1..], env, writes + 1)
  }

  /** What a run wrote: a reply to each command that stayed, and ERROR when no further command came. */
  predicate Replied(before: seq<ATCommand>, run: Run, env: Setting, writes: nat) {
    run.out == RepliesTo(before, run.commands, env, writes)
               + (if run.end.Refused? then Written(env.succeeds(writes + |run.commands|), ERROR) else [])
  }

  lemma OneMore(before: seq<ATCommand>, cmd: ATCommand, rest: Run, env: Setting, writes: nat)
    requires Stays(before, cmd) && !(NeedsWrite(before, cmd) && !env.succeeds(writes))
    requires Explains(before + [cmd], rest.commands, rest.end, env, writes + 1) && Replied(before + [cmd], rest, env, writes + 1)
    ensures var run := Prepend(cmd, Written(env.succeeds(writes), ReplyTo(before, cmd)), rest);
            Explains(before, run.commands, run.end, env, writes) && Replied(before, run, env, writes)
  {
    assert ([cmd] + rest.commands)[1..] == rest.commands;
  }

  lemma LastOne(before: seq<ATCommand>, cmd: ATCommand, end: End, next: nat, env: Setting, writes: nat)
    requires if Stays(before, cmd) then NeedsWrite(before, cmd) && !env.succeeds(writes) && end.Dropped?
             else React(StateOf(before), cmd) == Leave(end) && !end.Refused?
    ensures Explains(before, [cmd], end, env, writes) && Replied(before, Run([cmd], [], end, next), env, writes)
  {
    assert [cmd][1..] == [];
  }

  /** Every run is explained by its history, and each staying command gets one reply. */
  lemma {:induction false} LoopIsHistory(ev: seq<Event>, i: nat, env: Setting, timeout: int, before: seq<ATCommand>, writes: nat)
    requires i <= |ev|
    ensures var run := Loop(ev, i, env, timeout, StateOf(before), writes);
            Explains(before, run.commands, run.end, env, writes) && Replied(before, run, env, writes)
    decreases |ev| - i
  {
    var r := ReadCommand(ev, i, env.clock, timeout);
    if r.Got? {
      StateGrows(before, r.cmd);
      if !Stays(before, r.cmd) {
        LastOne(before, r.cmd, React(StateOf(before), r.cmd).end, r.next, env, writes);
      } else if NeedsWrite(before, r.cmd) && !env.succeeds(writes) {
        LastOne(before, r.cmd, Dropped, r.next, env, writes);
      } else {
        LoopIsHistory(ev, r.next, env, env.postConnectTimeout, before + [r.cmd], writes + 1);
        AnswerGoesOn(ev, i, env, timeout, StateOf(before), writes, r.cmd, r.next, React(StateOf(before), r.cmd));
        OneMore(before, r.cmd, Loop(ev, r.next, env, env.postConnectTimeout, StateOf(before + [r.cmd]), writes + 1), env, writes);
      }
    } else {
      assert RepliesTo(before, [], env, writes) == [];
    }
  }

  // ----- How the commands were read -----

  /** The wait for the k-th command: the first has its own timeout. */
  function TimeoutOf(env: Setting, timeout: int, k: nat): int {
    if k == 0 then timeout else env.postConnectTimeout
  }

  /** The commands were read one behind the other from the positions ps, each with its own wait. */
  predicate Chained(ev: seq<Event>, env: Setting, timeout: int, run: Run, ps: seq<nat>) {
    && |ps| == |run.commands| + 1 && (forall k :: 0 <= k < |ps| ==> ps[k] <= |ev|)
    && (forall k :: 0 <= k < |run.commands| ==>
          ReadCommand(ev, ps[k], env.clock, TimeoutOf(env, timeout, k)) == Got(run.commands[k], ps[k + 1]))
    && var last := ps[|run.commands|];
       var r := ReadCommand(ev, last, env.clock, TimeoutOf(env, timeout, |run.commands|));
       if run.end.Refused? then r.NoCommand? && run.next == r.next else run.next == last
  }

  lemma ChainGrows(ev: seq<Event>, env: Setting, timeout: int, i: nat, cmd: ATCommand, reply: seq<bytes>, rest: Run, ps: seq<nat>)
    requires i <= |ev| && Chained(ev, env, env.postConnectTimeout, rest, ps)
    requires ReadCommand(ev, i, env.clock, timeout) == Got(cmd, ps[0])
    ensures Chained(ev, env, timeout, Prepend(cmd, reply, rest), [i] + ps)
  {
    var run, qs := Prepend(cmd, reply, rest), [i] + ps;
    assert forall k :: 0 <= k < |qs| ==> qs[k] == (if k == 0 then i else ps[k - 1]) <= |ev|;
    forall k | 0 <= k < |run.commands|
      ensures ReadCommand(ev, qs[k], env.clock, TimeoutOf(env, timeout, k)) == Got(run.commands[k], qs[k + 1])
    {
      if k > 0 {
        var j := k - 1;
        assert run.commands[k] == rest.commands[j] && qs[k] == ps[j] && qs[k + 1] == ps[j + 1];
        assert TimeoutOf(env, env.postConnectTimeout, j) == TimeoutOf(env, timeout, k);
      }
    }
    assert qs[|run.commands|] == ps[|rest.commands|];
  }

  /** The first command is waited for with the timeout given, all others with that for later commands. */
  lemma {:induction false} CommandsAreChained(ev: seq<Event>, i: nat, env: Setting, timeout: int, s: State, writes: nat) returns (ps: seq<nat>)
    requires i <= |ev|
    ensures Chained(ev, env, timeout, Loop(ev, i, env, timeout, s, writes), ps) && ps[0] == i
    decreases |ev| - i
  {
    var r := ReadCommand(ev, i, env.clock, timeout);
    if r.NoCommand? {
      ps := [i];
    } else {
      var reaction := React(s, r.cmd);
      if reaction.Answer? && !(reaction.needed && !env.succeeds(writes)) {
        ps := CommandsAreChained(ev, r.next, env, env.postConnectTimeout, reaction.state, writes + 1);
        AnswerGoesOn(ev, i, env, timeout, s, writes, r.cmd, r.next, reaction);
        ChainGrows(ev, env, timeout, i, r.cmd, Written(env.succeeds(writes), reaction.reply),
                   Loop(ev, r.next, env, env.postConnectTimeout, reaction.state, writes + 1), ps);
        ps := [i] + ps;
      } else {
        ps := [i, r.next];
      }
    }
  }

  // ----- What that means for a session -----

  /**
   A session is asked for by CONNECT, or by a dial with a number once a modem command came.
   It gets the latest configuration of all commands. The raw presets of CONNECT are its
   own; those of a dial are its own or, without any, what the modem commands came with.
   */
  ghost predicate AsksFor(all: seq<ATCommand>, cmd: ATCommand, modem: Option<Mode>) {
    && all != []
    && var last, earlier := all[|all| - 1], all[..|all| - 1];
       && cmd.kind == Connect && cmd.cfg == LatestConfig(all) && cmd.param == last.param
       && (if last.kind == Kind.Connect then modem == None && cmd.skipped == last.skipped
           else
             && last.kind in {DialTone, DialPulse} && last.param != []
             && (exists k :: 0 <= k < |earlier| && earlier[k].kind == Kind.Modem)
             && cmd.skipped == (if last.skipped != [] then last.skipped else ModemPresets(earlier))
             && modem == Some(ModeAfter(INITIAL, ModemOrders(earlier))))
  }

  lemma {:induction false} SessionRequest(before: seq<ATCommand>, cmds: seq<ATCommand>, cmd: ATCommand, modem: Option<Mode>,
                                         env: Setting, writes: nat)
    requires Explains(before, cmds, Client(cmd, modem), env, writes)
    ensures cmds != [] && AsksFor(before + cmds, cmd, modem)
    decreases |cmds|
  {
    var all := before + cmds;
    if |cmds| == 1 && !Stays(before, cmds[0]) {
      assert all[..|all| - 1] == before;
      if ModemOrders(before) != [] {
        var _ := ModemCameFirst(before);
      }
    } else {
      assert before + [cmds[0]] + cmds[1..] == all;
      SessionRequest(before + [cmds[0]], cmds[1..], cmd, modem, env, writes + 1);
    }
  }

  /** A registration is asked for by REG, with its own token. */
  lemma {:induction false} RegistrationRequest(before: seq<ATCommand>, cmds: seq<ATCommand>, token: bytes, env: Setting, writes: nat)
    requires Explains(before, cmds, Device(token), env, writes)
    ensures cmds != [] && cmds[|cmds| - 1].kind == Reg && cmds[|cmds| - 1].param == token
    decreases |cmds|
  {
    if Stays(before, cmds[0]) {
      RegistrationRequest(before + [cmds[0]], cmds[1..], token, env, writes + 1);
    }
  }

  /** The whole life of a connection in Handle, told from the commands it sent. */
  lemma HandleIsHistory(ev: seq<Event>, env: Setting, timeout: int, writes: nat)
    ensures var run := Loop(ev, 0, env, timeout, START, writes);
            && Explains([], run.commands, run.end, env, writes) && Replied([], run, env, writes)
            && (run.end.Client? ==> AsksFor(run.commands, run.end.cmd, run.end.modem))
            && (run.end.Device? ==>
                  run.commands != [] && run.commands[|run.commands| - 1].kind == Reg
                  && run.commands[|run.commands| - 1].param == run.end.token)
  {
    assert StateOf([]) == START;
    LoopIsHistory(ev, 0, env, timeout, [], writes);
    var run := Loop(ev, 0, env, timeout, START, writes);
    if run.end.Client? {
      SessionRequest([], run.commands, run.end.cmd, run.end.modem, env, writes);
      assert [] + run.commands == run.commands;
    } else if run.end.Device? {
      RegistrationRequest([], run.commands, run.end.token, env, writes);
    }
  }

  /** Byte for byte: the OK to a dial without a modem, the ERROR that ends a wait, and the reply to a first AT. */
  lemma PlainTexts(before: seq<ATCommand>, cmd: ATCommand)
    requires ModemOrders(before) == []
    ensures ERROR == [69, 82, 82, 79, 82, 13, 10]
    ensures cmd.kind == DialTone || cmd.kind == DialPulse ==> ReplyTo(before, cmd) == [79, 75, 13, 10]
    ensures cmd.kind == Kind.Modem && TextOf(cmd.param) == Ascii("AT") ==> ReplyTo(before, cmd) == [13, 10, 79, 75, 13, 10]
  {
    OkInNumbers();
    if cmd.kind == Kind.Modem && TextOf(cmd.param) == Ascii("AT") {
      OrderByText(cmd.param);
      InfoByText(cmd.param);
      Literals();
    }
  }

  lemma {:induction false} ModemCameFirst(cmds: seq<ATCommand>) returns (k: nat)
    requires ModemOrders(cmds) != []
    ensures k < |cmds| && cmds[k].kind == Kind.Modem
  {
    k := |cmds| - 1;
    if cmds[k].kind != Kind.Modem {
      assert ModemOrders(cmds) == ModemOrders(cmds[..k]) + [];
      k := ModemCameFirst(cmds[..k]);
    }
  }
}
