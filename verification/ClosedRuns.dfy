/**
 The connections closed in a run of Lifecycle: by a takeover, by Terminate, and at the end
 of a session.
 */
module ClosedRuns {
  import opened Bytes
  import opened Lifecycle
  import opened SessionIds

  /** Only handler h has changed its place, and no connection has opened again. */
  predicate OnlyMoved(s: State, t: State, h: Id) {
    s.closed <= t.closed && s.handlers.Keys <= t.handlers.Keys
    && forall g :: g in s.handlers && g != h ==> t.handlers[g] == s.handlers[g]
  }

  lemma DeviceMoves(s: State, h: Id, name: string, pc: DevicePc)
    requires h in s.handlers
    ensures OnlyMoved(s, MoveDevice(s, h, name, pc), h)
  {
  }

  lemma ClientMoves(s: State, h: Id, name: string, pc: ClientPc, now: int, ok: bool)
    requires h in s.handlers
    ensures OnlyMoved(s, MoveClient(s, h, name, pc, now, ok), h)
  {
    if pc.Bridging? || pc.Clearing? {
      assert s.closed <= MoveClient(s, h, name, pc, now, ok).closed;
    }
  }

  lemma TerminatorMoves(s: State, h: Id, pc: TerminatorPc)
    requires h in s.handlers
    ensures OnlyMoved(s, MoveTerminator(s, h, pc), h)
  {
  }

  lemma StepMoves(s: State, a: Step)
    requires Enabled(s, a)
    ensures OnlyMoved(s, Next(s, a), a.h)
  {
    if a.Move? {
      match s.handlers[a.h]
      case Device(name, pc) => DeviceMoves(s, a.h, name, pc);
      case Client(name, pc) => ClientMoves(s, a.h, name, pc, a.now, a.ok);
      case Terminator(pc) => TerminatorMoves(s, a.h, pc);
    }
  }

  /** A step of another handler leaves h where it is; no connection opens again. */
  lemma OthersLeave(s: State, a: Step, h: Id)
    requires Enabled(s, a) && h in s.handlers
    ensures var t := Next(s, a);
            && s.closed <= t.closed && h in t.handlers
            && (t.handlers[h] != s.handlers[h] ==> a.Move? && a.h == h)
  {
    StepMoves(s, a);
  }

  // ----- Takeover -----

  /** Handler h is taking over from prior, which it has closed from the removal on. */
  predicate TakesOver(s: State, h: Id, prior: Id) {
    && h in s.handlers && s.handlers[h].Device?
    && match s.handlers[h].dpc
       case Looking => false
       case StoppingOld(p) => p == prior
       case ClosingOld(p) => p == prior
       case RemovingOld(p) => p == prior && prior in s.closed
       case Gone => prior in s.closed && h in s.closed
       case _ => prior in s.closed
  }

  lemma TakeoverStep(s: State, a: Step, h: Id, prior: Id)
    requires TakesOver(s, h, prior) && Enabled(s, a)
    ensures TakesOver(Next(s, a), h, prior)
  {
    OthersLeave(s, a, h);
    if a.Move? && a.h == h {
      MovesOn(s, a, h, prior);
    }
  }

  lemma MovesOn(s: State, a: Step, h: Id, prior: Id)
    requires TakesOver(s, h, prior) && Enabled(s, a) && a.Move? && a.h == h
    ensures TakesOver(Next(s, a), h, prior)
  {
  }

  lemma {:induction false} TakeoverRun(s: State, steps: seq<Step>, t: State, h: Id, prior: Id)
    requires TakesOver(s, h, prior) && Runs(s, steps, t)
    ensures TakesOver(t, h, prior)
    decreases |steps|
  {
    if steps != [] {
      TakeoverStep(s, steps[0], h, prior);
      TakeoverRun(Next(s, steps[0]), steps[1..], t, h, prior);
    }
  }

  /** A device that found its name taken registers only once the older one's connection is closed, and closes its own at the end. */
  lemma TakeoverCloses(s: State, steps: seq<Step>, t: State, h: Id, prior: Id)
    requires h in s.handlers && s.handlers[h].Device? && s.handlers[h].dpc == StoppingOld(prior) && Runs(s, steps, t)
    ensures h in t.handlers && t.handlers[h].Device?
    ensures t.handlers[h].dpc.RemovingOld? || t.handlers[h].dpc == Registering || t.handlers[h].dpc == Serving ==> prior in t.closed
    ensures t.handlers[h].dpc == Gone ==> prior in t.closed && h in t.closed
  {
    TakeoverRun(s, steps, t, h, prior);
  }

  // ----- Terminate -----

  /** Terminator h is closing client and then device. */
  predicate Cuts(s: State, h: Id, client: Id, device: Id) {
    && h in s.handlers && s.handlers[h].Terminator?
    && match s.handlers[h].tpc
       case Loading(_) => false
       case Cutting(c, d) => c == client && d == device
       case CuttingDevice(d) => d == device && client in s.closed
       case Returned => client in s.closed && device in s.closed
  }

  lemma CutsStep(s: State, a: Step, h: Id, client: Id, device: Id)
    requires Cuts(s, h, client, device) && Enabled(s, a)
    ensures Cuts(Next(s, a), h, client, device)
  {
    OthersLeave(s, a, h);
  }

  lemma {:induction false} CutsRun(s: State, steps: seq<Step>, t: State, h: Id, client: Id, device: Id)
    requires Cuts(s, h, client, device) && Runs(s, steps, t)
    ensures Cuts(t, h, client, device)
    decreases |steps|
  {
    if steps != [] {
      CutsStep(s, steps[0], h, client, device);
      CutsRun(Next(s, steps[0]), steps[1..], t, h, client, device);
    }
  }

  /** Terminate that finds its session has closed both its connections when it returns; nothing else interferes. */
  lemma TerminateCloses(s: State, steps: seq<Step>, t: State, h: Id, key: string)
    requires h in s.handlers && s.handlers[h] == Terminator(Loading(key)) && key in s.table
    requires Runs(s, steps, t) && steps != [] && steps[0].Move? && steps[0].h == h
    requires h in t.handlers && t.handlers[h] == Terminator(Returned)
    ensures s.table[key].client in t.closed && s.table[key].device in t.closed
  {
    var u := Next(s, steps[0]);
    assert Cuts(u, h, s.table[key].client, s.table[key].device);
    CutsRun(u, steps[1..], t, h, s.table[key].client, s.table[key].device);
  }

  // ----- The end of a session -----

  /** Client h has bridged to d, and both connections are closed from the end of the bridge on. */
  predicate Bridged(s: State, h: Id, d: Id) {
    && h in s.handlers && s.handlers[h].Client?
    && match s.handlers[h].cpc
       case Bridging(e, _) => e == d
       case Ending(e, _) => e == d && h in s.closed && d in s.closed
       case Closing(e, _) => e == d && h in s.closed && d in s.closed
       case Clearing(e, _) => e == d && h in s.closed && d in s.closed
       case Served(_) => h in s.closed && d in s.closed
       case _ => false
  }

  lemma BridgedStep(s: State, a: Step, h: Id, d: Id)
    requires Bridged(s, h, d) && Enabled(s, a)
    ensures Bridged(Next(s, a), h, d)
  {
    OthersLeave(s, a, h);
    if a.Move? && a.h == h {
      EndsOn(s, a, h, d);
    }
  }

  lemma EndsOn(s: State, a: Step, h: Id, d: Id)
    requires Bridged(s, h, d) && Enabled(s, a) && a.Move? && a.h == h
    ensures Bridged(Next(s, a), h, d)
  {
  }

  lemma {:induction false} BridgedRun(s: State, steps: seq<Step>, t: State, h: Id, d: Id)
    requires Bridged(s, h, d) && Runs(s, steps, t)
    ensures Bridged(t, h, d)
    decreases |steps|
  {
    if steps != [] {
      BridgedStep(s, steps[0], h, d);
      BridgedRun(Next(s, steps[0]), steps[1..], t, h, d);
    }
  }

  /** A client removes its session and frees its device only once both connections are closed. */
  lemma SessionCloses(s: State, steps: seq<Step>, t: State, h: Id, d: Id)
    requires h in s.handlers && s.handlers[h].Client? && s.handlers[h].cpc.Bridging? && s.handlers[h].cpc.dev == d
    requires Runs(s, steps, t)
    ensures h in t.handlers && t.handlers[h].Client?
    ensures !t.handlers[h].cpc.Bridging? ==> h in t.closed && d in t.closed
  {
    BridgedRun(s, steps, t, h, d);
  }

  // ----- A reply that fails -----

  /**
   A client whose reply could not be written takes everything back and closes its own
   connection, not the device's: with the moves of its own alone, and whatever the clock.
   */
  lemma FailedReplyUndoes(s: State, h: Id, now: int) returns (steps: seq<Step>, t: State)
    requires !s.panicked && h in s.handlers && s.handlers[h].Client? && s.handlers[h].cpc.Replying?
    requires var x := s.handlers[h].cpc;
             && Key(x.sid) in s.table && x.sid.n !in s.done && x.dev in s.devices
    ensures Runs(s, steps, t) && |steps| == 4 && steps[0] == Move(h, now, false) && forall a :: a in steps ==> a.Move? && a.h == h
    ensures var x := s.handlers[h].cpc;
            && t.handlers == s.handlers[h := Client(s.handlers[h].name, Served(x.sid))]
            && t.table == s.table - {Key(x.sid)} && t.done == s.done + {x.sid.n} && t.closed == s.closed + {h}
            && t.devices == s.devices[x.dev := s.devices[x.dev].(inSession := false, session := "")]
  {
    var m := Move(h, now, false);
    var s1 := Next(s, m);
    var s2 := Next(s1, m);
    var s3 := Next(s2, m);
    t := Next(s3, m);
    steps := [m, m, m, m];
    assert steps[1..][1..][1..][1..] == [];
    assert Runs(s3, steps[1..][1..][1..], t);
    assert Runs(s2, steps[1..][1..], t);
    assert Runs(s1, steps[1..], t);
    assert t.handlers == s.handlers[h := Client(s.handlers[h].name, Served(s.handlers[h].cpc.sid))];
  }
}
