/**
 The session table and the device flags over all interleavings of client handlers.
 */
module SessionRuns {
  import opened Bytes
  import opened SessionIds
  import opened Lifecycle
  import opened RegistryRuns

  // ----- No orphan sessions -----

  predicate SidOk(s: State, h: Id)
    requires h in s.handlers
  {
    SidOf(s.handlers[h]).Some? ==> 1 <= SidOf(s.handlers[h]).value.n <= s.adds
  }

  /** No two clients have the same session number. */
  predicate SidsApart(s: State, g: Id, h: Id)
    requires g in s.handlers && h in s.handlers
  {
    g == h || SidOf(s.handlers[g]) == None || SidOf(s.handlers[h]) == None
    || SidOf(s.handlers[g]).value.n != SidOf(s.handlers[h]).value.n
  }

  predicate Owned(s: State, key: string)
    requires key in s.table
  {
    var e := s.table[key];
    && e.client in s.handlers && Live(s.handlers[e.client])
    && DeviceOf(s.handlers[e.client]) == Some(e.device) && Key(SidOf(s.handlers[e.client]).value) == key
  }

  predicate Entered(s: State, h: Id)
    requires h in s.handlers
  {
    var x := s.handlers[h];
    Live(x) ==> Key(SidOf(x).value) in s.table && s.table[Key(SidOf(x).value)] == Session(h, DeviceOf(x).value)
  }

  /** A done channel is closed only for a session whose client is past the close. */
  predicate DoneOk(s: State, h: Id)
    requires h in s.handlers
  {
    var x := s.handlers[h];
    SidOf(x).Some? ==> (SidOf(x).value.n in s.done <==> x.cpc.Clearing? || x.cpc.Served?)
  }

  /**
   While fewer than 2^64 sessions were created: the table is exactly the sessions of the
   clients between Create and End, and its size is creates minus effective Ends.
   */
  predicate TableOk(s: State) {
    && s.counter == s.adds
    && (forall h :: h in s.handlers ==> SidOk(s, h) && Entered(s, h) && DoneOk(s, h))
    && (forall g, h :: g in s.handlers && h in s.handlers ==> SidsApart(s, g, h))
    && (forall key :: key in s.table ==> Owned(s, key))
    && (forall n :: n in s.done ==> n <= s.adds)
    && |s.table| == s.stores - s.ends
  }

  /** The step leaves the table, the counters and the done channels alone, and h where it is in its session. */
  predicate SameSession(s: State, t: State, h: Id) {
    && t.table == s.table && t.counter == s.counter && t.done == s.done
    && t.adds == s.adds && t.stores == s.stores && t.ends == s.ends
    && h in t.handlers && t.handlers == s.handlers[h := t.handlers[h]]
    && (if h in s.handlers
        then
          var x, y := s.handlers[h], t.handlers[h];
          && SidOf(x) == SidOf(y) && Live(x) == Live(y) && (Live(x) ==> DeviceOf(x) == DeviceOf(y))
          && (SidOf(x).Some? ==> (x.cpc.Clearing? || x.cpc.Served? <==> y.cpc.Clearing? || y.cpc.Served?))
        else SidOf(t.handlers[h]) == None && !Live(t.handlers[h]))
  }

  lemma SameSessionKeepsTable(s: State, t: State, h: Id)
    requires TableOk(s) && SameSession(s, t, h)
    ensures TableOk(t)
  {
    forall g | g in t.handlers
      ensures SidOk(t, g) && Entered(t, g) && DoneOk(t, g)
    {
      assert g in s.handlers ==> SidOk(s, g) && Entered(s, g) && DoneOk(s, g);
    }
    forall g, k | g in t.handlers && k in t.handlers
      ensures SidsApart(t, g, k)
    {
      assert g in s.handlers && k in s.handlers ==> SidsApart(s, g, k);
    }
    forall key | key in t.table
      ensures Owned(t, key)
    {
      assert Owned(s, key);
    }
  }

  predicate TouchesSession(x: Handler) {
    x.Client? && (x.cpc.Adding? || x.cpc.Storing? || x.cpc.Ending? || x.cpc.Closing?)
  }

  lemma OtherStepIsSame(s: State, a: Step)
    requires Enabled(s, a) && (a.Move? ==> !TouchesSession(s.handlers[a.h]))
    ensures SameSession(s, Next(s, a), a.h)
  {
    if a.Move? && s.handlers[a.h].Device? {
      DeviceStepIsSame(s, a);
    } else if a.Move? && s.handlers[a.h].Client? {
      ClientStepIsSame(s, a);
    }
  }

  lemma ClientStepIsSame(s: State, a: Step)
    requires Enabled(s, a) && a.Move? && s.handlers[a.h].Client? && !TouchesSession(s.handlers[a.h])
    ensures SameSession(s, Next(s, a), a.h)
  {
    var t := Next(s, a);
    match s.handlers[a.h].cpc
    case Finding => assert t.table == s.table;
    case Checking(_) => assert t.table == s.table;
    case Claiming(_, _) => assert t.table == s.table;
    case Replying(_, _) => assert t.table == s.table;
    case Bridging(_, _) => assert t.table == s.table;
    case Clearing(_, _) => assert t.table == s.table;
  }

  lemma DeviceStepIsSame(s: State, a: Step)
    requires Enabled(s, a) && a.Move? && s.handlers[a.h].Device?
    ensures SameSession(s, Next(s, a), a.h)
  {
    var t := Next(s, a);
    match s.handlers[a.h].dpc
    case Looking => assert t.table == s.table;
    case StoppingOld(_) => assert t.table == s.table;
    case ClosingOld(_) => assert t.table == s.table;
    case RemovingOld(_) => assert t.table == s.table;
    case Registering => assert t.table == s.table;
    case Serving => assert t.table == s.table;
  }

  lemma AddKeepsTable(s: State, a: Step)
    requires TableOk(s) && Enabled(s, a) && a.Move? && s.handlers[a.h].Client? && s.handlers[a.h].cpc.Adding?
    requires Next(s, a).adds < WRAP
    ensures TableOk(Next(s, a))
  {
    NumberIsNext(s, a);
    NewNumberKeepsTable(s, a.h, Next(s, a).handlers[a.h]);
  }

  lemma NumberIsNext(s: State, a: Step)
    requires Enabled(s, a) && a.Move? && s.handlers[a.h].Client? && s.handlers[a.h].cpc.Adding?
    requires s.counter == s.adds && s.adds + 1 < WRAP
    ensures var x := s.handlers[a.h];
            var y := Client(x.name, Storing(x.cpc.dev, Sid(a.now, s.adds + 1)));
            Next(s, a) == At(s, a.h, y).(counter := s.adds + 1, adds := s.adds + 1)
  {
    assert (s.counter + 1) % WRAP == s.counter + 1;
  }

  lemma NewNumberKeepsTable(s: State, h: Id, x: Handler)
    requires TableOk(s) && h in s.handlers && SidOf(s.handlers[h]) == None
    requires x.Client? && x.cpc.Storing? && x.cpc.sid.n == s.adds + 1
    ensures TableOk(At(s, h, x).(counter := s.adds + 1, adds := s.adds + 1))
  {
    var t := At(s, h, x).(counter := s.adds + 1, adds := s.adds + 1);
    forall g | g in t.handlers
      ensures SidOk(t, g) && Entered(t, g) && DoneOk(t, g)
    {
      assert SidOk(s, g) && Entered(s, g) && DoneOk(s, g);
    }
    forall g, k | g in t.handlers && k in t.handlers
      ensures SidsApart(t, g, k)
    {
      assert SidsApart(s, g, k) && SidOk(s, g) && SidOk(s, k);
    }
    forall key | key in t.table
      ensures Owned(t, key)
    {
      assert Owned(s, key);
    }
  }

  /** The key of a client that is not live is not in the table. */
  lemma NotInTable(s: State, h: Id)
    requires TableOk(s) && h in s.handlers && SidOf(s.handlers[h]).Some? && !Live(s.handlers[h])
    ensures Key(SidOf(s.handlers[h]).value) !in s.table
  {
    var key := Key(SidOf(s.handlers[h]).value);
    if key in s.table {
      assert Owned(s, key) && SidsApart(s, s.table[key].client, h);
      KeyInjective(SidOf(s.handlers[s.table[key].client]).value, SidOf(s.handlers[h]).value);
    }
  }

  lemma StoreKeepsTable(s: State, a: Step)
    requires TableOk(s) && Enabled(s, a) && a.Move? && s.handlers[a.h].Client? && s.handlers[a.h].cpc.Storing?
    ensures TableOk(Next(s, a)) && Key(s.handlers[a.h].cpc.sid) !in s.table
  {
    var t, key := Next(s, a), Key(s.handlers[a.h].cpc.sid);
    NotInTable(s, a.h);
    forall g | g in t.handlers
      ensures SidOk(t, g) && Entered(t, g) && DoneOk(t, g)
    {
      assert SidOk(s, g) && Entered(s, g) && DoneOk(s, g);
    }
    forall g, k | g in t.handlers && k in t.handlers
      ensures SidsApart(t, g, k)
    {
      assert SidsApart(s, g, k);
    }
    forall k | k in t.table
      ensures Owned(t, k)
    {
      assert k != key ==> Owned(s, k);
    }
  }

  lemma EndKeepsTable(s: State, a: Step)
    requires TableOk(s) && Enabled(s, a) && a.Move? && s.handlers[a.h].Client? && s.handlers[a.h].cpc.Ending?
    ensures TableOk(Next(s, a)) && Key(s.handlers[a.h].cpc.sid) in s.table
  {
    assert Entered(s, a.h);
    RemovalKeepsTable(s, Next(s, a), a.h);
  }

  lemma KeysApart(s: State, g: Id, h: Id)
    requires TableOk(s) && g in s.handlers && h in s.handlers && g != h
    requires SidOf(s.handlers[g]).Some? && SidOf(s.handlers[h]).Some?
    ensures Key(SidOf(s.handlers[g]).value) != Key(SidOf(s.handlers[h]).value)
  {
    assert SidsApart(s, g, h);
    KeyInjective(SidOf(s.handlers[g]).value, SidOf(s.handlers[h]).value);
  }

  /** End has taken the entry of h out of the table. */
  predicate Removed(s: State, t: State, h: Id) {
    && h in s.handlers && s.handlers[h].Client? && s.handlers[h].cpc.Ending?
    && h in t.handlers && t.handlers == s.handlers[h := t.handlers[h]]
    && t.handlers[h].Client? && t.handlers[h].cpc == Closing(s.handlers[h].cpc.dev, s.handlers[h].cpc.sid)
    && Key(s.handlers[h].cpc.sid) in s.table && t.table == s.table - {Key(s.handlers[h].cpc.sid)}
    && t.counter == s.counter && t.done == s.done
    && t.adds == s.adds && t.stores == s.stores && t.ends == s.ends + 1
  }

  lemma RemovalKeepsHandler(s: State, t: State, h: Id, g: Id)
    requires TableOk(s) && Removed(s, t, h) && g in t.handlers
    ensures SidOk(t, g) && Entered(t, g) && DoneOk(t, g)
  {
    assert SidOk(s, g) && Entered(s, g) && DoneOk(s, g);
    if g != h && Live(s.handlers[g]) {
      KeysApart(s, g, h);
    }
  }

  lemma RemovalKeepsTable(s: State, t: State, h: Id)
    requires TableOk(s) && Removed(s, t, h)
    ensures TableOk(t)
  {
    forall g | g in t.handlers
      ensures SidOk(t, g) && Entered(t, g) && DoneOk(t, g)
    {
      RemovalKeepsHandler(s, t, h, g);
    }
    forall g, k | g in t.handlers && k in t.handlers
      ensures SidsApart(t, g, k)
    {
      assert SidsApart(s, g, k);
    }
    forall k | k in t.table
      ensures Owned(t, k)
    {
      assert Owned(s, k) && Entered(s, h);
    }
    RemoveOne(s.table, Key(s.handlers[h].cpc.sid));
  }

  lemma RemoveOne<X, Y>(m: map<X, Y>, k: X)
    requires k in m
    ensures |m - {k}| == |m| - 1
  {
    assert (m - {k}).Keys == m.Keys - {k};
    assert |m.Keys| == |m| && |(m - {k}).Keys| == |m - {k}|;
  }

  lemma CloseKeepsTable(s: State, a: Step)
    requires TableOk(s) && Enabled(s, a) && a.Move? && s.handlers[a.h].Client? && s.handlers[a.h].cpc.Closing?
    ensures TableOk(Next(s, a)) && !Next(s, a).panicked
  {
    var x := s.handlers[a.h];
    assert DoneOk(s, a.h);
    var y := Client(x.name, Clearing(x.cpc.dev, x.cpc.sid));
    assert Next(s, a) == At(s, a.h, y).(done := s.done + {x.cpc.sid.n});
    ClosingKeepsTable(s, a.h, y);
  }

  lemma ClosingKeepsTable(s: State, h: Id, x: Handler)
    requires TableOk(s) && h in s.handlers && s.handlers[h].Client? && s.handlers[h].cpc.Closing?
    requires x.Client? && x.cpc == Clearing(s.handlers[h].cpc.dev, s.handlers[h].cpc.sid)
    ensures TableOk(At(s, h, x).(done := s.done + {x.cpc.sid.n}))
  {
    var t := At(s, h, x).(done := s.done + {x.cpc.sid.n});
    assert SidOk(s, h);
    forall g | g in t.handlers
      ensures SidOk(t, g) && Entered(t, g) && DoneOk(t, g)
    {
      assert SidOk(s, g) && Entered(s, g) && DoneOk(s, g) && SidsApart(s, g, h);
    }
    forall g, k | g in t.handlers && k in t.handlers
      ensures SidsApart(t, g, k)
    {
      assert SidsApart(s, g, k);
    }
    forall k | k in t.table
      ensures Owned(t, k)
    {
      assert Owned(s, k);
    }
  }

  lemma StepKeepsTable(s: State, a: Step)
    requires TableOk(s) && Enabled(s, a) && Next(s, a).adds < WRAP
    ensures TableOk(Next(s, a))
  {
    if a.Arrive? || !TouchesSession(s.handlers[a.h]) {
      OtherStepIsSame(s, a);
      SameSessionKeepsTable(s, Next(s, a), a.h);
    } else {
      match s.handlers[a.h].cpc
      case Adding(_) => AddKeepsTable(s, a);
      case Storing(_, _) => StoreKeepsTable(s, a);
      case Ending(_, _) => EndKeepsTable(s, a);
      case Closing(_, _) => CloseKeepsTable(s, a);
    }
  }

  lemma {:induction false} AddsGrow(s: State, steps: seq<Step>, t: State)
    requires Runs(s, steps, t)
    ensures s.adds <= t.adds
    decreases |steps|
  {
    if steps != [] {
      AddsGrow(Next(s, steps[0]), steps[1..], t);
    }
  }

  lemma {:induction false} RunKeepsTable(s: State, steps: seq<Step>, t: State)
    requires TableOk(s) && Runs(s, steps, t) && t.adds < WRAP
    ensures TableOk(t)
    decreases |steps|
  {
    if steps != [] {
      AddsGrow(Next(s, steps[0]), steps[1..], t);
      StepKeepsTable(s, steps[0]);
      RunKeepsTable(Next(s, steps[0]), steps[1..], t);
    }
  }

  /** Some client between the table entry of Create and its removal has a session of this ID. */
  ghost predicate HasLiveClient(s: State, key: string) {
    exists h :: h in s.handlers && Live(s.handlers[h]) && Key(SidOf(s.handlers[h]).value) == key
  }

  lemma TableIsLive(s: State, key: string)
    requires TableOk(s)
    ensures key in s.table <==> HasLiveClient(s, key)
  {
    if key in s.table {
      assert Owned(s, key);
    }
    if h :| h in s.handlers && Live(s.handlers[h]) && Key(SidOf(s.handlers[h]).value) == key {
      assert Entered(s, h);
    }
  }

  lemma ReachableTable(steps: seq<Step>, t: State)
    requires Runs(EMPTY, steps, t) && t.adds < WRAP
    ensures TableOk(t)
  {
    RunKeepsTable(EMPTY, steps, t);
  }

  /** A client that has returned after its session has left no entry, and its done channel is closed. */
  lemma NothingLeftBehind(t: State, h: Id)
    requires TableOk(t) && h in t.handlers && t.handlers[h].Client? && t.handlers[h].cpc.Served?
    ensures Key(t.handlers[h].cpc.sid) !in t.table && t.handlers[h].cpc.sid.n in t.done
  {
    NotInTable(t, h);
    assert DoneOk(t, h);
  }

  /**
   No orphans, whatever interleaves: the table holds exactly the sessions of the clients
   between the table entry of Create and its removal, as many as were created and not yet
   ended; and a client that has returned after its session has left nothing behind.
   */
  lemma NoOrphans(steps: seq<Step>, t: State)
    requires Runs(EMPTY, steps, t) && t.adds < WRAP
    ensures forall key :: key in t.table <==> HasLiveClient(t, key)
    ensures |t.table| == t.stores - t.ends
    ensures forall h :: h in t.handlers && t.handlers[h].Client? && t.handlers[h].cpc.Served? ==>
      Key(t.handlers[h].cpc.sid) !in t.table && t.handlers[h].cpc.sid.n in t.done
  {
    ReachableTable(steps, t);
    forall key
      ensures key in t.table <==> HasLiveClient(t, key)
    {
      TableIsLive(t, key);
    }
    forall h | h in t.handlers && t.handlers[h].Client? && t.handlers[h].cpc.Served?
      ensures Key(t.handlers[h].cpc.sid) !in t.table && t.handlers[h].cpc.sid.n in t.done
    {
      NothingLeftBehind(t, h);
    }
  }

  // ----- No channel is closed twice -----

  lemma StepDoesNotPanic(s: State, a: Step)
    requires Fresh(s) && StopsOnce(s) && TableOk(s) && Enabled(s, a) && TakeoversApart(s)
    ensures !Next(s, a).panicked
  {
    if a.Move? && s.handlers[a.h].Device? && s.handlers[a.h].dpc.StoppingOld? {
      StoppingKeepsStopsOnce(s, a);
    } else if a.Move? && s.handlers[a.h].Client? && s.handlers[a.h].cpc.Closing? {
      CloseKeepsTable(s, a);
    } else {
      OnlyClosesPanic(s, a);
    }
  }

  /** Nothing but the close of a channel can bring the process down. */
  lemma OnlyClosesPanic(s: State, a: Step)
    requires Enabled(s, a)
    requires !(a.Move? && s.handlers[a.h].Device? && s.handlers[a.h].dpc.StoppingOld?)
    requires !(a.Move? && s.handlers[a.h].Client? && s.handlers[a.h].cpc.Closing?)
    ensures !Next(s, a).panicked
  {
    if a.Move? {
      match s.handlers[a.h]
      case Device(name, pc) => assert !MoveDevice(s, a.h, name, pc).panicked;
      case Client(name, pc) => assert !MoveClient(s, a.h, name, pc, a.now, a.ok).panicked;
      case Terminator(pc) => assert !MoveTerminator(s, a.h, pc).panicked;
    }
  }

  lemma {:induction false} RunDoesNotPanic(s: State, steps: seq<Step>, t: State)
    requires Fresh(s) && StopsOnce(s) && TableOk(s) && !s.panicked && RunsUncontested(s, steps, t) && t.adds < WRAP
    ensures !t.panicked && Runs(s, steps, t)
    decreases |steps|
  {
    if steps != [] {
      var u := Next(s, steps[0]);
      UncontestedIsRun(u, steps[1..], t);
      AddsGrow(u, steps[1..], t);
      StepDoesNotPanic(s, steps[0]);
      StepKeepsFresh(s, steps[0]);
      FirstApart(s, steps, t);
      StepKeepsStopsOnce(s, steps[0]);
      StepKeepsTable(s, steps[0]);
      RunDoesNotPanic(u, steps[1..], t);
    }
  }

  lemma {:induction false} UncontestedIsRun(s: State, steps: seq<Step>, t: State)
    requires RunsUncontested(s, steps, t)
    ensures Runs(s, steps, t)
    decreases |steps|
  {
    if steps != [] {
      UncontestedIsRun(Next(s, steps[0]), steps[1..], t);
    }
  }

  /** While no two takeovers of one device overlap, no channel is closed twice, whatever else interleaves. */
  lemma ProcessSurvives(steps: seq<Step>, t: State)
    requires RunsUncontested(EMPTY, steps, t) && t.adds < WRAP
    ensures !t.panicked
  {
    RunDoesNotPanic(EMPTY, steps, t);
  }

  // ----- Exclusive sessions -----

  /** The client has passed the busy check for d, or holds d. */
  predicate Wants(x: Handler, d: Id) {
    DeviceOf(x) == Some(d) && (InWindow(x) || Claimed(x))
  }

  predicate WindowsApart(s: State, d: Id, g: Id, h: Id)
    requires g in s.handlers && h in s.handlers
  {
    g == h || !InWindow(s.handlers[g]) || !InWindow(s.handlers[h])
    || DeviceOf(s.handlers[g]) != Some(d) || DeviceOf(s.handlers[h]) != Some(d)
  }

  /** No two clients are between the busy check and SetSession for device object d. */
  predicate WindowExclusive(s: State, d: Id) {
    forall g, h :: g in s.handlers && h in s.handlers ==> WindowsApart(s, d, g, h)
  }

  ghost predicate RunsExclusive(s: State, steps: seq<Step>, t: State, d: Id)
    decreases |steps|
  {
    WindowExclusive(s, d) && if steps == [] then s == t
    else Enabled(s, steps[0]) && RunsExclusive(Next(s, steps[0]), steps[1..], t, d)
  }

  predicate WantsApart(s: State, d: Id, g: Id, h: Id)
    requires g in s.handlers && h in s.handlers
  {
    g == h || !Wants(s.handlers[g], d) || !Wants(s.handlers[h], d)
  }

  /** A client that has claimed d finds it marked with its session. */
  predicate MarkOk(s: State, d: Id, h: Id)
    requires h in s.handlers
  {
    var x := s.handlers[h];
    Claimed(x) && DeviceOf(x) == Some(d) ==>
      d in s.devices && s.devices[d].inSession && s.devices[d].session == Key(SidOf(x).value)
  }

  /** At most one client wants d; d is in a session exactly while one has claimed it, and names that session. */
  ghost predicate ClaimOk(s: State, d: Id) {
    && (forall g, h :: g in s.handlers && h in s.handlers ==> WantsApart(s, d, g, h))
    && (forall h :: h in s.handlers ==> MarkOk(s, d, h))
    && (ObjectOf(s, d).inSession ==> exists h :: HasClaimed(s, d, h))
  }

  predicate HasClaimed(s: State, d: Id, h: Id) {
    h in s.handlers && Claimed(s.handlers[h]) && DeviceOf(s.handlers[h]) == Some(d)
  }

  /** The step neither marks d nor moves a client into or out of its claim on d. */
  predicate SameClaim(s: State, t: State, d: Id, h: Id) {
    && h in t.handlers && t.handlers == s.handlers[h := t.handlers[h]]
    && (d in s.devices <==> d in t.devices)
    && ObjectOf(t, d).inSession == ObjectOf(s, d).inSession && ObjectOf(t, d).session == ObjectOf(s, d).session
    && (if h in s.handlers
        then
          var x, y := s.handlers[h], t.handlers[h];
          && (Wants(y, d) ==> Wants(x, d))
          && (Claimed(x) && DeviceOf(x) == Some(d) <==> Claimed(y) && DeviceOf(y) == Some(d))
          && (Claimed(y) && DeviceOf(y) == Some(d) ==> SidOf(y) == SidOf(x))
        else !Wants(t.handlers[h], d))
  }

  lemma SameClaimKeeps(s: State, t: State, d: Id, h: Id)
    requires ClaimOk(s, d) && SameClaim(s, t, d, h)
    ensures ClaimOk(t, d)
  {
    forall g, k | g in t.handlers && k in t.handlers
      ensures WantsApart(t, d, g, k)
    {
      assert g in s.handlers && k in s.handlers ==> WantsApart(s, d, g, k);
    }
    forall g | g in t.handlers
      ensures MarkOk(t, d, g)
    {
      assert g in s.handlers ==> MarkOk(s, d, g);
    }
    if ObjectOf(t, d).inSession {
      var g :| HasClaimed(s, d, g);
      assert HasClaimed(t, d, g);
    }
  }

  /** The step takes client h through the check, SetSession or ClearSession for d. */
  predicate ClaimStep(s: State, a: Step, d: Id) {
    a.Move? && a.h in s.handlers && s.handlers[a.h].Client? && DeviceOf(s.handlers[a.h]) == Some(d)
    && (s.handlers[a.h].cpc.Checking? || s.handlers[a.h].cpc.Claiming? || s.handlers[a.h].cpc.Clearing?)
  }

  lemma DeviceStepSameClaim(s: State, a: Step, d: Id)
    requires Fresh(s) && Enabled(s, a) && a.Move? && s.handlers[a.h].Device?
    requires !(a.h == d && s.handlers[a.h].dpc == Registering)
    ensures SameClaim(s, Next(s, a), d, a.h)
  {
    assert HandlerOk(s, a.h);
    if s.handlers[a.h].dpc.StoppingOld? || s.handlers[a.h].dpc == Registering {
      ObjectStepSameClaim(s, a, d);
    } else {
      assert Next(s, a).devices == s.devices;
    }
  }

  lemma ObjectStepSameClaim(s: State, a: Step, d: Id)
    requires Enabled(s, a) && a.Move? && s.handlers[a.h].Device? && HandlerOk(s, a.h)
    requires s.handlers[a.h].dpc.StoppingOld? || (s.handlers[a.h].dpc == Registering && a.h != d)
    ensures SameClaim(s, Next(s, a), d, a.h)
  {
  }

  lemma ClientStepSameClaim(s: State, a: Step, d: Id)
    requires Fresh(s) && Enabled(s, a) && a.Move? && s.handlers[a.h].Client? && !ClaimStep(s, a, d)
    ensures SameClaim(s, Next(s, a), d, a.h)
  {
    assert HandlerOk(s, a.h);
    if s.handlers[a.h].cpc.Claiming? || s.handlers[a.h].cpc.Clearing? {
      OtherDeviceMarked(s, a, d);
    } else if BeforeClaim(s.handlers[a.h]) {
      NothingMarkedYet(s, a, d);
    } else {
      NothingMarkedAnew(s, a, d);
    }
  }

  lemma OtherDeviceMarked(s: State, a: Step, d: Id)
    requires Enabled(s, a) && a.Move? && s.handlers[a.h].Client? && !ClaimStep(s, a, d)
    requires s.handlers[a.h].cpc.Claiming? || s.handlers[a.h].cpc.Clearing?
    ensures SameClaim(s, Next(s, a), d, a.h)
  {
    assert s.handlers[a.h].cpc.dev != d;
  }

  predicate BeforeClaim(x: Handler) {
    x.Client? && (x.cpc.Finding? || x.cpc.Checking? || x.cpc.Adding? || x.cpc.Storing?)
  }

  lemma NothingMarkedYet(s: State, a: Step, d: Id)
    requires Enabled(s, a) && a.Move? && !ClaimStep(s, a, d) && BeforeClaim(s.handlers[a.h])
    ensures SameClaim(s, Next(s, a), d, a.h)
  {
    assert Next(s, a).devices == s.devices;
  }

  lemma NothingMarkedAnew(s: State, a: Step, d: Id)
    requires Enabled(s, a) && a.Move? && s.handlers[a.h].Client? && !BeforeClaim(s.handlers[a.h])
    requires !s.handlers[a.h].cpc.Claiming? && !s.handlers[a.h].cpc.Clearing?
    ensures SameClaim(s, Next(s, a), d, a.h)
  {
    var t := Next(s, a);
    match s.handlers[a.h].cpc
    case Replying(_, _) => assert t.devices == s.devices;
    case Bridging(_, _) => assert t.devices == s.devices;
    case Ending(_, _) => assert t.devices == s.devices;
    case Closing(_, _) => assert t.devices == s.devices;
  }

  /** Device d comes into being: nobody can have claimed it yet. */
  lemma RegisteringKeepsClaim(s: State, a: Step)
    requires Fresh(s) && ClaimOk(s, a.h) && Enabled(s, a) && a.Move? && s.handlers[a.h].Device? && s.handlers[a.h].dpc == Registering
    ensures ClaimOk(Next(s, a), a.h)
  {
    var t, d := Next(s, a), a.h;
    assert d in s.devices ==> ObjectOk(s, d);
    forall h | h in t.handlers
      ensures !Wants(t.handlers[h], d) && MarkOk(t, d, h)
    {
      assert HandlerOk(s, h);
    }
    forall g, h | g in t.handlers && h in t.handlers
      ensures WantsApart(t, d, g, h)
    {
    }
  }

  lemma CheckKeepsClaim(s: State, a: Step, d: Id)
    requires Fresh(s) && ClaimOk(s, d) && Enabled(s, a) && ClaimStep(s, a, d) && s.handlers[a.h].cpc.Checking?
    requires WindowExclusive(Next(s, a), d)
    ensures ClaimOk(Next(s, a), d)
  {
    var t := Next(s, a);
    forall g, h | g in t.handlers && h in t.handlers
      ensures WantsApart(t, d, g, h)
    {
      assert WantsApart(s, d, g, h) && WindowsApart(t, d, g, h) && MarkOk(s, d, g) && MarkOk(s, d, h);
    }
    forall h | h in t.handlers
      ensures MarkOk(t, d, h)
    {
      assert MarkOk(s, d, h);
    }
    if h :| HasClaimed(s, d, h) {
      assert HasClaimed(t, d, h);
    }
  }

  /** The client that claims or clears d has changed the mark of d and its own place, nothing else of the claim. */
  predicate Marked(s: State, t: State, d: Id, h: Id) {
    && h in s.handlers && h in t.handlers && t.handlers == s.handlers[h := t.handlers[h]] && Wants(s.handlers[h], d)
    && d in t.devices
    && (if HasClaimed(t, d, h)
        then t.devices[d].inSession && t.devices[d].session == Key(SidOf(t.handlers[h]).value)
        else !Wants(t.handlers[h], d) && !t.devices[d].inSession)
  }

  lemma MarkKeepsClaim(s: State, a: Step, d: Id)
    requires Fresh(s) && ClaimOk(s, d) && Enabled(s, a) && ClaimStep(s, a, d) && !s.handlers[a.h].cpc.Checking?
    ensures ClaimOk(Next(s, a), d)
  {
    MarkIsMarked(s, a, d);
    MarkedKeepsClaim(s, Next(s, a), d, a.h);
  }

  lemma MarkIsMarked(s: State, a: Step, d: Id)
    requires Enabled(s, a) && ClaimStep(s, a, d) && !s.handlers[a.h].cpc.Checking?
    ensures Marked(s, Next(s, a), d, a.h)
  {
  }

  lemma MarkedKeepsClaim(s: State, t: State, d: Id, h: Id)
    requires ClaimOk(s, d) && Marked(s, t, d, h)
    ensures ClaimOk(t, d)
  {
    forall g, k | g in t.handlers && k in t.handlers
      ensures WantsApart(t, d, g, k)
    {
      assert WantsApart(s, d, g, k);
    }
    forall g | g in t.handlers
      ensures MarkOk(t, d, g)
    {
      assert WantsApart(s, d, g, h);
    }
    if ObjectOf(t, d).inSession {
      assert HasClaimed(t, d, h);
    }
  }

  lemma StepKeepsClaim(s: State, a: Step, d: Id)
    requires Fresh(s) && ClaimOk(s, d) && Enabled(s, a) && WindowExclusive(Next(s, a), d)
    ensures ClaimOk(Next(s, a), d)
  {
    if ClaimStep(s, a, d) {
      if s.handlers[a.h].cpc.Checking? {
        CheckKeepsClaim(s, a, d);
      } else {
        MarkKeepsClaim(s, a, d);
      }
    } else if a.Move? && s.handlers[a.h].Device? && s.handlers[a.h].dpc == Registering && a.h == d {
      RegisteringKeepsClaim(s, a);
    } else {
      if a.Move? && s.handlers[a.h].Device? {
        DeviceStepSameClaim(s, a, d);
      } else if a.Move? && s.handlers[a.h].Client? {
        ClientStepSameClaim(s, a, d);
      }
      SameClaimKeeps(s, Next(s, a), d, a.h);
    }
  }

  lemma {:induction false} RunKeepsClaim(s: State, steps: seq<Step>, t: State, d: Id)
    requires Fresh(s) && ClaimOk(s, d) && RunsExclusive(s, steps, t, d)
    ensures Fresh(t) && ClaimOk(t, d) && Runs(s, steps, t)
    decreases |steps|
  {
    if steps != [] {
      StepKeepsFresh(s, steps[0]);
      FirstExclusive(s, steps, t, d);
      StepKeepsClaim(s, steps[0], d);
      RunKeepsClaim(Next(s, steps[0]), steps[1..], t, d);
    }
  }

  lemma FirstExclusive(s: State, steps: seq<Step>, t: State, d: Id)
    requires steps != [] && RunsExclusive(s, steps, t, d)
    ensures WindowExclusive(Next(s, steps[0]), d)
  {
  }

  lemma OneEntryEach(t: State, d: Id)
    requires TableOk(t) && ClaimOk(t, d)
    ensures forall j, k :: j in t.table && k in t.table && t.table[j].device == d && t.table[k].device == d ==> j == k
  {
    forall j, k | j in t.table && k in t.table && t.table[j].device == d && t.table[k].device == d
      ensures j == k
    {
      assert Owned(t, j) && Owned(t, k) && WantsApart(t, d, t.table[j].client, t.table[k].client);
    }
  }

  /**
   While no two clients are between the check and the claim for the same device object, it
   has at most one session in the table, and it is marked exactly while a client holds it,
   with that client's session: from SetSession until ClearSession, past the removal by End.
   */
  lemma ExclusiveSessions(steps: seq<Step>, t: State, d: Id)
    requires RunsExclusive(EMPTY, steps, t, d) && t.adds < WRAP
    ensures forall j, k :: j in t.table && k in t.table && t.table[j].device == d && t.table[k].device == d ==> j == k
    ensures forall h :: HasClaimed(t, d, h) ==>
      d in t.devices && t.devices[d].inSession && t.devices[d].session == Key(SidOf(t.handlers[h]).value)
    ensures ObjectOf(t, d).inSession ==> exists h :: HasClaimed(t, d, h)
  {
    RunKeepsClaim(EMPTY, steps, t, d);
    ReachableTable(steps, t);
    OneEntryEach(t, d);
    forall h | HasClaimed(t, d, h)
      ensures MarkOk(t, d, h)
    {
    }
  }

  /**
   A session in the table has its device marked with its ID, except exactly while its client
   is between the table entry of Create and SetSession.
   */
  lemma MarkedUnlessClaiming(steps: seq<Step>, t: State, d: Id, key: string)
    requires RunsExclusive(EMPTY, steps, t, d) && t.adds < WRAP && key in t.table && t.table[key].device == d
    ensures t.table[key].client in t.handlers && t.handlers[t.table[key].client].Client?
    ensures ObjectOf(t, d).inSession && ObjectOf(t, d).session == key <==> !t.handlers[t.table[key].client].cpc.Claiming?
  {
    RunKeepsClaim(EMPTY, steps, t, d);
    ReachableTable(steps, t);
    var c := t.table[key].client;
    assert Owned(t, key) && MarkOk(t, d, c);
    forall h | HasClaimed(t, d, h)
      ensures h == c && !t.handlers[c].cpc.Claiming?
    {
      assert WantsApart(t, d, c, h);
    }
  }

  // ----- The condition is needed, and exact -----

  /** A client in the window gets its session into the table, whatever the device's mark says. */
  lemma WindowBecomesLive(s: State, h: Id) returns (steps: seq<Step>, t: State)
    requires !s.panicked && h in s.handlers && InWindow(s.handlers[h])
    ensures Runs(s, steps, t) && !t.panicked && t.adds <= s.adds + 1
    ensures |steps| <= 2 && forall a :: a in steps ==> a.Move? && a.h == h
    ensures h in t.handlers && t.handlers == s.handlers[h := t.handlers[h]]
    ensures t.handlers[h].Client? && t.handlers[h].cpc.Claiming? && DeviceOf(t.handlers[h]) == DeviceOf(s.handlers[h])
  {
    var m := Move(h, 0, true);
    if s.handlers[h].cpc.Claiming? {
      steps, t := [], s;
    } else if s.handlers[h].cpc.Storing? {
      steps, t := [m], Next(s, m);
      assert steps[1..] == [];
    } else {
      var u := Next(s, m);
      steps, t := [m, m], Next(u, m);
      assert steps[1..] == [m] && [m][1..] == [];
    }
  }

  /**
   From every reachable state with two clients in the window for one device object at most
   four steps of theirs give that device two sessions at once.
   */
  lemma SharedWindowDoubles(before: seq<Step>, s: State, d: Id, g: Id, h: Id) returns (steps: seq<Step>, t: State, j: string, k: string)
    requires Runs(EMPTY, before, s) && !s.panicked && s.adds + 2 < WRAP
    requires g in s.handlers && h in s.handlers && !WindowsApart(s, d, g, h)
    ensures Runs(s, steps, t) && |steps| <= 4 && forall a :: a in steps ==> a.Move? && (a.h == g || a.h == h)
    ensures j != k && j in t.table && k in t.table && t.table[j].device == d && t.table[k].device == d
  {
    var first, u := WindowBecomesLive(s, g);
    var second;
    second, t := WindowBecomesLive(u, h);
    steps := first + second;
    RunsOn(s, first, u, second, t);
    RunsOn(EMPTY, before, s, steps, t);
    ReachableTable(before + steps, t);
    assert Entered(t, g) && Entered(t, h);
    j, k := Key(SidOf(t.handlers[g]).value), Key(SidOf(t.handlers[h]).value);
  }

  /** Two clients can get into the window together. */
  lemma SharedWindowReachable() returns (steps: seq<Step>, s: State)
    ensures Runs(EMPTY, steps, s) && !s.panicked && s.adds == 0
    ensures 1 in s.handlers && 2 in s.handlers && !WindowsApart(s, 0, 1, 2)
  {
    var before := OneDeviceRegisters();
    var more1, s1 := ClientPassesCheck(ONE_DEVICE, 1);
    var more2, s2 := ClientPassesCheck(s1, 2);
    RunsOn(EMPTY, before, ONE_DEVICE, more1, s1);
    RunsOn(EMPTY, before + more1, s1, more2, s2);
    steps, s := before + more1 + more2, s2;
  }

  lemma ClientPassesCheck(s: State, h: Id) returns (steps: seq<Step>, t: State)
    requires !s.panicked && h !in s.handlers && "d" in s.registry && s.registry["d"] == 0 && !ObjectOf(s, 0).inSession
    ensures Runs(s, steps, t) && t == At(s, h, Client("d", Adding(0)))
  {
    var s1 := Next(s, Arrive(h, Client("d", Finding)));
    var s2 := Next(s1, Move(h, 0, true));
    t := Next(s2, Move(h, 0, true));
    steps := [Arrive(h, Client("d", Finding)), Move(h, 0, true), Move(h, 0, true)];
    assert Runs(s2, steps[2..], t);
    assert Runs(s1, steps[1..], t);
    assert t.handlers == s.handlers[h := Client("d", Adding(0))];
  }
}
