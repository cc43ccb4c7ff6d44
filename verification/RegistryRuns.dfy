/**
 The registry over all interleavings of device handlers: how fresh its entries are, when an
 entry goes missing, and when a keepalive channel is closed twice.
 */
module RegistryRuns {
  import opened Bytes
  import opened Lifecycle

  // ----- Freshness -----

  predicate EntryOk(s: State, name: string)
    requires name in s.registry
  {
    var d := s.registry[name];
    name in s.latest && s.latest[name] == d && d in s.handlers && s.handlers[d] == Device(name, Serving)
  }

  predicate ObjectOk(s: State, d: Id) {
    d in s.handlers && s.handlers[d].Device? && (s.handlers[d].dpc == Serving || s.handlers[d].dpc == Gone)
  }

  predicate HandlerOk(s: State, h: Id)
    requires h in s.handlers
  {
    var x := s.handlers[h];
    && (IsServing(x) ==> h in s.devices)
    && (DeviceOf(x).Some? ==> DeviceOf(x).value in s.devices)
    && (TakingOver(x).Some? ==>
      var d := TakingOver(x).value;
      && d in s.devices && d in s.handlers && s.handlers[d].Device? && s.handlers[d].name == x.name
      && (!x.dpc.StoppingOld? ==> s.devices[d].stopped))
  }

  /**
   An entry is the device last registered under its name, whose handler is still serving;
   device objects belong to handlers that registered, whoever holds one holds an existing
   one, and whoever has closed a keepalive channel finds it closed.
   */
  predicate Fresh(s: State) {
    && (forall name :: name in s.registry ==> EntryOk(s, name))
    && (forall d :: d in s.devices ==> ObjectOk(s, d))
    && (forall h :: h in s.handlers ==> HandlerOk(s, h))
  }

  /** Handler h changed to x, and nothing else that matters to freshness but perhaps object contents. */
  predicate OnlyHandler(s: State, t: State, h: Id, x: Handler) {
    && t.handlers == s.handlers[h := x] && t.registry == s.registry && t.latest == s.latest
    && t.devices.Keys == s.devices.Keys
    && (forall d :: d in s.devices && s.devices[d].stopped ==> t.devices[d].stopped)
  }

  lemma OnlyHandlerFresh(s: State, t: State, h: Id, x: Handler)
    requires Fresh(s) && OnlyHandler(s, t, h, x) && HandlerOk(t, h)
    requires h in s.handlers && s.handlers[h].Device? ==>
      x.Device? && x.name == s.handlers[h].name && s.handlers[h].dpc != Serving && s.handlers[h].dpc != Gone
    ensures Fresh(t)
  {
    forall name | name in t.registry
      ensures EntryOk(t, name)
    {
      assert EntryOk(s, name);
    }
    forall d | d in t.devices
      ensures ObjectOk(t, d)
    {
      assert ObjectOk(s, d);
    }
    forall g | g in t.handlers
      ensures HandlerOk(t, g)
    {
      assert g != h ==> HandlerOk(s, g);
    }
  }

  /** A step of a client or a terminator, or an arrival, as far as the registry is concerned. */
  predicate Quiet(s: State, t: State, h: Id) {
    && h in t.handlers && OnlyHandler(s, t, h, t.handlers[h])
    && (forall d :: d in s.devices ==> t.devices[d].stopped == s.devices[d].stopped)
    && TakingOver(t.handlers[h]) == None && !IsServing(t.handlers[h])
  }

  /** Such a step holds no new device object but a registered one. */
  lemma QuietStep(s: State, a: Step)
    requires Enabled(s, a) && (a.Move? ==> !s.handlers[a.h].Device?)
    requires a.Move? && DeviceOf(s.handlers[a.h]).Some? ==> DeviceOf(s.handlers[a.h]).value in s.devices
    ensures Quiet(s, Next(s, a), a.h)
    ensures var d := DeviceOf(Next(s, a).handlers[a.h]);
            d.Some? ==> a.Move? && (d == DeviceOf(s.handlers[a.h]) || d.value in s.registry.Values)
  {
    if a.Move? && s.handlers[a.h].Client? {
      ClientStepIsQuiet(s, a);
    }
  }

  lemma ClientStepIsQuiet(s: State, a: Step)
    requires Enabled(s, a) && a.Move? && s.handlers[a.h].Client?
    requires DeviceOf(s.handlers[a.h]).Some? ==> DeviceOf(s.handlers[a.h]).value in s.devices
    ensures Quiet(s, Next(s, a), a.h)
    ensures var d := DeviceOf(Next(s, a).handlers[a.h]);
            d.Some? ==> d == DeviceOf(s.handlers[a.h]) || d.value in s.registry.Values
  {
    if s.handlers[a.h].cpc.Claiming? || s.handlers[a.h].cpc.Clearing? {
      MarkingIsQuiet(s, a);
    } else {
      UnmarkedIsQuiet(s, a);
    }
  }

  lemma MarkingIsQuiet(s: State, a: Step)
    requires Enabled(s, a) && a.Move? && s.handlers[a.h].Client?
    requires s.handlers[a.h].cpc.Claiming? || s.handlers[a.h].cpc.Clearing?
    requires s.handlers[a.h].cpc.dev in s.devices
    ensures Quiet(s, Next(s, a), a.h)
    ensures var d := DeviceOf(Next(s, a).handlers[a.h]);
            d.Some? ==> d == DeviceOf(s.handlers[a.h]) || d.value in s.registry.Values
  {
    assert Next(s, a).devices.Keys == s.devices.Keys;
  }

  lemma UnmarkedIsQuiet(s: State, a: Step)
    requires Enabled(s, a) && a.Move? && s.handlers[a.h].Client?
    requires !s.handlers[a.h].cpc.Claiming? && !s.handlers[a.h].cpc.Clearing?
    ensures Quiet(s, Next(s, a), a.h)
    ensures var d := DeviceOf(Next(s, a).handlers[a.h]);
            d.Some? ==> d == DeviceOf(s.handlers[a.h]) || d.value in s.registry.Values
  {
    if s.handlers[a.h].cpc.Finding? || s.handlers[a.h].cpc.Checking? {
      SearchIsQuiet(s, a);
    } else {
      SessionIsQuiet(s, a);
    }
  }

  lemma SearchIsQuiet(s: State, a: Step)
    requires Enabled(s, a) && a.Move? && s.handlers[a.h].Client?
    requires s.handlers[a.h].cpc.Finding? || s.handlers[a.h].cpc.Checking?
    ensures Quiet(s, Next(s, a), a.h)
    ensures var d := DeviceOf(Next(s, a).handlers[a.h]);
            d.Some? ==> d == DeviceOf(s.handlers[a.h]) || d.value in s.registry.Values
  {
    assert Next(s, a).devices == s.devices;
  }

  lemma SessionIsQuiet(s: State, a: Step)
    requires Enabled(s, a) && a.Move? && s.handlers[a.h].Client? && DeviceOf(s.handlers[a.h]).Some?
    requires !s.handlers[a.h].cpc.Checking? && !s.handlers[a.h].cpc.Claiming? && !s.handlers[a.h].cpc.Clearing?
    ensures Quiet(s, Next(s, a), a.h)
    ensures var d := DeviceOf(Next(s, a).handlers[a.h]); d.Some? ==> d == DeviceOf(s.handlers[a.h])
  {
    var t := Next(s, a);
    match s.handlers[a.h].cpc
    case Adding(_) => assert t.devices == s.devices;
    case Storing(_, _) => assert t.devices == s.devices;
    case Replying(_, _) => assert t.devices == s.devices;
    case Bridging(_, _) => assert t.devices == s.devices;
    case Ending(_, _) => assert t.devices == s.devices;
    case Closing(_, _) => assert t.devices == s.devices;
  }

  lemma QuietStepKeepsFresh(s: State, a: Step)
    requires Fresh(s) && Enabled(s, a) && (a.Move? ==> !s.handlers[a.h].Device?)
    ensures Fresh(Next(s, a)) && Quiet(s, Next(s, a), a.h)
  {
    assert a.Move? ==> HandlerOk(s, a.h);
    QuietStep(s, a);
    var t := Next(s, a);
    if DeviceOf(t.handlers[a.h]).Some? && DeviceOf(t.handlers[a.h]).value in s.registry.Values {
      var name :| name in s.registry && s.registry[name] == DeviceOf(t.handlers[a.h]).value;
      assert EntryOk(s, name) && HandlerOk(s, s.registry[name]);
    }
    OnlyHandlerFresh(s, t, a.h, t.handlers[a.h]);
  }

  lemma TakeoverStepKeepsFresh(s: State, a: Step)
    requires Fresh(s) && Enabled(s, a) && a.Move? && s.handlers[a.h].Device?
    requires s.handlers[a.h].dpc == Looking || s.handlers[a.h].dpc.StoppingOld? || s.handlers[a.h].dpc.ClosingOld?
    ensures Fresh(Next(s, a))
  {
    var t, name := Next(s, a), s.handlers[a.h].name;
    assert HandlerOk(s, a.h);
    assert name in s.registry ==> EntryOk(s, name) && HandlerOk(s, s.registry[name]);
    assert OnlyHandler(s, t, a.h, t.handlers[a.h]);
    OnlyHandlerFresh(s, t, a.h, t.handlers[a.h]);
  }

  lemma RegistryStepKeepsFresh(s: State, a: Step)
    requires Fresh(s) && Enabled(s, a) && a.Move? && s.handlers[a.h].Device?
    requires s.handlers[a.h].dpc.RemovingOld? || s.handlers[a.h].dpc == Registering || s.handlers[a.h].dpc == Serving
    ensures Fresh(Next(s, a))
  {
    var t := Next(s, a);
    assert HandlerOk(s, a.h);
    forall name | name in t.registry
      ensures EntryOk(t, name)
    {
      assert name in s.registry ==> EntryOk(s, name);
    }
    forall d | d in t.devices
      ensures ObjectOk(t, d)
    {
      assert d in s.devices ==> ObjectOk(s, d);
    }
    forall g | g in t.handlers
      ensures HandlerOk(t, g)
    {
      assert HandlerOk(s, g);
    }
  }

  lemma StepKeepsFresh(s: State, a: Step)
    requires Fresh(s) && Enabled(s, a)
    ensures Fresh(Next(s, a))
  {
    if a.Arrive? || !s.handlers[a.h].Device? {
      QuietStepKeepsFresh(s, a);
    } else if s.handlers[a.h].dpc == Looking || s.handlers[a.h].dpc.StoppingOld? || s.handlers[a.h].dpc.ClosingOld? {
      TakeoverStepKeepsFresh(s, a);
    } else {
      RegistryStepKeepsFresh(s, a);
    }
  }

  lemma {:induction false} RunKeepsFresh(s: State, steps: seq<Step>, t: State)
    requires Fresh(s) && Runs(s, steps, t)
    ensures Fresh(t)
    decreases |steps|
  {
    if steps != [] {
      StepKeepsFresh(s, steps[0]);
      RunKeepsFresh(Next(s, steps[0]), steps[1..], t);
    }
  }

  /** In every interleaving a look-up finds the last device registered under the name, if anything. */
  lemma RegistryIsFresh(steps: seq<Step>, t: State)
    requires Runs(EMPTY, steps, t)
    ensures Fresh(t)
  {
    RunKeepsFresh(EMPTY, steps, t);
  }

  // ----- Missing entries -----

  /** The step registers under the name, or deletes the entry of the name. */
  predicate Touches(s: State, a: Step, name: string) {
    a.Move? && a.h in s.handlers && s.handlers[a.h].Device? && s.handlers[a.h].name == name
    && (s.handlers[a.h].dpc.RemovingOld? || s.handlers[a.h].dpc == Registering || s.handlers[a.h].dpc == Serving)
  }

  ghost predicate Touched(s: State, steps: seq<Step>, name: string)
    decreases |steps|
  {
    steps != [] && Enabled(s, steps[0])
    && (Touches(s, steps[0], name) || Touched(Next(s, steps[0]), steps[1..], name))
  }

  /**
   A registered device goes missing from the registry, or is replaced, only if a later
   Register, a takeover's delete or a deferred Unregister ran for its name.
   */
  lemma {:induction false} MissingMeansTouched(s: State, steps: seq<Step>, t: State, name: string, d: Id)
    requires Runs(s, steps, t) && name in s.registry && s.registry[name] == d
    requires !(name in t.registry && t.registry[name] == d)
    ensures Touched(s, steps, name)
    decreases |steps|
  {
    if steps != [] {
      var u := Next(s, steps[0]);
      if !Touches(s, steps[0], name) {
        UntouchedStays(s, steps[0], name);
        MissingMeansTouched(u, steps[1..], t, name, d);
      }
    }
  }

  lemma UntouchedStays(s: State, a: Step, name: string)
    requires Enabled(s, a) && !Touches(s, a, name)
    ensures var t := Next(s, a);
            (name in s.registry <==> name in t.registry) && (name in s.registry ==> t.registry[name] == s.registry[name])
  {
    if a.Move? && s.handlers[a.h].Device? {
    } else {
      assert Next(s, a).registry == s.registry;
    }
  }

  // ----- Exactly the devices being served -----

  /** Between finding no free name, or a taken one, and the deferred Unregister. */
  predicate Occupies(x: Handler) {
    x.Device? && x.dpc != Looking && x.dpc != Gone
  }

  predicate Apart(s: State, g: Id, h: Id)
    requires g in s.handlers && h in s.handlers
  {
    g == h || !Occupies(s.handlers[g]) || !Occupies(s.handlers[h]) || s.handlers[g].name != s.handlers[h].name
  }

  /** No two handlers occupy one name: no takeover of a live name. */
  predicate NamesApart(s: State) {
    forall g, h :: g in s.handlers && h in s.handlers ==> Apart(s, g, h)
  }

  ghost predicate RunsApart(s: State, steps: seq<Step>, t: State)
    decreases |steps|
  {
    NamesApart(s) && if steps == [] then s == t
    else Enabled(s, steps[0]) && RunsApart(Next(s, steps[0]), steps[1..], t)
  }

  /** A served device is found under its name, and nobody takes over. */
  predicate ListedOk(s: State, h: Id)
    requires h in s.handlers
  {
    var x := s.handlers[h];
    (IsServing(x) ==> x.name in s.registry && s.registry[x.name] == h) && TakingOver(x) == None
  }

  predicate AllListed(s: State) {
    forall h :: h in s.handlers ==> ListedOk(s, h)
  }

  /** Without takeover of a live name a name is registered exactly while a handler serves it. */
  lemma {:induction false} KeysAreServed(s: State, steps: seq<Step>, t: State)
    requires Fresh(s) && AllListed(s) && RunsApart(s, steps, t)
    ensures Fresh(t) && AllListed(t)
    ensures t.registry.Keys == set h | h in t.handlers && IsServing(t.handlers[h]) :: t.handlers[h].name
    decreases |steps|
  {
    if steps == [] {
      forall name | name in t.registry
        ensures exists h :: h in t.handlers && IsServing(t.handlers[h]) && t.handlers[h].name == name
      {
        assert EntryOk(t, name);
        assert IsServing(t.handlers[t.registry[name]]);
      }
      assert forall h :: h in t.handlers ==> ListedOk(t, h);
    } else {
      StepKeepsFresh(s, steps[0]);
      StepKeepsListed(s, steps[0]);
      KeysAreServed(Next(s, steps[0]), steps[1..], t);
    }
  }

  lemma ServedFromStart(steps: seq<Step>, t: State)
    requires RunsApart(EMPTY, steps, t)
    ensures t.registry.Keys == set h | h in t.handlers && IsServing(t.handlers[h]) :: t.handlers[h].name
  {
    KeysAreServed(EMPTY, steps, t);
  }

  lemma QuietKeepsListed(s: State, t: State, h: Id)
    requires AllListed(s) && Quiet(s, t, h)
    ensures AllListed(t)
  {
    forall g | g in t.handlers
      ensures ListedOk(t, g)
    {
      assert g != h ==> ListedOk(s, g);
    }
  }

  lemma StepKeepsListed(s: State, a: Step)
    requires Fresh(s) && AllListed(s) && Enabled(s, a) && NamesApart(s) && NamesApart(Next(s, a))
    ensures AllListed(Next(s, a))
  {
    if a.Move? && s.handlers[a.h].Device? {
      DeviceStepKeepsListed(s, a);
    } else {
      QuietStepKeepsFresh(s, a);
      QuietKeepsListed(s, Next(s, a), a.h);
    }
  }

  lemma DeviceStepKeepsListed(s: State, a: Step)
    requires Fresh(s) && AllListed(s) && Enabled(s, a) && NamesApart(s) && NamesApart(Next(s, a))
    requires a.Move? && s.handlers[a.h].Device?
    ensures AllListed(Next(s, a))
  {
    var t, x := Next(s, a), s.handlers[a.h];
    assert ListedOk(s, a.h);
    if x.dpc == Looking && x.name in s.registry {
      assert EntryOk(s, x.name);
      assert Apart(t, a.h, s.registry[x.name]);
    }
    forall g | g in t.handlers
      ensures ListedOk(t, g)
    {
      assert ListedOk(s, g) && Apart(s, g, a.h);
    }
  }

  // ----- Channels closed twice -----

  predicate Uncontested(s: State, g: Id, h: Id)
    requires g in s.handlers && h in s.handlers
  {
    g != h && s.handlers[g].Device? && s.handlers[g].dpc.StoppingOld? ==>
      TakingOver(s.handlers[g]) != TakingOver(s.handlers[h])
  }

  /** No handler is about to close the keepalive channel of a device that another one is also taking over. */
  predicate TakeoversApart(s: State) {
    forall g, h :: g in s.handlers && h in s.handlers ==> Uncontested(s, g, h)
  }

  ghost predicate RunsUncontested(s: State, steps: seq<Step>, t: State)
    decreases |steps|
  {
    TakeoversApart(s) && if steps == [] then s == t
    else Enabled(s, steps[0]) && RunsUncontested(Next(s, steps[0]), steps[1..], t)
  }

  /** Handler h has closed the channel of d and will delete the entry of its name. */
  predicate Removes(s: State, h: Id, d: Id) {
    h in s.handlers && TakingOver(s.handlers[h]) == Some(d) && !s.handlers[h].dpc.StoppingOld?
  }

  /** A listed device whose channel is closed is about to be delisted. */
  ghost predicate ListedStopOk(s: State, name: string)
    requires name in s.registry
  {
    ObjectOf(s, s.registry[name]).stopped ==> exists h :: Removes(s, h, s.registry[name])
  }

  /** A channel about to be closed is still open. */
  predicate StopOk(s: State, h: Id)
    requires h in s.handlers
  {
    s.handlers[h].Device? && s.handlers[h].dpc.StoppingOld? ==> !ObjectOf(s, s.handlers[h].dpc.prior).stopped
  }

  ghost predicate StopsOnce(s: State) {
    && (forall name :: name in s.registry ==> ListedStopOk(s, name))
    && (forall h :: h in s.handlers ==> StopOk(s, h))
  }

  lemma StepKeepsStopsOnce(s: State, a: Step)
    requires Fresh(s) && StopsOnce(s) && Enabled(s, a) && TakeoversApart(s) && TakeoversApart(Next(s, a))
    ensures StopsOnce(Next(s, a))
  {
    if a.Move? && s.handlers[a.h].Device? {
      DeviceStepKeepsStopsOnce(s, a);
    } else {
      QuietStepKeepsFresh(s, a);
      QuietKeepsStopsOnce(s, Next(s, a), a.h);
    }
  }

  lemma QuietKeepsStopsOnce(s: State, t: State, h: Id)
    requires Fresh(s) && StopsOnce(s) && Quiet(s, t, h) && (h in s.handlers ==> TakingOver(s.handlers[h]) == None)
    ensures StopsOnce(t)
  {
    assert forall d :: ObjectOf(t, d).stopped == ObjectOf(s, d).stopped;
    forall name | name in t.registry
      ensures ListedStopOk(t, name)
    {
      assert ListedStopOk(s, name);
      if g :| Removes(s, g, s.registry[name]) {
        assert Removes(t, g, s.registry[name]);
      }
    }
    forall g | g in t.handlers
      ensures StopOk(t, g)
    {
      assert g != h ==> StopOk(s, g);
    }
  }

  /** A look-up: the device found is running, or its remover would contest it. */
  lemma LookingKeepsStopsOnce(s: State, a: Step)
    requires Fresh(s) && StopsOnce(s) && Enabled(s, a) && TakeoversApart(Next(s, a))
    requires a.Move? && s.handlers[a.h].Device? && s.handlers[a.h].dpc == Looking
    ensures StopsOnce(Next(s, a))
  {
    var t, name := Next(s, a), s.handlers[a.h].name;
    if name in s.registry {
      assert ListedStopOk(s, name);
      if h :| Removes(s, h, s.registry[name]) {
        assert Uncontested(t, a.h, h);
      }
    }
    RemoversStay(s, t, a.h);
    forall g | g in t.handlers
      ensures StopOk(t, g)
    {
      assert StopOk(s, g);
    }
  }

  /** The handlers that remove stay, and the rest of what matters is the same. */
  lemma RemoversStay(s: State, t: State, h: Id)
    requires StopsOnce(s) && h in s.handlers && h in t.handlers
    requires t.handlers == s.handlers[h := t.handlers[h]] && t.registry == s.registry && t.devices == s.devices
    requires TakingOver(s.handlers[h]).Some? && !s.handlers[h].dpc.StoppingOld? ==> Removes(t, h, TakingOver(s.handlers[h]).value)
    ensures forall name :: name in t.registry ==> ListedStopOk(t, name)
  {
    forall name | name in t.registry
      ensures ListedStopOk(t, name)
    {
      assert ListedStopOk(s, name);
      if g :| Removes(s, g, s.registry[name]) {
        assert Removes(t, g, s.registry[name]);
      }
    }
  }

  /** The close itself: from now on this handler removes, and nobody else was about to close. */
  lemma StoppingKeepsStopsOnce(s: State, a: Step)
    requires Fresh(s) && StopsOnce(s) && Enabled(s, a) && TakeoversApart(s)
    requires a.Move? && s.handlers[a.h].Device? && s.handlers[a.h].dpc.StoppingOld?
    ensures StopsOnce(Next(s, a)) && !Next(s, a).panicked
  {
    var t, d := Next(s, a), s.handlers[a.h].dpc.prior;
    assert StopOk(s, a.h);
    assert Removes(t, a.h, d);
    forall name | name in t.registry
      ensures ListedStopOk(t, name)
    {
      assert ListedStopOk(s, name);
      if g :| Removes(s, g, s.registry[name]) {
        assert Removes(t, g, s.registry[name]);
      }
    }
    forall g | g in t.handlers
      ensures StopOk(t, g)
    {
      assert StopOk(s, g) && Uncontested(s, a.h, g);
    }
  }

  /** The delete: whatever other device is now missing or listed, no stopped one stays without its remover. */
  lemma RegistryStepKeepsStopsOnce(s: State, a: Step)
    requires Fresh(s) && StopsOnce(s) && Enabled(s, a)
    requires a.Move? && s.handlers[a.h].Device?
    requires s.handlers[a.h].dpc.RemovingOld? || s.handlers[a.h].dpc == Registering || s.handlers[a.h].dpc == Serving
    ensures StopsOnce(Next(s, a))
  {
    var t, x := Next(s, a), s.handlers[a.h];
    forall name | name in t.registry
      ensures ListedStopOk(t, name)
    {
      if name in s.registry && s.registry[name] == t.registry[name] {
        assert ListedStopOk(s, name) && EntryOk(s, name);
        if g :| Removes(s, g, s.registry[name]) {
          assert HandlerOk(s, g);
          assert g != a.h;
          assert Removes(t, g, s.registry[name]);
        }
      }
    }
    forall g | g in t.handlers
      ensures StopOk(t, g)
    {
      assert StopOk(s, g) && HandlerOk(s, g);
    }
  }

  lemma DeviceStepKeepsStopsOnce(s: State, a: Step)
    requires Fresh(s) && StopsOnce(s) && Enabled(s, a) && TakeoversApart(s) && TakeoversApart(Next(s, a))
    requires a.Move? && s.handlers[a.h].Device?
    ensures StopsOnce(Next(s, a))
  {
    if s.handlers[a.h].dpc == Looking {
      LookingKeepsStopsOnce(s, a);
    } else if s.handlers[a.h].dpc.StoppingOld? {
      StoppingKeepsStopsOnce(s, a);
    } else if s.handlers[a.h].dpc.ClosingOld? {
      RemoversStay(s, Next(s, a), a.h);
      assert forall g :: g in s.handlers ==> StopOk(s, g);
    } else {
      RegistryStepKeepsStopsOnce(s, a);
    }
  }

  /**
   While no two takeovers of one device overlap, no keepalive channel is closed twice: the
   process never goes down for it.
   */
  lemma {:induction false} UncontestedStopsOnce(s: State, steps: seq<Step>, t: State)
    requires Fresh(s) && StopsOnce(s) && RunsUncontested(s, steps, t)
    ensures Fresh(t) && StopsOnce(t)
    ensures forall h, now, ok :: Enabled(t, Move(h, now, ok)) && t.handlers[h].Device? ==> !Next(t, Move(h, now, ok)).panicked
    decreases |steps|
  {
    if steps == [] {
      forall h, now, ok | Enabled(t, Move(h, now, ok)) && t.handlers[h].Device?
        ensures !Next(t, Move(h, now, ok)).panicked
      {
        if t.handlers[h].dpc.StoppingOld? {
          StoppingKeepsStopsOnce(t, Move(h, now, ok));
        }
      }
    } else {
      StepKeepsFresh(s, steps[0]);
      FirstApart(s, steps, t);
      StepKeepsStopsOnce(s, steps[0]);
      UncontestedStopsOnce(Next(s, steps[0]), steps[1..], t);
    }
  }

  lemma FirstApart(s: State, steps: seq<Step>, t: State)
    requires steps != [] && RunsUncontested(s, steps, t)
    ensures TakeoversApart(Next(s, steps[0]))
  {
  }

  /** And the condition is exact: where it fails, at most two steps bring the process down. */
  lemma ContestedPanics(s: State, g: Id, h: Id) returns (steps: seq<Step>, t: State)
    requires Fresh(s) && !s.panicked && g in s.handlers && h in s.handlers && !Uncontested(s, g, h)
    ensures Runs(s, steps, t) && t.panicked && |steps| <= 2
  {
    assert HandlerOk(s, h);
    var a, b := Move(g, 0, true), Move(h, 0, true);
    var u := Next(s, a);
    if u.panicked {
      steps, t := [a], u;
    } else {
      steps, t := [a, b], Next(u, b);
      assert steps[1..] == [b] && [b][1..] == [];
    }
  }

  // ----- Witnesses -----

  /** One device registered under the name d. */
  const ONE_DEVICE := State(map[0 := Device("d", Serving)], map["d" := 0], map[0 := DeviceObject(false, "", false)],
                            map[], 0, {}, {}, 0, 0, 0, map["d" := 0], false)

  lemma OneDeviceRegisters() returns (steps: seq<Step>)
    ensures Runs(EMPTY, steps, ONE_DEVICE)
  {
    var s1 := Next(EMPTY, Arrive(0, Device("d", Looking)));
    var s2 := Next(s1, Move(0, 0, true));
    steps := [Arrive(0, Device("d", Looking)), Move(0, 0, true), Move(0, 0, true)];
    assert Next(s2, Move(0, 0, true)) == ONE_DEVICE;
    assert Runs(s2, steps[2..], ONE_DEVICE);
    assert Runs(s1, steps[1..], ONE_DEVICE);
  }

  /** Two devices that take the same name over at once close one channel twice. */
  lemma DoubleTakeoverPanics() returns (steps: seq<Step>, t: State)
    ensures Runs(EMPTY, steps, t) && t.panicked
  {
    var before := OneDeviceRegisters();
    var s1 := Next(ONE_DEVICE, Arrive(1, Device("d", Looking)));
    var s2 := Next(s1, Arrive(2, Device("d", Looking)));
    var s3 := Next(s2, Move(1, 0, true));
    var s4 := Next(s3, Move(2, 0, true));
    RegistryIsFresh(before, ONE_DEVICE);
    var more := [Arrive(1, Device("d", Looking)), Arrive(2, Device("d", Looking)), Move(1, 0, true), Move(2, 0, true)];
    assert Runs(s3, more[3..], s4);
    assert Runs(s2, more[2..], s4);
    assert Runs(s1, more[1..], s4);
    RunKeepsFresh(ONE_DEVICE, more, s4);
    var last;
    last, t := ContestedPanics(s4, 1, 2);
    RunsOn(EMPTY, before, ONE_DEVICE, more, s4);
    RunsOn(EMPTY, before + more, s4, last, t);
    steps := before + more + last;
  }

  /** A handler that occupies a name gets to serving in at most four steps of its own, or the process goes down. */
  lemma {:induction false} ServesOrPanics(s: State, h: Id) returns (steps: seq<Step>, t: State)
    requires !s.panicked && h in s.handlers && Occupies(s.handlers[h])
    ensures Runs(s, steps, t) && |steps| <= 4 - Stage(s.handlers[h].dpc)
    ensures t.panicked || t.handlers == s.handlers[h := Device(s.handlers[h].name, Serving)]
    decreases 4 - Stage(s.handlers[h].dpc)
  {
    if IsServing(s.handlers[h]) {
      steps, t := [], s;
    } else {
      var m := Move(h, 0, true);
      var u := Next(s, m);
      if u.panicked {
        steps, t := [], u;
      } else {
        assert u.handlers[h].name == s.handlers[h].name && Stage(u.handlers[h].dpc) == Stage(s.handlers[h].dpc) + 1;
        steps, t := ServesOrPanics(u, h);
      }
      steps := [m] + steps;
    }
  }

  function Stage(pc: DevicePc): nat {
    match pc
    case StoppingOld(_) => 0
    case ClosingOld(_) => 1
    case RemovingOld(_) => 2
    case Registering => 3
    case _ => 4
  }

  /**
   And the condition of ServedFromStart is exact: wherever two handlers occupy one name, at
   most nine steps bring the process down or leave one of them serving and not registered.
   */
  lemma SharedNameDelists(s: State, g: Id, h: Id) returns (steps: seq<Step>, t: State)
    requires !s.panicked && g in s.handlers && h in s.handlers && !Apart(s, g, h)
    ensures Runs(s, steps, t) && |steps| <= 9
    ensures t.panicked || (h in t.handlers && IsServing(t.handlers[h]) && t.handlers[h].name !in t.registry)
  {
    var first, u := ServesOrPanics(s, g);
    if u.panicked {
      return first, u;
    }
    var second, v := ServesOrPanics(u, h);
    RunsOn(s, first, u, second, v);
    steps, t := first + second, v;
    if !v.panicked {
      RunsSnoc(s, steps, v, Move(g, 0, true));
      steps, t := steps + [Move(g, 0, true)], Next(v, Move(g, 0, true));
    }
  }

  /** The old handler's deferred removal delists whichever device took its name over and goes on serving. */
  lemma LateRemovalDelists(s: State, g: Id, h: Id)
    requires Fresh(s) && !s.panicked && g in s.handlers && h in s.handlers && g != h
    requires IsServing(s.handlers[g]) && IsServing(s.handlers[h]) && s.handlers[g].name == s.handlers[h].name
    ensures var t := Next(s, Move(g, 0, true));
            IsServing(t.handlers[h]) && t.handlers[h].name !in t.registry
  {
  }

  /** That is reachable: a takeover ends with both handlers serving. */
  lemma TakeoverLosesEntry() returns (steps: seq<Step>, s: State)
    ensures Runs(EMPTY, steps, s) && Fresh(s) && !s.panicked
    ensures 0 in s.handlers && 1 in s.handlers && s.handlers[0] == Device("d", Serving) == s.handlers[1]
  {
    var before := OneDeviceRegisters();
    var m := Move(1, 0, true);
    var s1 := Next(ONE_DEVICE, Arrive(1, Device("d", Looking)));
    var s2 := Next(s1, m);
    var s3 := Next(s2, m);
    RunsSnoc(EMPTY, before, ONE_DEVICE, Arrive(1, Device("d", Looking)));
    RunsSnoc(EMPTY, before + [Arrive(1, Device("d", Looking))], s1, m);
    RunsSnoc(EMPTY, before + [Arrive(1, Device("d", Looking))] + [m], s2, m);
    steps := before + [Arrive(1, Device("d", Looking))] + [m] + [m];
    assert s3.handlers == map[0 := Device("d", Serving), 1 := Device("d", ClosingOld(0))] && !s3.panicked;
    steps, s := TakeoverFinishes(steps, s3);
    RegistryIsFresh(steps, s);
  }

  lemma TakeoverFinishes(before: seq<Step>, s3: State) returns (steps: seq<Step>, s: State)
    requires Runs(EMPTY, before, s3) && !s3.panicked
    requires s3.handlers == map[0 := Device("d", Serving), 1 := Device("d", ClosingOld(0))]
    ensures Runs(EMPTY, steps, s) && !s.panicked
    ensures s.handlers == map[0 := Device("d", Serving), 1 := Device("d", Serving)]
  {
    var m := Move(1, 0, true);
    var s4 := Next(s3, m);
    var s5 := Next(s4, m);
    s := Next(s5, m);
    RunsSnoc(EMPTY, before, s3, m);
    RunsSnoc(EMPTY, before + [m], s4, m);
    RunsSnoc(EMPTY, before + [m] + [m], s5, m);
    steps := before + [m] + [m] + [m];
  }
}
