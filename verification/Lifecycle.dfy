/**
 Device handlers, client handlers and callers of Terminate on one shared registry, one
 session table and any number of device objects (internal/connection/handler.go,
 internal/device/registry.go, internal/session/manager.go) as a step system. Each map
 operation, locked section, atomic add, channel close, connection close and reply is one
 step, and any goroutine may take the next one. A handler, its connection and (for a
 device) its device object carry the same number.
 */
module Lifecycle {
  import opened Bytes
  import opened SessionIds

  type Id = nat

  /** handleDevice, from the look-up of an older registration to the deferred removal. */
  datatype DevicePc =
    | Looking
    | StoppingOld(prior: Id)    // close(existing.StopKeepalive)
    | ClosingOld(prior: Id)     // existing.Conn.Close
    | RemovingOld(prior: Id)    // Unregister by name
    | Registering
    | Serving                 // until the deferred Unregister by name
    | Gone

  /** handleClient, from the look-up of the device to the end of the session. */
  datatype ClientPc =
    | Finding
    | Checking(dev: Id)             // IsInSession
    | Adding(dev: Id)               // the counter of Create
    | Storing(dev: Id, sid: Sid)    // the table entry of Create
    | Claiming(dev: Id, sid: Sid)   // SetSession
    | Replying(dev: Id, sid: Sid)   // OK or CONNECT to the client
    | Bridging(dev: Id, sid: Sid)
    | Ending(dev: Id, sid: Sid)     // LoadAndDelete of End
    | Closing(dev: Id, sid: Sid)    // close(done) of End
    | Clearing(dev: Id, sid: Sid)   // ClearSession
    | Turned                        // went away without a session
    | Served(sid: Sid)              // returned after its session

  datatype TerminatorPc = Loading(key: string) | Cutting(client: Id, device: Id) | CuttingDevice(device: Id) | Returned

  datatype Handler =
    | Device(name: string, dpc: DevicePc)
    | Client(name: string, cpc: ClientPc)
    | Terminator(tpc: TerminatorPc)

  datatype DeviceObject = DeviceObject(inSession: bool, session: string, stopped: bool)

  datatype Session = Session(client: Id, device: Id)

  datatype State = State(
    handlers: map<Id, Handler>,
    registry: map<string, Id>,
    devices: map<Id, DeviceObject>,
    table: map<string, Session>,
    counter: nat,            // the uint64 of Create
    closed: set<Id>,         // connections
    done: set<nat>,          // closed done channels, by session number
    adds: nat,               // Creates begun, entries stored, entries removed by End
    stores: nat,
    ends: nat,
    latest: map<string, Id>, // the device last registered under each name
    panicked: bool)          // a channel was closed twice: the process is gone

  const EMPTY := State(map[], map[], map[], map[], 0, {}, {}, 0, 0, 0, map[], false)

  datatype Step =
    | Arrive(h: Id, x: Handler)
    | Move(h: Id, now: int, ok: bool)   // now: the clock, if read; ok: the reply is written

  predicate AtStart(x: Handler) {
    match x
    case Device(_, pc) => pc == Looking
    case Client(_, pc) => pc == Finding
    case Terminator(pc) => pc.Loading?
  }

  predicate AtEnd(x: Handler) {
    match x
    case Device(_, pc) => pc == Gone
    case Client(_, pc) => pc == Turned || pc.Served?
    case Terminator(pc) => pc == Returned
  }

  predicate Enabled(s: State, a: Step) {
    && !s.panicked
    && match a
       case Arrive(h, x) => h !in s.handlers && AtStart(x)
       case Move(h, _, _) => h in s.handlers && !AtEnd(s.handlers[h])
  }

  function At(s: State, h: Id, x: Handler): State {
    s.(handlers := s.handlers[h := x])
  }

  /** The device object of d; one nobody has touched when there is none. */
  function ObjectOf(s: State, d: Id): DeviceObject {
    if d in s.devices then s.devices[d] else DeviceObject(false, "", false)
  }

  function MoveDevice(s: State, h: Id, name: string, pc: DevicePc): State {
    match pc
    case Looking =>
      At(s, h, Device(name, if name in s.registry then StoppingOld(s.registry[name]) else Registering))
    case StoppingOld(prior) =>
      if ObjectOf(s, prior).stopped then s.(panicked := true)
      else At(s, h, Device(name, ClosingOld(prior))).(devices := s.devices[prior := ObjectOf(s, prior).(stopped := true)])
    case ClosingOld(prior) => At(s, h, Device(name, RemovingOld(prior))).(closed := s.closed + {prior})
    case RemovingOld(_) => At(s, h, Device(name, Registering)).(registry := s.registry - {name})
    case Registering =>
      At(s, h, Device(name, Serving)).(
        devices := s.devices[h := DeviceObject(false, "", false)],
        registry := s.registry[name := h], latest := s.latest[name := h])
    case Serving => At(s, h, Device(name, Gone)).(registry := s.registry - {name}, closed := s.closed + {h})
    case Gone => s
  }

  function MoveClient(s: State, h: Id, name: string, pc: ClientPc, now: int, ok: bool): State {
    match pc
    case Finding => At(s, h, Client(name, if name in s.registry then Checking(s.registry[name]) else Turned))
    case Checking(d) => At(s, h, Client(name, if ObjectOf(s, d).inSession then Turned else Adding(d)))
    case Adding(d) =>
      var n := (s.counter + 1) % WRAP;
      At(s, h, Client(name, Storing(d, Sid(now, n)))).(counter := n, adds := s.adds + 1)
    case Storing(d, sid) =>
      At(s, h, Client(name, Claiming(d, sid))).(table := s.table[Key(sid) := Session(h, d)], stores := s.stores + 1)
    case Claiming(d, sid) =>
      At(s, h, Client(name, Replying(d, sid))).(devices := s.devices[d := ObjectOf(s, d).(inSession := true, session := Key(sid))])
    case Replying(d, sid) => At(s, h, Client(name, if ok then Bridging(d, sid) else Ending(d, sid)))
    case Bridging(d, sid) => At(s, h, Client(name, Ending(d, sid))).(closed := s.closed + {h, d})
    case Ending(d, sid) =>
      if Key(sid) in s.table then
        At(s, h, Client(name, Closing(d, sid))).(table := s.table - {Key(sid)}, ends := s.ends + 1)
      else At(s, h, Client(name, Clearing(d, sid)))
    case Closing(d, sid) =>
      if sid.n in s.done then s.(panicked := true)
      else At(s, h, Client(name, Clearing(d, sid))).(done := s.done + {sid.n})
    case Clearing(d, sid) =>
      At(s, h, Client(name, Served(sid))).(devices := s.devices[d := ObjectOf(s, d).(inSession := false, session := "")],
                                           closed := s.closed + {h})
    case Turned => s
    case Served(_) => s
  }

  function MoveTerminator(s: State, h: Id, pc: TerminatorPc): State {
    match pc
    case Loading(key) =>
      At(s, h, Terminator(if key in s.table then Cutting(s.table[key].client, s.table[key].device) else Returned))
    case Cutting(client, device) => At(s, h, Terminator(CuttingDevice(device))).(closed := s.closed + {client})
    case CuttingDevice(device) => At(s, h, Terminator(Returned)).(closed := s.closed + {device})
    case Returned => s
  }

  function Next(s: State, a: Step): State
    requires Enabled(s, a)
  {
    match a
    case Arrive(h, x) => At(s, h, x)
    case Move(h, now, ok) =>
      match s.handlers[h]
      case Device(name, pc) => MoveDevice(s, h, name, pc)
      case Client(name, pc) => MoveClient(s, h, name, pc, now, ok)
      case Terminator(pc) => MoveTerminator(s, h, pc)
  }

  /** The steps lead from s to t. */
  ghost predicate Runs(s: State, steps: seq<Step>, t: State)
    decreases |steps|
  {
    if steps == [] then s == t
    else Enabled(s, steps[0]) && Runs(Next(s, steps[0]), steps[1..], t)
  }

  lemma {:induction false} RunsOn(s: State, steps: seq<Step>, t: State, more: seq<Step>, u: State)
    requires Runs(s, steps, t) && Runs(t, more, u)
    ensures Runs(s, steps + more, u)
    decreases |steps|
  {
    if steps == [] {
      assert steps + more == more;
    } else {
      assert (steps + more)[1..] == steps[1..] + more;
      RunsOn(Next(s, steps[0]), steps[1..], t, more, u);
    }
  }

  /** One more step at the end of a run. */
  lemma RunsSnoc(s: State, steps: seq<Step>, t: State, a: Step)
    requires Runs(s, steps, t) && Enabled(t, a)
    ensures Runs(s, steps + [a], Next(t, a))
  {
    assert [a][1..] == [];
    assert Runs(Next(t, a), [], Next(t, a));
    RunsOn(s, steps, t, [a], Next(t, a));
  }

  // ----- Where a handler is -----

  function DeviceOf(x: Handler): Option<Id> {
    if !x.Client? then None
    else match x.cpc
      case Checking(d) => Some(d)
      case Adding(d) => Some(d)
      case Storing(d, _) => Some(d)
      case Claiming(d, _) => Some(d)
      case Replying(d, _) => Some(d)
      case Bridging(d, _) => Some(d)
      case Ending(d, _) => Some(d)
      case Closing(d, _) => Some(d)
      case Clearing(d, _) => Some(d)
      case _ => None
  }

  function SidOf(x: Handler): Option<Sid> {
    if !x.Client? then None
    else match x.cpc
      case Storing(_, sid) => Some(sid)
      case Claiming(_, sid) => Some(sid)
      case Replying(_, sid) => Some(sid)
      case Bridging(_, sid) => Some(sid)
      case Ending(_, sid) => Some(sid)
      case Closing(_, sid) => Some(sid)
      case Clearing(_, sid) => Some(sid)
      case Served(sid) => Some(sid)
      case _ => None
  }

  /** Between the table entry of Create and its removal by End. */
  predicate Live(x: Handler) {
    x.Client? && (x.cpc.Claiming? || x.cpc.Replying? || x.cpc.Bridging? || x.cpc.Ending?)
  }

  /** Past the busy check and not yet through SetSession: lines 428 to 440. */
  predicate InWindow(x: Handler) {
    x.Client? && (x.cpc.Adding? || x.cpc.Storing? || x.cpc.Claiming?)
  }

  /** Between SetSession and ClearSession. */
  predicate Claimed(x: Handler) {
    x.Client? && (x.cpc.Replying? || x.cpc.Bridging? || x.cpc.Ending? || x.cpc.Closing? || x.cpc.Clearing?)
  }

  /** Which older device a handler is taking the name over from. */
  function TakingOver(x: Handler): Option<Id> {
    if !x.Device? then None
    else match x.dpc
      case StoppingOld(prior) => Some(prior)
      case ClosingOld(prior) => Some(prior)
      case RemovingOld(prior) => Some(prior)
      case _ => None
  }

  predicate IsServing(x: Handler) {
    x.Device? && x.dpc == Serving
  }
}
