/**
 The session manager alone (internal/session/manager.go), under any number of concurrent
 calls of Create and End with any IDs, whoever makes them: no entry is overwritten, and a
 done channel is closed once, by the call that removed the entry.
 */
module ManagerRuns {
  import opened SessionIds

  /** A call in progress. End reads and deletes the entry in one step, then closes done in another. */
  datatype Call =
    | Creating
    | Storing(sid: Sid)
    | Ending(key: string)
    | Closing(n: nat)
    | Returned

  /** Where session number n is; the history the invariant speaks about. */
  datatype Phase = BeingStored(c: nat) | Listed | BeingClosed(c: nat) | Closed

  datatype State = State(
    calls: map<nat, Call>,
    table: map<string, nat>,   // the session number filed under each ID
    counter: nat,
    done: set<nat>,            // closed done channels
    panicked: bool,
    adds: nat,
    phase: map<nat, Phase>,
    sids: map<nat, Sid>)

  const EMPTY := State(map[], map[], 0, {}, false, 0, map[], map[])

  datatype Step = Begin(c: nat, call: Call) | Go(c: nat, now: int)

  predicate Enabled(s: State, a: Step) {
    && !s.panicked
    && match a
       case Begin(c, call) => c !in s.calls && (call.Creating? || call.Ending?)
       case Go(c, _) => c in s.calls && !s.calls[c].Returned?
  }

  function Next(s: State, a: Step): State
    requires Enabled(s, a)
  {
    match a
    case Begin(c, call) => s.(calls := s.calls[c := call])
    case Go(c, now) =>
      match s.calls[c]
      case Creating =>
        var n := (s.counter + 1) % WRAP;
        s.(calls := s.calls[c := Storing(Sid(now, n))], counter := n, adds := s.adds + 1,
           phase := s.phase[n := BeingStored(c)], sids := s.sids[n := Sid(now, n)])
      case Storing(sid) =>
        s.(calls := s.calls[c := Returned], table := s.table[Key(sid) := sid.n], phase := s.phase[sid.n := Listed])
      case Ending(key) =>
        if key in s.table then
          s.(calls := s.calls[c := Closing(s.table[key])], table := s.table - {key},
             phase := s.phase[s.table[key] := BeingClosed(c)])
        else s.(calls := s.calls[c := Returned])
      case Closing(n) =>
        if n in s.done then s.(panicked := true)
        else s.(calls := s.calls[c := Returned], done := s.done + {n}, phase := s.phase[n := Closed])
      case Returned => s
  }

  ghost predicate Runs(s: State, steps: seq<Step>, t: State)
    decreases |steps|
  {
    if steps == [] then s == t
    else Enabled(s, steps[0]) && Runs(Next(s, steps[0]), steps[1..], t)
  }

  predicate CallOk(s: State, c: nat)
    requires c in s.calls
  {
    match s.calls[c]
    case Storing(sid) =>
      sid.n in s.phase && s.phase[sid.n] == BeingStored(c) && sid.n in s.sids && s.sids[sid.n] == sid
    case Closing(n) => n in s.phase && s.phase[n] == BeingClosed(c)
    case _ => true
  }

  predicate PhaseOk(s: State, n: nat)
    requires n in s.phase
  {
    && n <= s.adds && n in s.sids && s.sids[n].n == n
    && (n in s.done <==> s.phase[n] == Closed)
    && (Key(s.sids[n]) in s.table && s.table[Key(s.sids[n])] == n <==> s.phase[n] == Listed)
    && (match s.phase[n]
        case BeingStored(c) => c in s.calls && s.calls[c] == Storing(s.sids[n])
        case BeingClosed(c) => c in s.calls && s.calls[c] == Closing(n)
        case _ => true)
  }

  predicate EntryOk(s: State, key: string)
    requires key in s.table
  {
    var n := s.table[key];
    n in s.phase && n in s.sids && Key(s.sids[n]) == key
  }

  predicate Inv(s: State) {
    && s.counter == s.adds && !s.panicked
    && (forall c :: c in s.calls ==> CallOk(s, c))
    && (forall n :: n in s.phase ==> PhaseOk(s, n))
    && (forall key :: key in s.table ==> EntryOk(s, key))
    && s.sids.Keys == s.phase.Keys && s.done <= s.phase.Keys
  }

  /** Create never overwrites an entry. */
  lemma StoreIsFresh(s: State, c: nat)
    requires Inv(s) && c in s.calls && s.calls[c].Storing?
    ensures Key(s.calls[c].sid) !in s.table
  {
    var sid := s.calls[c].sid;
    assert CallOk(s, c) && PhaseOk(s, sid.n);
    if Key(sid) in s.table {
      assert EntryOk(s, Key(sid));
      KeyInjective(s.sids[s.table[Key(sid)]], sid);
    }
  }

  lemma CreateKeeps(s: State, c: nat, now: int)
    requires Inv(s) && Enabled(s, Go(c, now)) && s.calls[c].Creating? && s.adds + 1 < WRAP
    ensures Inv(Next(s, Go(c, now)))
  {
    var t, n := Next(s, Go(c, now)), s.adds + 1;
    assert (s.counter + 1) % WRAP == n;
    forall m | m in s.phase
      ensures m < n
    {
      assert PhaseOk(s, m);
    }
    forall d | d in t.calls
      ensures CallOk(t, d)
    {
      assert CallOk(s, d);
    }
    forall m | m in t.phase
      ensures PhaseOk(t, m)
    {
      if m == n {
        assert Key(t.sids[n]) in s.table ==> EntryOk(s, Key(t.sids[n]));
      } else {
        assert PhaseOk(s, m);
      }
    }
    forall key | key in t.table
      ensures EntryOk(t, key)
    {
      assert EntryOk(s, key);
    }
  }

  lemma StoreKeeps(s: State, c: nat, now: int)
    requires Inv(s) && Enabled(s, Go(c, now)) && s.calls[c].Storing?
    ensures Inv(Next(s, Go(c, now)))
  {
    var t, sid := Next(s, Go(c, now)), s.calls[c].sid;
    StoreIsFresh(s, c);
    assert CallOk(s, c);
    forall d | d in t.calls
      ensures CallOk(t, d)
    {
      assert CallOk(s, d);
    }
    forall m | m in t.phase
      ensures PhaseOk(t, m)
    {
      assert PhaseOk(s, m);
      KeyInjective(s.sids[m], sid);
    }
    forall key | key in t.table
      ensures EntryOk(t, key)
    {
      assert key in s.table ==> EntryOk(s, key);
    }
  }

  lemma EndKeeps(s: State, c: nat, now: int)
    requires Inv(s) && Enabled(s, Go(c, now)) && s.calls[c].Ending?
    ensures Inv(Next(s, Go(c, now)))
  {
    var t, key := Next(s, Go(c, now)), s.calls[c].key;
    assert key in s.table ==> EntryOk(s, key);
    forall d | d in t.calls
      ensures CallOk(t, d)
    {
      assert CallOk(s, d);
      if key in s.table {
        assert PhaseOk(s, s.table[key]);
      }
    }
    forall m | m in t.phase
      ensures PhaseOk(t, m)
    {
      assert PhaseOk(s, m);
      if key in s.table {
        KeyInjective(s.sids[m], s.sids[s.table[key]]);
      }
    }
    forall k | k in t.table
      ensures EntryOk(t, k)
    {
      assert EntryOk(s, k);
    }
  }

  lemma CloseKeeps(s: State, c: nat, now: int)
    requires Inv(s) && Enabled(s, Go(c, now)) && s.calls[c].Closing?
    ensures Inv(Next(s, Go(c, now)))
  {
    var t, n := Next(s, Go(c, now)), s.calls[c].n;
    assert CallOk(s, c) && PhaseOk(s, n);
    forall d | d in t.calls
      ensures CallOk(t, d)
    {
      assert CallOk(s, d);
    }
    forall m | m in t.phase
      ensures PhaseOk(t, m)
    {
      assert PhaseOk(s, m);
    }
    forall k | k in t.table
      ensures EntryOk(t, k)
    {
      assert EntryOk(s, k);
    }
  }

  lemma BeginKeeps(s: State, a: Step)
    requires Inv(s) && Enabled(s, a) && a.Begin?
    ensures Inv(Next(s, a))
  {
    var t := Next(s, a);
    forall d | d in t.calls
      ensures CallOk(t, d)
    {
      assert d in s.calls ==> CallOk(s, d);
    }
    forall m | m in t.phase
      ensures PhaseOk(t, m)
    {
      assert PhaseOk(s, m);
    }
    forall k | k in t.table
      ensures EntryOk(t, k)
    {
      assert EntryOk(s, k);
    }
  }

  lemma StepKeeps(s: State, a: Step)
    requires Inv(s) && Enabled(s, a) && Next(s, a).adds < WRAP
    ensures Inv(Next(s, a))
  {
    if a.Begin? {
      BeginKeeps(s, a);
    } else {
      match s.calls[a.c]
      case Creating => CreateKeeps(s, a.c, a.now);
      case Storing(_) => StoreKeeps(s, a.c, a.now);
      case Ending(_) => EndKeeps(s, a.c, a.now);
      case Closing(_) => CloseKeeps(s, a.c, a.now);
    }
  }

  lemma {:induction false} AddsGrow(s: State, steps: seq<Step>, t: State)
    requires Runs(s, steps, t)
    ensures s.adds <= t.adds
    decreases |steps|
  {
    if steps != [] {
      AddsGrow(Next(s, steps[0]), steps[1..], t);
    }
  }

  lemma {:induction false} RunKeeps(s: State, steps: seq<Step>, t: State)
    requires Inv(s) && Runs(s, steps, t) && t.adds < WRAP
    ensures Inv(t)
    decreases |steps|
  {
    if steps != [] {
      AddsGrow(Next(s, steps[0]), steps[1..], t);
      StepKeeps(s, steps[0]);
      RunKeeps(Next(s, steps[0]), steps[1..], t);
    }
  }

  /**
   Fewer than 2^64 Creates, any concurrent Ends: nothing panics; a stored session is listed
   until one End removes it, and its done channel is closed, or about to be closed by
   exactly that call, from then on; the next Create to store finds its ID free.
   */
  lemma ClosedOnceWhenRemoved(steps: seq<Step>, t: State)
    requires Runs(EMPTY, steps, t) && t.adds < WRAP
    ensures !t.panicked && t.sids.Keys == t.phase.Keys
    ensures forall n :: n in t.phase && n in t.sids && !t.phase[n].BeingStored? ==>
      (!(Key(t.sids[n]) in t.table && t.table[Key(t.sids[n])] == n) <==>
        n in t.done || exists c :: c in t.calls && t.calls[c] == Closing(n))
    ensures forall c, d :: c in t.calls && d in t.calls && t.calls[c].Closing? && t.calls[c] == t.calls[d] ==> c == d
    ensures forall c :: c in t.calls && t.calls[c].Closing? ==> t.calls[c].n !in t.done
    ensures forall c :: c in t.calls && t.calls[c].Storing? ==> Key(t.calls[c].sid) !in t.table
  {
    RunKeeps(EMPTY, steps, t);
    forall n | n in t.phase && n in t.sids && !t.phase[n].BeingStored?
      ensures !(Key(t.sids[n]) in t.table && t.table[Key(t.sids[n])] == n) <==>
        n in t.done || exists c :: c in t.calls && t.calls[c] == Closing(n)
    {
      assert PhaseOk(t, n);
      if c :| c in t.calls && t.calls[c] == Closing(n) {
        assert CallOk(t, c);
      }
    }
    forall c | c in t.calls && t.calls[c].Closing?
      ensures t.calls[c].n !in t.done
    {
      assert CallOk(t, c) && PhaseOk(t, t.calls[c].n);
    }
    forall c, d | c in t.calls && d in t.calls && t.calls[c].Closing? && t.calls[c] == t.calls[d]
      ensures c == d
    {
      assert CallOk(t, c) && CallOk(t, d);
    }
    forall c | c in t.calls && t.calls[c].Storing?
      ensures Key(t.calls[c].sid) !in t.table
    {
      StoreIsFresh(t, c);
    }
  }
}
