/**
 internal/session/manager.go: the session table of one process, called by one goroutine at
 a time. ManagerRuns and SessionRuns take the same operations apart into atomic steps.
 */
module Sessions {
  import opened Bytes
  import opened Net
  import opened SessionIds

  class Session {
    const sid: Sid
    const deviceId: bytes
    const client: Conn
    const device: Conn
    /** The done channel is closed. */
    var done: bool

    constructor (sid: Sid, deviceId: bytes, client: Conn, device: Conn)
      ensures this.sid == sid && this.deviceId == deviceId && this.client == client && this.device == device && !done
    {
      this.sid, this.deviceId, this.client, this.device, this.done := sid, deviceId, client, device, false;
    }
  }

  class Manager {
    var sessions: map<string, Session>
    var counter: nat

    /** Sessions are filed under their own IDs, numbered by the counter, and open. */
    ghost predicate Valid()
      reads this, sessions.Values
    {
      && counter < WRAP
      && (forall id :: id in sessions ==> Filed(id))
    }

    ghost predicate Filed(id: string)
      requires id in sessions
      reads this, sessions.Values
    {
      id == Key(sessions[id].sid) && sessions[id].sid.n <= counter && !sessions[id].done
    }

    /** A counter value not reached yet makes an ID not in the table. */
    lemma LaterIsNew(sid: Sid)
      requires Valid() && sid.n > counter
      ensures Key(sid) !in sessions
    {
      if Key(sid) in sessions {
        assert Filed(Key(sid));
        KeyInjective(sid, sessions[Key(sid)].sid);
      }
    }

    constructor ()
      ensures Valid() && sessions == map[] && counter == 0
    {
      sessions, counter := map[], 0;
    }

    /** now is the Unix time read for the ID. Before the counter wraps the ID is a new one. */
    method Create(now: int, deviceId: bytes, client: Conn, device: Conn) returns (sess: Session)
      requires Valid()
      modifies this
      ensures fresh(sess) && sess.deviceId == deviceId && sess.client == client && sess.device == device && !sess.done
      ensures sess.sid == Sid(now, counter) && counter == (old(counter) + 1) % WRAP
      ensures sessions == old(sessions)[Key(sess.sid) := sess]
      ensures old(counter) + 1 < WRAP ==> Valid() && Key(sess.sid) !in old(sessions)
    {
      if counter + 1 < WRAP {
        LaterIsNew(Sid(now, counter + 1));
      }
      counter := (counter + 1) % WRAP;
      sess := new Session(Sid(now, counter), deviceId, client, device);
      var id := Key(sess.sid);
      sessions := sessions[id := sess];
      forall other | other in sessions && old(counter) + 1 < WRAP
        ensures Filed(other)
      {
        assert other != id ==> old(Filed(other));
      }
    }

    /** Removes the session and closes its done channel, once; an unknown ID changes nothing. */
    method End(id: string)
      requires Valid()
      modifies this, if id in sessions then {sessions[id]} else {}
      ensures Valid() && sessions == old(sessions) - {id} && counter == old(counter)
      ensures id in old(sessions) ==> old(!sessions[id].done) && old(sessions[id]).done
    {
      if id !in sessions {
        assert sessions - {id} == sessions;
        return;
      }
      var sess := sessions[id];
      assert Filed(id);
      forall other | other in sessions && other != id
        ensures sessions[other] != sess
      {
        assert Filed(other);
      }
      sessions := sessions - {id};
      sess.done := true;
      assert forall other :: other in sessions ==> old(Filed(other));
    }
  }
}
