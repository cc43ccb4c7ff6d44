/**
 The timing of the bridge's keepalive (internal/session/bridge.go). Times are nanoseconds;
 activity is stored in whole Unix seconds; the ticker fires every half idle timeout; writes
 take no time.
 */
module Keepalive {

  const SECOND := 1_000_000_000

  /** time.Now().Unix(). */
  function Unix(t: nat): nat {
    t / SECOND
  }

  /** The k-th tick of a ticker of half an idle timeout of whole seconds, started at start. */
  function TickTime(start: nat, timeout: nat, k: nat): nat {
    start + k * (timeout * SECOND / 2)
  }

  /** What the goroutine finds at the k-th tick: the peer has been idle long enough. */
  predicate Idle(start: nat, timeout: nat, stored: nat -> nat, k: nat) {
    Unix(TickTime(start, timeout, k)) as int - stored(k) as int >= timeout
  }

  /** How the loop ended: at its stop signal, or because a NOP could not be written and that peer was closed. */
  datatype End = Stopped | ClosedClient | ClosedDevice

  /** One peer: the activity stamp loaded at each tick, and whether a NOP written then fails. */
  datatype Peer = Peer(stored: nat -> nat, fails: nat -> bool)

  /** At the k-th tick the peer is idle and its NOP fails. */
  predicate Dies(start: nat, timeout: nat, p: Peer, k: nat) {
    Idle(start, timeout, p.stored, k) && p.fails(k)
  }

  /** The ticks of a list are in order, and are those of 1..last that find the peer idle. */
  ghost predicate IdleTicks(start: nat, timeout: nat, p: Peer, nops: seq<nat>, last: int) {
    && (forall k :: k in nops <==> 1 <= k <= last && Idle(start, timeout, p.stored, k))
    && (forall i, j :: 0 <= i < j < |nops| ==> nops[i] < nops[j])
  }

  lemma TickAppended(start: nat, timeout: nat, p: Peer, nops: seq<nat>, k: nat)
    requires k >= 1 && IdleTicks(start, timeout, p, nops, k - 1)
    ensures IdleTicks(start, timeout, p, if Idle(start, timeout, p.stored, k) then nops + [k] else nops, k)
  {
    assert forall i :: 0 <= i < |nops| ==> nops[i] in nops;
  }

  /**
   The loop of keepalive, for n ticks unless a write fails. toClient and toDevice list the
   ticks at which a NOP is written; last is the last tick handled. The client comes first:
   when its NOP fails, the device is not looked at any more.
   */
  method KeepaliveLoop(start: nat, timeout: nat, client: Peer, device: Peer, n: nat)
    returns (toClient: seq<nat>, toDevice: seq<nat>, last: nat, end: End)
    ensures timeout == 0 ==> toClient == [] && toDevice == [] && last == 0 && end == Stopped
    ensures timeout > 0 ==>
      && IdleTicks(start, timeout, client, toClient, last)
      && IdleTicks(start, timeout, device, toDevice, if end == ClosedClient then last - 1 else last)
    ensures forall k :: 1 <= k < last ==> !Dies(start, timeout, client, k) && !Dies(start, timeout, device, k)
    ensures match end
            case ClosedClient => 1 <= last <= n && Dies(start, timeout, client, last)
            case ClosedDevice => 1 <= last <= n && !Dies(start, timeout, client, last) && Dies(start, timeout, device, last)
            case Stopped => timeout > 0 ==>
              last == n && forall k :: 1 <= k <= n ==> !Dies(start, timeout, client, k) && !Dies(start, timeout, device, k)
  {
    toClient, toDevice, last, end := [], [], 0, Stopped;
    if timeout <= 0 {
      return;
    }
    while last < n
      invariant last <= n
      invariant IdleTicks(start, timeout, client, toClient, last) && IdleTicks(start, timeout, device, toDevice, last)
      invariant forall k :: 1 <= k <= last ==> !Dies(start, timeout, client, k) && !Dies(start, timeout, device, k)
    {
      last := last + 1;
      TickAppended(start, timeout, client, toClient, last);
      TickAppended(start, timeout, device, toDevice, last);
      var now := Unix(TickTime(start, timeout, last));
      var clientIdle := now as int - client.stored(last) as int;
      if clientIdle >= timeout {
        toClient := toClient + [last];
        if client.fails(last) {
          return toClient, toDevice, last, ClosedClient;
        }
      }
      var deviceIdle := now as int - device.stored(last) as int;
      if deviceIdle >= timeout {
        toDevice := toDevice + [last];
        if device.fails(last) {
          return toClient, toDevice, last, ClosedDevice;
        }
      }
    }
  }

  /** From activity at time a on, the peer stays silent: every later tick finds that stamp. */
  ghost predicate SilentSince(start: nat, timeout: nat, stored: nat -> nat, a: nat) {
    forall k: nat {:trigger stored(k)} :: k >= 1 && TickTime(start, timeout, k) >= a ==> stored(k) == Unix(a)
  }

  /**
   The last activity was at a, and the ticker was running one idle timeout later. No NOP is
   sent until more than timeout - 1 seconds after a; some tick within one and a half idle
   timeouts of a sends one; and so does every tick after it, one each half timeout.
   */
  lemma SilentPeer(start: nat, timeout: nat, stored: nat -> nat, a: nat) returns (first: nat)
    requires timeout >= 1 && start < a + timeout * SECOND && SilentSince(start, timeout, stored, a)
    ensures forall k: nat :: k >= 1 && TickTime(start, timeout, k) >= a && Idle(start, timeout, stored, k) ==>
      TickTime(start, timeout, k) > a + (timeout - 1) * SECOND
    ensures first >= 1 && a + timeout * SECOND <= TickTime(start, timeout, first) < a + timeout * SECOND + timeout * SECOND / 2
    ensures forall k: nat :: k >= first ==>
      Idle(start, timeout, stored, k)
      && TickTime(start, timeout, k) == TickTime(start, timeout, first) + (k - first) * (timeout * 500_000_000)
  {
    forall k: nat | k >= 1 && TickTime(start, timeout, k) >= a && Idle(start, timeout, stored, k)
      ensures TickTime(start, timeout, k) > a + (timeout - 1) * SECOND
    {
      assert stored(k) == Unix(a);
      NotTooEarly(a, TickTime(start, timeout, k), timeout);
    }
    first := FirstTickFrom(start, timeout, a + timeout * SECOND);
    forall k: nat | k >= first
      ensures Idle(start, timeout, stored, k)
      ensures TickTime(start, timeout, k) == TickTime(start, timeout, first) + (k - first) * (timeout * 500_000_000)
    {
      TicksGrow(start, timeout, first, k);
      assert stored(k) == Unix(a);
      LongEnough(a, TickTime(start, timeout, k), timeout);
    }
  }

  /** Seconds apart, truncated, means more than that minus one apart. */
  lemma NotTooEarly(a: nat, t: nat, timeout: nat)
    requires Unix(t) as int - Unix(a) as int >= timeout >= 1
    ensures t > a + (timeout - 1) * SECOND
  {
    assert a == Unix(a) * SECOND + a % SECOND;
    assert t >= Unix(t) * SECOND;
    assert (Unix(a) + timeout) * SECOND <= Unix(t) * SECOND;
  }

  /** A whole number of seconds apart is seen as at least that many. */
  lemma LongEnough(a: nat, t: nat, timeout: nat)
    requires t >= a + timeout * SECOND
    ensures Unix(t) as int - Unix(a) as int >= timeout
  {
    assert a >= Unix(a) * SECOND;
    assert t >= (Unix(a) + timeout) * SECOND;
  }

  lemma TicksGrow(start: nat, timeout: nat, j: nat, k: nat)
    requires j <= k
    ensures TickTime(start, timeout, j) <= TickTime(start, timeout, k)
    ensures TickTime(start, timeout, k) == TickTime(start, timeout, j) + (k - j) * (timeout * 500_000_000)
  {
    var p := timeout * SECOND / 2;
    assert p == timeout * 500_000_000;
    assert k * p == j * p + (k - j) * p;
  }

  /** The first tick at or after a time the ticker was already running at. */
  lemma FirstTickFrom(start: nat, timeout: nat, t: nat) returns (k: nat)
    requires timeout >= 1 && start < t
    ensures k >= 1 && t <= TickTime(start, timeout, k) < t + timeout * SECOND / 2
  {
    var p := timeout * SECOND / 2;
    assert p >= 1;
    k := (t - start + p - 1) / p;
    DivideUp(t - start, p);
  }

  lemma DivideUp(x: int, p: int)
    requires x >= 1 && p >= 1
    ensures var k := (x + p - 1) / p; k >= 1 && x <= k * p < x + p
  {
    var k := (x + p - 1) / p;
    assert x + p - 1 == p * k + (x + p - 1) % p;
    assert k <= 0 ==> p * k <= 0;
  }
}
