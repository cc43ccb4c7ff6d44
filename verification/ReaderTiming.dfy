/**
 How long the command reader waits: a bound on timed-out reads when the wait is limited,
 and what happens after the caller's deadline when it is not.
 */
module ReaderTiming {
  import opened Bytes
  import opened Text
  import opened Stream
  import opened UsrVcom
  import opened Protocol
  import opened ReaderProperties

  /** One second, the per-line deadline, in nanoseconds. */
  const SECOND := 1_000_000_000

  /** The timed-out reads from i to j. */
  function Timeouts(ev: seq<Event>, i: nat, j: nat): nat
    requires i <= j <= |ev|
    decreases j - i
  {
    if i == j then 0 else (if ev[i].Timeout? then 1 else 0) + Timeouts(ev, i + 1, j)
  }

  lemma {:induction false} TimeoutsSplit(ev: seq<Event>, i: nat, j: nat, k: nat)
    requires i <= j <= k <= |ev|
    ensures Timeouts(ev, i, k) == Timeouts(ev, i, j) + Timeouts(ev, j, k)
    decreases j - i
  {
    if i < j {
      TimeoutsSplit(ev, i + 1, j, k);
    }
  }

  /** The line that ends at next has met its deadline in the look-ahead behind an A, and then again. */
  predicate LateLook(ev: seq<Event>, i: nat, next: nat) {
    i + 3 <= next && ByteAt(ev, next - 3, AT[0]) && TimeoutAt(ev, next - 2) && TimeoutAt(ev, next - 1)
  }

  /** Along the reader's own lines: how many meet their deadline, and how many meet it in a look-ahead first. */
  function TimedOutLines(ev: seq<Event>, i: nat, w: Wait, cfg: Option<Config>, kept: bytes): ((nat, nat))
    requires i <= |ev|
    decreases |ev| - i
  {
    if w.Over(i) then (0, 0)
    else
      var l := ReadLine(ev, i);
      var (lines, looks) := match Judge(l, w.Elapsed(l.next), w.timeout, cfg, kept)
        case More(cfg', kept') => TimedOutLines(ev, l.next, w, cfg', kept')
        case Stop(_) => (0, 0);
      (lines + (if Timeouts(ev, i, l.next) > 0 then 1 else 0), looks + (if LateLook(ev, i, l.next) then 1 else 0))
  }

  /**
   The deadline of the line that starts at i: one second or what is left of the wait, met
   no earlier than a nanosecond after the line began even with nothing left, and expired
   for good once a read in the line has met it. The clock does not go back over the line.
   */
  predicate TimelyLine(ev: seq<Event>, i: nat, w: Wait)
    requires i <= |ev|
  {
    var next := ReadLine(ev, i).next;
    var left := w.timeout - w.Elapsed(i);
    && w.Elapsed(i) <= w.Elapsed(next) && Sticky(ev, i, next)
    && (Timeouts(ev, i, next) > 0 && left >= 0 ==>
          w.Elapsed(next) >= w.Elapsed(i) + (if left < SECOND then left else SECOND)
          && w.Elapsed(next) > w.Elapsed(i))
  }

  /** Every line the reader starts is timely; nothing is said about other positions. */
  predicate TimelyRun(ev: seq<Event>, i: nat, w: Wait, cfg: Option<Config>, kept: bytes)
    requires i <= |ev|
    decreases |ev| - i
  {
    w.Over(i)
    || (TimelyLine(ev, i, w)
        && var l := ReadLine(ev, i);
           match Judge(l, w.Elapsed(l.next), w.timeout, cfg, kept)
           case More(cfg', kept') => TimelyRun(ev, l.next, w, cfg', kept')
           case Stop(_) => true)
  }

  /** A line meets its deadline at most twice: at its end, and before that behind an A at the very end. */
  lemma {:induction false} SegmentTimeouts(ev: seq<Event>, i: nat)
    requires i <= |ev|
    requires Sticky(ev, i, Cuts(ev, i).2)
    ensures var next := Cuts(ev, i).2;
            Timeouts(ev, i, next) == (if Timeouts(ev, i, next) > 0 then 1 else 0) + (if LateLook(ev, i, next) then 1 else 0)
    decreases |ev| - i
  {
    var (s, c, next) := Cuts(ev, i);
    if i < s {
      var k := AfterByte(ev, i);
      SegmentStep(ev, i);
      if k == i + 2 {
        LateLine(ev, i);
      } else {
        SegmentTimeouts(ev, k);
        assert LateLook(ev, i, next) ==> LateLook(ev, k, next);
      }
    } else {
      NoTimeouts(ev, s, c);
      TimeoutsSplit(ev, s, c, next);
      EndTimeouts(ev, c);
      assert !LateLook(ev, i, next);
    }
  }

  /** The look-ahead behind the A at i met the deadline: then the next read does, and ends the line. */
  lemma LateLine(ev: seq<Event>, i: nat)
    requires i < |ev| && ev[i].Byte? && i < SegmentEnd(ev, i) && AfterByte(ev, i) == i + 2
    requires Sticky(ev, i, Cuts(ev, i).2)
    ensures var next := Cuts(ev, i).2;
            if i + 2 == |ev| then next == i + 2 && Timeouts(ev, i, next) == 1 && !LateLook(ev, i, next)
            else next == i + 3 && Timeouts(ev, i, next) == 2 && LateLook(ev, i, next)
  {
    var (s, c, next) := Cuts(ev, i);
    SegmentStep(ev, i);
    assert ev[i + 1].Timeout?;
    if i + 2 < |ev| {
      assert i + 2 < next;
      assert ev[i + 2].Timeout?;
      assert next == i + 3 && Timeouts(ev, i + 2, next) == 1;
    }
    assert Timeouts(ev, i + 1, next) == 1 + Timeouts(ev, i + 2, next);
  }

  lemma {:induction false} NoTimeouts(ev: seq<Event>, i: nat, j: nat)
    requires i <= j <= |ev| && forall k {:trigger ev[k]} :: i <= k < j ==> ev[k].Byte?
    ensures Timeouts(ev, i, j) == 0
    decreases j - i
  {
    if i < j {
      NoTimeouts(ev, i + 1, j);
    }
  }

  lemma EndTimeouts(ev: seq<Event>, c: nat)
    requires c <= |ev|
    ensures Timeouts(ev, c, Behind(ev, c)) <= 1
  {
    var next := Behind(ev, c);
    if c < next {
      assert Timeouts(ev, c, next) == (if ev[c].Timeout? then 1 else 0) + Timeouts(ev, c + 1, next);
    }
  }

  /** A duration in whole seconds, rounded up, plus one; nothing once the wait is over. */
  function Bound(left: int): nat {
    if left < 0 then 0 else (left + SECOND - 1) / SECOND + 1
  }

  /**
   A limited wait meets the deadline in at most its length in seconds, rounded up, plus one
   lines. The timed-out reads are as many as those lines, and one more for each line whose
   deadline was first met in the look-ahead behind an A.
   */
  lemma {:induction false} LimitedWait(ev: seq<Event>, i: nat, w: Wait, cfg: Option<Config>, kept: bytes)
    requires i <= |ev| && w.timeout > 0 && TimelyRun(ev, i, w, cfg, kept)
    ensures var (lines, looks) := TimedOutLines(ev, i, w, cfg, kept);
            && looks <= lines <= Bound(w.timeout - w.Elapsed(i))
            && Timeouts(ev, i, ReadFrom(ev, i, w, cfg, kept).next) == lines + looks
    decreases |ev| - i
  {
    if !w.Over(i) {
      var l := ReadLine(ev, i);
      LineIsCut(ev, i);
      SegmentTimeouts(ev, i);
      BoundDrops(w.timeout - w.Elapsed(i), w.timeout - w.Elapsed(l.next), Timeouts(ev, i, l.next) > 0);
      match Judge(l, w.Elapsed(l.next), w.timeout, cfg, kept)
      case More(cfg', kept') =>
        LimitedWait(ev, l.next, w, cfg', kept');
        TimeoutsSplit(ev, i, l.next, ReadFrom(ev, l.next, w, cfg', kept').next);
      case Stop(r) =>
        JudgedAt(l, w.Elapsed(l.next), w.timeout, cfg, kept);
    }
  }

  lemma JudgedAt(l: Line, elapsed: int, timeout: int, cfg: Option<Config>, kept: bytes)
    ensures var v := Judge(l, elapsed, timeout, cfg, kept); v.Stop? ==> v.result.next == l.next
  {
  }

  /** So the reads alone can be more than that: a wait of one second, and an A just before its end. */
  lemma LookAheadCountsTwice(w: Wait)
    requires w.timeout == SECOND && w.clock(0) == w.start && w.clock(3) == w.start + SECOND && w.clock(4) == w.start + SECOND + 1
    ensures var ev := [Byte(AT[0]), Timeout, Timeout, Timeout];
            && TimelyRun(ev, 0, w, None, [])
            && Timeouts(ev, 0, ReadFrom(ev, 0, w, None, []).next) == 3 > Bound(w.timeout - w.Elapsed(0))
  {
    var ev := [Byte(AT[0]), Timeout, Timeout, Timeout];
    var none: bytes := [];
    assert LineFrom(ev, 2, false, [], none + [AT[0]]) == Line([], [AT[0]], Expired, 3);
    assert ReadLine(ev, 0) == Line([], [AT[0]], Expired, 3);
    assert ReadLine(ev, 3) == Line([], [], Expired, 4);
    assert Timeouts(ev, 3, 4) == 1 && Timeouts(ev, 2, 4) == 2 && Timeouts(ev, 1, 4) == 3;
    assert Timeouts(ev, 2, 3) == 1 && Timeouts(ev, 1, 3) == 2;
    assert !IsUSRVCOM([AT[0]]);
    var kept := none + [AT[0]];
    assert Judge(ReadLine(ev, 0), w.Elapsed(3), w.timeout, None, none) == More(None, kept);
    assert Judge(ReadLine(ev, 3), w.Elapsed(4), w.timeout, None, kept).Stop?;
    assert TimelyLine(ev, 3, w) && TimelyRun(ev, 3, w, None, kept);
    assert ReadFrom(ev, 3, w, None, kept).next == 4;
  }

  lemma BoundDrops(left: int, left': int, expired: bool)
    requires 0 <= left && left' <= left
    requires expired ==> left' < left && left' <= left - (if left < SECOND then left else SECOND)
    ensures Bound(left') + (if expired then 1 else 0) <= Bound(left)
  {
    if left' >= 0 {
      var a, b := left + SECOND - 1, left' + SECOND - 1;
      if expired && left >= SECOND {
        assert b <= a - SECOND;
        assert b / SECOND <= (a - SECOND) / SECOND == a / SECOND - 1;
      } else if expired {
        assert left' == 0 && b / SECOND == 0;
        assert a >= SECOND;
      } else {
        assert b / SECOND <= a / SECOND;
      }
    }
  }

  // ----- After the caller's deadline (timeout 0) -----

  /** From position d on every read times out, until the events run out. */
  predicate DeadSince(ev: seq<Event>, d: nat) {
    d <= |ev| && forall k {:trigger ev[k]} :: d <= k < |ev| ==> ev[k].Timeout?
  }

  /** A line that starts before the deadline ends at most two timeouts behind it. */
  lemma {:induction false} DeadLine(ev: seq<Event>, d: nat, i: nat, inAT: bool, line: bytes, skipped: bytes)
    requires DeadSince(ev, d) && i <= d + 1 && d + 3 <= |ev|
    ensures var l := LineFrom(ev, i, inAT, line, skipped);
            l.end != Broken && l.next <= d + 2 && (l.end == Completed ==> l.next <= d + 1)
    decreases d + 1 - i
  {
    assert ev[d].Timeout? && ev[d + 1].Timeout?;
    if ev[i].Byte? && !IsEol(ev[i].b) {
      var b := ev[i].b;
      if inAT || (b == AT[0] && ByteAt(ev, i + 1, AT[1])) {
        DeadLine(ev, d, i + 1, true, line + [b], skipped);
      } else {
        DeadLine(ev, d, if b == AT[0] && TimeoutAt(ev, i + 1) then i + 2 else i + 1, false, line, skipped + [b]);
      }
    }
  }

  /** Once every read times out, only a configuration already accepted keeps the reader waiting. */
  lemma {:induction false} AfterDeadline(ev: seq<Event>, d: nat, i: nat, w: Wait, cfg: Option<Config>, kept: bytes)
    requires DeadSince(ev, d) && d <= i < |ev| && w.timeout == 0
    ensures ReadFrom(ev, i, w, cfg, kept) ==
            if cfg.Some? then NoCommand(ConnectionFailed, cfg, |ev|) else NoCommand(LineExpired, None, i + 1)
    decreases |ev| - i
  {
    assert ev[i].Timeout?;
    if cfg.Some? && i + 1 < |ev| {
      AfterDeadline(ev, d, i + 1, w, cfg, kept);
    }
  }

  /**
   A wait without a limit of its own that starts before the caller's deadline: a command
   must be complete at the deadline; without one the reader returns within three timed-out
   reads exactly when it accepted no USR-VCOM configuration, and otherwise goes on for as
   long as reads time out.
   */
  lemma {:induction false} UnlimitedWait(ev: seq<Event>, d: nat, i: nat, w: Wait, cfg: Option<Config>, kept: bytes)
    requires DeadSince(ev, d) && i <= d && d + 3 <= |ev| && w.timeout == 0
    ensures match ReadFrom(ev, i, w, cfg, kept)
            case Got(_, next) => next <= d + 1
            case NoCommand(err, known, next) =>
              if known == None then err == LineExpired && next <= d + 3
              else err == ConnectionFailed && next == |ev|
    decreases |ev| - i
  {
    var l := ReadLine(ev, i);
    DeadLine(ev, d, i, false, [], []);
    var _ := LineTakes(ev, i);
    JudgeKeeps(l, w.Elapsed(l.next), w.timeout, cfg, kept);
    match Judge(l, w.Elapsed(l.next), w.timeout, cfg, kept)
    case Stop(_) =>
    case More(cfg', kept') =>
      if l.next <= d {
        UnlimitedWait(ev, d, l.next, w, cfg', kept');
      } else {
        AfterDeadline(ev, d, l.next, w, cfg', kept');
      }
  }
}
