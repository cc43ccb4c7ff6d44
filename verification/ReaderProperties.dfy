/**
 What the command reader promises whatever the stream does: no unknown command, and every
 byte accounted for.
 */
module ReaderProperties {
  import opened Bytes
  import opened Text
  import opened Stream
  import opened UsrVcom
  import opened Protocol

  lemma {:induction false} BytesOfAppend(a: seq<Event>, b: seq<Event>)
    ensures BytesOf(a + b) == BytesOf(a) + BytesOf(b)
  {
    if a == [] {
      assert a + b == b;
    } else {
      assert (a + b)[1..] == a[1..] + b;
      BytesOfAppend(a[1..], b);
      var first := if a[0].Byte? then [a[0].b] else [];
      Assoc(first, BytesOf(a[1..]), BytesOf(b));
    }
  }

  /** The bytes between two positions. */
  function Slice(ev: seq<Event>, i: nat, j: nat): bytes
    requires i <= j <= |ev|
  {
    BytesOf(ev[i..j])
  }

  lemma SliceStep(ev: seq<Event>, i: nat, j: nat)
    requires i < j <= |ev|
    ensures Slice(ev, i, j) == if ev[i].Byte? then [ev[i].b] + Slice(ev, i + 1, j) else Slice(ev, i + 1, j)
  {
    assert ev[i..j][1..] == ev[i + 1..j];
  }

  lemma SliceSplit(ev: seq<Event>, i: nat, j: nat, k: nat)
    requires i <= j <= k <= |ev|
    ensures Slice(ev, i, k) == Slice(ev, i, j) + Slice(ev, j, k)
  {
    assert ev[i..k] == ev[i..j] + ev[j..k];
    BytesOfAppend(ev[i..j], ev[j..k]);
  }

  // ----- One line, by positions -----

  /** Where the reader goes from an ordinary byte: the look-ahead behind an A uses up a timeout. */
  function AfterByte(ev: seq<Event>, i: nat): nat
    requires i < |ev| && ev[i].Byte?
  {
    if ev[i].b == AT[0] && TimeoutAt(ev, i + 1) then i + 2 else i + 1
  }

  /** Where the bytes before the AT line end: at AT, a line end, a timeout, or the end of the stream. */
  function SegmentEnd(ev: seq<Event>, i: nat): (s: nat)
    requires i <= |ev|
    ensures i <= s <= |ev|
    ensures forall k {:trigger ev[k]} :: i <= k < s ==> ev[k].Byte? ==> !IsEol(ev[k].b)
    ensures s < |ev| && ev[s].Byte? && !IsEol(ev[s].b) ==> ByteAt(ev, s, AT[0]) && ByteAt(ev, s + 1, AT[1])
    decreases |ev| - i
  {
    if i == |ev| || ev[i].Timeout? || IsEol(ev[i].b) || (ByteAt(ev, i, AT[0]) && ByteAt(ev, i + 1, AT[1])) then i
    else SegmentEnd(ev, AfterByte(ev, i))
  }

  /** Where a line without look-aheads ends. */
  function CommandEnd(ev: seq<Event>, i: nat): (c: nat)
    requires i <= |ev|
    ensures i <= c <= |ev|
    ensures forall k {:trigger ev[k]} :: i <= k < c ==> ev[k].Byte? && !IsEol(ev[k].b)
    ensures c < |ev| && ev[c].Byte? ==> IsEol(ev[c].b)
    decreases |ev| - i
  {
    if i == |ev| || ev[i].Timeout? || IsEol(ev[i].b) then i else CommandEnd(ev, i + 1)
  }

  lemma {:induction false} CommandEndsAt(ev: seq<Event>, i: nat, n: nat)
    requires i <= n < |ev| && (ev[n].Timeout? || IsEol(ev[n].b))
    requires forall k {:trigger ev[k]} :: i <= k < n ==> ev[k].Byte? && !IsEol(ev[k].b)
    ensures CommandEnd(ev, i) == n
    decreases n - i
  {
    if i < n {
      CommandEndsAt(ev, i + 1, n);
    }
  }

  function EndAt(ev: seq<Event>, c: nat): LineEnd
    requires c <= |ev|
  {
    if c == |ev| then Broken else if ev[c].Timeout? then Expired else Completed
  }

  function Behind(ev: seq<Event>, c: nat): (next: nat)
    requires c <= |ev|
    ensures c <= next <= |ev|
  {
    if c == |ev| then c else if ev[c].Timeout? then c + 1 else BehindEol(ev, c)
  }

  /** The three positions of the line that starts at i: the end of its segment, of its AT line, and of it all. */
  function Cuts(ev: seq<Event>, i: nat): ((nat, nat, nat))
    requires i <= |ev|
  {
    var s := SegmentEnd(ev, i);
    var c := CommandEnd(ev, s);
    (s, c, Behind(ev, c))
  }

  lemma {:induction false} CommandIsCut(ev: seq<Event>, i: nat, line: bytes, skipped: bytes)
    requires i <= |ev|
    ensures var c := CommandEnd(ev, i);
            LineFrom(ev, i, true, line, skipped) == Line(line + Slice(ev, i, c), skipped, EndAt(ev, c), Behind(ev, c))
    decreases |ev| - i
  {
    var c := CommandEnd(ev, i);
    if i < c {
      CommandIsCut(ev, i + 1, line + [ev[i].b], skipped);
      SliceStep(ev, i, c);
      Assoc(line, [ev[i].b], Slice(ev, i + 1, c));
    } else {
      assert ev[i..i] == [] && line + [] == line;
    }
  }

  lemma {:induction false} SegmentIsCut(ev: seq<Event>, i: nat, skipped: bytes)
    requires i <= |ev|
    ensures var (s, c, next) := Cuts(ev, i);
            LineFrom(ev, i, false, [], skipped) == Line(Slice(ev, s, c), skipped + Slice(ev, i, s), EndAt(ev, c), next)
    decreases |ev| - i
  {
    var (s, c, next) := Cuts(ev, i);
    if i < s {
      var k := AfterByte(ev, i);
      SegmentIsCut(ev, k, skipped + [ev[i].b]);
      SegmentStep(ev, i);
      Assoc(skipped, [ev[i].b], Slice(ev, k, s));
    } else {
      assert ev[i..i] == [] && skipped + [] == skipped;
      if i < c {
        var none: bytes := [];
        assert none + [ev[i].b] == [ev[i].b];
        CommandIsCut(ev, i + 1, [ev[i].b], skipped);
        SliceStep(ev, i, c);
      }
    }
  }

  lemma SegmentStep(ev: seq<Event>, i: nat)
    requires i <= |ev| && i < SegmentEnd(ev, i)
    ensures var s, k := SegmentEnd(ev, i), AfterByte(ev, i);
            k <= s == SegmentEnd(ev, k) && Slice(ev, i, s) == [ev[i].b] + Slice(ev, k, s)
  {
    var s := SegmentEnd(ev, i);
    SliceStep(ev, i, s);
    if AfterByte(ev, i) == i + 2 {
      SliceStep(ev, i + 1, s);
    }
  }

  /** One call, by positions: what it skips, the AT line, how it ends and where reading goes on. */
  lemma LineIsCut(ev: seq<Event>, i: nat)
    requires i <= |ev|
    ensures var (s, c, next) := Cuts(ev, i);
            ReadLine(ev, i) == Line(Slice(ev, s, c), Slice(ev, i, s), EndAt(ev, c), next)
  {
    SegmentIsCut(ev, i, []);
    var s := SegmentEnd(ev, i);
    assert [] + Slice(ev, i, s) == Slice(ev, i, s);
  }

  predicate IsTerminator(t: bytes) {
    t == [CR] || t == [LF] || t == [CR, LF]
  }

  lemma {:induction false} OneLineSlice(ev: seq<Event>, i: nat, j: nat)
    requires i <= j <= |ev| && forall k {:trigger ev[k]} :: i <= k < j ==> ev[k].Byte? ==> !IsEol(ev[k].b)
    ensures OneLine(Slice(ev, i, j))
    decreases j - i
  {
    if i < j {
      SliceStep(ev, i, j);
      OneLineSlice(ev, i + 1, j);
    }
  }

  lemma TerminatorSlice(ev: seq<Event>, c: nat)
    requires c <= |ev| && (c < |ev| && ev[c].Byte? ==> IsEol(ev[c].b))
    ensures match EndAt(ev, c)
            case Completed => IsTerminator(Slice(ev, c, Behind(ev, c)))
            case _ => Slice(ev, c, Behind(ev, c)) == []
  {
    var next := Behind(ev, c);
    assert ev[next..next] == [];
    if c < next {
      SliceStep(ev, c, next);
      if c + 1 < next {
        SliceStep(ev, c + 1, next);
        var lf := if ev[c + 1].Byte? then [LF] else [];
        assert Slice(ev, c + 1, next) == lf + [] == lf;
        assert Slice(ev, c, next) == [CR] + lf;
      } else if ev[c].Byte? {
        var none: bytes := [];
        assert Slice(ev, c, next) == [ev[c].b] + none == [ev[c].b];
      }
    }
  }

  lemma ATLineStarts(ev: seq<Event>, s: nat)
    requires s <= |ev| && (s < |ev| && ev[s].Byte? && !IsEol(ev[s].b) ==> ByteAt(ev, s, AT[0]) && ByteAt(ev, s + 1, AT[1]))
    ensures var c := CommandEnd(ev, s); Slice(ev, s, c) == [] || AT <= Slice(ev, s, c)
  {
    var c := CommandEnd(ev, s);
    assert ev[s..s] == [];
    if s < c {
      assert s + 1 < c;
      SliceStep(ev, s, c);
      SliceStep(ev, s + 1, c);
    }
  }

  /** The three parts of a line and what is in them. */
  lemma LineParts(ev: seq<Event>, n: nat)
    requires n <= |ev|
    ensures var (s, c, next) := Cuts(ev, n);
            && Slice(ev, n, next) == Slice(ev, n, s) + Slice(ev, s, c) + Slice(ev, c, next)
            && OneLine(Slice(ev, n, s)) && OneLine(Slice(ev, s, c))
            && (Slice(ev, s, c) == [] || AT <= Slice(ev, s, c)) && (s == c ==> Slice(ev, s, c) == [])
            && (if EndAt(ev, c) == Completed then IsTerminator(Slice(ev, c, next))
                else Slice(ev, n, next) == Slice(ev, n, s) + Slice(ev, s, c) && OneLine(Slice(ev, n, next)))
  {
    var (s, c, next) := Cuts(ev, n);
    SliceSplit(ev, n, s, c);
    SliceSplit(ev, n, c, next);
    TerminatorSlice(ev, c);
    OneLineSlice(ev, n, s);
    OneLineSlice(ev, s, c);
    ATLineStarts(ev, s);
    assert ev[s..s] == [];
  }

  /**
   What one call takes is the bytes before the AT line, the AT line, and a terminator if
   the line completed; the AT line is empty or starts with AT; only the terminator has CR
   or LF. A line expires at a timeout and breaks at the end of the stream.
   */
  lemma LineTakes(ev: seq<Event>, i: nat) returns (term: bytes)
    requires i <= |ev|
    ensures var l := ReadLine(ev, i);
            && l.skipped + l.line + term == Slice(ev, i, l.next)
            && (l.line == [] || AT <= l.line) && OneLine(l.line) && OneLine(l.skipped)
            && (match l.end
                case Completed => IsTerminator(term)
                case Expired => term == [] && ev[l.next - 1].Timeout?
                case Broken => term == [] && l.next == |ev|)
  {
    var (s, c, next) := Cuts(ev, i);
    LineIsCut(ev, i);
    LineParts(ev, i);
    term := Slice(ev, c, next);
    TerminatorSlice(ev, c);
  }

  // ----- Where the AT line begins -----

  /** AT does not occur in s. */
  predicate NoAT(s: bytes) {
    forall k :: 0 <= k < |s| - 1 ==> !(s[k] == AT[0] && s[k + 1] == AT[1])
  }

  /** At k a timeout, used up by the look-ahead, stands between an A and a T. */
  predicate SplitAt(ev: seq<Event>, k: nat) {
    ByteAt(ev, k, AT[0]) && TimeoutAt(ev, k + 1) && ByteAt(ev, k + 2, AT[1])
  }

  lemma NoATStep(b: byte, rest: bytes)
    ensures NoAT([b] + rest) <==> NoAT(rest) && !(b == AT[0] && rest != [] && rest[0] == AT[1])
  {
    var all := [b] + rest;
    if NoAT(all) {
      forall k | 0 <= k < |rest| - 1
        ensures !(rest[k] == AT[0] && rest[k + 1] == AT[1])
      {
        var j := k + 1;
        assert all[j] == rest[k] && all[j + 1] == rest[k + 1];
      }
      assert rest != [] ==> all[0] == b && all[0 + 1] == rest[0];
    }
    forall k | 0 < k < |all| - 1 && NoAT(rest)
      ensures !(all[k] == AT[0] && all[k + 1] == AT[1])
    {
      var j := k - 1;
      assert all[k] == rest[j] && all[k + 1] == rest[j + 1];
    }
  }

  /** The bytes before the AT line hold AT only where a timeout splits it. */
  lemma {:induction false} SegmentHoldsAT(ev: seq<Event>, i: nat)
    requires i <= |ev|
    ensures var s := SegmentEnd(ev, i);
            NoAT(Slice(ev, i, s)) <==> forall k {:trigger SplitAt(ev, k)} :: i <= k && k + 2 < s ==> !SplitAt(ev, k)
    decreases |ev| - i
  {
    var s := SegmentEnd(ev, i);
    if i == s {
      assert ev[i..i] == [];
    } else {
      var k := AfterByte(ev, i);
      var b, rest := ev[i].b, Slice(ev, k, s);
      SegmentStep(ev, i);
      SegmentHoldsAT(ev, k);
      NoATStep(b, rest);
      if k < s {
        SegmentStep(ev, k);
        assert rest[0] == ev[k].b;
      } else {
        assert ev[s..s] == [];
      }
      assert SplitAt(ev, i) && i + 2 < s <==> b == AT[0] && rest != [] && rest[0] == AT[1];
      assert k == i + 2 ==> !SplitAt(ev, i + 1);
      assert forall n {:trigger SplitAt(ev, n)} :: i <= n && n + 2 < s ==> SplitAt(ev, n) ==> n == i || k <= n;
    }
  }

  /**
   The AT line begins at the first AT of its segment if and only if no timeout within the
   call stands between an A and a T.
   */
  lemma LineBeginsAtFirstAT(ev: seq<Event>, i: nat)
    requires i <= |ev|
    ensures var l := ReadLine(ev, i);
            NoAT(l.skipped) <==> forall k {:trigger SplitAt(ev, k)} :: i <= k && k + 2 < l.next ==> !SplitAt(ev, k)
  {
    var (s, c, next) := Cuts(ev, i);
    LineIsCut(ev, i);
    SegmentHoldsAT(ev, i);
    forall k | i <= k && s <= k + 2 < next
      ensures !SplitAt(ev, k)
    {
      assert k + 1 < c ==> k + 1 < s || ev[k + 1].Byte?;
    }
  }

  /** A deadline stays expired until the next call sets another: one call meets no byte behind a timeout. */
  predicate Sticky(ev: seq<Event>, i: nat, next: nat)
    requires next <= |ev|
  {
    forall k {:trigger ev[k]} :: i <= k && k + 1 < next && ev[k].Timeout? ==> ev[k + 1].Timeout?
  }

  /** With such deadlines the AT line always begins at the first AT. */
  lemma StickyLineBeginsAtFirstAT(ev: seq<Event>, i: nat)
    requires i <= |ev| && Sticky(ev, i, ReadLine(ev, i).next)
    ensures NoAT(ReadLine(ev, i).skipped)
  {
    LineBeginsAtFirstAT(ev, i);
    assert forall k: nat :: SplitAt(ev, k) ==> ev[k + 1].Timeout? && ev[k + 2].Byte?;
  }

  // ----- No unknown commands -----

  lemma {:induction false} TrimRightKeeps(p: bytes, s: bytes)
    requires p <= s && p != [] && !IsSpace(p[|p| - 1])
    ensures p <= TrimRight(s)
    decreases |s|
  {
    if IsSpace(s[|s| - 1]) {
      TrimRightKeeps(p, s[..|s| - 1]);
    }
  }

  /** Trimming a line that starts with AT leaves a text that starts with AT and is classified. */
  lemma ATLineIsClassified(line: bytes)
    requires AT <= line
    ensures AT <= Trim(line) && ParseATCommand(Trim(line)).Some?
    ensures var (kind, param) := ParseATCommand(Trim(line)).value;
            kind == Modem ==> param == Trim(line)
  {
    assert !IsSpace(line[0]);
    TrimRightKeeps(AT, line);
    var text := Trim(line);
    assert Upper(text)[0] == AT[0] && Upper(text)[1] == AT[1];
    assert AT <= Upper(text);
  }

  /** Whatever arrives and whenever the deadlines fire, no line is an unknown command. */
  lemma {:induction false} NoUnknownCommand(ev: seq<Event>, i: nat, w: Wait, cfg: Option<Config>, kept: bytes)
    requires i <= |ev|
    ensures match ReadFrom(ev, i, w, cfg, kept)
            case Got(cmd, _) => cmd.kind == Modem ==> AT <= cmd.param && Trim(cmd.param) == cmd.param
            case NoCommand(err, _, _) => !err.UnknownCommand?
    decreases |ev| - i
  {
    if !w.Over(i) {
      var l := ReadLine(ev, i);
      var _ := LineTakes(ev, i);
      if AT <= l.line {
        ATLineIsClassified(l.line);
        TrimIdempotent(l.line);
      }
      match Judge(l, w.Elapsed(l.next), w.timeout, cfg, kept)
      case More(cfg', kept') => NoUnknownCommand(ev, l.next, w, cfg', kept');
      case Stop(_) =>
    }
  }

  lemma TrimIdempotent(s: bytes)
    requires s != [] && !IsSpace(s[0])
    ensures Trim(Trim(s)) == Trim(s)
  {
  }

  // ----- Why a wait ends -----

  /** The line that starts at n met its deadline with an AT line begun, or with nothing in it. */
  predicate ExpiresOpen(ev: seq<Event>, n: nat)
    requires n <= |ev|
  {
    var l := ReadLine(ev, n);
    l.end == Expired && (l.line != [] || l.skipped == [])
  }

  /**
   Without a command a wait ends for one of three reasons: more than its time is over; a line
   met its deadline, with an AT line begun or empty, no configuration was accepted before it,
   and the wait has no limit or its time is up; or the stream has ended.
   */
  lemma {:induction false} WhyAWaitEnds(ev: seq<Event>, i: nat, w: Wait, cfg: Option<Config>, kept: bytes)
    requires i <= |ev|
    ensures var r := ReadFrom(ev, i, w, cfg, kept);
            r.NoCommand? ==>
              match r.err
              case WaitExpired => 0 < w.timeout < w.Elapsed(r.next)
              case LineExpired =>
                && r.cfg == None && (w.timeout <= 0 || w.timeout <= w.Elapsed(r.next))
                && exists n :: i <= n < r.next && ExpiresOpen(ev, n) && ReadLine(ev, n).next == r.next
              case ConnectionFailed => r.next == |ev|
              case UnknownCommand(_) => false
    decreases |ev| - i
  {
    if !w.Over(i) {
      var l := ReadLine(ev, i);
      var term := LineTakes(ev, i);
      JudgeKeeps(l, w.Elapsed(l.next), w.timeout, cfg, kept);
      match Judge(l, w.Elapsed(l.next), w.timeout, cfg, kept)
      case More(cfg', kept') => WhyAWaitEnds(ev, l.next, w, cfg', kept');
      case Stop(r) =>
        if r.NoCommand? && r.err == LineExpired {
          assert ExpiresOpen(ev, i);
        }
    }
  }

  /** Where the wait is not over for such a line, reading goes on as if the line had not been there. */
  lemma OpenLineIsDropped(ev: seq<Event>, n: nat, w: Wait, cfg: Option<Config>, kept: bytes)
    requires n <= |ev| && ExpiresOpen(ev, n) && !w.Over(n)
    ensures var next := ReadLine(ev, n).next;
            ReadFrom(ev, n, w, cfg, kept)
            == if cfg.Some? || (w.timeout > 0 && w.Elapsed(next) < w.timeout)
               then ReadFrom(ev, next, w, cfg, kept) else NoCommand(LineExpired, cfg, next)
  {
    assert kept + [] == kept;
  }

  // ----- Byte conservation -----

  datatype Fate = Kept | CommandLine | Terminator | VcomSegment | Abandoned

  /** Some of what one call took: the events from..to of the line that starts at line. */
  datatype Piece = Piece(fate: Fate, line: nat, from: nat, to: nat, data: bytes)

  function AllBytes(ps: seq<Piece>): bytes {
    if ps == [] then [] else ps[0].data + AllBytes(ps[1..])
  }

  function BytesFated(ps: seq<Piece>, f: Fate): bytes {
    if ps == [] then [] else (if ps[0].fate == f then ps[0].data else []) + BytesFated(ps[1..], f)
  }

  /** The last decodable configuration among the segments headed 55 AA 55; cfg when there is none. */
  function ConfigOf(ps: seq<Piece>, cfg: Option<Config>): Option<Config> {
    if ps == [] then cfg
    else ConfigOf(ps[1..], if ps[0].fate == VcomSegment && Parse(ps[0].data).Some? then Parse(ps[0].data) else cfg)
  }

  lemma {:induction false} ConfigsAppend(a: seq<Piece>, b: seq<Piece>, cfg: Option<Config>)
    ensures ConfigOf(a + b, cfg) == ConfigOf(b, ConfigOf(a, cfg))
  {
    if a == [] {
      assert a + b == b;
    } else {
      assert (a + b)[1..] == a[1..] + b;
      ConfigsAppend(a[1..], b, if a[0].fate == VcomSegment && Parse(a[0].data).Some? then Parse(a[0].data) else cfg);
    }
  }

  predicate Decodable(data: bytes) {
    IsUSRVCOM(data) && Parse(data).Some?
  }

  /** The pieces the line that starts at n falls into. */
  function LinePieces(ev: seq<Event>, n: nat): seq<Piece>
    requires n <= |ev|
  {
    var (s, c, next) := Cuts(ev, n);
    var segment := Slice(ev, n, s);
    match EndAt(ev, c)
    case Broken => [Piece(Abandoned, n, n, next, Slice(ev, n, next))]
    case Expired =>
      var fate := if segment == [] || s < c then Abandoned else if Decodable(segment) then VcomSegment else Kept;
      [Piece(fate, n, n, next, Slice(ev, n, next))]
    case Completed =>
      [Piece(if IsUSRVCOM(segment) then VcomSegment else Kept, n, n, s, segment),
       Piece(CommandLine, n, s, c, Slice(ev, s, c)), Piece(Terminator, n, c, next, Slice(ev, c, next))]
  }

  /** The piece is the whole of what its line has before an AT line, and the line is complete or has no AT line. */
  predicate WholeSegment(ev: seq<Event>, p: Piece)
    requires p.line <= |ev|
  {
    var (s, c, next) := Cuts(ev, p.line);
    && p.from == p.line
    && match EndAt(ev, c)
       case Completed => p.to == s
       case Expired => s == c && p.to == next
       case Broken => false
  }

  /**
   A piece holds the bytes at its positions, and its fate is that of its place: a whole
   segment is kept unless it is headed 55 AA 55 and completed or decodable; the AT line and
   its terminator are those of a completed line; what is abandoned is all of a line that
   the end of the stream broke, or that a timeout ended with an AT line or nothing in it.
   */
  predicate PieceOk(ev: seq<Event>, p: Piece) {
    && p.line <= p.from <= p.to <= |ev| && p.data == Slice(ev, p.from, p.to)
    && var (s, c, next) := Cuts(ev, p.line);
       var completed := EndAt(ev, c) == Completed;
       match p.fate
       case Kept =>
         WholeSegment(ev, p) && OneLine(p.data) && !Decodable(p.data) && !(completed && IsUSRVCOM(p.data))
       case VcomSegment =>
         WholeSegment(ev, p) && OneLine(p.data) && IsUSRVCOM(p.data) && (completed || Decodable(p.data))
       case CommandLine => completed && p.from == s && p.to == c && (p.data == [] || AT <= p.data)
       case Terminator => completed && p.from == c && p.to == next && IsTerminator(p.data)
       case Abandoned =>
         && !completed && p.from == p.line && p.to == next && OneLine(p.data)
         && (if EndAt(ev, c) == Broken then p.to == |ev| else ev[p.to - 1].Timeout? && (s < c || p.data == []))
  }

  /** The pieces follow each other from i, inside the line that starts at line, to the end of a line at end. */
  predicate Tiles(ev: seq<Event>, ps: seq<Piece>, i: nat, line: nat, end: nat)
    requires line <= |ev|
    decreases |ps|
  {
    if ps == [] then i == line == end
    else
      var p := ps[0];
      && p.line == line && p.from == i && p.to <= |ev|
      && Tiles(ev, ps[1..], p.to, if p.to == Cuts(ev, line).2 then p.to else line, end)
  }

  lemma {:induction false} TilesAppend(ev: seq<Event>, a: seq<Piece>, b: seq<Piece>, i: nat, line: nat, j: nat, end: nat)
    requires line <= |ev| && j <= |ev| && Tiles(ev, a, i, line, j) && Tiles(ev, b, j, j, end)
    ensures Tiles(ev, a + b, i, line, end)
    decreases |a|
  {
    if a == [] {
      assert a + b == b;
    } else {
      assert (a + b)[1..] == a[1..] + b;
      var p := a[0];
      TilesAppend(ev, a[1..], b, p.to, if p.to == Cuts(ev, line).2 then p.to else line, j, end);
    }
  }

  lemma {:induction false} PiecesAppend(a: seq<Piece>, b: seq<Piece>)
    ensures AllBytes(a + b) == AllBytes(a) + AllBytes(b)
  {
    if a == [] {
      assert a + b == b;
    } else {
      assert (a + b)[1..] == a[1..] + b;
      PiecesAppend(a[1..], b);
      Assoc(a[0].data, AllBytes(a[1..]), AllBytes(b));
    }
  }

  lemma {:induction false} FatesAppend(a: seq<Piece>, b: seq<Piece>, f: Fate)
    ensures BytesFated(a + b, f) == BytesFated(a, f) + BytesFated(b, f)
  {
    if a == [] {
      assert a + b == b;
    } else {
      assert (a + b)[1..] == a[1..] + b;
      FatesAppend(a[1..], b, f);
      Assoc(if a[0].fate == f then a[0].data else [], BytesFated(a[1..], f), BytesFated(b, f));
    }
  }

  /** The pieces account for everything taken from i on, and the result is read off them. */
  predicate Accounts(ev: seq<Event>, i: nat, cfg: Option<Config>, kept: bytes, r: ReadResult, ps: seq<Piece>)
    requires i <= r.next <= |ev|
  {
    && Tiles(ev, ps, i, i, r.next) && AllBytes(ps) == Slice(ev, i, r.next)
    && (forall p :: p in ps ==> PieceOk(ev, p))
    && (match r
        case Got(cmd, _) =>
          && kept + BytesFated(ps, Kept) == cmd.skipped && cmd.cfg == ConfigOf(ps, cfg)
          && ParseATCommand(Trim(BytesFated(ps, CommandLine))) == Some((cmd.kind, cmd.param))
        case NoCommand(_, known, _) => known == ConfigOf(ps, cfg) && BytesFated(ps, CommandLine) == [])
  }

  /**
   Every byte taken falls in exactly one piece, in order: kept as presets, the AT line, a
   line terminator, a segment headed 55 AA 55, or abandoned at a timeout or the end of the
   stream. The presets returned are exactly the kept pieces, the configuration is the last
   one decodable, and the command is the one AT line there is.
   */
  lemma {:induction false} Conservation(ev: seq<Event>, i: nat, w: Wait, cfg: Option<Config>, kept: bytes) returns (ps: seq<Piece>)
    requires i <= |ev|
    ensures Accounts(ev, i, cfg, kept, ReadFrom(ev, i, w, cfg, kept), ps)
    decreases |ev| - i
  {
    ps := [];
    if w.Over(i) {
      assert ev[i..i] == [];
    } else {
      var l := ReadLine(ev, i);
      LineIsCut(ev, i);
      ps := LinePieces(ev, i);
      LinePiecesOk(ev, i);
      LineResults(ev, i, cfg);
      JudgeKeeps(l, w.Elapsed(l.next), w.timeout, cfg, kept);
      match Judge(l, w.Elapsed(l.next), w.timeout, cfg, kept)
      case Stop(_) =>
      case More(cfg', kept') =>
        var rest := Conservation(ev, l.next, w, cfg', kept');
        AccountsMore(ev, i, l.next, cfg, kept, ReadFrom(ev, l.next, w, cfg', kept'), ps, rest);
        ps := ps + rest;
    }
  }

  lemma AccountsMore(ev: seq<Event>, i: nat, j: nat, cfg: Option<Config>, kept: bytes, r: ReadResult,
                     here: seq<Piece>, rest: seq<Piece>)
    requires i <= j <= r.next <= |ev|
    requires Tiles(ev, here, i, i, j) && AllBytes(here) == Slice(ev, i, j) && BytesFated(here, CommandLine) == []
    requires forall p :: p in here ==> PieceOk(ev, p)
    requires Accounts(ev, j, ConfigOf(here, cfg), kept + BytesFated(here, Kept), r, rest)
    ensures Accounts(ev, i, cfg, kept, r, here + rest)
  {
    SliceSplit(ev, i, j, r.next);
    TilesAppend(ev, here, rest, i, i, j, r.next);
    PiecesAppend(here, rest);
    ConfigsAppend(here, rest, cfg);
    FatesAppend(here, rest, Kept);
    FatesAppend(here, rest, CommandLine);
    Assoc(kept, BytesFated(here, Kept), BytesFated(rest, Kept));
    assert BytesFated(here + rest, CommandLine) == BytesFated(rest, CommandLine);
  }

  /** What a line adds to the presets. */
  function KeptOf(l: Line): bytes {
    match l.end
    case Broken => []
    case Expired =>
      if l.line != [] || (IsUSRVCOM(l.skipped) && Parse(l.skipped).Some?) then [] else l.skipped
    case Completed => if IsUSRVCOM(l.skipped) then [] else l.skipped
  }

  /** The configuration known after a line. */
  function ConfigAfter(l: Line, cfg: Option<Config>): Option<Config> {
    var counts := l.end == Completed || (l.end == Expired && l.line == []);
    if counts && IsUSRVCOM(l.skipped) && Parse(l.skipped).Some? then Parse(l.skipped) else cfg
  }

  lemma JudgeKeeps(l: Line, elapsed: int, timeout: int, cfg: Option<Config>, kept: bytes)
    requires l.line == [] || AT <= l.line
    ensures match Judge(l, elapsed, timeout, cfg, kept)
            case More(cfg', kept') => cfg' == ConfigAfter(l, cfg) && kept' == kept + KeptOf(l) && (l.end == Completed ==> l.line == [])
            case Stop(Got(cmd, next)) =>
              && l.end == Completed && next == l.next && cmd.cfg == ConfigAfter(l, cfg) && cmd.skipped == kept + KeptOf(l)
              && ParseATCommand(Trim(l.line)) == Some((cmd.kind, cmd.param))
            case Stop(NoCommand(_, known, next)) => l.end != Completed && next == l.next && known == ConfigAfter(l, cfg)
  {
    if AT <= l.line {
      ATLineIsClassified(l.line);
    }
    assert kept + [] == kept;
  }

  /** What three pieces in a row come to. */
  lemma ThreePieces(a: Piece, b: Piece, c: Piece, f: Fate)
    ensures AllBytes([a, b, c]) == a.data + b.data + c.data
    ensures BytesFated([a, b, c], f) ==
            (if a.fate == f then a.data else []) + (if b.fate == f then b.data else []) + (if c.fate == f then c.data else [])
  {
    var bc, c' := [b, c], [c];
    assert [a, b, c] == [a] + bc && bc == [b] + c';
    assert bc[1..] == c' && c'[1..] == [] && [a, b, c][1..] == bc;
    assert AllBytes(c') == c.data + [] == c.data;
    assert AllBytes(bc) == b.data + AllBytes(bc[1..]) == b.data + c.data;
    Assoc(a.data, b.data, c.data);
    var x, y, z := if a.fate == f then a.data else [], if b.fate == f then b.data else [], if c.fate == f then c.data else [];
    assert BytesFated(c', f) == z + [] == z;
    assert BytesFated(bc, f) == y + BytesFated(bc[1..], f) == y + z;
    Assoc(x, y, z);
  }

  lemma OnePiece(a: Piece, f: Fate)
    ensures AllBytes([a]) == a.data && BytesFated([a], f) == if a.fate == f then a.data else []
  {
    assert [a][1..] == [];
    assert AllBytes([a]) == a.data + [];
  }

  /** A line's pieces tile it and have the fate of their places. */
  lemma LinePiecesOk(ev: seq<Event>, n: nat)
    requires n <= |ev|
    ensures var ps, next := LinePieces(ev, n), Cuts(ev, n).2;
            && Tiles(ev, ps, n, n, next) && AllBytes(ps) == Slice(ev, n, next)
            && forall p :: p in ps ==> PieceOk(ev, p)
  {
    var (s, c, next) := Cuts(ev, n);
    LineParts(ev, n);
    if EndAt(ev, c) == Completed {
      var ps := LinePieces(ev, n);
      ThreePieces(ps[0], ps[1], ps[2], Kept);
      ThreeTile(ev, ps, n);
      assert PieceOk(ev, ps[0]) && PieceOk(ev, ps[1]) && PieceOk(ev, ps[2]);
    } else {
      OpenLinePieces(ev, n);
    }
  }

  /** A line that does not complete is one piece. */
  lemma OpenLine(ev: seq<Event>, n: nat)
    requires n <= |ev| && EndAt(ev, Cuts(ev, n).1) != Completed
    ensures var (s, c, next) := Cuts(ev, n);
            && OneLine(Slice(ev, n, next)) && (s == c ==> Slice(ev, n, next) == Slice(ev, n, s))
            && (if EndAt(ev, c) == Broken then next == |ev| else n < next && ev[next - 1].Timeout?)
  {
    LineParts(ev, n);
  }

  lemma OpenLinePieces(ev: seq<Event>, n: nat)
    requires n <= |ev| && EndAt(ev, Cuts(ev, n).1) != Completed
    ensures var ps, next := LinePieces(ev, n), Cuts(ev, n).2;
            && Tiles(ev, ps, n, n, next) && AllBytes(ps) == Slice(ev, n, next)
            && forall p :: p in ps ==> PieceOk(ev, p)
  {
    var next := Cuts(ev, n).2;
    var ps := LinePieces(ev, n);
    var p := ps[0];
    OpenLine(ev, n);
    assert ps == [p] && p.line == p.from == n && p.to == next && p.data == Slice(ev, n, next);
    OnePiece(p, Kept);
    assert ps[1..] == [];
    assert Tiles(ev, ps[1..], next, next, next);
    assert PieceOk(ev, p);
  }

  lemma ThreeTile(ev: seq<Event>, ps: seq<Piece>, n: nat)
    requires n <= |ev| && EndAt(ev, Cuts(ev, n).1) == Completed && |ps| == 3
    requires var (s, c, next) := Cuts(ev, n);
             && ps[0].line == ps[1].line == ps[2].line == n && ps[0].from == n && ps[0].to == ps[1].from == s
             && ps[1].to == ps[2].from == c && ps[2].to == next
    ensures Tiles(ev, ps, n, n, Cuts(ev, n).2)
  {
    var (s, c, next) := Cuts(ev, n);
    assert ps[1..][1..][1..] == [];
    assert Tiles(ev, ps[1..][1..], c, n, next);
    assert Tiles(ev, ps[1..], s, n, next);
  }

  /** A line's pieces say what the line adds to presets, command and configuration. */
  lemma LineResults(ev: seq<Event>, n: nat, cfg: Option<Config>)
    requires n <= |ev|
    ensures var l, ps := ReadLine(ev, n), LinePieces(ev, n);
            && (l.line == [] || AT <= l.line)
            && BytesFated(ps, CommandLine) == (if l.end == Completed then l.line else [])
            && BytesFated(ps, Kept) == KeptOf(l)
            && ConfigOf(ps, cfg) == ConfigAfter(l, cfg)
  {
    LineIsCut(ev, n);
    LineParts(ev, n);
    if EndAt(ev, Cuts(ev, n).1) == Completed {
      CompletedLineResults(ev, n, cfg);
    } else {
      OpenLineResults(ev, n, cfg);
    }
  }

  lemma CompletedLineResults(ev: seq<Event>, n: nat, cfg: Option<Config>)
    requires n <= |ev| && EndAt(ev, Cuts(ev, n).1) == Completed
    ensures var ps, (s, c, next) := LinePieces(ev, n), Cuts(ev, n);
            var segment := Slice(ev, n, s);
            && BytesFated(ps, CommandLine) == Slice(ev, s, c)
            && BytesFated(ps, Kept) == (if IsUSRVCOM(segment) then [] else segment)
            && ConfigOf(ps, cfg) == if Decodable(segment) then Parse(segment) else cfg
  {
    var ps := LinePieces(ev, n);
    ThreePieces(ps[0], ps[1], ps[2], CommandLine);
    ThreePieces(ps[0], ps[1], ps[2], Kept);
    var two := ps[1..];
    assert two[1..][1..] == [];
    forall known
      ensures ConfigOf(two, known) == known
    {
      assert ConfigOf(two[1..], known) == ConfigOf(two[1..][1..], known);
    }
  }

  lemma OpenLineResults(ev: seq<Event>, n: nat, cfg: Option<Config>)
    requires n <= |ev| && EndAt(ev, Cuts(ev, n).1) != Completed
    ensures var ps, (s, c, next) := LinePieces(ev, n), Cuts(ev, n);
            var segment := Slice(ev, n, s);
            var presets := EndAt(ev, c) == Expired && s == c;
            && BytesFated(ps, CommandLine) == []
            && BytesFated(ps, Kept) == (if presets && !Decodable(segment) then segment else [])
            && ConfigOf(ps, cfg) == if presets && Decodable(segment) then Parse(segment) else cfg
  {
    var ps := LinePieces(ev, n);
    var p := ps[0];
    OpenLine(ev, n);
    assert ps == [p];
    OnePiece(p, CommandLine);
    OnePiece(p, Kept);
    assert ps[1..] == [];
  }
}
