/**
 What the command reader makes of the bytes that precede an AT command: they are cut into
 segments at CR, at LF and at expired deadlines, and the command follows.
 */
module Preamble {
  import opened Bytes
  import opened Text
  import opened Stream
  import opened UsrVcom
  import opened Protocol
  import opened ReaderProperties

  // ----- The presets, declaratively -----

  /** Bytes up to a line end, or the AT line, or an expired deadline. */
  datatype Segment = Segment(data: bytes, expired: bool)

  /** The events at i begin an AT line. */
  predicate ATAt(ev: seq<Event>, i: nat) {
    ByteAt(ev, i, AT[0]) && ByteAt(ev, i + 1, AT[1])
  }

  /**
   The segments from i to j; cur is the start of the first. A timeout in the look-ahead
   behind an A cuts nothing. An AT line takes its segment with it.
   */
  function Cut(ev: seq<Event>, i: nat, j: nat, cur: bytes): seq<Segment>
    requires j <= |ev|
    decreases |ev| - i
  {
    if i >= j then [Segment(cur, false)]
    else if ev[i].Timeout? then [Segment(cur, true)] + Cut(ev, i + 1, j, [])
    else if IsEol(ev[i].b) then [Segment(cur, false)] + Cut(ev, i + 1, j, [])
    else if ATAt(ev, i) then Cut(ev, CommandEnd(ev, i) + 1, j, [])
    else Cut(ev, AfterByte(ev, i), j, cur + [ev[i].b])
  }

  /** No AT begins from i to j. */
  predicate NoATBetween(ev: seq<Event>, i: nat, j: nat) {
    forall k {:trigger ATAt(ev, k)} :: i <= k < j ==> !ATAt(ev, k)
  }

  /** Segments headed 55 AA 55 are no presets, except one that expired and cannot be decoded. */
  predicate IsPlain(s: Segment) {
    !IsUSRVCOM(s.data) || (s.expired && Parse(s.data).None?)
  }

  function Plain(segments: seq<Segment>): bytes {
    if segments == [] then []
    else (if IsPlain(segments[0]) then segments[0].data else []) + Plain(segments[1..])
  }

  /** The last decodable segment headed 55 AA 55; cfg when there is none. */
  function LastConfig(segments: seq<Segment>, cfg: Option<Config>): Option<Config> {
    if segments == [] then cfg
    else LastConfig(segments[1..], if Decodable(segments[0].data) then Parse(segments[0].data) else cfg)
  }

  function WithoutEol(p: bytes): bytes {
    if p == [] then [] else (if IsEol(p[0]) then [] else [p[0]]) + WithoutEol(p[1..])
  }

  function Joined(segments: seq<Segment>): bytes {
    if segments == [] then [] else segments[0].data + Joined(segments[1..])
  }

  /** Without an AT, cutting loses nothing but the line ends, and leaves none. */
  lemma {:induction false} CutKeepsBytes(ev: seq<Event>, i: nat, j: nat, cur: bytes)
    requires i <= j < |ev| && OneLine(cur) && ev[j].Byte? && NoATBetween(ev, i, j)
    ensures Joined(Cut(ev, i, j, cur)) == cur + WithoutEol(Slice(ev, i, j))
    ensures forall s :: s in Cut(ev, i, j, cur) ==> OneLine(s.data)
    decreases |ev| - i
  {
    var segments, p := Cut(ev, i, j, cur), Slice(ev, i, j);
    if i == j {
      assert ev[i..i] == [] && segments[1..] == [];
      assert Joined(segments) == cur + Joined([]) == cur + WithoutEol(p);
    } else if ev[i].Timeout? || IsEol(ev[i].b) {
      SliceStep(ev, i, j);
      CutKeepsBytes(ev, i + 1, j, []);
      var rest := Slice(ev, i + 1, j);
      if ev[i].Byte? {
        WithoutEolStep(ev[i].b, rest);
      }
      assert [] + WithoutEol(rest) == WithoutEol(rest) == WithoutEol(p);
      assert segments[1..] == Cut(ev, i + 1, j, []);
    } else {
      assert !ATAt(ev, i);
      var k, b := AfterByte(ev, i), ev[i].b;
      var rest := Slice(ev, k, j);
      SliceStep(ev, i, j);
      if k == i + 2 {
        SliceStep(ev, i + 1, j);
      }
      CutKeepsBytes(ev, k, j, cur + [b]);
      WithoutEolStep(b, rest);
      Assoc(cur, [b], WithoutEol(rest));
    }
  }

  lemma WithoutEolStep(b: byte, rest: bytes)
    ensures WithoutEol([b] + rest) == (if IsEol(b) then [] else [b]) + WithoutEol(rest)
  {
    assert ([b] + rest)[1..] == rest;
  }

  /** When no segment is headed 55 AA 55 the presets are all the bytes but the line ends. */
  lemma {:induction false} UnheadedArePlain(segments: seq<Segment>, cfg: Option<Config>)
    requires forall s :: s in segments ==> !IsUSRVCOM(s.data)
    ensures Plain(segments) == Joined(segments) && LastConfig(segments, cfg) == cfg
  {
    if segments != [] {
      UnheadedArePlain(segments[1..], cfg);
    }
  }

  /** The configuration left is that of the last decodable packet. */
  lemma {:induction false} LastConfigIsLast(segments: seq<Segment>, cfg: Option<Config>, k: nat)
    requires k < |segments| && Decodable(segments[k].data)
    requires forall j :: k < j < |segments| ==> !Decodable(segments[j].data)
    ensures LastConfig(segments, cfg) == Parse(segments[k].data)
  {
    if k == 0 {
      NoConfig(segments[1..], Parse(segments[0].data));
    } else {
      LastConfigIsLast(segments[1..], if Decodable(segments[0].data) then Parse(segments[0].data) else cfg, k - 1);
    }
  }

  lemma {:induction false} NoConfig(segments: seq<Segment>, cfg: Option<Config>)
    requires forall j :: 0 <= j < |segments| ==> !Decodable(segments[j].data)
    ensures LastConfig(segments, cfg) == cfg
  {
    if segments != [] {
      NoConfig(segments[1..], cfg);
    }
  }

  // ----- The reader on those bytes -----

  /** What is known part-way through a line. */
  datatype Progress = Progress(cfg: Option<Config>, kept: bytes, cur: bytes)

  /** Reading on in the middle of a line that has not reached its AT command. */
  function Continue(ev: seq<Event>, i: nat, w: Wait, s: Progress): ReadResult
    requires i <= |ev|
  {
    var l := LineFrom(ev, i, false, [], s.cur);
    match Judge(l, w.Elapsed(l.next), w.timeout, s.cfg, s.kept)
    case More(cfg, kept) => ReadFrom(ev, l.next, w, cfg, kept)
    case Stop(r) => r
  }

  /** What is known once the segment at hand is over. */
  function Closed(s: Progress, expired: bool): Progress {
    var segment := Segment(s.cur, expired);
    Progress(if Decodable(s.cur) then Parse(s.cur) else s.cfg, if IsPlain(segment) then s.kept + s.cur else s.kept, [])
  }

  /**
   From i to j the wait is not over, deadlines fire only in a wait that is limited and goes
   on, and no AT line is completed: one that begins meets its deadline.
   */
  predicate Patient(ev: seq<Event>, i: nat, j: nat, w: Wait) {
    && i <= j < |ev|
    && (forall k {:trigger ev[k]} :: i <= k < j ==> ev[k].Timeout? ==> w.timeout > 0 && w.Elapsed(k + 1) < w.timeout)
    && (forall k {:trigger ATAt(ev, k)} :: i <= k < j && ATAt(ev, k) ==> CommandEnd(ev, k) < j && ev[CommandEnd(ev, k)].Timeout?)
    && (forall k {:trigger w.Over(k)} :: i <= k <= j ==> !w.Over(k))
  }

  /** An expired deadline closes the segment, and the reader goes on. */
  lemma ReaderPauses(ev: seq<Event>, i: nat, w: Wait, s: Progress)
    requires i < |ev| && ev[i].Timeout? && w.timeout > 0 && w.Elapsed(i + 1) < w.timeout && !w.Over(i + 1)
    ensures Continue(ev, i, w, s) == Continue(ev, i + 1, w, Closed(s, true))
  {
    var none: bytes := [];
    assert LineFrom(ev, i, false, none, s.cur) == Line(none, s.cur, Expired, i + 1);
    assert s.cur == [] ==> s.kept + s.cur == s.kept;
    assert Continue(ev, i, w, s) == ReadFrom(ev, i + 1, w, Closed(s, true).cfg, Closed(s, true).kept);
  }

  /** So does a line end. */
  lemma ReaderEndsLine(ev: seq<Event>, i: nat, w: Wait, s: Progress)
    requires i < |ev| && ev[i].Byte? && IsEol(ev[i].b) && !w.Over(BehindEol(ev, i))
    ensures Continue(ev, i, w, s) == Continue(ev, BehindEol(ev, i), w, Closed(s, false))
  {
    var none: bytes := [];
    assert LineFrom(ev, i, false, none, s.cur) == Line(none, s.cur, Completed, BehindEol(ev, i));
    assert s.cur == [] ==> s.kept + s.cur == s.kept;
    assert Continue(ev, i, w, s) == ReadFrom(ev, BehindEol(ev, i), w, Closed(s, false).cfg, Closed(s, false).kept);
  }

  /** A byte that neither ends the line nor begins the command joins the segment. */
  lemma ReaderTakesByte(ev: seq<Event>, i: nat, w: Wait, s: Progress)
    requires i < |ev| && ev[i].Byte? && !IsEol(ev[i].b) && !(ByteAt(ev, i, AT[0]) && ByteAt(ev, i + 1, AT[1]))
    ensures Continue(ev, i, w, s) == Continue(ev, AfterByte(ev, i), w, s.(cur := s.cur + [ev[i].b]))
  {
  }

  /** An AT line that meets its deadline is dropped, with what was before it in the line. */
  lemma ReaderDrops(ev: seq<Event>, i: nat, w: Wait, s: Progress)
    requires ATAt(ev, i) && TimeoutAt(ev, CommandEnd(ev, i))
    requires var next := CommandEnd(ev, i) + 1; w.timeout > 0 && w.Elapsed(next) < w.timeout && !w.Over(next)
    ensures Continue(ev, i, w, s) == Continue(ev, CommandEnd(ev, i) + 1, w, Progress(s.cfg, s.kept, []))
  {
    var c := CommandEnd(ev, i);
    LineExpires(ev, i, s.cur);
    assert Continue(ev, i, w, s) == ReadFrom(ev, c + 1, w, s.cfg, s.kept);
  }

  lemma LineExpires(ev: seq<Event>, i: nat, skipped: bytes)
    requires ATAt(ev, i) && TimeoutAt(ev, CommandEnd(ev, i))
    ensures var c := CommandEnd(ev, i);
            LineFrom(ev, i, false, [], skipped) == Line(Slice(ev, i, c), skipped, Expired, c + 1) && Slice(ev, i, c) != []
  {
    var c := CommandEnd(ev, i);
    SegmentIsCut(ev, i, skipped);
    assert SegmentEnd(ev, i) == i && i < c;
    assert ev[i..i] == [] && skipped + [] == skipped;
    SliceStep(ev, i, c);
  }

  /** The command that follows what is known at the start of its line. */
  function Reached(s: Progress, segments: seq<Segment>, line: bytes, next: nat): ReadResult
    requires AT <= line
  {
    var (kind, param) := CommandOn(line);
    Got(ATCommand(kind, param, s.kept + Plain(segments), LastConfig(segments, s.cfg)), next)
  }

  /** A closed segment moves from what is to come to what is known. */
  lemma SegmentCloses(s: Progress, expired: bool, rest: seq<Segment>, line: bytes, next: nat)
    requires AT <= line
    ensures Reached(s, [Segment(s.cur, expired)] + rest, line, next) == Reached(Closed(s, expired), rest, line, next)
  {
    var segments := [Segment(s.cur, expired)] + rest;
    assert segments[1..] == rest;
    var here := if IsPlain(segments[0]) then s.cur else [];
    Assoc(s.kept, here, Plain(rest));
    assert s.kept + [] == s.kept;
  }

  lemma {:induction false} ReaderCuts(ev: seq<Event>, i: nat, j: nat, m: nat, w: Wait, s: Progress)
    requires Patient(ev, i, j, w) && WholeLine(ev, j, m) && AT <= Slice(ev, j, m)
    ensures Continue(ev, i, w, s) == Reached(s, Cut(ev, i, j, s.cur), Slice(ev, j, m), BehindEol(ev, m))
    decreases |ev| - i
  {
    var line, next := Slice(ev, j, m), BehindEol(ev, m);
    if i == j {
      CommandStops(ev, j, m, w, s);
    } else if ev[i].Timeout? {
      assert !w.Over(i + 1);
      ReaderPauses(ev, i, w, s);
      ReaderCuts(ev, i + 1, j, m, w, Closed(s, true));
      SegmentCloses(s, true, Cut(ev, i + 1, j, []), line, next);
    } else if IsEol(ev[i].b) {
      ReaderCutsLine(ev, i, j, m, w, s);
    } else if ATAt(ev, i) {
      var c := CommandEnd(ev, i);
      assert c < j && ev[c].Timeout? && !w.Over(c + 1);
      ReaderDrops(ev, i, w, s);
      ReaderCuts(ev, c + 1, j, m, w, Progress(s.cfg, s.kept, []));
    } else {
      WholeLineStarts(ev, j, m);
      assert AfterByte(ev, i) <= j;
      ReaderTakesByte(ev, i, w, s);
      ReaderCuts(ev, AfterByte(ev, i), j, m, w, s.(cur := s.cur + [ev[i].b]));
    }
  }

  lemma WholeLineStarts(ev: seq<Event>, j: nat, m: nat)
    requires WholeLine(ev, j, m) && AT <= Slice(ev, j, m)
    ensures ByteAt(ev, j, AT[0]) && ByteAt(ev, j + 1, AT[1])
  {
    WholeLineBytes(ev, j, m);
    assert Slice(ev, j, m)[0] == AT[0] && Slice(ev, j, m)[1] == AT[1];
  }

  /** An LF or a timeout behind CR would only close an empty segment. */
  lemma {:induction false} ReaderCutsLine(ev: seq<Event>, i: nat, j: nat, m: nat, w: Wait, s: Progress)
    requires Patient(ev, i, j, w) && WholeLine(ev, j, m) && AT <= Slice(ev, j, m)
    requires i < j && ev[i].Byte? && IsEol(ev[i].b)
    ensures Continue(ev, i, w, s) == Reached(s, Cut(ev, i, j, s.cur), Slice(ev, j, m), BehindEol(ev, m))
    decreases |ev| - i, 0
  {
    var line, next, k, s' := Slice(ev, j, m), BehindEol(ev, m), BehindEol(ev, i), Closed(s, false);
    WholeLineStarts(ev, j, m);
    assert k <= j && !w.Over(k);
    ReaderEndsLine(ev, i, w, s);
    ReaderCuts(ev, k, j, m, w, s');
    SegmentCloses(s, false, Cut(ev, i + 1, j, []), line, next);
    if k == i + 2 {
      EmptySegment(s', ev[i + 1].Timeout?, Cut(ev, k, j, []), line, next);
    }
  }

  lemma EmptySegment(s: Progress, expired: bool, rest: seq<Segment>, line: bytes, next: nat)
    requires AT <= line && s.cur == []
    ensures Reached(s, [Segment([], expired)] + rest, line, next) == Reached(s, rest, line, next)
  {
    SegmentCloses(s, expired, rest, line, next);
    assert s.kept + [] == s.kept;
  }

  /** From j to m one line without line ends or timeouts, then a line end. */
  predicate WholeLine(ev: seq<Event>, j: nat, m: nat) {
    && j <= m < |ev| && ev[m].Byte? && IsEol(ev[m].b)
    && (forall k :: j <= k < m ==> ev[k].Byte? && !IsEol(ev[k].b))
  }

  lemma {:induction false} WholeLineBytes(ev: seq<Event>, j: nat, m: nat)
    requires WholeLine(ev, j, m)
    ensures |Slice(ev, j, m)| == m - j
    ensures forall k :: 0 <= k < m - j ==> Slice(ev, j, m)[k] == ev[j + k].b
    decreases m - j
  {
    if j < m {
      SliceStep(ev, j, m);
      WholeLineBytes(ev, j + 1, m);
    } else {
      assert ev[j..m] == [];
    }
  }

  /** The kind and the parameter of a line that starts with AT. */
  function CommandOn(line: bytes): (Kind, bytes)
    requires AT <= line
  {
    ATLineIsClassified(line);
    ParseATCommand(Trim(line)).value
  }

  lemma CommandIsRead(ev: seq<Event>, j: nat, m: nat, skipped: bytes)
    requires WholeLine(ev, j, m) && AT <= Slice(ev, j, m)
    ensures LineFrom(ev, j, false, [], skipped) == Line(Slice(ev, j, m), skipped, Completed, BehindEol(ev, m))
  {
    WholeLineStarts(ev, j, m);
    SegmentIsCut(ev, j, skipped);
    assert SegmentEnd(ev, j) == j && CommandEnd(ev, j) == m;
    assert ev[j..j] == [] && skipped + [] == skipped;
  }

  lemma CommandStops(ev: seq<Event>, j: nat, m: nat, w: Wait, s: Progress)
    requires WholeLine(ev, j, m) && AT <= Slice(ev, j, m)
    ensures Continue(ev, j, w, s) == Reached(s, [Segment(s.cur, false)], Slice(ev, j, m), BehindEol(ev, m))
  {
    CommandIsRead(ev, j, m, s.cur);
    ATLineIsClassified(Slice(ev, j, m));
    SegmentCloses(s, false, [], Slice(ev, j, m), BehindEol(ev, m));
    assert [Segment(s.cur, false)] + [] == [Segment(s.cur, false)];
    assert s.kept + [] == s.kept && Closed(s, false).kept + [] == Closed(s, false).kept;
    assert s.cur == [] ==> s.kept + s.cur == s.kept;
  }

  /**
   The preset bytes before the first AT line that is completed, and its command, whenever
   deadlines fire: presets are the plain segments, the configuration is the last decodable
   one, and the position is just behind the line. AT lines that met their deadline before
   are as if they had not been there, and so are the bytes before them in their lines.
   */
  lemma CommandAfterPreamble(ev: seq<Event>, i: nat, j: nat, m: nat, clock: nat -> int, timeout: int)
    requires Patient(ev, i, j, Wait(clock, clock(i), timeout)) && WholeLine(ev, j, m) && AT <= Slice(ev, j, m)
    ensures var segments, (kind, param) := Cut(ev, i, j, []), CommandOn(Slice(ev, j, m));
            ReadCommand(ev, i, clock, timeout)
            == Got(ATCommand(kind, param, Plain(segments), LastConfig(segments, None)), BehindEol(ev, m))
  {
    var w := Wait(clock, clock(i), timeout);
    var s := Progress(None, [], []);
    assert !w.Over(i);
    ReaderCuts(ev, i, j, m, w, s);
    var plain := Plain(Cut(ev, i, j, []));
    assert s.kept + plain == plain;
  }

  /**
   When the deadline of a line is met in the look-ahead behind the A of a command, the A is
   kept, the T begins the next line, and the command is preset data.
   */
  lemma SplitCommandIsLost(ev: seq<Event>, i: nat, m: nat, w: Wait, cfg: Option<Config>, kept: bytes)
    requires ByteAt(ev, i, AT[0]) && TimeoutAt(ev, i + 1) && TimeoutAt(ev, i + 2) && ByteAt(ev, i + 3, AT[1])
    requires WholeLine(ev, i + 3, m) && NoAT(Slice(ev, i + 3, m))
    requires !w.Over(i) && !w.Over(i + 3)
    ensures ReadFrom(ev, i, w, cfg, kept) == ReadFrom(ev, BehindEol(ev, m), w, cfg, kept + AT[..1] + Slice(ev, i + 3, m))
  {
    var none, rest: bytes := [], Slice(ev, i + 3, m);
    assert none + [AT[0]] == AT[..1];
    assert LineFrom(ev, i + 2, false, none, AT[..1]) == Line(none, AT[..1], Expired, i + 3);
    assert ReadLine(ev, i) == Line(none, AT[..1], Expired, i + 3);
    assert ReadFrom(ev, i, w, cfg, kept) == ReadFrom(ev, i + 3, w, cfg, kept + AT[..1]);
    WholeLineBytes(ev, i + 3, m);
    assert rest[0] == AT[1] && !IsUSRVCOM(rest);
    LineHasNoCommand(ev, i + 3, m);
    assert ReadLine(ev, i + 3) == Line(none, rest, Completed, BehindEol(ev, m));
  }

  /** A whole line without AT is all skipped. */
  lemma LineHasNoCommand(ev: seq<Event>, j: nat, m: nat)
    requires WholeLine(ev, j, m) && NoAT(Slice(ev, j, m))
    ensures ReadLine(ev, j) == Line([], Slice(ev, j, m), Completed, BehindEol(ev, m))
  {
    NoCommandBefore(ev, j, m);
    LineIsCut(ev, j);
    assert ev[m..m] == [];
  }

  lemma {:induction false} NoCommandBefore(ev: seq<Event>, j: nat, m: nat)
    requires WholeLine(ev, j, m) && NoAT(Slice(ev, j, m))
    ensures SegmentEnd(ev, j) == m
    decreases m - j
  {
    if j < m {
      WholeLineBytes(ev, j, m);
      var p := Slice(ev, j, m);
      SliceStep(ev, j, m);
      NoATStep(ev[j].b, Slice(ev, j + 1, m));
      assert j + 1 < m ==> p[1] == ev[j + 1].b;
      assert !(ByteAt(ev, j, AT[0]) && ByteAt(ev, j + 1, AT[1])) by {
        assert j + 1 < m ==> !(p[0] == AT[0] && p[0 + 1] == AT[1]);
      }
      assert !TimeoutAt(ev, j + 1);
      NoCommandBefore(ev, j + 1, m);
    }
  }

  // ----- Print then read -----

  /** The text a REG or CONNECT line begins with. */
  function Opening(kind: Kind): bytes
    requires kind == Reg || kind == Connect
  {
    if kind == Reg then Ascii("AT+REG=") else Ascii("AT+CONNECT=")
  }

  /** How much of a token comes before its first line end. */
  function FirstEol(s: bytes): (n: nat)
    ensures n <= |s| && OneLine(s[..n]) && (n < |s| ==> IsEol(s[n]))
  {
    if s == [] || IsEol(s[0]) then 0
    else
      var n := FirstEol(s[1..]);
      assert s[..n + 1] == [s[0]] + s[1..][..n];
      n + 1
  }

  lemma {:induction false} TrimRightBehind(p: bytes, s: bytes)
    requires p != [] && !IsSpace(p[|p| - 1])
    ensures TrimRight(p + s) == p + TrimRight(s)
    decreases |s|
  {
    if s == [] {
      assert p + s == p;
    } else if IsSpace(s[|s| - 1]) {
      assert (p + s)[..|p + s| - 1] == p + s[..|s| - 1];
      TrimRightBehind(p, s[..|s| - 1]);
    }
  }

  lemma OpeningClassified(kind: Kind, tok: bytes)
    requires kind == Reg || kind == Connect
    ensures ParseATCommand(Trim(Opening(kind) + tok)) == Some((kind, TrimRight(tok)))
  {
    var p, rest := Opening(kind), TrimRight(tok);
    assert p[|p| - 1] == 0x3D && (p + tok)[0] == AT[0];
    TrimRightBehind(p, tok);
    assert Trim(p + tok) == p + rest;
    OpeningParsed(kind, rest);
  }

  lemma OpeningParsed(kind: Kind, rest: bytes)
    requires kind == Reg || kind == Connect
    ensures ParseATCommand(Opening(kind) + rest) == Some((kind, rest))
  {
    var p := Opening(kind);
    var text := p + rest;
    assert text[|p|..] == rest;
    assert text[3] == if kind == Reg then 0x52 else 0x43;
    assert AT_REG[3] == 0x52;
  }

  /** A command line as it is sent. */
  function Printed(kind: Kind, tok: bytes): bytes
    requires kind == Reg || kind == Connect
  {
    Opening(kind) + tok + Ascii("\r\n")
  }

  /** The events at j spell s. */
  predicate Spells(ev: seq<Event>, j: nat, s: bytes) {
    j + |s| <= |ev| && forall k {:trigger s[k]} :: 0 <= k < |s| ==> ev[j + k] == Byte(s[k])
  }

  lemma LineCut(opening: bytes, tok: bytes, eol: bytes)
    requires OneLine(opening) && eol != [] && IsEol(eol[0])
    ensures var s, n := opening + tok + eol, |opening| + FirstEol(tok);
            n < |s| && s[..n] == opening + tok[..FirstEol(tok)] && OneLine(s[..n]) && IsEol(s[n])
  {
    var s, n := opening + tok + eol, FirstEol(tok);
    assert s[..|opening| + n] == opening + tok[..n];
    assert s[|opening| + n] == if n < |tok| then tok[n] else eol[0];
  }

  lemma SpelledLine(ev: seq<Event>, j: nat, s: bytes, n: nat)
    requires Spells(ev, j, s) && n < |s| && OneLine(s[..n]) && IsEol(s[n])
    ensures WholeLine(ev, j, j + n) && Slice(ev, j, j + n) == s[..n]
  {
    forall k | j <= k <= j + n
      ensures ev[k] == Byte(s[k - j]) && (k < j + n ==> s[k - j] == s[..n][k - j])
    {
      var i := k - j;
      assert ev[j + i] == Byte(s[i]);
    }
    WholeLineBytes(ev, j, j + n);
  }

  lemma OpeningIsOneLine(kind: Kind)
    requires kind == Reg || kind == Connect
    ensures OneLine(Opening(kind)) && Ascii("\r\n") == [CR, LF]
  {
  }

  lemma SpelledCommand(ev: seq<Event>, j: nat, opening: bytes, tok: bytes, eol: bytes)
    requires OneLine(opening) && eol != [] && IsEol(eol[0]) && Spells(ev, j, opening + tok + eol)
    ensures var m := j + |opening| + FirstEol(tok);
            WholeLine(ev, j, m) && Slice(ev, j, m) == opening + tok[..FirstEol(tok)]
  {
    LineCut(opening, tok, eol);
    SpelledLine(ev, j, opening + tok + eol, |opening| + FirstEol(tok));
  }

  /** A printed command is one line up to the first line end in its token. */
  lemma PrintedLine(ev: seq<Event>, j: nat, kind: Kind, tok: bytes)
    requires kind == Reg || kind == Connect
    requires Spells(ev, j, Printed(kind, tok))
    ensures var m := j + |Opening(kind)| + FirstEol(tok);
            WholeLine(ev, j, m) && Slice(ev, j, m) == Opening(kind) + tok[..FirstEol(tok)]
  {
    OpeningIsOneLine(kind);
    SpelledCommand(ev, j, Opening(kind), tok, Ascii("\r\n"));
  }

  lemma NoPresets(ev: seq<Event>, i: nat)
    requires i <= |ev|
    ensures Plain(Cut(ev, i, i, [])) == [] && LastConfig(Cut(ev, i, i, []), None) == None
  {
    assert Cut(ev, i, i, [])[1..] == [];
  }

  lemma PrintedCommandIsRead(ev: seq<Event>, i: nat, kind: Kind, tok: bytes, clock: nat -> int, timeout: int)
    requires kind == Reg || kind == Connect
    requires i <= |ev|
    requires Spells(ev, i, Printed(kind, tok))
    ensures var r := ReadCommand(ev, i, clock, timeout);
            r.Got? && r.cmd == ATCommand(kind, TrimRight(tok[..FirstEol(tok)]), [], None)
  {
    PrintedLine(ev, i, kind, tok);
    LineGives(ev, i, i + |Opening(kind)| + FirstEol(tok), kind, tok[..FirstEol(tok)], clock, timeout);
  }

  lemma LineGives(ev: seq<Event>, i: nat, m: nat, kind: Kind, tok: bytes, clock: nat -> int, timeout: int)
    requires kind == Reg || kind == Connect
    requires WholeLine(ev, i, m) && Slice(ev, i, m) == Opening(kind) + tok
    ensures ReadCommand(ev, i, clock, timeout) == Got(ATCommand(kind, TrimRight(tok), [], None), BehindEol(ev, m))
  {
    PrintedIsCommand(kind, tok);
    LineAtOnce(ev, i, m, kind, TrimRight(tok), clock, timeout);
  }

  /** A command line with nothing before it. */
  lemma LineAtOnce(ev: seq<Event>, i: nat, m: nat, kind: Kind, param: bytes, clock: nat -> int, timeout: int)
    requires WholeLine(ev, i, m) && AT <= Slice(ev, i, m) && CommandOn(Slice(ev, i, m)) == (kind, param)
    ensures ReadCommand(ev, i, clock, timeout) == Got(ATCommand(kind, param, [], None), BehindEol(ev, m))
  {
    CommandAfterPreamble(ev, i, i, m, clock, timeout);
    NoPresets(ev, i);
  }

  lemma PrintedIsCommand(kind: Kind, tok: bytes)
    requires kind == Reg || kind == Connect
    ensures AT <= Opening(kind) + tok && CommandOn(Opening(kind) + tok) == (kind, TrimRight(tok))
  {
    var line := Opening(kind) + tok;
    assert line[0] == AT[0] && line[1] == AT[1];
    OpeningClassified(kind, tok);
  }

  lemma TokenSurvives(tok: bytes)
    ensures TrimRight(tok[..FirstEol(tok)]) == tok <==> OneLine(tok) && (tok == [] || !IsSpace(tok[|tok| - 1]))
  {
    var n := FirstEol(tok);
    if n == |tok| {
      assert tok[..n] == tok;
    } else {
      assert |TrimRight(tok[..n])| <= n < |tok|;
    }
  }

  /**
   Printing a registration or a connection request and reading it gives the kind back, and
   the token exactly when it has no line end and no trailing white space.
   */
  lemma PrintThenRead(ev: seq<Event>, i: nat, kind: Kind, tok: bytes, clock: nat -> int, timeout: int)
    requires kind == Reg || kind == Connect
    requires i <= |ev|
    requires Spells(ev, i, Printed(kind, tok))
    ensures var r := ReadCommand(ev, i, clock, timeout);
            && r.Got? && r.cmd.kind == kind && r.cmd.skipped == [] && r.cmd.cfg == None
            && (r.cmd.param == tok <==>
                  13 !in tok && 10 !in tok && (tok == [] || tok[|tok| - 1] !in {9, 10, 11, 12, 13, 32}))
  {
    PrintedCommandIsRead(ev, i, kind, tok, clock, timeout);
    TokenSurvives(tok);
    assert OneLine(tok) <==> 13 !in tok && 10 !in tok;
  }
}
