/**
 Section 3 of RFC 2217 (COM-PORT-OPTION configuration commands) as
 internal/connection/rfc2217.go reads and prints it: a frame is
 IAC SB COM-PORT-OPTION body IAC SE, the body is a command code followed by its
 data, and an IAC inside the body is neither doubled nor undone.
 */
module Rfc2217 {
  import opened Bytes

  const IAC: byte := 0xFF
  const SB: byte := 0xFA
  const SE: byte := 0xF0
  const COM_PORT_OPTION: byte := 0x2C

  const SET_BAUDRATE: byte := 0x01
  const SET_DATASIZE: byte := 0x02
  const SET_PARITY: byte := 0x03
  const SET_STOPSIZE: byte := 0x04
  const SET_CONTROL: byte := 0x05

  const SERVER_RESPONSE_OFFSET := 100

  datatype Command = Command(code: byte, data: bytes)

  /** The commands found in some raw bytes, and the bytes themselves. */
  datatype Buffer = Buffer(commands: seq<Command>, rawData: bytes)

  function Body(c: Command): bytes {
    [c.code] + c.data
  }

  function Frame(c: Command): bytes {
    [IAC, SB, COM_PORT_OPTION] + Body(c) + [IAC, SE]
  }

  function Print(cmds: seq<Command>): bytes {
    if cmds == [] then [] else Frame(cmds[0]) + Print(cmds[1..])
  }

  // ----- What a frame is -----

  predicate HeaderAt(d: bytes, i: nat) {
    i + 2 < |d| && d[i] == IAC && d[i + 1] == SB && d[i + 2] == COM_PORT_OPTION
  }

  predicate TerminatorAt(d: bytes, j: nat) {
    j + 1 < |d| && d[j] == IAC && d[j + 1] == SE
  }

  /** No IAC SE starts at a position in [from, to). */
  predicate NoTerminator(d: bytes, from: nat, to: nat) {
    forall j :: from <= j < to ==> !TerminatorAt(d, j)
  }

  predicate HasTerminator(d: bytes) {
    exists j: nat :: j < |d| && TerminatorAt(d, j)
  }

  /** A frame with a non-empty body starts at i and its IAC SE is the one at e. */
  predicate FrameAt(d: bytes, i: nat, e: nat) {
    HeaderAt(d, i) && i + 3 < e && TerminatorAt(d, e) && NoTerminator(d, i + 3, e)
  }

  ghost predicate NoFrame(d: bytes, i: nat) {
    forall e: nat :: !FrameAt(d, i, e)
  }

  datatype Span = Span(start: nat, end: nat)

  /** Where the search for the k-th frame resumes, when it began at from. */
  function Resume(from: nat, spans: seq<Span>, k: nat): nat
    requires k <= |spans|
  {
    if k == 0 then from else spans[k - 1].end + 2
  }

  /** Where the k-th frame starts; past the last one, the end of the data. */
  function Limit(d: bytes, spans: seq<Span>, k: nat): nat
    requires k <= |spans|
  {
    if k < |spans| then spans[k].start else |d|
  }

  /** The k-th span is a frame, and none was missed since the one before. */
  ghost predicate SpanOk(d: bytes, from: nat, spans: seq<Span>, k: nat)
    requires k <= |spans|
  {
    && (k < |spans| ==> FrameAt(d, spans[k].start, spans[k].end) && Resume(from, spans, k) <= spans[k].start)
    && (forall i: nat :: Resume(from, spans, k) <= i < Limit(d, spans, k) ==> NoFrame(d, i))
  }

  /** The leftmost-greedy decomposition of d[from..]: disjoint frames in order, none missed. */
  ghost predicate Decomposition(d: bytes, from: nat, spans: seq<Span>) {
    forall k: nat :: k <= |spans| ==> SpanOk(d, from, spans, k)
  }

  function CommandOf(d: bytes, s: Span): Command
    requires s.start + 3 < s.end <= |d|
  {
    Command(d[s.start + 3], d[s.start + 4 .. s.end])
  }

  // ----- The scanner as a function on what is left to read -----

  /** The first IAC SE at or after j, or |d| when there is none. */
  function FirstTerminator(d: bytes, j: nat): (e: nat)
    requires j <= |d|
    ensures j <= e <= |d| && NoTerminator(d, j, e)
    ensures e < |d| ==> TerminatorAt(d, e)
    decreases |d| - j
  {
    if j == |d| || TerminatorAt(d, j) then j else FirstTerminator(d, j + 1)
  }

  /** The end of the frame that starts at i; 0 when none does. */
  function FrameEnd(d: bytes, i: nat): (e: nat)
    ensures e > 0 ==> FrameAt(d, i, e)
    ensures forall x: nat :: FrameAt(d, i, x) ==> x == e
  {
    if !HeaderAt(d, i) then 0
    else
      var e := FirstTerminator(d, i + 3);
      if i + 3 < e < |d| then e else 0
  }

  function Scan(d: bytes): seq<Command> {
    if |d| < 3 then []
    else
      var e := FrameEnd(d, 0);
      if e > 0 then [CommandOf(d, Span(0, e))] + Scan(d[e + 2..])
      else Scan(d[1..])
  }

  /** The positions of the frames, from position i on. */
  ghost function Spans(d: bytes, i: nat): seq<Span>
    decreases |d| - i
  {
    if i + 2 >= |d| then []
    else
      var e := FrameEnd(d, i);
      if e > 0 then [Span(i, e)] + Spans(d, e + 2)
      else Spans(d, i + 1)
  }

  lemma FrameEndShift(d: bytes, i: nat)
    requires i <= |d|
    ensures FrameEnd(d[i..], 0) == if FrameEnd(d, i) > 0 then FrameEnd(d, i) - i else 0
  {
    var rest := d[i..];
    assert forall k: nat :: TerminatorAt(rest, k) <==> TerminatorAt(d, k + i);
    var e, x := FrameEnd(d, i), FrameEnd(rest, 0);
    if e > 0 {
      assert FrameAt(rest, 0, e - i);
    }
    if x > 0 {
      forall j | i + 3 <= j < x + i
        ensures !TerminatorAt(d, j)
      {
        assert !TerminatorAt(rest, j - i);
      }
      assert FrameAt(d, i, x + i);
    }
  }

  /** One step of the scan, by position. */
  lemma ScanStep(d: bytes, i: nat)
    requires i + 2 < |d|
    ensures var e := FrameEnd(d, i);
            Scan(d[i..]) ==
            if e > 0 then [CommandOf(d, Span(i, e))] + Scan(d[e + 2..]) else Scan(d[i + 1..])
  {
    FrameEndShift(d, i);
    var e, rest := FrameEnd(d, i), d[i..];
    assert |rest| >= 3;
    if e > 0 {
      assert rest[e - i + 2..] == d[e + 2..];
      assert rest[3] == d[i + 3] && rest[4..e - i] == d[i + 4..e];
      assert CommandOf(rest, Span(0, e - i)) == CommandOf(d, Span(i, e));
    } else {
      assert rest[1..] == d[i + 1..];
    }
  }

  // ----- internal/connection/rfc2217.go -----

  /** The commands so far, followed by those still to be found from i on. */
  ghost predicate Scanned(data: bytes, commands: seq<Command>, i: nat)
    requires i <= |data|
  {
    Scan(data) == commands + Scan(data[i..])
  }

  /** The inner search for IAC SE; -1 when there is none. */
  method FindTerminator(data: bytes, start: nat) returns (end: int)
    ensures end == -1 || (start <= end && TerminatorAt(data, end) && NoTerminator(data, start, end))
    ensures end == -1 ==> NoTerminator(data, start, |data|)
  {
    end := -1;
    var j := start;
    while j < |data| - 1
      invariant start <= j
      invariant NoTerminator(data, start, j)
    {
      if data[j] == IAC && data[j + 1] == SE {
        end := j;
        return;
      }
      j := j + 1;
    }
  }

  /** ParseRFC2217Commands. */
  method ParseRFC2217Commands(data: bytes) returns (buf: Buffer)
    ensures buf == Buffer(Scan(data), data)
  {
    var commands: seq<Command> := [];
    var i := 0;
    while i < |data| - 2
      invariant 0 <= i <= |data|
      invariant Scanned(data, commands, i)
      decreases |data| - i
    {
      if data[i] == IAC && data[i + 1] == SB && data[i + 2] == COM_PORT_OPTION {
        var start := i + 3;
        var end := FindTerminator(data, start);
        FoundFrame(data, commands, i, end);
        if end > start {
          var cmdData := data[start..end];
          commands := commands + [Command(cmdData[0], cmdData[1..])];
          i := end + 2;
          continue;
        }
      } else {
        NoHeader(data, commands, i);
      }
      i := i + 1;
    }
    buf := Buffer(commands, data);
  }

  /** What the inner search found decides the next step of the scan. */
  lemma FoundFrame(data: bytes, commands: seq<Command>, i: nat, end: int)
    requires HeaderAt(data, i)
    requires end == -1 || (i + 3 <= end && TerminatorAt(data, end) && NoTerminator(data, i + 3, end))
    requires end == -1 ==> NoTerminator(data, i + 3, |data|)
    requires Scanned(data, commands, i)
    ensures if end > i + 3
            then Scanned(data, commands + [Command(data[i + 3], data[i + 3..end][1..])], end + 2)
            else Scanned(data, commands, i + 1)
  {
    ScanStep(data, i);
    if end > i + 3 {
      assert FrameAt(data, i, end);
      var c := Command(data[i + 3], data[i + 3..end][1..]);
      assert commands + ([c] + Scan(data[end + 2..])) == commands + [c] + Scan(data[end + 2..]);
    }
  }

  lemma NoHeader(data: bytes, commands: seq<Command>, i: nat)
    requires i + 2 < |data| && !HeaderAt(data, i) && Scanned(data, commands, i)
    ensures Scanned(data, commands, i + 1)
  {
    ScanStep(data, i);
  }

  // ----- The scanner finds exactly the leftmost-greedy decomposition -----

  lemma FrameFirst(d: bytes, i: nat, e: nat, tail: seq<Span>)
    requires FrameAt(d, i, e) && Decomposition(d, e + 2, tail)
    ensures Decomposition(d, i, [Span(i, e)] + tail)
  {
    var spans := [Span(i, e)] + tail;
    forall k: nat | k <= |spans|
      ensures SpanOk(d, i, spans, k)
    {
      if k > 0 {
        assert SpanOk(d, e + 2, tail, k - 1);
      }
    }
  }

  lemma NoFrameFirst(d: bytes, i: nat, spans: seq<Span>)
    requires NoFrame(d, i) && Decomposition(d, i + 1, spans)
    ensures Decomposition(d, i, spans)
  {
    forall k: nat | k <= |spans|
      ensures SpanOk(d, i, spans, k)
    {
      assert SpanOk(d, i + 1, spans, k);
    }
  }

  lemma {:induction false} SpansDecompose(d: bytes, i: nat)
    ensures Decomposition(d, i, Spans(d, i))
    decreases |d| - i
  {
    if i + 2 < |d| {
      var e := FrameEnd(d, i);
      if e > 0 {
        SpansDecompose(d, e + 2);
        FrameFirst(d, i, e, Spans(d, e + 2));
      } else {
        SpansDecompose(d, i + 1);
        NoFrameFirst(d, i, Spans(d, i));
      }
    }
  }

  /** There is only one leftmost-greedy decomposition. */
  lemma {:induction false} DecompositionUnique(d: bytes, from: nat, s: seq<Span>, t: seq<Span>)
    requires Decomposition(d, from, s) && Decomposition(d, from, t)
    ensures s == t
    decreases |s|
  {
    assert SpanOk(d, from, s, 0) && SpanOk(d, from, t, 0);
    if s != [] {
      FirstSpan(d, from, s);
    }
    if t != [] {
      FirstSpan(d, from, t);
    }
    if s != [] && t != [] {
      assert s[0].start == t[0].start;
      assert s[0].end == t[0].end;
      DecompositionTail(d, from, s);
      DecompositionTail(d, from, t);
      DecompositionUnique(d, s[0].end + 2, s[1..], t[1..]);
      assert s == [s[0]] + s[1..] && t == [t[0]] + t[1..];
    }
  }

  lemma FirstSpan(d: bytes, from: nat, s: seq<Span>)
    requires s != [] && Decomposition(d, from, s)
    ensures from <= s[0].start < |d| && !NoFrame(d, s[0].start)
    ensures forall i: nat :: from <= i < s[0].start ==> NoFrame(d, i)
  {
    assert SpanOk(d, from, s, 0);
    assert FrameAt(d, s[0].start, s[0].end);
  }

  lemma DecompositionTail(d: bytes, from: nat, s: seq<Span>)
    requires s != [] && Decomposition(d, from, s)
    ensures Decomposition(d, s[0].end + 2, s[1..])
  {
    var next, t := s[0].end + 2, s[1..];
    forall k: nat | k <= |t|
      ensures SpanOk(d, next, t, k)
    {
      assert SpanOk(d, from, s, k + 1);
    }
  }

  ghost function CommandsOf(d: bytes, spans: seq<Span>): seq<Command>
    requires forall s :: s in spans ==> s.start + 3 < s.end <= |d|
  {
    if spans == [] then [] else [CommandOf(d, spans[0])] + CommandsOf(d, spans[1..])
  }

  /** The scanner returns the commands of that decomposition. */
  lemma {:induction false} ScanReadsSpans(d: bytes, i: nat)
    requires i <= |d|
    ensures forall s :: s in Spans(d, i) ==> s.start + 3 < s.end <= |d|
    ensures Scan(d[i..]) == CommandsOf(d, Spans(d, i))
    decreases |d| - i
  {
    if i + 2 < |d| {
      var e := FrameEnd(d, i);
      ScanStep(d, i);
      if e > 0 {
        ScanReadsSpans(d, e + 2);
      } else {
        ScanReadsSpans(d, i + 1);
      }
    }
  }

  /**
   The scanner, declaratively: the spans are a leftmost-greedy decomposition, any such
   decomposition is that one, and the commands returned are read off it.
   */
  lemma ScanRefinesDecomposition(d: bytes, spans: seq<Span>)
    requires Decomposition(d, 0, spans)
    ensures forall s :: s in spans ==> s.start + 3 < s.end <= |d|
    ensures Scan(d) == CommandsOf(d, spans)
    ensures Decomposition(d, 0, Spans(d, 0)) && spans == Spans(d, 0)
  {
    SpansDecompose(d, 0);
    DecompositionUnique(d, 0, spans, Spans(d, 0));
    ScanReadsSpans(d, 0);
    assert d[0..] == d;
  }

  /** A header outside every frame has no terminator after it, or one right behind it. */
  lemma UnmatchedHeader(d: bytes, spans: seq<Span>, k: nat, i: nat)
    requires Decomposition(d, 0, spans) && k <= |spans|
    requires Resume(0, spans, k) <= i < Limit(d, spans, k) && HeaderAt(d, i)
    ensures TerminatorAt(d, i + 3) || NoTerminator(d, i + 3, |d|)
  {
    assert SpanOk(d, 0, spans, k) && NoFrame(d, i);
    var e := FirstTerminator(d, i + 3);
    assert !FrameAt(d, i, e);
  }

  // ----- Sizes -----

  /** What the commands occupy when printed. */
  function Size(cmds: seq<Command>): nat {
    if cmds == [] then 0 else |cmds[0].data| + 6 + Size(cmds[1..])
  }

  lemma {:induction false} PrintedSize(cmds: seq<Command>)
    ensures |Print(cmds)| == Size(cmds)
  {
    if cmds != [] {
      PrintedSize(cmds[1..]);
    }
  }

  /** The commands found never occupy more than the data they were found in. */
  lemma {:induction false} ScanSize(d: bytes)
    ensures Size(Scan(d)) <= |d|
    decreases |d|
  {
    if |d| >= 3 {
      var e := FrameEnd(d, 0);
      if e > 0 {
        ScanSize(d[e + 2..]);
      } else {
        ScanSize(d[1..]);
      }
    }
  }

  // ----- Round trip -----

  predicate Clean(c: Command) {
    !HasTerminator(Body(c))
  }

  /** Printing in front of more data and scanning gives the command back, if its body is clean. */
  lemma CleanFrameScans(c: Command, rest: bytes)
    requires Clean(c)
    ensures Scan(Frame(c) + rest) == [c] + Scan(rest)
  {
    var d, b := Frame(c) + rest, Body(c);
    var e := 3 + |b|;
    assert TerminatorAt(d, e);
    forall j | 3 <= j < e
      ensures !TerminatorAt(d, j)
    {
      assert d[j] == b[j - 3];
      if j + 1 < e {
        assert d[j + 1] == b[j - 2];
        assert !TerminatorAt(b, j - 3);
      }
    }
    assert FrameAt(d, 0, e);
    assert d[e + 2..] == rest;
    assert CommandOf(d, Span(0, e)) == c;
  }

  /** With IAC SE at the start of the body the frame is lost. */
  lemma CutFrameLost(c: Command, rest: bytes)
    requires TerminatorAt(Body(c), 0)
    ensures Scan(Frame(c) + rest) == Scan((Frame(c) + rest)[1..])
  {
    var d, b := Frame(c) + rest, Body(c);
    assert d[3] == b[0] && d[4] == b[1];
    assert TerminatorAt(d, 3) && FirstTerminator(d, 3) == 3;
    assert FrameEnd(d, 0) == 0;
  }

  /** With IAC SE later in the body the frame is cut short there. */
  lemma CutFrameScans(c: Command, rest: bytes, p: nat)
    requires p > 0 && TerminatorAt(Body(c), p) && NoTerminator(Body(c), 0, p)
    ensures Scan(Frame(c) + rest) == [Command(c.code, c.data[..p - 1])] + Scan((Frame(c) + rest)[p + 5..])
  {
    var d, b := Frame(c) + rest, Body(c);
    var e := 3 + p;
    forall j | 3 <= j < e
      ensures !TerminatorAt(d, j)
    {
      assert d[j] == b[j - 3] && d[j + 1] == b[j - 2];
      assert !TerminatorAt(b, j - 3);
    }
    assert d[e] == b[p] && d[e + 1] == b[p + 1];
    assert FrameAt(d, 0, e);
    assert FrameEnd(d, 0) == e;
    assert d[3] == c.code && d[4..e] == c.data[..p - 1];
    assert CommandOf(d, Span(0, e)) == Command(c.code, c.data[..p - 1]);
  }

  /** A list that begins with a command whose body holds IAC SE does not come back. */
  lemma UncleanLost(c: Command, tail: seq<Command>)
    requires !Clean(c)
    ensures Scan(Frame(c) + Print(tail)) != [c] + tail
  {
    var p := FirstTerminator(Body(c), 0);
    var d := Frame(c) + Print(tail);
    if p == 0 {
      CutFrameLost(c, Print(tail));
      ScanSize(d[1..]);
      PrintedSize(tail);
      assert ([c] + tail)[1..] == tail;
      assert Size([c] + tail) > |d[1..]|;
    } else {
      CutFrameScans(c, Print(tail), p);
      assert ([c] + tail)[0] == c && Scan(d)[0] == Command(c.code, c.data[..p - 1]);
    }
  }

  /** Scanning the printed commands returns them exactly when no body holds IAC SE. */
  lemma {:induction false} RoundTrip(cmds: seq<Command>)
    ensures Scan(Print(cmds)) == cmds <==> forall c :: c in cmds ==> Clean(c)
  {
    if cmds != [] {
      var c, tail := cmds[0], cmds[1..];
      assert cmds == [c] + tail;
      assert forall x :: x in cmds <==> x == c || x in tail;
      if Clean(c) {
        CleanFrameScans(c, Print(tail));
        RoundTrip(tail);
        assert ([c] + Scan(Print(tail)))[1..] == Scan(Print(tail));
      } else {
        UncleanLost(c, tail);
      }
    }
  }

  // ----- Server responses and queries -----

  /** The command a response carries: the code moves up by 100, modulo 256. */
  function Response(c: Command): Command {
    Command((c.code + SERVER_RESPONSE_OFFSET) % 256, c.data)
  }

  function Responses(cmds: seq<Command>): seq<Command> {
    if cmds == [] then [] else [Response(cmds[0])] + Responses(cmds[1..])
  }

  method BuildResponse(c: Command) returns (resp: bytes)
    ensures resp == Frame(Response(c)) == [0xFF, 0xFA, 0x2C, (c.code + 100) % 256] + c.data + [0xFF, 0xF0]
  {
    resp := [IAC, SB, COM_PORT_OPTION, (c.code + SERVER_RESPONSE_OFFSET) % 256];
    resp := resp + c.data;
    resp := resp + [IAC, SE];
  }

  /** Two commands have the same response bytes only if they are the same. */
  lemma ResponseInjective(c: Command, d: Command)
    ensures Frame(Response(c)) == Frame(Response(d)) <==> c == d
  {
    var x, y := Frame(Response(c)), Frame(Response(d));
    if x == y {
      assert x[3] == Response(c).code && y[3] == Response(d).code;
      assert x[4..|x| - 2] == c.data && y[4..|y| - 2] == d.data;
    }
  }

  /** So have two lists of commands, while no response body holds IAC SE. */
  lemma ResponseBytesInjective(a: seq<Command>, b: seq<Command>)
    requires forall c :: c in a || c in b ==> Clean(Response(c))
    ensures Print(Responses(a)) == Print(Responses(b)) <==> a == b
  {
    ResponseRoundTrip(a);
    ResponseRoundTrip(b);
    ResponsesInjective(a, b);
  }

  /** The condition is needed: any two responses together are the bytes of one response that holds IAC SE. */
  lemma ResponsesMerge(c: Command, d: Command)
    ensures var one := Command(c.code, c.data + [IAC, SE, IAC, SB, COM_PORT_OPTION] + Body(Response(d)));
            Print(Responses([c, d])) == Print(Responses([one])) && !Clean(Response(one))
  {
    var one := Command(c.code, c.data + [IAC, SE, IAC, SB, COM_PORT_OPTION] + Body(Response(d)));
    var x, y, z := Response(c), Response(d), Response(one);
    assert [c, d] == [c] + [d] && [d] == [d] + [] && [one] == [one] + [];
    FirstResponse(c, [d]);
    FirstResponse(d, []);
    FirstResponse(one, []);
    assert Frame(z) + [] == Frame(x) + (Frame(y) + []);
    assert TerminatorAt(Body(z), 1 + |c.data|);
  }

  lemma FirstResponse(c: Command, rest: seq<Command>)
    ensures Print(Responses([c] + rest)) == Frame(Response(c)) + Print(Responses(rest))
  {
    assert ([c] + rest)[1..] == rest;
    assert ([Response(c)] + Responses(rest))[1..] == Responses(rest);
  }

  lemma {:induction false} ResponsesInjective(a: seq<Command>, b: seq<Command>)
    ensures Responses(a) == Responses(b) <==> a == b
  {
    if a != [] && b != [] {
      ResponsesInjective(a[1..], b[1..]);
      assert a == [a[0]] + a[1..] && b == [b[0]] + b[1..];
      assert Responses(a)[1..] == Responses(a[1..]) && Responses(b)[1..] == Responses(b[1..]);
    }
  }

  /**
   The responses to a list of commands scan back to those commands, each moved up by
   100, exactly when no response body holds IAC SE.
   */
  lemma ResponseRoundTrip(cmds: seq<Command>)
    ensures Scan(Print(Responses(cmds))) == Responses(cmds) <==> forall c :: c in cmds ==> Clean(Response(c))
  {
    RoundTrip(Responses(cmds));
    ResponsesPointwise(cmds);
    assert forall k :: 0 <= k < |cmds| ==> cmds[k] in cmds && Responses(cmds)[k] in Responses(cmds);
  }

  lemma {:induction false} ResponsesPointwise(cmds: seq<Command>)
    ensures |Responses(cmds)| == |cmds|
    ensures forall k :: 0 <= k < |cmds| ==> Responses(cmds)[k] == Response(cmds[k])
  {
    if cmds != [] {
      ResponsesPointwise(cmds[1..]);
    }
  }

  /** A four-byte big-endian number. */
  function BigEndian(d: bytes): nat
    requires |d| >= 4
  {
    ((d[0] as int * 256 + d[1]) * 256 + d[2]) * 256 + d[3]
  }

  predicate IsQuery(c: Command) {
    if c.code == SET_BAUDRATE then |c.data| >= 4 && BigEndian(c.data) == 0
    else if c.code in {SET_DATASIZE, SET_PARITY, SET_STOPSIZE, SET_CONTROL} then |c.data| >= 1 && c.data[0] == 0
    else false
  }
}
