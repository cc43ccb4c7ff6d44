/**
 internal/connection/modem.go: the GSM modem emulation of one connection.
 */
module Modem {
  import opened Bytes
  import opened Text
  import opened Net

  /** Verbose and Echo as a value. */
  datatype Mode = Mode(verbose: bool, echo: bool)

  const INITIAL := Mode(true, true)

  datatype Order = Plain | Reset | EchoOff | EchoOn | VerboseOff | VerboseOn | Info(text: bytes) | NotAT

  const ATZ: bytes := AT + [0x5A]
  const ATE0: bytes := AT + [0x45, 0x30]
  const ATE1: bytes := AT + [0x45, 0x31]
  const ATV0: bytes := AT + [0x56, 0x30]
  const ATV1: bytes := AT + [0x56, 0x31]
  const ATH: bytes := AT + [0x48]
  const ATI: bytes := AT + [0x49]
  const AT_PLUS: bytes := AT + [0x2B]
  const AT_CGMI: bytes := AT_PLUS + [0x43, 0x47, 0x4D, 0x49]
  const AT_CPIN: bytes := AT_PLUS + [0x43, 0x50, 0x49, 0x4E]
  const AT_CSQ: bytes := AT_PLUS + [0x43, 0x53, 0x51]
  const ATS: bytes := AT + [0x53]
  const AT_AMPERSAND: bytes := AT + [0x26]
  const AT_BACKSLASH: bytes := AT + [0x5C]

  const MODEL_NAME := Ascii("RFC2217-PROXY")
  const PIN_READY := Ascii("+CPIN: READY")
  const SIGNAL_QUALITY := Ascii("+CSQ: 31,0")

  /** What an upper-case command text orders. */
  function OrderOf(upper: bytes): Order {
    if upper == AT then Plain
    else if upper == ATZ || upper == ATZ + [0x30] then Reset
    else if upper == ATE0 then EchoOff
    else if upper == ATE1 then EchoOn
    else if upper == ATV0 then VerboseOff
    else if upper == ATV1 then VerboseOn
    else OtherOrder(upper)
  }

  /** The orders that leave the mode alone. */
  function OtherOrder(upper: bytes): Order {
    if upper == ATH || upper == ATH + [0x30] then Plain
    else if ATI <= upper then Info(MODEL_NAME)
    else if AT_CGMI <= upper then Info(MODEL_NAME)
    else if AT_CPIN <= upper then Info(PIN_READY)
    else if AT_CSQ <= upper then Info(SIGNAL_QUALITY)
    else if ATS <= upper || AT_AMPERSAND <= upper || AT_BACKSLASH <= upper then Plain
    else if AT_PLUS <= upper then Plain
    else if AT <= upper then Plain
    else NotAT
  }

  /** What a command line orders, case and surrounding white space aside. */
  function Classify(cmdLine: bytes): Order {
    OrderOf(Upper(Trim(cmdLine)))
  }

  function After(m: Mode, o: Order): Mode {
    match o
    case Reset => INITIAL
    case EchoOff => m.(echo := false)
    case EchoOn => m.(echo := true)
    case VerboseOff => m.(verbose := false)
    case VerboseOn => m.(verbose := true)
    case _ => m
  }

  function OkText(verbose: bool): bytes {
    if verbose then Ascii("\r\nOK\r\n") else Ascii("0\r")
  }

  function ConnectText(verbose: bool): bytes {
    if verbose then Ascii("\r\nCONNECT 9600\r\n") else Ascii("1\r")
  }

  function NoCarrierText(verbose: bool): bytes {
    if verbose then Ascii("\r\nNO CARRIER\r\n") else Ascii("3\r")
  }

  function InfoText(verbose: bool, info: bytes): bytes {
    if verbose then Ascii("\r\n") + info + Ascii("\r\n\r\nOK\r\n") else info + Ascii("\r0\r")
  }

  /** The reply to an order given in mode m. A reset answers in the mode it sets, the verbosity orders in the old one. */
  function Reply(m: Mode, o: Order): bytes {
    match o
    case Info(text) => InfoText(m.verbose, text)
    case Reset => OkText(true)
    case _ => OkText(m.verbose)
  }

  class ModemState {
    var verbose: bool
    var echo: bool

    constructor ()
      ensures Current() == INITIAL
    {
      verbose, echo := true, true;
    }

    function Current(): Mode
      reads this
    {
      Mode(verbose, echo)
    }

    method WriteModemOK(conn: Conn) returns (ok: bool)
      modifies conn
      ensures ok == conn.succeeds(old(conn.attempts)) && conn.attempts == old(conn.attempts) + 1
      ensures conn.out == if ok then old(conn.out) + [OkText(verbose)] else old(conn.out)
    {
      if verbose {
        ok := conn.Write(Ascii("\r\nOK\r\n"));
      } else {
        ok := conn.Write(Ascii("0\r"));
      }
    }

    method WriteModemConnect(conn: Conn) returns (ok: bool)
      modifies conn
      ensures ok == conn.succeeds(old(conn.attempts)) && conn.attempts == old(conn.attempts) + 1
      ensures conn.out == if ok then old(conn.out) + [ConnectText(verbose)] else old(conn.out)
    {
      if verbose {
        ok := conn.Write(Ascii("\r\nCONNECT 9600\r\n"));
      } else {
        ok := conn.Write(Ascii("1\r"));
      }
    }

    method WriteModemNoCarrier(conn: Conn) returns (ok: bool)
      modifies conn
      ensures ok == conn.succeeds(old(conn.attempts)) && conn.attempts == old(conn.attempts) + 1
      ensures conn.out == if ok then old(conn.out) + [NoCarrierText(verbose)] else old(conn.out)
    {
      if verbose {
        ok := conn.Write(Ascii("\r\nNO CARRIER\r\n"));
      } else {
        ok := conn.Write(Ascii("3\r"));
      }
    }

    method WriteInfoResponse(conn: Conn, info: bytes)
      modifies conn
      ensures conn.attempts == old(conn.attempts) + 1
      ensures conn.out == if conn.succeeds(old(conn.attempts)) then old(conn.out) + [InfoText(verbose, info)] else old(conn.out)
    {
      if verbose {
        var _ := conn.Write(Ascii("\r\n") + info + Ascii("\r\n\r\nOK\r\n"));
      } else {
        var _ := conn.Write(info + Ascii("\r0\r"));
      }
    }

    method HandleCommand(conn: Conn, cmdLine: bytes) returns (handled: bool)
      modifies this, conn
      ensures handled <==> !Classify(cmdLine).NotAT?
      ensures Current() == After(old(Current()), Classify(cmdLine))
      ensures conn.attempts == old(conn.attempts) + (if handled then 1 else 0)
      ensures conn.out ==
              if handled && conn.succeeds(old(conn.attempts))
              then old(conn.out) + [Reply(old(Current()), Classify(cmdLine))] else old(conn.out)
    {
      handled := Perform(conn, Upper(Trim(cmdLine)));
    }

    /** The switch of HandleCommand, on the upper-case text. */
    method Perform(conn: Conn, upper: bytes) returns (handled: bool)
      modifies this, conn
      ensures handled <==> !OrderOf(upper).NotAT?
      ensures Current() == After(old(Current()), OrderOf(upper))
      ensures conn.attempts == old(conn.attempts) + (if handled then 1 else 0)
      ensures conn.out ==
              if handled && conn.succeeds(old(conn.attempts))
              then old(conn.out) + [Reply(old(Current()), OrderOf(upper))] else old(conn.out)
    {
      handled := true;
      if upper == AT {
        var _ := WriteModemOK(conn);
      } else if upper == ATZ || upper == ATZ + [0x30] {
        verbose, echo := true, true;
        var _ := WriteModemOK(conn);
      } else if upper == ATE0 {
        echo := false;
        var _ := WriteModemOK(conn);
      } else if upper == ATE1 {
        echo := true;
        var _ := WriteModemOK(conn);
      } else if upper == ATV0 {
        var _ := WriteModemOK(conn);
        verbose := false;
      } else if upper == ATV1 {
        var _ := WriteModemOK(conn);
        verbose := true;
      } else {
        handled := PerformOther(conn, upper);
      }
    }

    /** The rest of that switch: orders that leave the mode alone. */
    method PerformOther(conn: Conn, upper: bytes) returns (handled: bool)
      modifies conn
      ensures handled <==> !OtherOrder(upper).NotAT?
      ensures conn.attempts == old(conn.attempts) + (if handled then 1 else 0)
      ensures conn.out ==
              if handled && conn.succeeds(old(conn.attempts))
              then old(conn.out) + [Reply(Current(), OtherOrder(upper))] else old(conn.out)
    {
      handled := true;
      if upper == ATH || upper == ATH + [0x30] {
        var _ := WriteModemOK(conn);
      } else if ATI <= upper {
        WriteInfoResponse(conn, MODEL_NAME);
      } else if AT_CGMI <= upper {
        WriteInfoResponse(conn, MODEL_NAME);
      } else if AT_CPIN <= upper {
        WriteInfoResponse(conn, PIN_READY);
      } else if AT_CSQ <= upper {
        WriteInfoResponse(conn, SIGNAL_QUALITY);
      } else if ATS <= upper || AT_AMPERSAND <= upper || AT_BACKSLASH <= upper {
        var _ := WriteModemOK(conn);
      } else if AT_PLUS <= upper {
        var _ := WriteModemOK(conn);
      } else if AT <= upper {
        var _ := WriteModemOK(conn);
      } else {
        handled := false;
      }
    }
  }

  // ----- Over a whole history of orders -----

  function ModeAfter(m: Mode, orders: seq<Order>): Mode {
    if orders == [] then m else After(ModeAfter(m, orders[..|orders| - 1]), orders[|orders| - 1])
  }

  /** The replies to a history, one for each order. */
  function Replies(m: Mode, orders: seq<Order>): seq<bytes> {
    if orders == [] then []
    else
      var earlier := orders[..|orders| - 1];
      Replies(m, earlier) + [Reply(ModeAfter(m, earlier), orders[|orders| - 1])]
  }

  predicate SetsVerbosity(o: Order) {
    o.Reset? || o.VerboseOn? || o.VerboseOff?
  }

  /** Verbosity is what the last ATZ, ATV0 or ATV1 made it, and the initial one before any. */
  lemma {:induction false} LastVerbosityRules(m: Mode, orders: seq<Order>, k: int)
    requires -1 <= k < |orders| && (k >= 0 ==> SetsVerbosity(orders[k]))
    requires forall j :: k < j < |orders| ==> !SetsVerbosity(orders[j])
    ensures ModeAfter(m, orders).verbose == if k >= 0 then !orders[k].VerboseOff? else m.verbose
  {
    if k < |orders| - 1 {
      LastVerbosityRules(m, orders[..|orders| - 1], k);
    }
  }

  /** Each order is answered once, in the mode its predecessors left. */
  lemma {:induction false} OneReplyEach(m: Mode, orders: seq<Order>, k: nat)
    requires k < |orders|
    ensures |Replies(m, orders)| == |orders|
    ensures Replies(m, orders)[k] == Reply(ModeAfter(m, orders[..k]), orders[k])
  {
    var last := |orders| - 1;
    if k < last {
      OneReplyEach(m, orders[..last], k);
      assert orders[..last][..k] == orders[..k];
    } else if k > 0 {
      OneReplyEach(m, orders[..last], 0);
    }
  }

  function OrdersOf(lines: seq<bytes>): (o: seq<Order>)
    ensures |o| == |lines| && forall k :: 0 <= k < |lines| ==> o[k] == Classify(lines[k])
  {
    seq(|lines|, k requires 0 <= k < |lines| => Classify(lines[k]))
  }

  /** A reply in the verbose form, as a client tells it: it begins with CR LF. */
  predicate VerboseForm(reply: bytes) {
    |reply| >= 2 && reply[0] == CR && reply[1] == LF
  }

  lemma ReplyShowsMode(m: Mode, line: bytes)
    ensures VerboseForm(Reply(m, Classify(line))) <==> Classify(line).Reset? || m.verbose
    ensures VerboseForm(ConnectText(m.verbose)) <==> m.verbose
    ensures VerboseForm(NoCarrierText(m.verbose)) <==> m.verbose
  {
    var o := Classify(line);
    if o.Info? {
      assert o.text == MODEL_NAME || o.text == PIN_READY || o.text == SIGNAL_QUALITY;
      assert o.text[0] != CR;
    }
    assert OkText(false)[0] != CR && ConnectText(false)[0] != CR && NoCarrierText(false)[0] != CR;
  }

  // ----- By the texts of the commands -----

  /** The text a command line is judged by. */
  function TextOf(line: bytes): bytes {
    Upper(Trim(line))
  }

  lemma Literals()
    ensures AT == Ascii("AT") && ATZ == Ascii("ATZ") && ATZ + [0x30] == Ascii("ATZ0")
    ensures ATE0 == Ascii("ATE0") && ATE1 == Ascii("ATE1") && ATV0 == Ascii("ATV0") && ATV1 == Ascii("ATV1")
    ensures ATI == Ascii("ATI") && AT_CGMI == Ascii("AT+CGMI") && AT_CPIN == Ascii("AT+CPIN") && AT_CSQ == Ascii("AT+CSQ")
  {
  }

  /** The texts that switch verbosity or echo, and what each does. */
  lemma OrderByText(line: bytes)
    ensures var t, o := TextOf(line), Classify(line);
            && (o.Reset? <==> t == Ascii("ATZ") || t == Ascii("ATZ0"))
            && (o.VerboseOff? <==> t == Ascii("ATV0")) && (o.VerboseOn? <==> t == Ascii("ATV1"))
            && (o.EchoOff? <==> t == Ascii("ATE0")) && (o.EchoOn? <==> t == Ascii("ATE1"))
  {
    Literals();
    assert ATE0[2] == ATE1[2] == 0x45 && ATV0[2] == ATV1[2] == 0x56 && (ATZ + [0x30])[2] == 0x5A;
    assert ATE0[3] == ATV0[3] == 0x30 && ATE1[3] == ATV1[3] == 0x31;
  }

  /** The texts that ask for information, and for which. */
  lemma InfoByText(line: bytes)
    ensures var t, o := TextOf(line), Classify(line);
            && (o.Info? <==> Ascii("ATI") <= t || Ascii("AT+CGMI") <= t || Ascii("AT+CPIN") <= t || Ascii("AT+CSQ") <= t)
            && (o.Info? ==> o.text == if Ascii("AT+CPIN") <= t then Ascii("+CPIN: READY")
                                      else if Ascii("AT+CSQ") <= t then Ascii("+CSQ: 31,0") else Ascii("RFC2217-PROXY"))
  {
    Literals();
    var t := TextOf(line);
    assert ATI <= t ==> t[2] == 0x49;
    assert AT_CGMI <= t ==> t[2] == 0x2B && t[4] == 0x47;
    assert AT_CPIN <= t ==> t[2] == 0x2B && t[4] == 0x50;
    assert AT_CSQ <= t ==> t[2] == 0x2B && t[4] == 0x53;
  }

  lemma OkInNumbers()
    ensures OkText(true) == [13, 10, 79, 75, 13, 10] && OkText(false) == [48, 13]
  {
  }

  /** The results of a dial, byte for byte. */
  lemma DialInNumbers()
    ensures ConnectText(true) == [13, 10, 67, 79, 78, 78, 69, 67, 84, 32, 57, 54, 48, 48, 13, 10] && ConnectText(false) == [49, 13]
    ensures NoCarrierText(true) == [13, 10, 78, 79, 32, 67, 65, 82, 82, 73, 69, 82, 13, 10] && NoCarrierText(false) == [51, 13]
  {
  }

  lemma InfoInNumbers(info: bytes)
    ensures InfoText(true, info) == [13, 10] + info + [13, 10, 13, 10, 79, 75, 13, 10] && InfoText(false, info) == info + [13, 48, 13]
  {
    assert Ascii("\r\n") == [13, 10];
    assert Ascii("\r\n\r\nOK\r\n") == [13, 10, 13, 10, 79, 75, 13, 10];
    assert Ascii("\r0\r") == [13, 48, 13];
  }

  lemma NamesInNumbers()
    ensures MODEL_NAME == [82, 70, 67, 50, 50, 49, 55, 45, 80, 82, 79, 88, 89]
    ensures PIN_READY == [43, 67, 80, 73, 78, 58, 32, 82, 69, 65, 68, 89]
    ensures SIGNAL_QUALITY == [43, 67, 83, 81, 58, 32, 51, 49, 44, 48]
  {
  }

  /** The reply to a command text, byte for byte. */
  lemma ReplyInNumbers(m: Mode, line: bytes)
    requires Ascii("AT") <= TextOf(line)
    ensures var t, reply := TextOf(line), Reply(m, Classify(line));
            if Ascii("AT+CPIN") <= t then
              reply == if m.verbose
                       then [13, 10] + [43, 67, 80, 73, 78, 58, 32, 82, 69, 65, 68, 89] + [13, 10, 13, 10, 79, 75, 13, 10]
                       else [43, 67, 80, 73, 78, 58, 32, 82, 69, 65, 68, 89] + [13, 48, 13]
            else if Ascii("AT+CSQ") <= t then
              reply == if m.verbose
                       then [13, 10] + [43, 67, 83, 81, 58, 32, 51, 49, 44, 48] + [13, 10, 13, 10, 79, 75, 13, 10]
                       else [43, 67, 83, 81, 58, 32, 51, 49, 44, 48] + [13, 48, 13]
            else if Ascii("ATI") <= t || Ascii("AT+CGMI") <= t then
              reply == if m.verbose
                       then [13, 10] + [82, 70, 67, 50, 50, 49, 55, 45, 80, 82, 79, 88, 89] + [13, 10, 13, 10, 79, 75, 13, 10]
                       else [82, 70, 67, 50, 50, 49, 55, 45, 80, 82, 79, 88, 89] + [13, 48, 13]
            else
              reply == if m.verbose || t == Ascii("ATZ") || t == Ascii("ATZ0") then [13, 10, 79, 75, 13, 10] else [48, 13]
  {
    OrderByText(line);
    InfoByText(line);
    OkInNumbers();
    NamesInNumbers();
    InfoInNumbers(MODEL_NAME);
    InfoInNumbers(PIN_READY);
    InfoInNumbers(SIGNAL_QUALITY);
  }

  /** The texts that set verbosity. */
  predicate SwitchesVerbosity(t: bytes) {
    t == Ascii("ATZ") || t == Ascii("ATZ0") || t == Ascii("ATV0") || t == Ascii("ATV1")
  }

  /**
   What a client can tell from the form of the replies to a history of command lines: the
   k-th is verbose if and only if it answers ATZ or ATZ0, or the last line before it that was
   one of ATZ, ATZ0, ATV0 and ATV1 was not ATV0. So ATV0 and ATV1 are answered in the mode
   they end, ATZ in the one it begins. The result of a dial after all the lines shows the
   mode they left.
   */
  lemma RepliesShowMode(m: Mode, lines: seq<bytes>, k: nat, j: int)
    requires k <= |lines| && -1 <= j < k && (j >= 0 ==> SwitchesVerbosity(TextOf(lines[j])))
    requires forall i :: j < i < k ==> !SwitchesVerbosity(TextOf(lines[i]))
    ensures |Replies(m, OrdersOf(lines))| == |lines|
    ensures var verbose := if j >= 0 then TextOf(lines[j]) != Ascii("ATV0") else m.verbose;
            if k < |lines| then
              VerboseForm(Replies(m, OrdersOf(lines))[k])
              <==> TextOf(lines[k]) == Ascii("ATZ") || TextOf(lines[k]) == Ascii("ATZ0") || verbose
            else
              var after := ModeAfter(m, OrdersOf(lines));
              (VerboseForm(ConnectText(after.verbose)) <==> verbose) && (VerboseForm(NoCarrierText(after.verbose)) <==> verbose)
  {
    var orders := OrdersOf(lines);
    forall i | j <= i < k && i >= 0
      ensures SetsVerbosity(orders[i]) <==> SwitchesVerbosity(TextOf(lines[i]))
      ensures orders[i].VerboseOff? <==> TextOf(lines[i]) == Ascii("ATV0")
    {
      OrderByText(lines[i]);
    }
    LastVerbosityRules(m, orders[..k], j);
    if k < |lines| {
      OrderByText(lines[k]);
      OneReplyEach(m, orders, k);
      ReplyShowsMode(ModeAfter(m, orders[..k]), lines[k]);
    } else {
      assert orders[..k] == orders;
      if k > 0 {
        OneReplyEach(m, orders, 0);
      }
      ReplyShowsMode(ModeAfter(m, orders), []);
    }
  }

  predicate SwitchesEcho(t: bytes) {
    t == Ascii("ATZ") || t == Ascii("ATZ0") || t == Ascii("ATE0") || t == Ascii("ATE1")
  }

  predicate SetsEcho(o: Order) {
    o.Reset? || o.EchoOff? || o.EchoOn?
  }

  lemma {:induction false} LastEchoOrder(m: Mode, orders: seq<Order>, k: int)
    requires -1 <= k < |orders| && (k >= 0 ==> SetsEcho(orders[k]))
    requires forall j :: k < j < |orders| ==> !SetsEcho(orders[j])
    ensures ModeAfter(m, orders).echo == if k >= 0 then !orders[k].EchoOff? else m.echo
  {
    if k < |orders| - 1 {
      LastEchoOrder(m, orders[..|orders| - 1], k);
    }
  }

  /** Echo is off if and only if the last of ATZ, ATZ0, ATE0 and ATE1 was ATE0. */
  lemma LastEchoRules(m: Mode, lines: seq<bytes>, j: int)
    requires -1 <= j < |lines| && (j >= 0 ==> SwitchesEcho(TextOf(lines[j])))
    requires forall i :: j < i < |lines| ==> !SwitchesEcho(TextOf(lines[i]))
    ensures ModeAfter(m, OrdersOf(lines)).echo == if j >= 0 then TextOf(lines[j]) != Ascii("ATE0") else m.echo
  {
    var orders := OrdersOf(lines);
    forall i | j <= i < |lines| && i >= 0
      ensures SetsEcho(orders[i]) <==> SwitchesEcho(TextOf(lines[i]))
      ensures orders[i].EchoOff? <==> TextOf(lines[i]) == Ascii("ATE0")
    {
      OrderByText(lines[i]);
    }
    LastEchoOrder(m, orders, j);
  }

  /** Echo changes no reply and no later verbosity. */
  lemma {:induction false} EchoIsInvisible(m: Mode, n: Mode, orders: seq<Order>)
    requires m.verbose == n.verbose
    ensures Replies(m, orders) == Replies(n, orders)
    ensures ModeAfter(m, orders).verbose == ModeAfter(n, orders).verbose
  {
    if orders != [] {
      EchoIsInvisible(m, n, orders[..|orders| - 1]);
    }
  }

  /** HandleCommand turns down exactly the texts that are not AT commands. */
  lemma HandledIffAT(cmdLine: bytes)
    ensures Classify(cmdLine).NotAT? <==> !(AT <= Upper(Trim(cmdLine)))
  {
    var upper := Upper(Trim(cmdLine));
    assert forall s: bytes :: AT <= AT + s;
    if !(AT <= upper) {
      assert upper != ATH && upper != ATH + [0x30] && !(ATI <= upper) && !(AT_CGMI <= upper) && !(AT_CPIN <= upper);
      assert !(AT_CSQ <= upper) && !(ATS <= upper) && !(AT_AMPERSAND <= upper) && !(AT_BACKSLASH <= upper);
    }
  }
}
