/**
 Which text is which command: parseATCommand of internal/connection/protocol.go, by the
 texts a client types.
 */
module CommandTexts {
  import opened Bytes
  import opened Text
  import opened Stream
  import opened Protocol
  import opened ReaderProperties
  import opened Preamble

  lemma Literals()
    ensures AT == Ascii("AT") && ATD == Ascii("ATD") && ATDT == Ascii("ATDT") && ATDP == Ascii("ATDP")
    ensures AT_REG == Ascii("AT+REG=") && AT_CONNECT == Ascii("AT+CONNECT=")
  {
  }

  /** White space, line ends and the capitals of letters, by their numbers. */
  lemma Letters(b: byte)
    ensures IsSpace(b) <==> b in {9, 10, 11, 12, 13, 32}
    ensures IsEol(b) <==> b == 10 || b == 13
    ensures UpperByte(b) == if b in Ascii("abcdefghijklmnopqrstuvwxyz") then b - 32 else b
  {
    var small := Ascii("abcdefghijklmnopqrstuvwxyz");
    assert forall k :: 0 <= k < 26 ==> small[k] == 97 + k;
    if 97 <= b <= 122 {
      assert small[b - 97] == b;
    }
  }

  /** ATDT or ATDP in any case, or ATD with something behind it. */
  predicate IsDial(upper: bytes) {
    Ascii("ATD") <= upper && |upper| > 3
  }

  /**
   The kind and parameter of a trimmed line that begins with AT: REG and CONNECT are told by
   their exact texts, a dial in any case, and all else is a generic modem command. The
   parameter is what follows the text; a generic command is its own.
   */
  lemma KindByText(s: bytes)
    requires Ascii("AT") <= s
    ensures ParseATCommand(s).Some?
    ensures var (kind, param), upper := ParseATCommand(s).value, Upper(s);
            && (kind == Reg <==> Ascii("AT+REG=") <= s) && (kind == Connect <==> Ascii("AT+CONNECT=") <= s)
            && (kind == DialPulse <==> Ascii("ATDP") <= upper)
            && (kind == DialTone <==> IsDial(upper) && !(Ascii("ATDP") <= upper))
            && |param| <= |s| && s[|s| - |param|..] == param
            && |s| - |param| == (match kind
                                 case Reg => 7
                                 case Connect => 11
                                 case DialTone => if Ascii("ATDT") <= upper then 4 else 3
                                 case DialPulse => 4
                                 case Modem => 0)
  {
    Literals();
    var upper := Upper(s);
    assert upper[0] == 0x41 && upper[1] == 0x54 && AT <= upper;
    assert AT_REG <= s ==> s[2] == 0x2B && s[3] == 0x52 && upper[2] == 0x2B;
    assert AT_CONNECT <= s ==> s[2] == 0x2B && s[3] == 0x43 && upper[2] == 0x2B;
    assert ATD <= upper ==> upper[2] == 0x44;
    assert ATDT <= upper ==> upper[2] == 0x44 && upper[3] == 0x54 && ATD <= upper;
    assert ATDP <= upper ==> upper[2] == 0x44 && upper[3] == 0x50 && ATD <= upper;
  }

  // ----- Dialling -----

  /** How a dial begins: AT in capitals, as the reader looks for it, and the rest in any case. */
  predicate DialWord(word: bytes, number: bytes) {
    && Ascii("AT") <= word
    && match |word|
       case 4 => Upper(word) == Ascii("ATDT") || Upper(word) == Ascii("ATDP")
       case 3 => Upper(word) == Ascii("ATD") && TrimRight(number) != [] && UpperByte(number[0]) != 0x54 && UpperByte(number[0]) != 0x50
       case _ => false
  }

  lemma UpperAppend(a: bytes, b: bytes)
    ensures Upper(a + b) == Upper(a) + Upper(b)
  {
  }

  lemma DialParsed(word: bytes, number: bytes)
    requires DialWord(word, number) && number == TrimRight(number)
    ensures ParseATCommand(word + number)
         == Some((if Upper(word) == Ascii("ATDP") then DialPulse else DialTone, number))
  {
    var s := word + number;
    KindByText(s);
    UpperAppend(word, number);
    Literals();
    var upper := Upper(s);
    assert upper[..|word|] == Upper(word);
    assert |word| == 3 ==> upper[3] == UpperByte(number[0]);
    assert upper[2] == 0x44 && s[2] != 0x2B;
    assert AT_REG[2] == AT_CONNECT[2] == 0x2B;
    var param := ParseATCommand(s).value.1;
    assert s[|word|..] == number;
    assert ATDT[3] == 0x54 && ATDP[3] == 0x50;
  }

  /** A dial line is read as a dial, with its number, whichever case it is typed in. */
  lemma DialIsRead(ev: seq<Event>, i: nat, m: nat, word: bytes, number: bytes, clock: nat -> int, timeout: int)
    requires WholeLine(ev, i, m) && Slice(ev, i, m) == word + number && DialWord(word, number)
    ensures ReadCommand(ev, i, clock, timeout)
         == Got(ATCommand(if Upper(word) == Ascii("ATDP") then DialPulse else DialTone, TrimRight(number), [], None), BehindEol(ev, m))
  {
    var line := word + number;
    DialTrimmed(word, number);
    DialParsed(word, TrimRight(number));
    Literals();
    assert AT <= line;
    LineAtOnce(ev, i, m, if Upper(word) == Ascii("ATDP") then DialPulse else DialTone, TrimRight(number), clock, timeout);
  }

  lemma DialTrimmed(word: bytes, number: bytes)
    requires DialWord(word, number)
    ensures Trim(word + number) == word + TrimRight(number) && DialWord(word, TrimRight(number))
    ensures TrimRight(TrimRight(number)) == TrimRight(number)
  {
    assert (word + number)[0] == 0x41;
    assert Upper(word)[|word| - 1] == UpperByte(word[|word| - 1]);
    assert Ascii("ATDT")[3] == 0x54 && Ascii("ATDP")[3] == 0x50 && Ascii("ATD")[2] == 0x44;
    assert !IsSpace(word[|word| - 1]);
    TrimRightBehind(word, number);
  }
}
