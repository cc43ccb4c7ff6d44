# Verified model of the RFC 2217 proxy

The proxy joins serial-over-TCP devices and the clients that want to talk to them. A device
registers with `AT+REG=<token>`; a client sends port settings (RFC 2217 subnegotiations or a
USR-VCOM packet), perhaps some modem commands, and then `AT+CONNECT=<token>` or a dial. From
then on a bridge copies bytes both ways. This project models that program in Dafny and proves
properties of the model.

Three parts, and one theorem that puts them together:

- **Codec** (`Rfc2217`, `UsrVcom`). The RFC 2217 frame scanner, the USR-VCOM decoder and the
  translation between them, as loops proved against functions. The frames are those of
  section 3 of RFC 2217; the code neither doubles nor undoubles IAC inside a body, and the
  exact price of that is proved.
- **Byte pipeline** (`Stream`, `Protocol`, `ReaderProperties`, `Preamble`, `CommandTexts`,
  `ReaderTiming`, `Modem`, `CommandLoop`, `CommandHistory`, `HandOff`). A connection is a
  sequence of bytes and expired deadlines, read through a buffered reader that is a class with an explicit
  buffer. The loops of the source are methods, each proved equal to a function of the events;
  the properties are proved about those functions for every stream. When the events run out
  the connection has failed. The clock is a function of the number of events taken.
- **Concurrency** (`Lifecycle`, `RegistryRuns`, `SessionRuns`, `ClosedRuns`, `ManagerRuns`, `Bridge`,
  `Keepalive`). Handlers and goroutines have a program counter; every map operation, locked
  section, atomic operation, channel operation, read, write and close is one step, and any
  goroutine may take the next one. Invariants hold in every run from the empty state. Where a
  guarantee needs a condition on the schedule, the condition is stated, and a run or a
  continuation shows that it is needed. `Devices` and `Sessions` hold the same objects as
  classes, as one goroutine sees them.
- **Delivery**. Reader, loop, hand-off and bridge composed: what a session sends to its device is the
  translated presets and then the client's data, for every split of the data between the
  reader's buffer and the bridge.

## What the proofs show about the code

- Scanning printed commands returns them exactly when no body holds FF F0. So a USR-VCOM
  packet survives its translation exactly when its three baud bytes do not hold FF F0.
- A look-ahead that meets an expired deadline uses it up. When the deadline fires between the
  A and the T of a command, the command is lost (`SplitCommandIsLost`). It also makes one line
  time out twice, so a wait can take more timed-out reads than it has seconds (`LimitedWait`,
  `LookAheadCountsTwice`).
- A USR-VCOM packet that holds 41 54 begins an AT line. When it is sent alone and a pause
  follows, the line expires and the packet is lost (`PacketThenPause`).
- A deadline that expires inside preset bytes cuts them like a line end. An undecodable packet
  headed 55 AA 55 is then kept as raw presets, while a completed one is dropped
  (`CommandAfterPreamble`).
- With timeout 0 and a USR-VCOM configuration already accepted, the reader keeps waiting after
  the caller's deadline for as long as reads time out (`UnlimitedWait`).
- Data behind the CONNECT line is delivered for every split between buffer and bridge if and
  only if it does not begin with a whole 8-byte packet headed 55 AA 55. Otherwise the packet is
  translated and the rest of the buffer is dropped (`BufferedUnchanged`, `EverySplitDelivers`).
- Two clients between the busy check and SetSession can both get a session with one device.
  With at most one client in that window a device has at most one session
  (`ExclusiveSessions`, `SharedWindowReachable`, `SharedWindowDoubles`). A live session has its
  device marked, except exactly between the table entry of Create and SetSession
  (`MarkedUnlessClaiming`).
- Two devices that take one name over at once close one channel twice and bring the process
  down; without overlapping takeovers no keepalive and no session channel is closed twice
  (`ProcessSurvives`, `ContestedPanics`, `DoubleTakeoverPanics`).
- After a takeover the old handler's deferred removal delists the new device, which goes on
  serving unlisted (`LateRemovalDelists`, `TakeoverLosesEntry`). The registered names are those
  being served as long as no name is occupied twice, and from any state where one is they can
  cease to be (`ServedFromStart`, `SharedNameDelists`).
- A device can be found by clients before its handler has written its OKs. One that is still owed
  when a bridge starts, to the registration or to a dial, can land between two data bytes
  (`OnlyNopsIff`, `AnswerBetweenData`).
- The device handler's reader goes on reading during a session and discards what it gets, so
  device bytes can be lost to the client (`DeviceStreamSplit`, `PlainPrefixIff`). Where two
  sessions share a device they split its stream between them, too; under the condition of
  `ExclusiveSessions` that does not happen.
- "Unknown command" can never be returned: every completed line that is not empty starts with AT.

Where documentation and code differ the model follows the code: the parity numbers in
doc/connection-sequence.md:121-126 are not those sent (RFC 2217 numbers are), the minimum
baud rate of doc/USR-VCOM.md:16 is not enforced, and a wrong checksum is only logged
(internal/connection/usrvcom.go:120-126). The comment that Run ends when either side closes
(internal/session/bridge.go:34) is not what the code does: it waits for both copiers
(`RunWaitsForBoth`, `HalfClosedWaits`).

## Model

| member | source | states |
|---|---|---|
| Rfc2217.ParseRFC2217Commands | internal/connection/rfc2217.go:44-79 | The nested index loop returns the scan of the data and the data itself, unchanged. |
| Rfc2217.FindTerminator | internal/connection/rfc2217.go:54-61 | The inner loop finds the first IAC SE at or after the start; -1 only when there is none. |
| Rfc2217.ScanRefinesDecomposition | internal/connection/rfc2217.go:50-76 | Any leftmost-greedy decomposition of the data into disjoint, in-order frames with non-empty bodies is the one the scan follows, and the commands are read off it. |
| Rfc2217.DecompositionUnique | internal/connection/rfc2217.go:50-76 | There is only one leftmost-greedy decomposition. |
| Rfc2217.UnmatchedHeader | internal/connection/rfc2217.go:52-75 | A header outside every frame is followed by IAC SE at once, or by none at all. |
| Rfc2217.ScanSize | internal/connection/rfc2217.go:62-73 | The sum of data length plus six over the commands found never exceeds the data length. |
| Rfc2217.RoundTrip | internal/connection/rfc2217.go:44-79 | Scanning printed commands returns the same list if and only if no body holds IAC SE. |
| Rfc2217.CutFrameScans | internal/connection/rfc2217.go:56-73 | With IAC SE inside a body the command comes back cut short there and the scan goes on behind the pair. |
| Rfc2217.CutFrameLost | internal/connection/rfc2217.go:62-75 | With IAC SE at the start of the body the frame yields nothing. |
| Rfc2217.BuildResponse | internal/connection/rfc2217.go:83-88 | The response, in numbers: FF FA 2C, the code plus 100 modulo 256, the data unchanged, FF F0. |
| Rfc2217.ResponseRoundTrip | internal/connection/rfc2217.go:83-88 | Responses scan back to the moved-up commands if and only if no response body holds IAC SE. |
| Rfc2217.ResponseInjective | internal/connection/rfc2217.go:83-88 | Two commands have the same response bytes only if they are the same command. |
| Rfc2217.ResponseBytesInjective | internal/connection/rfc2217.go:83-88 | Two lists of commands, no response body of which holds IAC SE, have the same response bytes only if they are the same list. |
| Rfc2217.ResponsesMerge | internal/connection/rfc2217.go:83-88 | That condition is needed: any two responses in a row are also the bytes of one response, to a command whose data holds IAC SE. |
| UsrVcom.ParseUSRVCOM | internal/connection/usrvcom.go:70-136 | The loop decodes the first packet headed 55 AA 55 with eight bytes left; none means no result; the checksum decides nothing. |
| UsrVcom.NoneFound | internal/connection/usrvcom.go:76-86 | Nothing is returned only when no header with eight bytes left is anywhere in the data. |
| UsrVcom.HeadedIsFound | internal/connection/usrvcom.go:76-88 | Data headed 55 AA 55 yields the packet at its head when it is whole, and nothing otherwise. |
| UsrVcom.Decode | internal/connection/usrvcom.go:88-135 | Every accepted packet has 5 to 8 data bits, parity 0 to 4, 1 or 2 stop bits and a 24-bit baud rate. |
| UsrVcom.ToRFC2217Commands | internal/connection/usrvcom.go:147-184 | Appends the four commands in order; nothing for an invalid configuration. |
| UsrVcom.BuildRFC2217Packet | internal/connection/usrvcom.go:187-201 | The packet is the print of those commands. |
| UsrVcom.TranslationMeans | internal/connection/usrvcom.go:90-183 | A receiver that applies the commands by the code numbers of RFC 2217 ends up with the settings the packet layout documents, whatever it had before. |
| UsrVcom.PrintInNumbers | internal/connection/usrvcom.go:187-201 | For every packet the print, number by number: FF FA 2C 01 00 hi mid lo FF F0, then FF FA 2C 02, 03 and 04 with data size, parity and stop size by the bits of the packet, each closed by FF F0. |
| UsrVcom.WireMeans | internal/connection/usrvcom.go:147-201 | Scanning and applying those numbers gives the settings of the packet, when the baud bytes lack FF F0. |
| UsrVcom.DocumentedExamples | doc/USR-VCOM.md:36-42 | The documented parameter bytes 03, 07, 1B, 0B and 1A mean 8N1, 8N2, 8E1, 8O1 and 7E1. |
| UsrVcom.OnlyZeroBaudQueries | internal/connection/rfc2217.go:91-104 | Of the four commands only SET-BAUDRATE can be a query, exactly when the baud rate is 0. |
| UsrVcom.PacketRoundTrip | internal/connection/usrvcom.go:187-201 | The print is 31 bytes and scans back to its four commands if and only if the baud bytes lack FF F0. |
| UsrVcom.SamePrint | internal/connection/usrvcom.go:147-201 | Two packets print equal if and only if the baud bytes agree and the parameter agrees on bits 0 to 3, and on bits 4 and 5 when bit 3 is set. |
| UsrVcom.SameSettings | internal/connection/usrvcom.go:99-118 | Parameters agree on those bits if and only if data bits, stop bits and parity agree. |
| Stream.BufReader.ReadByte | internal/connection/protocol.go:155-158 | The next event is taken: a byte, an expired deadline or a failure, however arrivals were chunked and buffered. |
| Stream.BufReader.Peek | internal/connection/protocol.go:164-174 | A byte looked at stays; an expired deadline met while looking is used up. |
| Stream.BufReader.TakeBuffered | internal/connection/handler.go:468-470 | Hands over exactly what the buffer holds, in order, without touching the connection. |
| Protocol.TakeByte | internal/connection/protocol.go:155-184 | The body of the byte loop: it ends the line as the line function says, or leaves the rest of the line to what it carries on. |
| Protocol.ReadLineWithSkipped | internal/connection/protocol.go:151-186 | The byte loop computes the line function on the events from the reader's position and stops just behind what it used. |
| Protocol.LineFrom | internal/connection/protocol.go:154-185 | A line ends within the stream, and takes at least one event unless the connection failed. |
| Protocol.ReadATCommandWithPresets | internal/connection/protocol.go:36-143 | The line loop computes the command function on events and clock, on every branch: command, expired wait, expired line, failure. |
| Protocol.ReadFrom | internal/connection/protocol.go:41-142 | Reading a command never goes back and never passes the end of the stream. |
| ReaderProperties.LineIsCut | internal/connection/protocol.go:151-186 | One call by positions in the stream: what it skips, the AT line and how it ends are the stretches between three cuts. |
| ReaderProperties.LineTakes | internal/connection/protocol.go:151-186 | Whatever one call takes is, in order, the bytes before the AT line, the AT line, and CR, LF or CR LF if the line completed; it expires at a timeout and breaks at the end of the stream. |
| ReaderProperties.LineBeginsAtFirstAT | internal/connection/protocol.go:171-184 | For every stream and every deadline the AT line begins at the first AT of its segment if and only if no timeout within the call stands between an A and a T. |
| ReaderProperties.StickyLineBeginsAtFirstAT | internal/connection/protocol.go:51-60 | With a deadline that stays expired for the rest of the call it always does. |
| Preamble.SplitCommandIsLost | internal/connection/protocol.go:61-79 | When the deadline is met in the look-ahead behind the A of a command, the reader goes on exactly as if A, T and the rest of that line had been preset data. |
| ReaderProperties.ATLineIsClassified | internal/connection/protocol.go:189-213 | A line that starts with AT is always classified after trimming; a generic modem command keeps its whole text. |
| ReaderProperties.NoUnknownCommand | internal/connection/protocol.go:117-141 | For every stream and every deadline the "unknown command" error is never returned. |
| CommandTexts.KindByText | internal/connection/protocol.go:189-213 | For every line that begins with AT, which texts make it which kind, and that the parameter is exactly what follows the text. |
| CommandTexts.DialIsRead | internal/connection/protocol.go:198-207 | A dial typed as ATDT, ATDP or ATD in any case is read as a dial with its whole number. |
| CommandTexts.Letters | internal/connection/protocol.go:117-190 | White space, line ends and capitals by their numbers. |
| ReaderProperties.WhyAWaitEnds | internal/connection/protocol.go:41-91 | For every stream a wait without a command ends for one of three reasons: more than its time is over; a line met its deadline with an AT line begun or empty, with no configuration accepted and no time left or no limit; the stream has ended. |
| ReaderProperties.OpenLineIsDropped | internal/connection/protocol.go:80-90 | Such a line is as if it had not been there exactly when a configuration was accepted or the limited wait has time left. |
| ReaderProperties.Conservation | internal/connection/protocol.go:36-143 | Under arbitrary deadlines the pieces tile all events taken, and each has the fate of its place: a whole segment is kept, unless headed 55 AA 55 and completed or decodable; AT line and terminator belong to completed lines; abandoned is only all of a line that a timeout or the end of the stream cut short. Presets are the kept pieces, the configuration is the last decodable one, the command is the one AT line. |
| Preamble.CutKeepsBytes | internal/connection/protocol.go:60-115 | Where no AT occurs, cutting the bytes at CR, LF and expired deadlines loses nothing but CR and LF. |
| Preamble.UnheadedArePlain | internal/connection/protocol.go:93-115 | When no segment is headed 55 AA 55 the presets are all those bytes and there is no configuration. |
| Preamble.LastConfigIsLast | internal/connection/protocol.go:65-105 | The configuration kept is that of the last decodable segment headed 55 AA 55, completed or expired. |
| Preamble.CommandAfterPreamble | internal/connection/protocol.go:36-143 | Up to the first AT line that is completed, whenever deadlines fire while the wait goes on: the segments cut at CR, LF and deadlines make presets and configuration (an undecodable packet is kept when it expires and dropped when it completes), an AT line that met its deadline is as if it and what preceded it in its line had not been there, the command is that of the completed line, and the position is just behind it. |
| Preamble.PrintThenRead | internal/connection/protocol.go:188-197 | A printed AT+REG= or AT+CONNECT= line reads back with its kind, and with its token if and only if the token holds neither 13 nor 10 and does not end in white space. |
| ReaderTiming.LimitedWait | internal/connection/protocol.go:41-90 | With a timeout, and deadlines as the lines of this very run set them: at most the remaining seconds, rounded up, plus one lines meet their deadline; the timed-out reads are exactly those lines and one more for each that met it first in the look-ahead behind an A. |
| ReaderTiming.LookAheadCountsTwice | internal/connection/protocol.go:41-90 | So the reads alone can exceed that bound: three for a wait of one second and an A. |
| ReaderTiming.UnlimitedWait | internal/connection/protocol.go:61-91 | With timeout 0, once reads only time out the reader returns within three of them if and only if it accepted no USR-VCOM configuration; otherwise it goes on until the connection fails. |
| Modem.ModemState.HandleCommand | internal/connection/modem.go:65-142 | New mode, reply and number of writes are those of the classified command; turned down exactly when it is not an AT command. |
| Modem.ModemState.WriteModemConnect | internal/connection/modem.go:44-51 | CONNECT 9600 or 1, by verbosity, in one write. |
| Modem.ModemState.WriteModemNoCarrier | internal/connection/modem.go:54-61 | NO CARRIER or 3, by verbosity, in one write. |
| Modem.ModemState.WriteInfoResponse | internal/connection/modem.go:145-151 | Information and OK in one write, by verbosity. |
| Modem.LastVerbosityRules | internal/connection/modem.go:73-98 | Verbosity after any history is what its last ATZ, ATV0 or ATV1 set. |
| Modem.OneReplyEach | internal/connection/modem.go:65-142 | Every command of a history gets one reply, in the mode its predecessors left. |
| Modem.RepliesShowMode | internal/connection/modem.go:23-98 | By the texts a client sends: the k-th reply is verbose if and only if it answers ATZ or ATZ0, or the last of ATZ, ATZ0, ATV0 and ATV1 before it was not ATV0; a dial result shows the mode all of them left. |
| Modem.ReplyInNumbers | internal/connection/modem.go:65-151 | The reply to every AT text, byte for byte, in either mode: information lines for ATI, AT+CGMI, AT+CPIN and AT+CSQ, OK or 0 for all others. |
| Modem.DialInNumbers | internal/connection/modem.go:44-61 | CONNECT and NO CARRIER, byte for byte, in either mode. |
| Modem.LastEchoRules | internal/connection/modem.go:73-87 | Echo is off if and only if the last of ATZ, ATZ0, ATE0 and ATE1 was ATE0. |
| Modem.EchoIsInvisible | internal/connection/modem.go:79-87 | Echo changes no reply and no later verbosity, over any history. |
| Modem.HandledIffAT | internal/connection/modem.go:128-141 | HandleCommand returns false exactly for texts that do not start with AT. |
| CommandLoop.Handle | internal/connection/handler.go:35-138 | The loop, with its reader, modem object and connection, does what the run function says: commands read, bytes written, how it ends and where reading stopped. |
| CommandLoop.Dispatch | internal/connection/handler.go:69-136 | The switch on one command: new configuration, presets and modem, the reply, or how the loop ends. |
| CommandLoop.Dial | internal/connection/handler.go:83-107 | A dial with a number on a modem connection becomes a client request with the known configuration and presets; any other is answered. |
| CommandLoop.ReaderDelivers | internal/connection/handler.go:118-135 | What the reader returns is always a command HandleCommand accepts, so the default branch is dead. |
| CommandHistory.LoopIsHistory | internal/connection/handler.go:43-131 | Every run is explained by the list of its commands and the writes that fail: each command that stays gets exactly one reply, in the mode the history left, as far as its write succeeds; only a plain OK to a dial that could not be written drops the connection; ERROR ends a wait. |
| CommandHistory.CommandsAreChained | internal/connection/handler.go:47-131 | The commands are read one behind the other, the first with the initial timeout and every other with the later one. |
| CommandHistory.PlainTexts | internal/connection/protocol.go:21-22 | Byte for byte: OK to a dial without a modem, ERROR, and the verbose reply to a first AT. |
| CommandHistory.SessionRequest | internal/connection/handler.go:82-117 | A session is asked for by CONNECT or by a dial with a number after a modem command; it gets the latest configuration, and the presets of the dial or, without any, all those of earlier modem commands. |
| CommandHistory.RegistrationRequest | internal/connection/handler.go:108-110 | handleDevice is reached only by REG, with that command's own token. |
| CommandHistory.HandleIsHistory | internal/connection/handler.go:43-138 | All of it for the whole life of a connection from its first byte. |
| HandOff.TokenMatches | internal/connection/handler.go:320-353 | Without an auth token the ID is the token itself; with one an ID is accepted exactly from auth, plus, ID, so an auth token with a plus in it never matches; it is never empty. |
| HandOff.BuildPresets | internal/connection/handler.go:355-391 | A valid configuration overrides raw presets; presets headed 55 AA 55 go out translated or not at all, all others unchanged. |
| HandOff.ForwardRFC2217ToDevice | internal/connection/rfc2217.go:169-179 | One write of the raw bytes, none when there are none. |
| HandOff.ForwardBuffered | internal/connection/handler.go:466-518 | Empties the reader's buffer into one write; parsing it as RFC 2217 changes no byte. |
| HandOff.BufferedOnTheWire | internal/connection/handler.go:475-517 | Byte for byte: a buffer headed by a whole packet becomes the 31 bytes of that packet's settings, any other goes out as it is. |
| HandOff.BufferedMeans | internal/connection/handler.go:475-513 | So a receiver of it ends with the settings of the packet, when its baud bytes lack FF F0. |
| HandOff.RawPresetsOnTheWire | internal/connection/handler.go:370-391 | Byte for byte: presets not headed 55 AA 55 unchanged, a whole packet at their head as its settings, less than one as nothing. |
| HandOff.RawPresetsMean | internal/connection/handler.go:374-383 | So a receiver of such a packet ends with its settings. |
| HandOff.RepliesInNumbers | internal/connection/handler.go:312-318 | The replies of handleClient, byte for byte, for plain and modem clients. |
| HandOff.FindDevice | internal/connection/handler.go:320-436 | Returns exactly a registered device that is in no session; otherwise one error reply in the right format. |
| HandOff.OpenSession | internal/connection/handler.go:438-457 | Create, SetSession and the reply; a failed reply leaves session table and device as before. |
| HandOff.Admit | internal/connection/handler.go:413-457 | Look-up and session together: exactly a free registered device gets a session; no other device is touched. |
| HandOff.HandleClient | internal/connection/handler.go:304-520 | Turned away, failed, or bridged: in each case the replies, the session table, the device's mark, the writes to it, and what is left untouched. |
| HandOff.FinishClient | internal/connection/handler.go:524-531 | Removes the session, closes its channel, clears the mark, and tells a modem client NO CARRIER. |
| Delivery.BufferedUnchanged | internal/connection/handler.go:475-517 | Buffered bytes reach the device unchanged if and only if they do not begin with a whole packet headed 55 AA 55. |
| Delivery.EverySplitDelivers | internal/connection/handler.go:466-522 | The data survives every split between buffer and bridge if and only if it does not begin with such a packet. |
| Delivery.PlainPresetsUnchanged | internal/connection/handler.go:370-391 | Without a 55 AA 55 at their head or at that of a segment, presets reach the device with their line ends gone and nothing else changed, whenever deadlines fire. |
| Delivery.PacketThenPause | internal/connection/handler.go:359-368 | A packet, and any pause after it, reaches the device as the 31 bytes of its settings, or as nothing at all when the packet holds 41 54, which is AT. |
| Delivery.ConfiguredPresets | internal/connection/handler.go:357-371 | Whatever other presets there are, the last decodable packet alone decides what the device is sent. |
| Delivery.LoopConnects | internal/connection/handler.go:111-117 | For presets, with deadlines and expired AT lines among them, and one CONNECT line the loop writes nothing, takes nothing behind the line, and passes on kind, token, presets and configuration. |
| Delivery.LoopRegisters | internal/connection/handler.go:108-110 | For presets and one REG line the loop writes nothing and hands the token to handleDevice. |
| Delivery.BridgeDelivers | internal/connection/handler.go:459-522 | From the hand-off on, in every run of the bridge and for every split, what this session writes to the device as data is a beginning of the translated presets and the data, and all of it once everything was read and written. |
| Delivery.EndToEnd | internal/connection/handler.go:355-522 | The same from the client's first byte: reader, command loop, hand-off and bridge together. |
| Delivery.ServeConnect | internal/connection/handler.go:35-522 | Handle and handleClient on live objects: with a free device and working writes the client gets OK, the session is opened and filed, and the bytes written to the device are completed by every run of the bridge that follows: with the bridge's data they are a prefix of the translated presets and the client's data, and all of it once everything was read. |
| Bridge.Transparent | internal/session/bridge.go:83-113 | In every interleaving the data written each way is a prefix of what its copier read, at most 4096 bytes behind, and the byte counters are exact. Every other write to the client is a NOP, whole unless it reported an error; to the device it is such a NOP, an OK of the device handler, no more of them than it owed, or a write of another session that has the same device. |
| Bridge.OnlyNopsIff | internal/connection/handler.go:200-222 | NOPs are the only other whole writes to the device in every run if and only if the device handler owes no OK when the bridge starts and no other session has the device. |
| Bridge.AnswerBetweenData | internal/connection/handler.go:200-222 | From every start with an OK owed some run leaves exactly a data byte, the OK and the next data byte on the device. |
| Bridge.DeliveredWhenRead | internal/session/bridge.go:88-113 | The device's data is a prefix of what the client sent, and all of it when all was read and the copier is back at its read. |
| Bridge.CopierEndsAtError | internal/session/bridge.go:88-113 | In every run, for each direction: a copier is ending or has ended if and only if one of its own reads or writes failed. |
| Bridge.CanDeliver | internal/session/bridge.go:88-113 | From every state a bridge gets into with both ends open and no read or write of that copier failed, steps of it without failures deliver everything the client sent to the device. |
| Bridge.CanDeliverDown | internal/session/bridge.go:88-113 | The same towards the client, for everything the device sent that nobody else has taken. |
| Bridge.KeepaliveEnds | internal/session/bridge.go:125-165 | A keepalive that was started stops only because it is told to, or because a NOP failed; then it has closed the connection of that NOP. |
| Bridge.DeviceStreamSplit | internal/connection/handler.go:249-272 | What the bridge reads, what the device handler's own readers read and what another session reads are an order-preserving partition of what the device sent; the client gets a prefix of its share, and a plain prefix of the stream when nobody else reads; without another session only the handler does. |
| Bridge.PlainPrefixIff | internal/connection/handler.go:249-272 | With both ends open the client gets a prefix of the device stream in every run if and only if all bytes of that stream are the same. |
| Bridge.ShutdownIsBounded | internal/session/bridge.go:53-76 | With both connections closed the copiers and Run take at most thirteen more steps, and one of them can move until Run has returned. |
| Bridge.ShutdownFromStart | internal/session/manager.go:87-98 | So after Terminate, from every state a bridge can get into. |
| Bridge.RunWaitsForBoth | internal/session/bridge.go:53-67 | Until session.done is closed, Run goes on only when both copiers have finished. |
| Bridge.HalfClosedWaits | internal/session/bridge.go:33-67 | From every start a bridge can get to where the client is closed and its copier finished while Run waits and cannot wake. |
| Keepalive.KeepaliveLoop | internal/session/bridge.go:117-165 | The ticker loop writes NOPs to each peer at exactly the ticks that find it idle for the timeout, in order, client first, until a write fails: then it closes that peer and ends. |
| Keepalive.SilentPeer | internal/session/bridge.go:122-151 | A silent peer gets no NOP until more than T-1 seconds after its last activity, the first one before 1.5 T, and then one every half T exactly. |
| SessionIds.KeyInjective | internal/session/manager.go:49 | Session IDs are equal only if time and counter are. |
| SessionIds.DecimalSpells | internal/session/manager.go:49 | Numbers in IDs are rendered in decimal without a leading zero. |
| Sessions.Manager.Create | internal/session/manager.go:48-69 | Files an open session under a new ID and changes no other entry. |
| Sessions.Manager.End | internal/session/manager.go:72-84 | Removes the entry and closes its channel, which was open; an unknown ID changes nothing. |
| Devices.Device.SetSession | internal/device/registry.go:22-27 | Marks the device with the session. |
| Devices.Device.ClearSession | internal/device/registry.go:30-35 | Clears mark and session ID. |
| Devices.Registry.Register | internal/device/registry.go:55-57 | Replaces whatever had the name. |
| Devices.Registry.Unregister | internal/device/registry.go:60-62 | Removes by name, whichever device is there. |
| Devices.Registry.Get | internal/device/registry.go:65-71 | The device of the name, if any. |
| ManagerRuns.StoreIsFresh | internal/session/manager.go:48-62 | Below 2^64 creates, Create never overwrites an entry, under any concurrent calls. |
| ManagerRuns.ClosedOnceWhenRemoved | internal/session/manager.go:48-84 | Under any concurrent Creates and Ends a stored session is listed until one End removes it; that call alone closes its channel, once; nothing panics. |
| RegistryRuns.RegistryIsFresh | internal/connection/handler.go:177-201 | In every interleaving an entry is the device last registered under its name and its handler is serving. |
| RegistryRuns.MissingMeansTouched | internal/connection/handler.go:177-201 | A listed device goes missing or is replaced only by a later Register, takeover delete or deferred Unregister for its name. |
| RegistryRuns.ServedFromStart | internal/connection/handler.go:193-201 | Without takeover of a live name the registered names are exactly those of the handlers between Register and exit. |
| RegistryRuns.UncontestedStopsOnce | internal/connection/handler.go:177-185 | Without overlapping takeovers of one device no keepalive channel is closed twice. |
| RegistryRuns.ContestedPanics | internal/connection/handler.go:180-182 | Wherever two takeovers of one device overlap, at most two steps close its channel twice. |
| RegistryRuns.DoubleTakeoverPanics | internal/connection/handler.go:177-185 | That overlap is reachable. |
| RegistryRuns.SharedNameDelists | internal/connection/handler.go:177-201 | The condition of ServedFromStart is exact: wherever two handlers occupy one name, at most nine steps bring the process down or leave one of them serving and not registered. |
| RegistryRuns.LateRemovalDelists | internal/connection/handler.go:200-201 | The old handler's deferred removal leaves the new device serving and unlisted. |
| RegistryRuns.TakeoverLosesEntry | internal/connection/handler.go:177-201 | A takeover reaches the state in which that happens. |
| SessionRuns.NoOrphans | internal/connection/handler.go:438-526 | In every interleaving the table is exactly the sessions of clients between the entry of Create and its removal, its size is entries stored minus entries removed, and a client that returned has left none and its channel closed. |
| ClosedRuns.TakeoverCloses | internal/connection/handler.go:177-201 | In every interleaving a device that found its name taken registers only once the older connection is closed, and closes its own at the end. |
| ClosedRuns.TerminateCloses | internal/session/manager.go:87-98 | In every interleaving Terminate that finds its session has closed both connections when it returns. |
| ClosedRuns.SessionCloses | internal/connection/handler.go:520-526 | In every interleaving a client removes its session and frees its device only once both connections are closed. |
| ClosedRuns.FailedReplyUndoes | internal/connection/handler.go:445-457 | From every state before a reply, a reply that fails takes back table entry and mark and closes the client's connection, not the device's. |
| SessionRuns.StoreKeepsTable | internal/session/manager.go:62-62 | The entry Create stores is a new one and keeps the table exact. |
| SessionRuns.ProcessSurvives | internal/connection/handler.go:177-185 | Without overlapping takeovers neither a StopKeepalive nor a session done channel is closed twice, whatever else interleaves. |
| SessionRuns.ExclusiveSessions | internal/connection/handler.go:427-440 | While no two clients are between check and claim for one device object, it has at most one session, and it is marked exactly while a client holds it, with that client's session. |
| SessionRuns.MarkedUnlessClaiming | internal/connection/handler.go:438-440 | Under the same condition a session in the table has its device marked with its ID, except exactly while its client is between the table entry of Create and SetSession. |
| SessionRuns.SharedWindowDoubles | internal/connection/handler.go:427-440 | From every reachable state with two clients in that window at most four steps of theirs give the device two sessions. |
| SessionRuns.SharedWindowReachable | internal/connection/handler.go:427-440 | Such a state is reachable. |

## Left out

- The HTTP API, pages, cookies, authentication and address masking: none of it touches the byte paths.
- TCP keepalive options, the PROXY protocol, the accept loop, configuration loading, logging and text formatters; isRFC2217Data, which only chooses a log line.
- Real sockets: a connection is a list of reads, writes and a closed flag; a read or write is one step that may fail, in Bridge also half-way and with any other writer in between, in the single-goroutine modules (HandOff, CommandLoop) as a whole.
- Unicode in TrimSpace and ToUpper: the text of commands is taken to be ASCII, and bytes above 7F are ordinary.
- The log lines and the query test at internal/connection/handler.go:393-411 and 491-508: they change nothing.
- WriteModemError, SendRFC2217Responses and SendToDevice: nothing calls them on the modelled paths.
- The session callbacks onStart and onEnd, and the lists and counts for the HTTP API.
- The body of handleDevice outside the step systems: the wait for ATDT or ATDP and its select. Its token check is that of HandOff.TokenMatches; in Bridge its two OKs are answers still owed, its readers are reads by the handler, and its deadlines are reads that fail at any time. That the second OK waits for a dial to be read is not part of this model: a device that does not dial is one with fewer answers owed.
- Bytes behind the REG line that are already in the first reader's buffer: handleDevice starts a new reader, and what becomes of them is not part of this model.
- A bufio reader that gives up after many empty reads: every read on a connection returns a byte, an expired deadline or a failure.
- NO CARRIER after a session: FinishClient writes it, but nothing is claimed about the client seeing it, because the bridge has closed the connection by then.
- The escape sequence inside the bridge: the code has none.
- The time of a clock read is that of the last event taken; in Keepalive writes take no time, and idle timeouts are whole seconds.
- A command that follows, in the same line, presets with an AT of their own: the reader takes the first AT for the command, as LineBeginsAtFirstAT says; CommandAfterPreamble and Delivery speak of the first AT line that completes.
- NoOrphans, ExclusiveSessions, ClosedOnceWhenRemoved and ProcessSurvives speak of fewer than 2^64 creates in one process; so do the methods that call Create. The wrap of the counter itself is modelled.
- In Lifecycle a handler's deferred removal and the close of its connection are one step, as are the two closes at the end of a bridge; closed connections guard no step there, since a read or write may fail at any time.
