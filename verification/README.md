# A verified model of the LoRaHAM KISS/TNC bridge

The bridge connects one KISS/TCP client to a LoRa daemon. It decodes KISS frames, turns AX.25 UI frames into TNC2
lines and those into LoRa-APRS packets, queues them, and transmits one at a time: gate on the daemon's CONF state,
switch the radio to the TX frequency, settle, write, wait for a confirmation, switch back to RX. In the other
direction it decodes the daemon's framed stream, scans RF packets for APRS text, and hands each text to the client as
a KISS frame. All of this works byte by byte over fixed buffers, with sockets, clock and stop signal that answer as
they like.

The project models that core and proves

- of each streaming decoder (KISS, framed DATA stream, APRS text scanner, CONF lines), that it computes a plain
  declarative split of the whole stream, however the stream is cut into reads;
- of the codecs (AX.25 version 2.2 section 3.12 addresses, TNC2 lines, KISS framing, daemon frames), that they undo
  each other up to an explicit normal form, in both directions;
- end to end, that a frame which the TX path queues arrives at another station's client as exactly one KISS frame with
  exactly the normalised content, if and only if its TNC2 line does not contain the bytes 3C FF 01;
- of every run of the main loop, whatever the surroundings do: first in first out, nothing lost, nothing sent twice;
  every write is of a packet alive at the decision, made on the latest clock reading, and passed the gate, the switch
  to TX and the settling time; a packet is dropped only when a decision finds it too old or held back for too long,
  and unless CONF fails, has no STATUS or reports TXRESULT off, every iteration decides about the head of the queue on
  a clock reading of its own, and leaves it only if it is neither; each written packet has exactly one RF-log record
  before the radio goes back to RX, unless it is refused, and the record says "ok" exactly when what was read since
  the write confirms it; the radio is sent no profile but the RX one, and the TX one directly after a decision to
  send; while it may be parked on the TX frequency it is never counted as configured, and then every quiet moment with
  both sockets up sends the whole configuration again; the client is sent exactly the KISS frames of the daemon frames
  handled, in order, each up to a failed write; the framed decoder is in step with the DATA socket up to the bytes
  that a failed client write throws away; the CAD statistics are the CAD events, less exactly those lost with a CONF
  connection.

## How the model is built

Sockets, clock, stop flag and `select()` are methods of `Runtime.Env` with arbitrary results. What they answer (clock
readings, the stop flag seen, each report of `select()`, bytes read, failures, refused connections) and everything
that the bridge does is recorded in a ghost log of events. `Trace.Next` says what a log amounts to, and `Trace.Legal`
which event may follow which log, in terms of the recorded queue, clock and bytes only; the class invariant
`Env.Valid` is that the log is legal, so a method that wrote, dropped or recorded at the wrong moment would not
verify. `Trace` then proves what legality means for whole runs, from the log alone. What one iteration does about the
drain's result and about each report of `select()` is a relation between snapshots of the bridge (`Turns`), which the
methods of `Bridge` are proved to keep, up to runs of any length. A failed configuration send is taken as not applied.
Each C object whose fields change is a class, each C buffer an array; each method is proved against a function on
values, and the theorems are about those functions. What such a function decides is also stated without it: what the
decoders accept, what a CONF line reports, a TX_RESULT says, a retune needs or a decision means is given by octets,
characters and numbers, in both directions.

| module | models |
|---|---|
| `Common` | loraham_kiss_tnc.h: limits, result codes, C strings |
| `Kiss`, `Ax25`, `AddrText`, `Tnc2` | kiss.c, ax25.c, tnc2.c |
| `Framed`, `Scanner` | loraham_sock.c |
| `Conf`, `TxQueue` | bridge_conf.c, bridge_tx_queue.c |
| `RxPath`, `BridgeRx`, `BridgeKiss`, `EndToEnd` | bridge_rx.c on values and in place, bridge_kiss.c, and both together |
| `Trace`, `Laws`, `Runtime` | the rules of a run; what they mean in octets, characters and numbers; the surroundings (bridge_runtime.c) |
| `TxWait`, `Sync`, `TxLifecycle`, `TxDrain` | bridge_loraham.c |
| `Turns`, `Bridge` | bridge.c on snapshots and in place |

## Where code and comments differ

- bridge.c:498-506 says that the DATA socket is reconnected on a "framed decode error (stream desync)". The code also
  does so on an intact stream: exactly when an RX packet handled with a client connected has no APRS text, or one that
  is too long or cannot be parsed (`Bridge.Bridge.TakeData`; `RxPath.IntactStreamDropped` is an example).
- On a failed client write the rest of the DATA read is thrown away and only the client is closed
  (bridge_rx.c:386-390, bridge.c:491-497), so bridge.c:481-485 ("stays in sync with the data socket") holds only up to
  the skipped bytes. The model records them, and proves that nothing else is ever skipped: it takes a failed client
  write in the same read, before the client is closed for it.
- CAD statistics lose the events that are not collected when the CONF state is cleared: they are exact if and only if
  nothing was lost so (`Bridge.CadExact`), and `Bridge.CadLoss` is a run that loses one.
- Packets are truncated on the way if their text holds the header bytes (`EndToEnd.FrameArrives`; an example is
  `EndToEnd.MarkerTruncates`).

## Model

| member | source | states |
|---|---|---|
| `Kiss.DecoderRefinesSplit` | kiss.c:86-144 | Over any byte stream, what precedes the first FEND is discarded, and each segment between FENDs yields nothing if empty, one error if it has a bad or dangling escape or over 1024 decoded bytes, and otherwise its un-escaped frame |
| `Kiss.KissDecoder.DecodeByte` | kiss.c:86-144 | The in-place decoder takes the step of the machine that the stream theorem is about |
| `Kiss.KissDecoder.Init` | kiss.c:10-17 | Back to waiting for the first FEND |
| `Kiss.PutEscaped` | kiss.c:202-235 | Appends exactly the escaped byte, or changes nothing when it does not fit |
| `Kiss.EncodeDataFrame` | kiss.c:240-283 | Succeeds exactly when the encoded frame fits, and then the buffer holds FEND, escaped command and data, FEND |
| `Kiss.SelfSynchronising` | kiss.c:86-144 | From any decoder state, after any garbage, an encoded frame of up to 1023 bytes decodes on its closing FEND to port 0, command 0 and the same data |
| `Kiss.ListRoundTrip` | kiss.c:240-283 | Concatenated encodings decode to the same list of frames |
| `Kiss.AnyFrame` | kiss.c:55-144 | From any decoder state, C0, an escaped octet 16 * port + command with up to 1023 data octets, and C0 report exactly that port, command and data |
| `Kiss.SegmentByOctets` | kiss.c:86-144 | Between two FENDs a frame with this port, command and data is reported if and only if the octets are the escaped form of it, with at most 1023 data octets |
| `Kiss.EscapeOctets` | kiss.c:202-235 | C0 is escaped as DB DC and DB as DB DD; every other octet stands for itself |
| `Ax25.DecodeEncode` | ax25.c:233-313 | Decoding an encoded well-formed frame gives it back with the destination and source repeated flags cleared |
| `Ax25.EncodeDecode` | ax25.c:318-391 | For every accepted octet string, re-encoding changes only the C bits, reserved bits and callsign low bits to what a conforming sender writes, and decodes to the same frame |
| `Ax25.CanonDecode` | ax25.c:318-391 | The converse: every octet string whose canonical octets are those of a good frame is accepted and is that frame, so acceptance depends on nothing but the canonical octets |
| `Ax25.Accepted` | ax25.c:318-391 | Accepted are exactly the octet strings that are a good frame up to the bits a conforming sender fixes |
| `Ax25.AddressedFrame` | ax25.c:318-391 | Behind the addresses of a good frame: SHORT without two more octets, UNSUPPORTED unless they are 03 F0, LONG for more than 256 octets of payload, and the frame otherwise |
| `Ax25.NotAddressed` | ax25.c:318-391 | Octets that do not begin with such addresses are FORMAT |
| `Ax25.KnownFrame` | ax25.c:149-313 | A frame with a repeated path address, octet by octet, in both directions |
| `Ax25.EncodeUiInto` | ax25.c:233-313 | Result code and buffer of the encoder: which limit fails first, else exactly the encoded frame of at most 384 bytes |
| `Ax25.ReadUi` | ax25.c:318-391 | The loop over address fields computes the value decoder of the two theorems above |
| `Ax25.ReadAddr` | ax25.c:183-228 | One address field, octet by octet, agrees with the value decoder |
| `AddrText.ParseFormatAddr` | ax25.c:48-147 | Parsing a formatted address gives it back with its callsign in upper case |
| `AddrText.AddrParse` | ax25.c:48-113 | The loops over callsign and SSID compute the value parser, with its error codes and leading zeros |
| `AddrText.AddrFormat` | ax25.c:119-147 | Fails exactly for an empty callsign or an SSID over 15, and never outgrows the callers' buffer |
| `AddrText.AcceptedTexts` | ax25.c:48-113 | Accepted are exactly the texts of at most 15 characters that are 1 to 6 letters and digits, possibly a dash and a number of at most 15 with any zeros before it, and possibly a star; and what each stands for, character by character |
| `Tnc2.ParseFormat` | tnc2.c:222-333 | Every formatted line parses to the frame's normal form: upper-case callsigns, no star on destination and source, payload on one line |
| `Tnc2.ParseInvertsFormat` | tnc2.c:98-161 | Parsing inverts formatting on canonical frames |
| `Tnc2.FormatAfterParse` | tnc2.c:98-333 | What a line parsed to formats to a fixed point, which parses to the same frame exactly when the payload has no interior CR or LF |
| `Tnc2.ParseLine` | tnc2.c:98-161 | The source's staged splitting computes the value parser |
| `Tnc2.ReadPath` | tnc2.c:32-96 | The path loop: at most 8 hops, a trailing comma only after one, agrees with the value parser |
| `Tnc2.StripLine` | tnc2.c:14-30 | Drops all trailing CR and LF |
| `Tnc2.FormatLine` | tnc2.c:222-333 | Succeeds exactly when the frame formats and its line and NUL fit, and then the buffer holds that line |
| `Tnc2.LineSize` | tnc2.c:222-333 | A line never exceeds 364 bytes, so 512-byte buffers suffice |
| `Tnc2.AcceptedLines` | tnc2.c:14-161 | Accepted are exactly the lines of at most 511 characters that are, without their trailing CRs and LFs, a source, a ">", a destination, up to 8 hops behind commas and possibly one more comma, a ":" and up to 256 characters of payload; and the frame each stands for |
| `Framed.DecoderRefinesSplit` | loraham_sock.c:226-269 | Over any byte stream the decoder reports exactly the frames that cutting at the length prefixes yields, and holds exactly the incomplete rest |
| `Framed.FramedDecoder.DecodeByte` | loraham_sock.c:226-269 | The in-place decoder takes the step of that machine |
| `Framed.ListRoundTrip` | loraham_sock.c:226-327 | Concatenated encoded frames with payloads of at most 1024 bytes decode to themselves, whatever follows |
| `Framed.FrameOctets` | loraham_sock.c:226-327 | A frame is its kind, the length with its low octet first, and the payload, written and read |
| `Framed.OverLongOctets` | loraham_sock.c:226-269 | An announcement of more than 1024 octets is an error of which only the header is skipped |
| `Framed.OpenOctets` | loraham_sock.c:226-269 | An incomplete header or payload reports nothing |
| `Framed.ResultOctets` | loraham_sock.c:271-298 | A frame of kind 04 with the four octets status, flags, low and high sequence octet, with a status of at most 6, decodes to these fields; no other frame does |
| `Scanner.ScannerRefinesSplit` | loraham_sock.c:421-604 | From any reachable state: what the scanner reports is the declarative split of the bytes since the last header and the bytes to come, up to the first text over 511 bytes |
| `Scanner.WholeScan` | loraham_sock.c:490-604 | From the start: skip to 3C FF 01; a text runs to CR, LF, the next header or the flush; empty texts are omitted |
| `Scanner.TextByOctets` | loraham_sock.c:421-604 | After 3C FF 01 a text runs up to CR or LF, up to the next 3C FF 01, or to the end, octet by octet, and what follows is scanned on |
| `Scanner.NoiseByOctets` | loraham_sock.c:490-604 | What precedes a 3C FF 01 is skipped |
| `Scanner.ChunkIndependence` | loraham_sock.c:490-604 | However a stream is cut into chunks, each drained before the next, the texts are those of the whole stream |
| `Scanner.PullFeeds` | bridge_rx.c:207-254 | Draining result by result is the same as feeding all queued bytes |
| `Scanner.RxScanner.Extract` | loraham_sock.c:490-604 | Queue, overflow that wipes everything, idle flush, or scan to the first result, on the in-place buffers |
| `Scanner.RxScanner.Consume` | loraham_sock.c:438-604 | One byte, with the partial-header bookkeeping, on the in-place buffer |
| `Scanner.BuildAprsPacket` | loraham_sock.c:335-365 | Header and text, or the code of the limit that fails first: 255 bytes, or the caller's buffer, whatever its size |
| `Conf.AssemblerRefinesLines` | bridge_conf.c:153-198 | The lines handled are the LF-separated, CR-stripped lines of at most 511 bytes; longer ones vanish whole |
| `Conf.RunConcat` | bridge_conf.c:153-198 | Feeding a, then b, is feeding a and b together |
| `Conf.ConfState.Feed` | bridge_conf.c:153-198 | The line buffer with its discard mode implements the assembler, and the flags are those of the handled lines, whose meaning is `Conf.LastWord` |
| `Conf.CountersCount` | bridge_conf.c:88-118 | Each sequence counter counts exactly its event lines, and each total is the sum of busy and idle |
| `Conf.StatusSeen` | bridge_conf.c:120-150 | have_status holds exactly if it did before or a STATUS line was handled |
| `Conf.LastWord` | bridge_conf.c:29-150 | After any lines, what the state says about TX, CAD, TXRESULT and the radio is what the last line that reports it says, character by character, and what it was before if none does |
| `Conf.OneReport` | bridge_conf.c:59-86 | No line reports both values |
| `Conf.ResultKnown` | bridge_conf.c:140-146 | TXRESULT is known exactly if it was before or a STATUS line reports it |
| `Conf.EventLines` | bridge_conf.c:88-150 | The lines that are counted are "TX=1", "TX=0", "CAD=1" and "CAD=0" and nothing else, and a STATUS line is one that begins with "STATUS " |
| `TxQueue.DecisionIsDue` | bridge_tx_queue.c:90-128 | The decision computed from a slot of the ring buffer is the one due by the recorded queue, and leaves the waiting time that the record has |
| `TxQueue.Queue.Push` | bridge_tx_queue.c:61-88 | The ring buffer appends to a bounded sequence, or refuses with the right code |
| `TxQueue.Queue.Pop` | bridge_tx_queue.c:50-59 | The ring buffer loses its first element, wrap-around included |
| `TxQueue.Queue.Head` | bridge_tx_queue.c:41-48 | The first element, if any |
| `TxQueue.Queue.DecideHead` | bridge_tx_queue.c:90-128 | The decision updates the head's waiting time in place and touches nothing else |
| `RxPath.EncodersCannotFail` | bridge_rx.c:126-178 | Once a line is parsed, AX.25 (at most 328 of 384 bytes) and KISS (at most 659 of 1024) encoding cannot fail |
| `BridgeRx.SendText` | bridge_rx.c:126-205 | One text: exactly one KISS frame or none, and each stage counter passes on or drops it |
| `BridgeRx.HandleChunk` | bridge_rx.c:207-254 | Texts of the scan are delivered in order, each once, until one fails; counters balance; the drain loop ends and never forces a tail out |
| `BridgeRx.SendPacket` | bridge_rx.c:256-297 | A whole RF packet delivers exactly the texts of its declarative split; a packet without text is an error |
| `BridgeRx.HandleFrame` | bridge_rx.c:299-367 | What each kind of daemon frame leads to; every frame raises loraham_rx, loraham_drop or framed_errors, and the stage counters balance |
| `BridgeRx.HandleFramedChunk` | bridge_rx.c:369-402 | The code is OK exactly if every client write succeeds, the stream is well-formed and every frame is fine, and tells exactly of a failed client write; the client is sent the KISS frames of the daemon frames in order, each once, up to the first trouble; on OK the decoder consumed the chunk |
| `RxPath.FrameOk` | bridge_rx.c:256-367 | One frame is handled without complaint exactly if every client write succeeds and, for an RX packet with a client, its texts are present, short enough and parsable |
| `RxPath.IntactStreamDropped` | bridge.c:498-506 | The bytes of a well-formed frame around an empty RF packet: a DATA stream without a stream error that leads to a code other than OK and a failed client write, for which `Bridge.Bridge.TakeData` gives up the connection |
| `BridgeKiss.OnlyNulAndLengthFail` | bridge_kiss.c:29-84 | A decoded frame formats unless its payload holds a NUL, and its packet is refused exactly when the line exceeds 252 bytes |
| `BridgeKiss.HandleDataFrame` | bridge_kiss.c:15-109 | A data frame is queued, suppressed or dropped at exactly one stage, its fate by frame, configuration and queue length; code, queue and all counters follow |
| `BridgeKiss.HandleFrame` | bridge_kiss.c:111-157 | The queue grows by the packet of a port-0 data frame, if there is room and TX is enabled, and by nothing else; each kind of frame counts exactly once |
| `BridgeKiss.NoneUncounted` | bridge_kiss.c:15-109 | Over any frames of a client: what AX.25 accepts becomes a line or is counted as dropped, and every line is queued, suppressed in RX-only mode, or counted as dropped |
| `EndToEnd.FrameArrives` | bridge_kiss.c:15-109 | The queued packet, behind 4 metadata bytes in an RX frame, reaches the client as exactly one KISS frame of the normalised AX.25 frame if and only if the TNC2 line holds no 3C FF 01 |
| `EndToEnd.ClientDecodes` | bridge_rx.c:126-178 | From those bytes the client's decoders recover the original with upper-case callsigns, no star on destination and source, and its payload on one line |
| `EndToEnd.MarkerTruncates` | bridge_kiss.c:15-109 | The frame from B to A with the payload 3C FF 01 is queued, and another frame reaches the client |
| `Trace.Fifo` | bridge_tx_queue.c:41-88 | In every legal run the packets pushed, with their times, are the packets popped, in order, followed by the recorded queue |
| `Trace.QueueBounded` | bridge_tx_queue.c:61-88 | The queue never outgrows its configured limit in a run |
| `Trace.SentOnce` | bridge_loraham.c:916-1006 | The packets completely written are exactly those popped as written, in order, and possibly the one in flight: never twice, never a dropped one |
| `Trace.StatusIsFresh` | bridge_loraham.c:195-244 | have_status is only ever due to a STATUS line since the last CONF (re)connect and the last initial configuration |
| `Trace.WritesAreGated` | bridge_loraham.c:916-1006 | Every write of a run passed the gate (both sockets up, fresh STATUS, TXRESULT not off, radio not busy), after the switch to TX and the settling time; the decision to send it, at an earlier event, was about this packet, on the latest clock reading, and found it within its lifetime; on the bytes read this is `Laws.WritesOnIdleRadio` and `Laws.ModeByLines` |
| `Trace.DropsAreDue` | bridge_tx_queue.c:90-128 | A packet leaves the queue unwritten only by a decision about it on the latest clock reading that found it too old, or held back by a busy radio for the timeout |
| `Trace.HeldMeans` | bridge_tx_queue.c:106-117 | Held back since a time means: WAIT was decided about this packet on that clock reading, and it has not been free to go since |
| `Trace.WaitsAreShort` | bridge_tx_queue.c:90-128 | In every run two WAITs about one packet, with no SEND between them, are less than the busy timeout apart, and no WAIT is given after the lifetime |
| `Trace.RecordsAreTrue` | bridge_loraham.c:463-891 | A record says "ok" if and only if what was read since the write confirms it: the first TX_RESULT of a well-formed stream is OK, or without TX_RESULTs CONF did not fail and holds a TX=1 and then an idle radio |
| `Trace.RecordedOnce` | bridge_loraham.c:796-891 | Each packet that leaves as written was written once, and between the two events there is exactly one record of it, or none if it is refused |
| `Trace.RecordComesFirst` | bridge_loraham.c:796-891 | No radio profile is sent between a write and its record, unless the packet is refused |
| `Trace.ProfilesAreTwo` | bridge_loraham.c:155-387 | Every profile of a run goes to a connected CONF socket and has the RX frequency, or the TX frequency; the latter is the first profile after a decision, at an earlier event, to send the head of the queue |
| `Trace.ClientGets` | bridge_rx.c:256-402 | All writes to the client in a run are those that the handled daemon frames account for, in order; if none fails they are exactly the KISS frames of those daemon frames |
| `Trace.RunIsLegal` | bridge.c:157-508 | What the bridge keeps about its log is legality of every event after the events before it |
| `Laws.WritesOnIdleRadio` | bridge_loraham.c:942-1003 | For every write of a run: of the CONF lines read since the connection was made, the last one that reports TX says idle, or none reports it |
| `Laws.BusyByLines` | bridge_conf.c:88-146 | At every moment of a run with CONF connected the radio counts as busy exactly if the last of these lines that reports TX says so |
| `Laws.ModeByLines` | bridge_loraham.c:796-800 | A write is confirmed by a TX_RESULT exactly if, of the lines read since CONF was connected or its STATUS was asked for, one reports TXRESULT; and the last one that does says 1 |
| `Laws.WritesOnTx` | bridge_loraham.c:316-341 | For every write of a run both frequencies are known; if they are more than 1 Hz apart, in either direction, exactly the TX profile was sent since the decision, and accepted, and the settling time is over; otherwise no profile was sent |
| `Laws.NoNeedlessProfile` | bridge_loraham.c:343-387 | If the two frequencies are the same, no profile follows a known STATUS, such as every decision has with CONF connected, before a new connection or configuration |
| `Laws.WayBack` | bridge_loraham.c:343-387 | The way back sends only RX profiles, at least one, if the frequencies are more than 1 Hz apart, and nothing otherwise |
| `Laws.Transmission` | bridge_loraham.c:710-891 | A transmission begins with the TX profile, which succeeds if the packet is written, if the frequencies are more than 1 Hz apart, and sends no profile otherwise |
| `Laws.RecordsByOctets` | bridge_loraham.c:463-891 | A record says "ok" if and only if, with TX_RESULTs on, the stream since the write is well-formed and its first frame of kind 04 has four octets, the first of them 0; or, without them, CONF did not fail, a line "TX=1" was read, and the last report of TX is idle |
| `Laws.RefusalsByOctets` | bridge_loraham.c:800-860 | A packet that leaves as written has one record, or none if TX_RESULTs were on and the first frame of kind 04 of a well-formed stream has four octets, the first from 1 to 6 |
| `Laws.DecisionsByNumbers` | bridge_tx_queue.c:90-128 | Every decision of a run: DROP at the end of the lifetime or of the busy timeout, to the millisecond, else WAIT if the radio is busy, else SEND |
| `Laws.DropsByNumbers` | bridge_tx_queue.c:90-128 | Every drop of a run, in the same numbers |
| `Laws.WritesInTime` | bridge_tx_queue.c:90-128 | No packet is written whose lifetime is over at the latest clock reading |
| `Laws.LimitMeans` | bridge_tx_queue.c:23-34 | The queue takes the configured number of packets, or the nearest one from 1 to 16 |
| `Runtime.ReadAvailable` | bridge_conf.c:231-262 | OK exactly if the reads ended because the socket would block, and not at a failure, which is on record; the world sees the bytes read, nothing else |
| `Runtime.WaitRead` | bridge_conf.c:264-304 | Fails exactly if select() or a read reports a broken socket; an interrupted or empty wait is no progress |
| `TxWait.WaitTxComplete` | bridge_loraham.c:463-535 | OK exactly if nothing failed, the radio is idle at return, and it was busy at entry or a TX=1 was handled (a TX=1 and TX=0 in one read are such a case); an error needs a failed socket, or a radio still busy at a stop or the timeout; UNSUPPORTED means no TX=1 in the start window; both waits end |
| `TxWait.WaitTxStart` | bridge_loraham.c:484-503 | An error exactly if the socket failed; OK only for a busy radio or a TX=1 event, by the counters; otherwise the start window is over |
| `TxWait.WaitTxResult` | bridge_loraham.c:575-701 | OK exactly if the bytes read hold a well-formed first TX_RESULT and no stream error, and that is the result; then the decoder is the fold of all bytes read, every other frame was handled once and in order, every frame but the result left a trace in the counters, and the client was sent their KISS frames until a write failed; otherwise the answer cannot come any more, or a stop, a failed socket or the deadline ended the wait |
| `Sync.SyncAfterWait` | bridge_loraham.c:575-701 | The wait keeps the decoder in sync with the stream since the connection was made |
| `Sync.SyncAfterChunk` | bridge_rx.c:369-402 | So does the main loop, as far as it decoded the bytes |
| `Sync.HeardSince` | bridge_loraham.c:575-701 | What a decoder in sync reports of the bytes read since the write is what the rules of a run look at |
| `TxLifecycle.SendConfigFreq` | bridge_loraham.c:155-193 | One profile on the wire, or none for a frequency that is not positive or a missing socket, and the code |
| `TxLifecycle.SendInitialConfig` | bridge_loraham.c:195-244 | Forgets STATUS and TXRESULT; with CONF connected the profile is sent in any case, then TXRESULT on, then the STATUS request, each unless the one before failed; OK if and only if all three went out; without CONF nothing is sent |
| `TxLifecycle.RestoreRx` | bridge_loraham.c:343-387 | Nothing is sent without a shift or without a CONF socket; otherwise one RX profile and at most one retry, skipped only on a stop request; tx_restore_failures grows by exactly the failed tries |
| `TxLifecycle.Settle` | bridge_loraham.c:768-778 | The write is reached only after the settling time; a stop request goes back to RX first |
| `TxLifecycle.Abandon` | bridge_loraham.c:768-778 | A stop request during the settling time: RX is restored, and the code tells of a failed restore, or else of the stop |
| `TxLifecycle.WriteOut` | loraham_sock.c:300-327 | The bytes written are the encoding of a TX_PACKET frame with the packet |
| `TxLifecycle.AfterFailedWrite` | bridge_loraham.c:780-793 | After a failed write RX is restored as on every other path, and the code reconnects the DATA socket |
| `TxLifecycle.ConfirmByResult` | bridge_loraham.c:800-860 | A refusal leaves no record, everything else exactly one; ErrTxResult exactly if there is no answer; otherwise the code tells of a failed restore or of a failed client write; that the record comes first is `Trace.RecordComesFirst` |
| `TxLifecycle.ConfirmByEvents` | bridge_loraham.c:862-891 | Exactly one record, and the code tells of a failed restore only |
| `TxLifecycle.SendPacket` | bridge_loraham.c:710-891 | The profiles of a transmission are one of [], [TX fail], [TX, RX], [TX, RX fail, RX], [TX, RX fail, RX fail], or [TX, RX fail] on a stop; each code means one thing (no TX_RESULT, failed write, failed profile, stop, failed client write); a code that does not reset a socket leaves the radio where it was or on RX; records and decoder accordingly; loraham_tx, loraham_drop, tx_unconfirmed and tx_restore_failures grow exactly for what happened |
| `TxDrain.DecideNow` | bridge_loraham.c:959-966 | The decision is the one due for the recorded queue and CONF state on a fresh clock reading, and the ring buffer keeps agreeing with the record |
| `TxDrain.SendHead` | bridge_loraham.c:985-1003 | The queue loses exactly its head if that was written, whatever follows, and nothing otherwise |
| `TxDrain.ActOn` | bridge_loraham.c:965-1003 | DROP removes the head and counts it; WAIT, or SEND with a socket missing, changes nothing; SEND tries the head |
| `TxDrain.CheckConf` | bridge_loraham.c:942-957 | One read of a connected CONF socket to its end; a decision is made if and only if that end was no failure, a STATUS was heard and TXRESULT is not reported off; the code is ErrConfSocket exactly for the last |
| `TxDrain.Drain` | bridge_loraham.c:916-1006 | The loop ends; up to the last decision packets only left at the front, by decision, each counted in loraham_drop; then the head was tried once, with the counters of a transmission, or is left for a reason found in this drain: nothing queued, CONF failed or without STATUS on being read, TXRESULT off, or a decision of this drain on the latest clock reading that found it neither too old nor held back too long, to wait or to be sent with a socket missing; no packet is left half done; only codes that reset a socket can leave the radio on TX |
| `Bridge.Bridge.constructor` | bridge.c:102-115 | Nothing connected, nothing configured |
| `Bridge.Bridge.DropData` | bridge_loraham.c:425-443 | The decoder and config_ok go with the DATA socket |
| `Bridge.Bridge.DropConf` | bridge_loraham.c:400-423 | The CONF state and config_ok go with the CONF socket, and the CAD events lost are exactly those not collected |
| `Bridge.Bridge.DropClient` | bridge.c:179-186 | Only the KISS decoder goes with the client |
| `Bridge.Bridge.CollectCad` | bridge_conf.c:201-229 | Afterwards each CAD statistic and the events lost add up to the events handled |
| `Bridge.CadExact` | bridge_conf.c:201-229 | The statistics are exact if and only if no event was lost with a cleared CONF state |
| `Bridge.CadLoss` | bridge_loraham.c:400-423 | A whole run from startup in which an event is lost: read last before the CONF connection fails; in no bridge with this run is it counted |
| `Bridge.Bridge.React` | bridge.c:167-186 | Data is given up exactly for a failed write or a missing TX_RESULT, CONF exactly for a failed CONF write, the client exactly for a failed client write, and the loop's invariant holds again |
| `Bridge.Bridge.OnTimeout` | bridge.c:295-328 | A quiet moment does exactly one thing: it tries to connect CONF; or else DATA, and on success configures the radio; or else configures the radio again if that is not in force; or else nothing |
| `Bridge.CountAndHandle` | bridge.c:403-425 | A client frame is counted with its fate, changes nothing of the world but the queue, and never leads to a reconnection: the two branches for that cannot be taken |
| `Bridge.Bridge.TakeClientBytes` | bridge.c:400-435 | The queue gains exactly the packets of the KISS frames that the bytes complete, and all counters follow |
| `Bridge.DecodeAndRecord` | bridge.c:486-497 | On OK all bytes are decoded; on a failed client write exactly the undecoded rest of the read is skipped, and the client is closed |
| `Bridge.Bridge.TakeData` | bridge.c:486-506 | A failed client write costs the client and never DATA; otherwise DATA is lost exactly if the stream is broken or, with a client connected, an RX packet has no APRS text or an unreadable one; the client got the KISS frames in order up to the first trouble |
| `Bridge.Bridge.ReadData` | bridge.c:453-507 | A closed, failing or blocking DATA read gives up the connection with config_ok, and the client stays; an interrupted one changes nothing; bytes lead to what `Bridge.Bridge.TakeData` says; the loop's invariant survives every kind of read |
| `Bridge.Bridge.ReadConf` | bridge.c:438-451 | CONF is read to its end; a failure there gives up the connection and config_ok, and nothing else does; otherwise the CAD events are collected |
| `Bridge.Bridge.ReadClient` | bridge.c:364-436 | Each kind of read: the frames completed by its bytes are queued, or the client is given up with its decoder |
| `Bridge.Bridge.Accept` | bridge.c:330-362 | A new client starts with a fresh KISS decoder; a failed accept() changes nothing |
| `Bridge.Bridge.ServeReady` | bridge.c:330-507 | Each socket that select() reported, and no other, is served in order: accept(), client, CONF, DATA, with the early ends of the iteration; each with the contract of its method |
| `Bridge.Bridge.Serve` | bridge.c:280-507 | select() is asked once; a timeout is a quiet moment, an interruption changes nothing, a failure ends the loop, and what is reported is served |
| `Bridge.Bridge.DrainQueue` | bridge.c:158-186 | The TX queue has its turn as `TxDrain.Drain` says, and each socket and the client are given up exactly for the codes that ask for it |
| `Bridge.Bridge.Step` | bridge.c:157-508 | One iteration keeps the invariant, gives the TX queue its turn, collects the CAD events, asks select() and serves what it reports; afterwards config_ok implies that the last accepted profile is the RX one, and the framed decoder is in sync with what was read and not skipped |
| `Turns.QuietRecovers` | bridge.c:295-328 | An iteration that ends in a quiet moment with CONF and DATA connected, while the configuration is not in force, sends the radio the RX profile again, and counts it as configured if and only if everything went out |
| `Bridge.Bridge.Loop` | bridge.c:157-508 | Every run of the loop is a chain of such iterations, ended by the stop flag or a failed select() only |
| `Bridge.Bridge.Start` | bridge.c:121-137 | Startup tries CONF once, sends the initial configuration if that succeeded, and tries DATA once; config_ok tells whether the configuration went out |
| `Bridge.Bridge.Run` | bridge.c:71-527 | Startup, then the loop for any number of iterations, whatever the surroundings do, with the invariant between any two; at the end the CAD statistics and the lost events add up to the events handled |
| `Bridge.Bridge.Lawful` | bridge.c:157-508 | The log of every bridge at every moment is that of a legal run, so that every law of `Trace` and `Laws` holds of it |
| `Bridge.Bridge.WholeRun` | bridge.c:157-508 | For every run: pushed = popped + queued, which is what the ring buffer holds, within the limit; written = popped as written |
| `Bridge.Bridge.ClientSide` | bridge.c:486-506 | For every run: the writes to the client are those of the handled daemon frames, and each handled frame accounts for its KISS frames in order, up to a failed write |
| `Bridge.Bridge.RadioSide` | bridge_loraham.c:155-387 | For every profile of every run: it is the RX profile, or the TX profile directly after a decision to send the head |
| `Bridge.Bridge.EveryEvent` | bridge.c:157-508 | For every event of every run: a write went through the gate by a decision to send this packet, a drop by a decision that it is due, a written packet has its one record or a refusal, and a record is true, in both directions |

## Left out

- Raw sockets, `select`, `fcntl`, signals, connect and accept, FD_SETSIZE and NULL-argument checks: they appear as
  arbitrary results, read chunks and a stop flag.
- The failing clock (`bridge_runtime_now_ms` returning 0): time is positive, as the sentinel 0 for "not waiting"
  needs, never goes back, and stands still only finitely often. A CONF socket has only finitely many bytes before it
  would block.
- Integer widths: counters, sequence numbers and times are unbounded; their 64-bit originals do not wrap in a run.
- Frequencies are reals and a profile is its frequency; the text that `snprintf` makes of it is not modelled. Valid
  configurations only: known frequencies are positive.
- Tnc2.ParseLine: works on slices of the line, where the source writes NULs into a local copy; the overwriting is not
  modelled.
- Trace.Legal: pauses other than the settling time (retry delay, tx_return_ms, accept back-off) are not on record.
- TxLifecycle.WriteOut: a write whose flags cannot be restored with fcntl afterwards is reported as failed although
  all bytes went out (loraham_sock.c:195-200); the packet then stays queued and is sent again. "Nothing sent twice" is
  about writes that are reported complete.
- TxWait.WaitTxResult: the source's two loops, before and after the first TX_RESULT, are one loop with a flag.
- TxLifecycle.SendPacket: the path without decoder state, which the main loop never takes, is missing.
- Encoder error branches of the RX path: `RxPath.EncodersCannotFail` shows that they cannot be taken.
- Bridge.Bridge.Run: the loop is cut off after any number of iterations; that reconnection succeeds eventually depends
  on the surroundings and is not claimed.
- Long C functions are split into several methods; logging, RF-log files and RX records, the statistics print
  schedule, KISS timing parameters, configuration files, command line and address filters only add easy members.
