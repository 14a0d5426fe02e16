/** A run of the bridge as a log of events: what its surroundings tell it, and what it does. The rules say
    which event may follow which log; what they mean for whole runs is proved from the log alone. */
module Trace {
  import opened Common
  import Conf
  import Framed
  import RxPath

  const QUEUE_MAX: nat := 16
  const START_WAIT_MS: int := 500

  /** The part of lhkt_config_t that the bridge core reads. Frequencies are in MHz, times in ms. */
  datatype Config = Config(
    rxOnly: bool,
    haveRx: bool, rx: real, haveTx: bool, tx: real,
    settleMs: int, returnMs: int, busyTimeoutMs: int, queueLen: int, ttlMs: int)
  {
    /** What parse_freq lets through (config.c): a known frequency is positive. */
    predicate Sound() {
      (haveRx ==> rx > 0.0) && (haveTx ==> tx > 0.0)
    }

    /** bridge_loraham_tx_shift_needed: "no" only when both frequencies are known and equal within 1 Hz. */
    predicate ShiftNeeded() {
      !haveTx || !haveRx || (if tx - rx < 0.0 then rx - tx else tx - rx) > 0.000001
    }

    /** bridge_tx_queue_limit. */
    function QueueLimit(): (n: nat)
      ensures 1 <= n <= QUEUE_MAX
    {
      if queueLen < 1 then 1 else if queueLen > QUEUE_MAX then QUEUE_MAX else queueLen
    }
  }

  // ---------- what the surroundings say ----------

  /** How a select() ended. */
  datatype Readiness = Ready | Timeout | Interrupted | Broken

  /** read(): bytes, nothing yet (EAGAIN), interrupted (EINTR), an error, or the end of the connection. A closed
      connection of the daemon is an error like any other. */
  datatype ReadResult = Bytes(data: seq<byte>) | WouldBlock | Intr | Lost | Closed

  /** The main loop's select(): how it ended, and what is ready. */
  datatype Report = Report(end: Readiness, listen: bool, client: bool, conf: bool, data: bool)

  /** What else they say, bytes of the daemon and new clients aside. */
  datatype Input =
    | Tick(now: int)                                 // a clock reading
    | StopSeen                                       // the stop flag was found set
    | ConfDrained                                    // the CONF socket would block
    | ConfFailed                                     // reading it, or waiting for it, failed
    | ConfRefused                                    // no CONF connection
    | DataIdle(intr: bool)                           // reading the DATA socket was interrupted, or would block
    | DataFailed                                     // reading it failed, or waiting for it failed or timed out
    | DataRefused                                    // no DATA connection
    | Selected(report: Report)                       // the main loop's select()
    | NotAccepted                                    // accept() gave no client
    | ClientRead(result: ReadResult)                 // a read from the client

  // ---------- events ----------

  /** What a queue slot holds: push refuses an empty packet, and a longer one does not fit. */
  type Packet = p: seq<byte> | 0 < |p| <= LORAHAM_TX_MAX witness [0]

  /** A packet and the time at which it was queued. */
  datatype Entry = Entry(packet: Packet, at: int)

  datatype Policy = Wait | Send | Drop

  /** CONF lines without a frequency. */
  datatype Command = Profile | EnableTxResult | GetStatus

  datatype Event =
    // what the surroundings say
    | Saw(input: Input)
    | ConfBytes(bytes: seq<byte>)                    // read from the CONF socket
    | DataBytes(bytes: seq<byte>)                    // read from the DATA socket
    | ClientUp                                       // a client was accepted
    // what the bridge does
    | ConfUp | ConfDown                              // CONF socket connected, or given up
    | StatusAsked                                    // initial config: a fresh STATUS is required
    | Commanded(command: Command, ok: bool)          // a CONF line without a frequency
    | DataUp | DataDown
    | Skipped(count: nat)                            // the last bytes read, thrown away undecoded
    | ToClient(bytes: seq<byte>, ok: bool)
    | Handled(frame: Framed.Frame, clientUp: bool, sent: seq<(seq<byte>, bool)>)
                                                     // a daemon frame, and what it made the client be sent
    | ClientDown
    | Cfg(freq: real, ok: bool)                      // a radio profile with a frequency
    | Paused(ms: int)                                // the settling time has passed
    | Queued(entry: Entry)
    | Judged(policy: Policy)                         // the decision about the queue head
    | Write(packet: seq<byte>, ok: bool)             // a TX frame, completely written or not
    | RfLog(ok: bool, packet: seq<byte>)
    | Dequeued(entry: Entry, written: bool)
    | CadCollected

  // ---------- what a log amounts to ----------

  /** What select(), accept(), connect() and read() last said, and how often they were asked. */
  datatype Calls = Calls(
    selects: nat, report: Report, accepts: nat, connects: nat,
    clientReads: nat, clientRead: ReadResult, dataReads: nat, dataRead: ReadResult)

  /** The latest clock reading, the same if it is not used up yet, and how many there were; the stop flag; how
      often CONF was read dry or failed, which of the two was last, and whether it has been dry since the last
      decision; failures since the last write; how many decisions were made; and the rest. */
  datatype Inputs = Inputs(
    clock: int, reading: Option<int>, readings: nat, stopped: bool, polls: nat, dry: bool, drained: bool,
    confFailed: bool, dataFailed: bool, decisions: nat, calls: Calls)

  /** The CONF socket would block: its state is up to date, and the clock is read again before a decision. */
  function Dried(s: Inputs): Inputs {
    s.(polls := s.polls + 1, dry := true, drained := true, reading := None)
  }

  /** The CONF socket failed. */
  function Broke(s: Inputs): Inputs {
    s.(polls := s.polls + 1, dry := false, drained := false, confFailed := true)
  }

  function DataReadNow(s: Inputs, r: ReadResult): Inputs {
    s.(dataFailed := s.dataFailed || r == Lost, calls := s.calls.(dataReads := s.calls.dataReads + 1, dataRead := r))
  }

  function Asking(s: Inputs): Inputs {
    s.(calls := s.calls.(connects := s.calls.connects + 1))
  }

  function Accepting(s: Inputs): Inputs {
    s.(calls := s.calls.(accepts := s.calls.accepts + 1))
  }

  function TickedNow(s: Inputs, now: int): Inputs {
    s.(clock := now, reading := Some(now), readings := s.readings + 1)
  }

  /** What the surroundings say is noted. */
  function SeenNow(s: Inputs, i: Input): Inputs {
    match i
    case Tick(now) => TickedNow(s, now)
    case StopSeen => s.(stopped := true)
    case ConfDrained => Dried(s)
    case ConfFailed => Broke(s)
    case ConfRefused => Asking(s)
    case DataIdle(intr) => DataReadNow(s, if intr then Intr else WouldBlock)
    case DataFailed => DataReadNow(s, Lost)
    case DataRefused => Asking(s)
    case Selected(report) => s.(calls := s.calls.(selects := s.calls.selects + 1, report := report))
    case NotAccepted => Accepting(s)
    case ClientRead(r) => s.(calls := s.calls.(clientReads := s.calls.clientReads + 1, clientRead := r))
  }

  datatype Judgement = Judgement(policy: Policy, at: int)

  /** How things stood at the last write: bytes read, TX=1 events handled, the time, and whether TX_RESULTs
      were enabled. */
  datatype Mark = Mark(at: nat, busySeq: nat, time: int, byResult: bool)

  /** CAD events handled; the counters when they were last collected; what cleared counters have lost. */
  datatype Cad = Cad(busy: nat, idle: nat, markBusy: nat, markIdle: nat, lostBusy: nat, lostIdle: nat)

  /** The client's socket: `lost` tells that a write to it failed, `sent` are all writes to clients, and `open`
      those that no frame accounts for yet. */
  datatype Client = Client(up: bool, lost: bool, sent: seq<(seq<byte>, bool)>, open: seq<(seq<byte>, bool)>)

  /** `commands` are the CONF lines sent since the CONF state was last cleared; `cfgs` the profiles sent since
      the last decision, `paused` the pause since the last profile; `dataIn` (bytes read and not skipped), `rx`
      and `skipped` count from the last DATA connection; `held` is the time of the first WAIT since the head was
      last free to go; `okWrites` and `logged` concern the head. */
  datatype World = World(
    flags: Conf.Flags, asm: Conf.Asm, confUp: bool, dataUp: bool, client: Client,
    dataIn: seq<byte>, skipped: nat, rx: seq<(Framed.Frame, bool)>,
    commands: seq<(Command, bool)>, freq: Option<real>, cfgs: seq<(real, bool)>, paused: Option<int>,
    queue: seq<Entry>, held: Option<int>, judged: Option<Judgement>, okWrites: nat, logged: bool, mark: Mark,
    cad: Cad, seen: Inputs)

  const NO_REPORT := Report(Interrupted, false, false, false, false)
  const NO_INPUT := Inputs(0, None, 0, false, 0, false, false, false, false, 0,
                           Calls(0, NO_REPORT, 0, 0, 0, WouldBlock, 0, WouldBlock))

  const START :=
    World(Conf.ZEROED, Conf.FRESH, false, false, Client(false, false, [], []), [], 0, [], [], None, [], None,
          [], None, None, 0, false, Mark(0, 0, 0, false), Cad(0, 0, 0, 0, 0, 0), NO_INPUT)

  /** How far a counter is above a mark. */
  function Above(counter: nat, mark: nat): nat {
    if counter > mark then counter - mark else 0
  }

  /** bridge_conf_state_init: CAD events not collected yet are lost. */
  function Reset(w: World): World {
    w.(flags := Conf.ZEROED, asm := Conf.FRESH, commands := [],
       seen := w.seen.(drained := false, confFailed := false),
       cad := w.cad.(lostBusy := w.cad.lostBusy + Above(w.flags.cadBusySeq, w.cad.markBusy),
                     lostIdle := w.cad.lostIdle + Above(w.flags.cadIdleSeq, w.cad.markIdle)))
  }

  /** A fresh STATUS, and with it the TXRESULT setting, is required. */
  function Asked(w: World): World {
    w.(flags := w.flags.(haveStatus := false, txresultKnown := false, txresultEnabled := false), commands := [])
  }

  /** Bytes from the CONF socket: the lines they complete are handled. */
  function Fed(w: World, bytes: seq<byte>): World {
    var (asm, ls) := Conf.Run(w.asm, bytes);
    w.(asm := asm, flags := Conf.ApplyLines(w.flags, ls),
       cad := w.cad.(busy := w.cad.busy + Conf.CountCad(ls, true), idle := w.cad.idle + Conf.CountCad(ls, false)))
  }

  predicate TxResultOn(f: Conf.Flags) {
    f.txresultKnown && f.txresultEnabled
  }

  function Wrote(w: World, ok: bool): World {
    w.(judged := None, okWrites := w.okWrites + (if ok then 1 else 0),
       mark := Mark(|w.dataIn|, w.flags.txBusySeq, w.seen.clock, TxResultOn(w.flags)),
       seen := w.seen.(confFailed := false, dataFailed := false))
  }

  /** The decision uses the clock reading up, and CONF has to be read again before the next one. */
  function Decided(w: World, d: Policy): World {
    var now := if w.seen.reading.Some? then w.seen.reading.value else w.seen.clock;
    w.(judged := Some(Judgement(d, now)), cfgs := [],
       held := match d
               case Wait => if w.held.Some? then w.held else Some(now)
               case Send => None
               case Drop => w.held,
       seen := w.seen.(reading := None, drained := false, decisions := w.seen.decisions + 1))
  }

  function Taken(w: World): World {
    w.(queue := if w.queue == [] then [] else w.queue[1..],
       held := None, judged := None, okWrites := 0, logged := false,
       client := w.client.(lost := false))
  }

  function Enqueued(w: World, e: Entry): World {
    w.(queue := w.queue + [e], seen := w.seen.(reading := None))
  }

  function Ticked(w: World, now: int): World {
    w.(seen := TickedNow(w.seen, now))
  }

  function WithClient(w: World, sent: seq<(seq<byte>, bool)>): World {
    w.(client := w.client.(sent := w.client.sent + sent, open := w.client.open + sent))
  }

  function ConfOpened(w: World): World {
    Reset(w).(confUp := true, seen := Asking(Reset(w).seen))
  }

  /** What is known of a fresh DATA stream. */
  function NoStream(w: World): World {
    w.(dataIn := [], skipped := 0, rx := [])
  }

  /** A frame accounts for the writes to the client. */
  function Accounted(c: Client, sent: seq<(seq<byte>, bool)>): Client {
    c.(open := [], lost := c.lost || !RxPath.AllSent(sent))
  }

  function Next(w: World, e: Event): World {
    match e
    case Saw(i) => w.(seen := SeenNow(w.seen, i))
    case ConfBytes(b) => Fed(w, b)
    case DataBytes(b) => w.(dataIn := w.dataIn + b, seen := DataReadNow(w.seen, Bytes(b)))
    case ClientUp => w.(client := w.client.(up := true, lost := false), seen := Accepting(w.seen))
    case ConfUp => ConfOpened(w)
    case ConfDown => Reset(w).(confUp := false)
    case StatusAsked => Asked(w)
    case Commanded(c, ok) => w.(commands := w.commands + [(c, ok)])
    case DataUp => NoStream(w).(dataUp := true, seen := Asking(w.seen))
    case DataDown => NoStream(w).(dataUp := false)
    case Skipped(n) =>
      w.(dataIn := w.dataIn[..if n <= |w.dataIn| then |w.dataIn| - n else 0], skipped := w.skipped + n)
    case ToClient(b, ok) => WithClient(w, [(b, ok)])
    case Handled(f, c, sent) => w.(rx := w.rx + [(f, c)], client := Accounted(w.client, sent))
    case ClientDown => w.(client := w.client.(up := false, lost := false))
    case Cfg(f, ok) => w.(freq := if ok then Some(f) else w.freq, cfgs := w.cfgs + [(f, ok)], paused := None)
    case Paused(ms) => w.(paused := Some(ms))
    case Queued(entry) => Enqueued(w, entry)
    case Judged(d) => Decided(w, d)
    case Write(_, ok) => Wrote(w, ok)
    case RfLog(_, _) => w.(logged := true)
    case Dequeued(_, _) => Taken(w)
    case CadCollected =>
      w.(cad := w.cad.(markBusy := w.flags.cadBusySeq, markIdle := w.flags.cadIdleSeq))
  }

  // ---------- the rules ----------

  predicate IsHead(w: World, p: seq<byte>) {
    w.queue != [] && w.queue[0].packet == p
  }

  predicate TooOld(cfg: Config, e: Entry, now: int) {
    cfg.ttlMs > 0 && now - e.at >= cfg.ttlMs
  }

  predicate RadioBusy(w: World) {
    w.confUp && w.flags.txBusy
  }

  /** Since when the head has been held back, if it still is at time `now`. */
  function HeldSince(w: World, now: int): int {
    if w.held.Some? then w.held.value else now
  }

  /** What has to be done about the head. */
  function Due(cfg: Config, w: World, now: int): Policy
    requires w.queue != []
  {
    if TooOld(cfg, w.queue[0], now) then Drop
    else if !RadioBusy(w) then Send
    else if now - HeldSince(w, now) >= cfg.busyTimeoutMs then Drop
    else Wait
  }

  /** TXRESULT was not reported off, and STATUS was heard if there is a CONF socket, which has been read dry. */
  predicate ConfReady(w: World) {
    && (w.confUp ==> w.seen.drained && w.flags.haveStatus)
    && !(w.flags.txresultKnown && !w.flags.txresultEnabled)
  }

  /** A decision is made on a fresh clock reading and a fresh CONF state, and is the one that is due. */
  predicate MayJudge(cfg: Config, w: World, d: Policy) {
    w.okWrites == 0 && w.queue != [] && w.seen.reading.Some? && ConfReady(w) && d == Due(cfg, w, w.seen.reading.value)
  }

  /** The TX gate: both sockets up, a STATUS since the last reset, TXRESULT not off, the radio not busy, and
      SEND the decision at the latest clock reading. */
  predicate Gate(w: World) {
    && w.dataUp && w.confUp
    && w.flags.haveStatus && !(w.flags.txresultKnown && !w.flags.txresultEnabled) && !w.flags.txBusy
    && w.judged == Some(Judgement(Send, w.seen.clock))
  }

  /** The only radio profile sent between the decision and the write. */
  function Retuned(cfg: Config): seq<(real, bool)> {
    if cfg.ShiftNeeded() then [(cfg.tx, true)] else []
  }

  /** The head of the queue, not yet written, has passed the gate, and the radio has been switched to TX if
      need be. */
  predicate Tuned(cfg: Config, w: World, p: seq<byte>) {
    && IsHead(w, p) && w.okWrites == 0 && Gate(w)
    && cfg.haveRx && cfg.haveTx && w.cfgs == Retuned(cfg) && (cfg.ShiftNeeded() ==> w.freq == Some(cfg.tx))
  }

  /** A write is of the head of the queue, for the first time, through the gate, after the switch to TX and
      the settling time. */
  predicate MayWrite(cfg: Config, w: World, p: seq<byte>) {
    Tuned(cfg, w, p) && (cfg.ShiftNeeded() ==> w.paused == Some(cfg.settleMs))
  }

  datatype Verdict = Unknown | Confirmed | Refused

  /** The decoder events of the bytes read since the write. */
  function EventsSince(dataIn: seq<byte>, at: nat): seq<Framed.Event> {
    if at <= |dataIn| then Framed.Run(Framed.Run(Framed.INIT, dataIn[..at]).0, dataIn[at..]).1 else []
  }

  /** The answer in some decoder events: the first TX_RESULT, if it is well-formed and the stream is. */
  function Answer(es: seq<Framed.Event>): Option<Framed.TxResult> {
    if Framed.Clean(es) then Framed.ResultAmong(Framed.FramesOf(es)) else None
  }

  function AnswerVerdict(r: Option<Framed.TxResult>): Verdict {
    if r.None? then Unknown else if r.value.status == Framed.STATUS_OK then Confirmed else Refused
  }

  /** A TX=1 event was handled since the write, and the radio is not busy any more. */
  predicate IdleHeard(flags: Conf.Flags, busySeq: nat) {
    !flags.txBusy && flags.txBusySeq > busySeq
  }

  /** What the bytes read since the write say about the transmission. */
  function VerdictOf(mark: Mark, dataIn: seq<byte>, flags: Conf.Flags, confFailed: bool): Verdict {
    if mark.byResult then AnswerVerdict(Answer(EventsSince(dataIn, mark.at)))
    else if IdleHeard(flags, mark.busySeq) && !confFailed then Confirmed
    else Unknown
  }

  function VerdictNow(w: World): Verdict {
    VerdictOf(w.mark, w.dataIn, w.flags, w.seen.confFailed)
  }

  /** The stream since the write is broken, or its first TX_RESULT is. */
  predicate BadAnswer(es: seq<Framed.Event>) {
    var frames := Framed.FramesOf(es);
    !Framed.Clean(es) || (Framed.FirstResult(frames).Some? && Framed.ResultAmong(frames).None?)
  }

  /** An unconfirmed transmission may be given up: its answer cannot come any more, a stop was requested, or
      the time for it is over. */
  predicate GaveUp(cfg: Config, w: World) {
    var waited := w.seen.clock - w.mark.time;
    if w.mark.byResult then
      || BadAnswer(EventsSince(w.dataIn, w.mark.at))
      || w.seen.stopped || w.seen.dataFailed || waited >= cfg.busyTimeoutMs
    else
      || w.seen.confFailed
      || (if w.flags.txBusySeq > w.mark.busySeq
          then w.flags.txBusy && (w.seen.stopped || waited >= cfg.busyTimeoutMs)
          else waited >= START_WAIT_MS)
  }

  /** At most one record per write, none for a refused one, "ok" exactly when the transmission is confirmed. */
  predicate MayLog(cfg: Config, w: World, ok: bool, p: seq<byte>) {
    && IsHead(w, p) && w.okWrites == 1 && !w.logged && VerdictNow(w) != Refused
    && ok == (VerdictNow(w) == Confirmed) && (!ok ==> GaveUp(cfg, w))
  }

  /** A written packet has its record, or has been refused. */
  predicate Noted(w: World) {
    w.logged == (VerdictNow(w) != Refused)
  }

  /** After a write, no profile is sent before the record is made. */
  predicate MayTune(w: World) {
    w.okWrites > 0 ==> Noted(w)
  }

  /** The head leaves the queue written once and recorded, or not written and due to be dropped. */
  predicate MayLeave(w: World, e: Entry, written: bool) {
    && w.queue != [] && w.queue[0] == e
    && if written then w.okWrites == 1 && Noted(w)
       else w.okWrites == 0 && w.judged == Some(Judgement(Drop, w.seen.clock))
  }

  /** There is a client, and no write to it has failed. */
  predicate HasClient(w: World) {
    w.client.up && !w.client.lost
  }

  /** A profile is the RX one, or the TX one directly after the decision to send the head; after a write none is
      sent before the record; and if the two are the same, only the initial configuration sends one, after which
      a STATUS has to be heard again. */
  predicate MayProfile(cfg: Config, w: World, freq: real) {
    && w.confUp && MayTune(w)
    && ((cfg.haveRx && freq == cfg.rx && (cfg.ShiftNeeded() || !w.flags.haveStatus))
        || (cfg.haveTx && freq == cfg.tx && cfg.ShiftNeeded()
            && w.queue != [] && w.okWrites == 0 && Gate(w) && w.cfgs == []))
  }

  /** The rules of a run. Time is positive and never goes back; the sockets are not touched, and nothing is
      decided, between a write and the packet's leaving the queue. */
  predicate Legal(cfg: Config, w: World, e: Event) {
    match e
    case Saw(i) =>
      (i.Tick? ==> i.now > 0 && i.now >= w.seen.clock) && (i.ClientRead? ==> w.client.up)
      && (i.NotAccepted? ==> !w.client.up)
    case ClientUp => !w.client.up
    case ConfUp => w.okWrites == 0
    case ConfDown => w.okWrites == 0
    case StatusAsked => w.okWrites == 0
    case Commanded(_, _) => w.okWrites == 0 && w.confUp
    case DataUp => w.okWrites == 0
    case DataDown => w.okWrites == 0
    case ClientDown => w.okWrites == 0 && w.client.up
    case Skipped(n) => w.okWrites == 0 && n <= |w.dataIn| && w.client.lost
    case Handled(f, c, sent) =>
      sent == w.client.open && c == HasClient(w) && RxPath.FrameServed(f, c, sent)
    case Cfg(f, _) => MayProfile(cfg, w, f)
    case Queued(entry) =>
      !cfg.rxOnly && |w.queue| < cfg.QueueLimit() && w.seen.reading == Some(entry.at)
    case Judged(d) => MayJudge(cfg, w, d)
    case Write(p, _) => MayWrite(cfg, w, p)
    case RfLog(ok, p) => MayLog(cfg, w, ok, p)
    case Dequeued(entry, written) => MayLeave(w, entry, written)
    case _ => true
  }

  // ---------- runs ----------

  function Fold(w: World, log: seq<Event>): World
    decreases |log|
  {
    if log == [] then w else Fold(Next(w, log[0]), log[1..])
  }

  /** Every event of the log is legal after the ones before it. */
  predicate AllLegal(cfg: Config, w: World, log: seq<Event>)
    decreases |log|
  {
    log == [] || (Legal(cfg, w, log[0]) && AllLegal(cfg, Next(w, log[0]), log[1..]))
  }

  lemma {:induction false} FoldConcat(cfg: Config, w: World, a: seq<Event>, b: seq<Event>)
    ensures Fold(w, a + b) == Fold(Fold(w, a), b)
    ensures AllLegal(cfg, w, a + b) == (AllLegal(cfg, w, a) && AllLegal(cfg, Fold(w, a), b))
    decreases |a|
  {
    if a == [] {
      assert a + b == b;
    } else {
      assert (a + b)[0] == a[0] && (a + b)[1..] == a[1..] + b;
      FoldConcat(cfg, Next(w, a[0]), a[1..], b);
    }
  }

  lemma FoldSnoc(cfg: Config, w: World, log: seq<Event>, e: Event)
    ensures Fold(w, log + [e]) == Next(Fold(w, log), e)
    ensures AllLegal(cfg, w, log + [e]) == (AllLegal(cfg, w, log) && Legal(cfg, Fold(w, log), e))
  {
    FoldConcat(cfg, w, log, [e]);
    assert [e][1..] == [];
  }

  /** The event is legal in `v` and leads to `w`. */
  predicate Link(cfg: Config, v: World, e: Event, w: World) {
    Legal(cfg, v, e) && w == Next(v, e)
  }

  /** `ws` are the worlds before, between and after the events of the log. */
  ghost predicate Chain(cfg: Config, log: seq<Event>, ws: seq<World>) {
    && |ws| == |log| + 1 && ws[0] == START
    && forall i {:trigger log[i]} :: 0 <= i < |log| ==> Link(cfg, ws[i], log[i], ws[i + 1])
  }

  /** The log is a legal run that ends in `w`. */
  ghost predicate IsRun(cfg: Config, log: seq<Event>, w: World) {
    exists ws :: Chain(cfg, log, ws) && ws[|log|] == w
  }

  lemma RunStarts(cfg: Config)
    ensures IsRun(cfg, [], START)
  {
    assert Chain(cfg, [], [START]);
  }

  lemma RunGoesOn(cfg: Config, log: seq<Event>, w: World, e: Event)
    requires IsRun(cfg, log, w) && Legal(cfg, w, e)
    ensures IsRun(cfg, log + [e], Next(w, e))
  {
    var ws :| Chain(cfg, log, ws) && ws[|log|] == w;
    var more := ws + [Next(w, e)];
    forall i | 0 <= i < |log + [e]|
      ensures Link(cfg, more[i], (log + [e])[i], more[i + 1])
    {
      if i < |log| {
        assert (log + [e])[i] == log[i];
      }
    }
    assert Chain(cfg, log + [e], more);
  }

  lemma ChainPrefix(cfg: Config, before: seq<Event>, e: Event, ws: seq<World>)
    requires Chain(cfg, before + [e], ws)
    ensures IsRun(cfg, before, ws[|before|]) && Link(cfg, ws[|before|], e, ws[|before| + 1])
  {
    var log, n := before + [e], |before|;
    var worlds := ws[..n + 1];
    assert log[n] == e;
    forall i {:trigger before[i]} | 0 <= i < n
      ensures Link(cfg, worlds[i], before[i], worlds[i + 1])
    {
      assert before[i] == log[i] && worlds[i] == ws[i] && worlds[i + 1] == ws[i + 1];
    }
    assert Chain(cfg, before, worlds) && worlds[n] == ws[n];
  }

  lemma LastStep(cfg: Config, before: seq<Event>, e: Event, w: World) returns (v: World)
    requires IsRun(cfg, before + [e], w)
    ensures IsRun(cfg, before, v) && Link(cfg, v, e, w)
  {
    var ws :| Chain(cfg, before + [e], ws) && ws[|before + [e]|] == w;
    ChainPrefix(cfg, before, e, ws);
    v := ws[|before|];
  }

  lemma SnocIsLegal(cfg: Config, before: seq<Event>, v: World, e: Event, w: World)
    requires v == Fold(START, before) && AllLegal(cfg, START, before) && Link(cfg, v, e, w)
    ensures w == Fold(START, before + [e]) && AllLegal(cfg, START, before + [e])
  {
    FoldSnoc(cfg, START, before, e);
  }

  /** Runs, seen from their logs alone. */
  lemma {:induction false} RunIsLegal(cfg: Config, log: seq<Event>, w: World)
    requires IsRun(cfg, log, w)
    ensures w == Fold(START, log) && AllLegal(cfg, START, log)
    decreases |log|
  {
    if log != [] {
      var before, e := log[..|log| - 1], log[|log| - 1];
      assert log == before + [e];
      var v := LastStep(cfg, before, e, w);
      RunIsLegal(cfg, before, v);
      SnocIsLegal(cfg, before, v, e, w);
    }
  }

  // ---------- queue ----------

  function Pushed(log: seq<Event>): seq<Entry> {
    if log == [] then []
    else (if log[0].Queued? then [log[0].entry] else []) + Pushed(log[1..])
  }

  function Popped(log: seq<Event>): seq<Entry> {
    if log == [] then []
    else (if log[0].Dequeued? then [log[0].entry] else []) + Popped(log[1..])
  }

  /** The packets that left the queue because they were written. */
  function PoppedWritten(log: seq<Event>): seq<seq<byte>> {
    if log == [] then []
    else (if log[0].Dequeued? && log[0].written then [log[0].entry.packet] else []) + PoppedWritten(log[1..])
  }

  /** The packets completely written to the daemon, in order. */
  function Sent(log: seq<Event>): seq<seq<byte>> {
    if log == [] then []
    else (if log[0].Write? && log[0].ok then [log[0].packet] else []) + Sent(log[1..])
  }

  /** First in, first out, nothing lost: what was pushed is what was popped, followed by what is queued. */
  lemma {:induction false} Fifo(cfg: Config, w: World, log: seq<Event>)
    requires AllLegal(cfg, w, log)
    ensures w.queue + Pushed(log) == Popped(log) + Fold(w, log).queue
    decreases |log|
  {
    if log == [] {
      assert w.queue + [] == [] + w.queue;
    } else {
      Fifo(cfg, Next(w, log[0]), log[1..]);
      FifoStep(cfg, w, log[0], Pushed(log[1..]), Popped(log[1..]), Fold(w, log).queue);
    }
  }

  lemma QueueStep(cfg: Config, w: World, e: Event)
    requires Legal(cfg, w, e)
    ensures e.Queued? ==> Next(w, e).queue == w.queue + [e.entry]
    ensures e.Dequeued? ==> w.queue == [e.entry] + Next(w, e).queue
    ensures !e.Queued? && !e.Dequeued? ==> Next(w, e).queue == w.queue
  {
  }

  lemma FifoStep(cfg: Config, w: World, e: Event, pushed: seq<Entry>, popped: seq<Entry>, final: seq<Entry>)
    requires Legal(cfg, w, e)
    requires Next(w, e).queue + pushed == popped + final
    ensures w.queue + ((if e.Queued? then [e.entry] else []) + pushed)
         == ((if e.Dequeued? then [e.entry] else []) + popped) + final
  {
    QueueStep(cfg, w, e);
    var a, b := if e.Queued? then [e.entry] else [], if e.Dequeued? then [e.entry] else [];
    assert w.queue + a == b + Next(w, e).queue;
    Assoc(w.queue, a, pushed);
    Assoc(b, Next(w, e).queue, pushed);
    Assoc(b, popped, final);
  }

  /** The queue never outgrows its limit. */
  lemma {:induction false} QueueBounded(cfg: Config, w: World, log: seq<Event>)
    requires AllLegal(cfg, w, log) && |w.queue| <= cfg.QueueLimit()
    ensures |Fold(w, log).queue| <= cfg.QueueLimit()
    decreases |log|
  {
    if log != [] {
      QueueStep(cfg, w, log[0]);
      QueueBounded(cfg, Next(w, log[0]), log[1..]);
    }
  }

  /** The head while it is written and not yet popped. */
  function InFlight(w: World): seq<seq<byte>> {
    if w.okWrites == 1 && w.queue != [] then [w.queue[0].packet] else []
  }

  /** What every world of a run has in common. */
  predicate Coherent(w: World) {
    && w.okWrites <= 1 && (w.okWrites == 0 ==> !w.logged)
    && (w.queue == [] ==> w.okWrites == 0 && w.held.None? && w.judged.None?)
    && (w.seen.reading.Some? ==> w.seen.reading.value == w.seen.clock > 0)
    && (w.held.Some? ==> 0 < w.held.value <= w.seen.clock)
  }

  lemma CoherentStep(cfg: Config, w: World, e: Event)
    requires Legal(cfg, w, e) && Coherent(w)
    ensures Coherent(Next(w, e))
  {
    if e.Saw? {
      SeenCoherent(w, e.input);
    }
  }

  lemma SeenCoherent(w: World, i: Input)
    requires Coherent(w) && (i.Tick? ==> i.now > 0 && i.now >= w.seen.clock)
    ensures Coherent(w.(seen := SeenNow(w.seen, i)))
  {
  }

  lemma {:induction false} CoherentFold(cfg: Config, w: World, log: seq<Event>)
    requires AllLegal(cfg, w, log) && Coherent(w)
    ensures Coherent(Fold(w, log))
    decreases |log|
  {
    if log != [] {
      CoherentStep(cfg, w, log[0]);
      CoherentFold(cfg, Next(w, log[0]), log[1..]);
    }
  }

  /** At most once: the packets completely written are exactly those popped as written, in the same
      order, and possibly the head that is in flight. Pushing and dropping write nothing. */
  lemma {:induction false} SentOnce(cfg: Config, w: World, log: seq<Event>)
    requires AllLegal(cfg, w, log) && Coherent(w)
    ensures InFlight(w) + Sent(log) == PoppedWritten(log) + InFlight(Fold(w, log))
    decreases |log|
  {
    if log == [] {
      assert InFlight(w) + [] == [] + InFlight(w);
    } else {
      SentStep(cfg, w, log[0]);
      CoherentStep(cfg, w, log[0]);
      SentOnce(cfg, Next(w, log[0]), log[1..]);
      var a := if log[0].Write? && log[0].ok then [log[0].packet] else [];
      var b := if log[0].Dequeued? && log[0].written then [log[0].entry.packet] else [];
      Regroup(InFlight(w), a, Sent(log[1..]), b, InFlight(Next(w, log[0])), PoppedWritten(log[1..]),
              InFlight(Fold(w, log)));
    }
  }

  lemma SentStep(cfg: Config, w: World, e: Event)
    requires Legal(cfg, w, e) && Coherent(w)
    ensures InFlight(w) + (if e.Write? && e.ok then [e.packet] else [])
         == (if e.Dequeued? && e.written then [e.entry.packet] else []) + InFlight(Next(w, e))
  {
    QueueStep(cfg, w, e);
    if e.Queued? && w.okWrites == 1 {
      assert (w.queue + [e.entry])[0] == w.queue[0];
    }
  }

  lemma Regroup<T>(x: seq<T>, a: seq<T>, s: seq<T>, b: seq<T>, y: seq<T>, p: seq<T>, z: seq<T>)
    requires x + a == b + y && y + s == p + z
    ensures x + (a + s) == (b + p) + z
  {
    Assoc(x, a, s);
    Assoc(b, y, s);
    Assoc(b, p, z);
  }

  // ---------- what stands in the log ----------

  /** Things that a log establishes at one event and keeps up until another. */
  datatype Cause =
    | AStatus                                        // a STATUS line, until the next reset
    | AWait(at: int, entry: Entry)                   // the first WAIT about the head, until it may go
    | ADecision(policy: Policy, at: int, entry: Entry)   // the decision about the head
    | AWrite(entry: Entry)                           // the complete write of the head, until it leaves
    | ARecord(entry: Entry)                          // the record of the head, until it leaves

  predicate Head(w: World, entry: Entry) {
    w.queue != [] && w.queue[0] == entry
  }

  ghost predicate SaysStatus(asm: Conf.Asm, bytes: seq<byte>) {
    exists l :: l in Conf.Run(asm, bytes).1 && Conf.IsStatus(l)
  }

  ghost predicate Starts(c: Cause, w: World, e: Event) {
    match c
    case AStatus => e.ConfBytes? && SaysStatus(w.asm, e.bytes)
    case AWait(at, entry) => e == Judged(Wait) && w.seen.reading == Some(at) && w.held.None? && Head(w, entry)
    case ADecision(d, at, entry) => e == Judged(d) && w.seen.reading == Some(at) && Head(w, entry)
    case AWrite(entry) => e == Write(entry.packet, true) && Head(w, entry)
    case ARecord(entry) => e.RfLog? && e.packet == entry.packet && Head(w, entry)
  }

  predicate Ends(c: Cause, e: Event) {
    match c
    case AStatus => e.ConfUp? || e.ConfDown? || e.StatusAsked?
    case AWait(_, _) => e == Judged(Send) || e.Dequeued?
    case ADecision(_, _, _) => e.Judged? || e.Write? || e.Dequeued?
    case AWrite(_) => e.Dequeued?
    case ARecord(_) => e.Dequeued?
  }

  /** The log holds the start, and nothing since has ended it. */
  ghost predicate Stands(c: Cause, log: seq<Event>) {
    exists k: nat :: StandsAt(c, log, k)
  }

  ghost predicate StandsAt(c: Cause, log: seq<Event>, k: nat) {
    && k < |log| && Starts(c, Fold(START, log[..k]), log[k])
    && forall j :: k < j < |log| ==> !Ends(c, log[j])
  }

  lemma StandsNow(c: Cause, log: seq<Event>, e: Event)
    requires Starts(c, Fold(START, log), e)
    ensures Stands(c, log + [e])
  {
    assert (log + [e])[..|log|] == log && (log + [e])[|log|] == e;
    assert StandsAt(c, log + [e], |log|);
  }

  lemma StandsOn(c: Cause, log: seq<Event>, e: Event)
    requires Stands(c, log) && !Ends(c, e)
    ensures Stands(c, log + [e])
  {
    var k: nat :| StandsAt(c, log, k);
    var longer := log + [e];
    assert longer[..k] == log[..k] && longer[k] == log[k];
    assert forall j :: k < j < |log| ==> longer[j] == log[j];
    assert StandsAt(c, longer, k);
  }

  /** What the world shows of it. */
  predicate Shows(c: Cause, w: World) {
    match c
    case AStatus => w.flags.haveStatus
    case AWait(at, entry) => w.held == Some(at) && Head(w, entry)
    case ADecision(d, at, entry) => w.judged == Some(Judgement(d, at)) && Head(w, entry)
    case AWrite(entry) => w.okWrites == 1 && Head(w, entry)
    case ARecord(entry) => w.logged && Head(w, entry)
  }

  lemma ShowsStatus(w: World, e: Event)
    requires Next(w, e).flags.haveStatus
    ensures Starts(AStatus, w, e) || (w.flags.haveStatus && !Ends(AStatus, e))
  {
    if e.ConfBytes? {
      Conf.StatusSeen(w.flags, Conf.Run(w.asm, e.bytes).1);
    }
  }

  lemma ShowsJudged(cfg: Config, c: Cause, w: World, e: Event)
    requires Legal(cfg, w, e) && Shows(c, Next(w, e)) && Coherent(w) && (c.AWait? || c.ADecision?)
    ensures Starts(c, w, e) || (Shows(c, w) && !Ends(c, e))
  {
    QueueStep(cfg, w, e);
  }

  lemma ShowsWritten(cfg: Config, c: Cause, w: World, e: Event)
    requires Legal(cfg, w, e) && Shows(c, Next(w, e)) && Coherent(w) && (c.AWrite? || c.ARecord?)
    ensures Starts(c, w, e) || (Shows(c, w) && !Ends(c, e))
  {
    QueueStep(cfg, w, e);
  }

  lemma ShowsStep(cfg: Config, c: Cause, w: World, e: Event)
    requires Legal(cfg, w, e) && Shows(c, Next(w, e)) && Coherent(w)
    ensures Starts(c, w, e) || (Shows(c, w) && !Ends(c, e))
  {
    if c.AStatus? {
      ShowsStatus(w, e);
    } else if c.AWait? || c.ADecision? {
      ShowsJudged(cfg, c, w, e);
    } else {
      ShowsWritten(cfg, c, w, e);
    }
  }

  /** What a world of a run shows, stands in its log. */
  lemma {:induction false} ShownStands(cfg: Config, c: Cause, log: seq<Event>)
    requires AllLegal(cfg, START, log) && Shows(c, Fold(START, log))
    ensures Stands(c, log)
    decreases |log|
  {
    if log != [] {
      var before, e := log[..|log| - 1], log[|log| - 1];
      assert log == before + [e];
      FoldSnoc(cfg, START, before, e);
      CoherentFold(cfg, START, before);
      ShowsStep(cfg, c, Fold(START, before), e);
      if Starts(c, Fold(START, before), e) {
        StandsNow(c, before, e);
      } else {
        ShownStands(cfg, c, before);
        StandsOn(c, before, e);
      }
    }
  }

  lemma {:induction false} LegalAt(cfg: Config, w: World, log: seq<Event>, i: nat)
    requires AllLegal(cfg, w, log) && i < |log|
    ensures Legal(cfg, Fold(w, log[..i]), log[i])
    decreases i
  {
    if i > 0 {
      LegalAt(cfg, Next(w, log[0]), log[1..], i - 1);
      assert log[..i][1..] == log[1..][..i - 1];
    }
  }

  lemma {:induction false} LegalPrefix(cfg: Config, w: World, log: seq<Event>, i: nat)
    requires AllLegal(cfg, w, log) && i <= |log|
    ensures AllLegal(cfg, w, log[..i])
    decreases i
  {
    if i > 0 {
      LegalPrefix(cfg, Next(w, log[0]), log[1..], i - 1);
      assert log[..i][1..] == log[1..][..i - 1] && log[..i][0] == log[0];
    }
  }

  /** The world before event `i`, in a run. */
  lemma At(cfg: Config, log: seq<Event>, i: nat)
    requires AllLegal(cfg, START, log) && i < |log|
    ensures AllLegal(cfg, START, log[..i]) && Legal(cfg, Fold(START, log[..i]), log[i])
    ensures Coherent(Fold(START, log[..i]))
  {
    LegalAt(cfg, START, log, i);
    LegalPrefix(cfg, START, log, i);
    CoherentFold(cfg, START, log[..i]);
  }

  lemma StandsWhere(cfg: Config, c: Cause, log: seq<Event>, i: nat) returns (k: nat)
    requires AllLegal(cfg, START, log) && i <= |log| && Shows(c, Fold(START, log[..i]))
    ensures StandsAt(c, log[..i], k) && log[..i][..k] == log[..k] && log[..i][k] == log[k]
    ensures Legal(cfg, Fold(START, log[..k]), log[k])
  {
    LegalPrefix(cfg, START, log, i);
    ShownStands(cfg, c, log[..i]);
    k :| StandsAt(c, log[..i], k);
    assert log[..i][..k] == log[..k];
    LegalAt(cfg, START, log, k);
  }

  // ---------- decisions ----------

  /** have_status is only ever set by a STATUS line received since the last (re)connect of the CONF socket
      and since the last initial configuration. */
  lemma StatusIsFresh(cfg: Config, log: seq<Event>)
    requires AllLegal(cfg, START, log) && Fold(START, log).flags.haveStatus
    ensures Stands(AStatus, log)
  {
    ShownStands(cfg, AStatus, log);
  }

  /** The decision at event `k` of the log, on a clock reading `at`, about the packet of `entry`. */
  predicate DecisionAt(cfg: Config, log: seq<Event>, k: nat, d: Policy, at: int, entry: Entry)
    requires k < |log|
  {
    var w := Fold(START, log[..k]);
    && log[k] == Judged(d) && w.seen.reading == Some(at) && Head(w, entry)
    && ConfReady(w) && Due(cfg, w, at) == d
  }

  /** Every write of a run went through the gate; a STATUS line had been received since the last reset; and
      the decision to send, at event `k`, was made on the latest clock reading, about this packet, while it
      was younger than its lifetime and the radio was idle. */
  lemma WritesAreGated(cfg: Config, log: seq<Event>, i: nat) returns (k: nat, entry: Entry)
    requires AllLegal(cfg, START, log) && i < |log| && log[i].Write?
    ensures var w := Fold(START, log[..i]);
            && MayWrite(cfg, w, log[i].packet) && Stands(AStatus, log[..i])
            && Head(w, entry) && entry.packet == log[i].packet
            && k < i && DecisionAt(cfg, log, k, Send, w.seen.clock, entry)
            && !TooOld(cfg, entry, w.seen.clock) && !RadioBusy(Fold(START, log[..k]))
            && forall j :: k < j < i ==> !(log[j].Judged? || log[j].Write? || log[j].Dequeued?)
  {
    At(cfg, log, i);
    var w := Fold(START, log[..i]);
    StatusIsFresh(cfg, log[..i]);
    entry := w.queue[0];
    k := StandsWhere(cfg, ADecision(Send, w.seen.clock, entry), log, i);
    assert forall j :: k < j < i ==> log[..i][j] == log[j];
  }

  /** A packet leaves the queue unwritten only by a decision on the latest clock reading, at event `k`, which
      found it too old, or held back by a busy radio for too long. */
  lemma DropsAreDue(cfg: Config, log: seq<Event>, i: nat) returns (k: nat)
    requires AllLegal(cfg, START, log) && i < |log| && log[i].Dequeued? && !log[i].written
    ensures k < i
    ensures var now, entry, v := Fold(START, log[..i]).seen.clock, log[i].entry, Fold(START, log[..k]);
            && DecisionAt(cfg, log, k, Drop, now, entry)
            && (TooOld(cfg, entry, now) || (RadioBusy(v) && now - HeldSince(v, now) >= cfg.busyTimeoutMs))
  {
    At(cfg, log, i);
    var now := Fold(START, log[..i]).seen.clock;
    k := StandsWhere(cfg, ADecision(Drop, now, log[i].entry), log, i);
  }

  /** "Held since" is the clock reading of a WAIT, at event `k`, since which the head has neither left nor
      been free to go. */
  lemma HeldMeans(cfg: Config, log: seq<Event>, i: nat) returns (k: nat)
    requires AllLegal(cfg, START, log) && i <= |log| && Fold(START, log[..i]).held.Some?
    ensures var w := Fold(START, log[..i]);
            && w.queue != [] && k < i && DecisionAt(cfg, log, k, Wait, w.held.value, w.queue[0])
            && forall j :: k < j < i ==> log[j] != Judged(Send) && !log[j].Dequeued?
  {
    LegalPrefix(cfg, START, log, i);
    CoherentFold(cfg, START, log[..i]);
    var w := Fold(START, log[..i]);
    k := StandsWhere(cfg, AWait(w.held.value, w.queue[0]), log, i);
    assert forall j :: k < j < i ==> log[..i][j] == log[j];
  }

  /** The log between two of its events. */
  function Between(log: seq<Event>, k: nat, i: nat): seq<Event>
    requires k < i <= |log|
  {
    log[k + 1..i]
  }

  /** The head has neither left nor been free to go. */
  predicate HeldBack(log: seq<Event>) {
    log == [] || (log[0] != Judged(Send) && !log[0].Dequeued? && HeldBack(log[1..]))
  }

  lemma {:induction false} HeldKept(cfg: Config, w: World, log: seq<Event>)
    requires AllLegal(cfg, w, log) && Coherent(w) && HeldBack(log) && w.held.Some?
    ensures Fold(w, log).held == w.held
    decreases |log|
  {
    if log != [] {
      HeldStep(w, log[0]);
      CoherentStep(cfg, w, log[0]);
      HeldKept(cfg, Next(w, log[0]), log[1..]);
    }
  }

  lemma HeldStep(w: World, e: Event)
    requires e != Judged(Send) && !e.Dequeued? && w.held.Some?
    ensures Next(w, e).held == w.held
  {
  }

  /** A log up to event `i` is the log up to event `k`, that event, and what is between the two. */
  lemma FoldFirst(cfg: Config, w: World, log: seq<Event>, i: nat)
    requires AllLegal(cfg, w, log) && 0 < i <= |log|
    ensures Fold(w, log[..i]) == Fold(Next(w, log[0]), Between(log, 0, i))
    ensures AllLegal(cfg, Next(w, log[0]), Between(log, 0, i))
  {
    assert log[..i][1..] == Between(log, 0, i);
    LegalPrefix(cfg, w, log, i);
  }

  lemma {:induction false} FoldParts(cfg: Config, w: World, log: seq<Event>, k: nat, i: nat)
    requires AllLegal(cfg, w, log) && k < i <= |log|
    ensures Fold(w, log[..i]) == Fold(Next(Fold(w, log[..k]), log[k]), Between(log, k, i))
    ensures AllLegal(cfg, Next(Fold(w, log[..k]), log[k]), Between(log, k, i))
    decreases k
  {
    if k > 0 {
      FoldParts(cfg, Next(w, log[0]), log[1..], k - 1, i - 1);
      assert log[..i][1..] == log[1..][..i - 1] && log[..k][1..] == log[1..][..k - 1];
      assert Between(log, k, i) == Between(log[1..], k - 1, i - 1);
    } else {
      FoldFirst(cfg, w, log, i);
    }
  }

  /** WAIT is never the answer once the packet's lifetime is over, nor once it has been the answer for the
      timeout: two WAITs about the same packet, with no SEND between them, are closer together than that. */
  lemma WaitsAreShort(cfg: Config, log: seq<Event>, k: nat, i: nat)
    requires AllLegal(cfg, START, log) && k < i < |log| && log[k] == Judged(Wait) && log[i] == Judged(Wait)
    requires HeldBack(Between(log, k, i))
    ensures var v, w := Fold(START, log[..k]), Fold(START, log[..i]);
            && v.seen.reading.Some? && w.seen.reading.Some? && w.queue != []
            && w.seen.reading.value - v.seen.reading.value < cfg.busyTimeoutMs
            && !TooOld(cfg, w.queue[0], w.seen.reading.value)
  {
    At(cfg, log, k);
    At(cfg, log, i);
    var v := Fold(START, log[..k]);
    CoherentStep(cfg, v, log[k]);
    FoldParts(cfg, START, log, k, i);
    HeldKept(cfg, Next(v, log[k]), Between(log, k, i));
  }

  // ---------- radio profiles ----------

  /** The profiles sent. */
  function Profiles(log: seq<Event>): seq<(real, bool)> {
    if log == [] then [] else (if log[0].Cfg? then [(log[0].freq, log[0].ok)] else []) + Profiles(log[1..])
  }

  /** No decision was made. */
  predicate Undecided(log: seq<Event>) {
    log == [] || (!log[0].Judged? && Undecided(log[1..]))
  }

  lemma {:induction false} ProfilesKept(cfg: Config, w: World, log: seq<Event>)
    requires AllLegal(cfg, w, log) && Undecided(log)
    ensures Fold(w, log).cfgs == w.cfgs + Profiles(log)
    decreases |log|
  {
    if log == [] {
      assert w.cfgs + [] == w.cfgs;
    } else {
      ProfileStep(w, log[0]);
      ProfilesKept(cfg, Next(w, log[0]), log[1..]);
      Assoc(w.cfgs, if log[0].Cfg? then [(log[0].freq, log[0].ok)] else [], Profiles(log[1..]));
    }
  }

  lemma ProfileStep(w: World, e: Event)
    requires !e.Judged?
    ensures Next(w, e).cfgs == w.cfgs + (if e.Cfg? then [(e.freq, e.ok)] else [])
  {
    assert w.cfgs + [] == w.cfgs;
  }

  lemma UndecidedBetween(log: seq<Event>, k: nat, i: nat)
    requires k < i <= |log| && forall j :: k < j < i ==> !log[..i][j].Judged?
    ensures Undecided(Between(log, k, i))
    decreases i - k
  {
    if k + 1 < i {
      assert log[..i][k + 1] == log[k + 1];
      UndecidedBetween(log, k + 1, i);
      assert Between(log, k, i)[1..] == Between(log, k + 1, i);
    }
  }

  /** Every profile of a run goes to a connected CONF socket and has the RX frequency, or the TX frequency; and
      then it is the first one since the decision, at event `k`, to send the head of the queue. */
  lemma ProfilesAreTwo(cfg: Config, log: seq<Event>, i: nat) returns (k: nat)
    requires AllLegal(cfg, START, log) && i < |log| && log[i].Cfg?
    ensures Fold(START, log[..i]).confUp
    ensures (cfg.haveRx && log[i].freq == cfg.rx)
            || (cfg.haveTx && log[i].freq == cfg.tx
                && Fold(START, log[..i]).queue != [] && k < i
                && DecisionAt(cfg, log, k, Send, Fold(START, log[..i]).seen.clock, Fold(START, log[..i]).queue[0])
                && Undecided(Between(log, k, i)) && Profiles(Between(log, k, i)) == [])
  {
    At(cfg, log, i);
    var w := Fold(START, log[..i]);
    k := 0;
    if !(cfg.haveRx && log[i].freq == cfg.rx) {
      k := StandsWhere(cfg, ADecision(Send, w.seen.clock, w.queue[0]), log, i);
      UndecidedBetween(log, k, i);
      FoldParts(cfg, START, log, k, i);
      ProfilesKept(cfg, Next(Fold(START, log[..k]), log[k]), Between(log, k, i));
      assert [] + Profiles(Between(log, k, i)) == Profiles(Between(log, k, i));
    }
  }

  // ---------- the client ----------

  /** What the handled frames made the client be sent. */
  function SentFor(log: seq<Event>): seq<(seq<byte>, bool)> {
    if log == [] then [] else (if log[0].Handled? then log[0].sent else []) + SentFor(log[1..])
  }

  /** The KISS frames of the handled frames. */
  function KissFor(log: seq<Event>): seq<seq<byte>> {
    if log == [] then []
    else (if log[0].Handled? then RxPath.FrameKiss(log[0].frame, log[0].clientUp) else []) + KissFor(log[1..])
  }

  /** The client gets nothing but the KISS frames of the handled frames: frame by frame, in order, each up to a
      write that fails; and all of them if none fails. */
  lemma {:induction false} ClientGets(cfg: Config, w: World, log: seq<Event>)
    requires AllLegal(cfg, w, log)
    ensures w.client.open + Writes(log) == SentFor(log) + Fold(w, log).client.open
    ensures RxPath.AllSent(SentFor(log)) ==> RxPath.Outputs(SentFor(log)) == KissFor(log)
    decreases |log|
  {
    if log == [] {
      assert w.client.open + [] == [] + w.client.open;
    } else {
      OpenStep(cfg, w, log[0]);
      ClientGets(cfg, Next(w, log[0]), log[1..]);
      Regroup(w.client.open, WriteOf(log[0]), Writes(log[1..]), if log[0].Handled? then log[0].sent else [],
              Next(w, log[0]).client.open, SentFor(log[1..]), Fold(w, log).client.open);
      ServedMore(cfg, w, log[0], log[1..]);
    }
  }

  function WriteOf(e: Event): seq<(seq<byte>, bool)> {
    if e.ToClient? then [(e.bytes, e.ok)] else []
  }

  /** The writes to the client. */
  function Writes(log: seq<Event>): seq<(seq<byte>, bool)> {
    if log == [] then [] else WriteOf(log[0]) + Writes(log[1..])
  }

  lemma OpenStep(cfg: Config, w: World, e: Event)
    requires Legal(cfg, w, e)
    ensures w.client.open + WriteOf(e) == (if e.Handled? then e.sent else []) + Next(w, e).client.open
  {
    assert w.client.open + [] == w.client.open == [] + w.client.open;
    if e.Handled? {
      assert w.client.open == e.sent && Next(w, e).client.open == [];
    } else {
      OpenKept(w, e);
      assert [] + (w.client.open + WriteOf(e)) == w.client.open + WriteOf(e);
    }
  }

  lemma OpenKept(w: World, e: Event)
    requires !e.Handled?
    ensures Next(w, e).client.open == w.client.open + WriteOf(e)
  {
    assert w.client.open + [] == w.client.open;
  }

  lemma ServedMore(cfg: Config, w: World, e: Event, rest: seq<Event>)
    requires Legal(cfg, w, e) && (RxPath.AllSent(SentFor(rest)) ==> RxPath.Outputs(SentFor(rest)) == KissFor(rest))
    ensures RxPath.AllSent(SentFor([e] + rest)) ==> RxPath.Outputs(SentFor([e] + rest)) == KissFor([e] + rest)
  {
    assert ([e] + rest)[1..] == rest;
    if e.Handled? {
      RxPath.AllSentConcat(e.sent, SentFor(rest));
      RxPath.OutputsConcat(e.sent, SentFor(rest));
    } else {
      assert [] + SentFor(rest) == SentFor(rest) && [] + KissFor(rest) == KissFor(rest);
    }
  }

  // ---------- the RF log ----------

  /** What was read from the DATA socket. */
  function DataRead(log: seq<Event>): seq<byte> {
    if log == [] then [] else (if log[0].DataBytes? then log[0].bytes else []) + DataRead(log[1..])
  }

  /** What was read from the CONF socket. */
  function ConfRead(log: seq<Event>): seq<byte> {
    if log == [] then [] else (if log[0].ConfBytes? then log[0].bytes else []) + ConfRead(log[1..])
  }

  /** The CONF socket failed. */
  predicate ConfBroke(log: seq<Event>) {
    log != [] && (log[0] == Saw(ConfFailed) || ConfBroke(log[1..]))
  }

  predicate Stays(log: seq<Event>) {
    log == [] || (!log[0].Dequeued? && Stays(log[1..]))
  }

  /** Where the answer to a write is looked for, after some more events. */
  ghost predicate Listening(v: World, log: seq<Event>, w: World) {
    var (asm, ls) := Conf.Run(v.asm, ConfRead(log));
    && w.okWrites == 1 && w.mark == v.mark && w.dataIn == v.dataIn + DataRead(log)
    && w.asm == asm && w.flags == Conf.ApplyLines(v.flags, ls)
    && w.seen.confFailed == (v.seen.confFailed || ConfBroke(log))
  }

  lemma {:induction false} Listens(cfg: Config, v: World, log: seq<Event>)
    requires AllLegal(cfg, v, log) && Stays(log) && v.okWrites == 1 && Coherent(v)
    ensures Listening(v, log, Fold(v, log))
    decreases |log|
  {
    if log == [] {
      assert v.dataIn + [] == v.dataIn;
    } else {
      Undisturbed(cfg, v, log[0]);
      ListenStep(v, log[0]);
      CoherentStep(cfg, v, log[0]);
      Listens(cfg, Next(v, log[0]), log[1..]);
      ListenMore(v, log[0], log[1..], Next(v, log[0]), Fold(v, log));
    }
  }

  /** Nothing that can happen to the sockets, and no write, disturbs the wait for the answer. */
  predicate Disturbs(e: Event) {
    || e.ConfUp? || e.ConfDown? || e.StatusAsked? || e.DataUp? || e.DataDown? || e.Skipped? || e.Write?
    || e.Judged? || e.Dequeued?
  }

  lemma Undisturbed(cfg: Config, v: World, e: Event)
    requires Legal(cfg, v, e) && !e.Dequeued? && v.okWrites == 1
    ensures !Disturbs(e)
  {
  }

  lemma ListenStep(v: World, e: Event)
    requires !Disturbs(e) && v.okWrites == 1
    ensures var w := Next(v, e);
            && w.okWrites == 1 && w.mark == v.mark
            && w.dataIn == v.dataIn + (if e.DataBytes? then e.bytes else [])
            && w.seen.confFailed == (v.seen.confFailed || e == Saw(ConfFailed))
            && (e.ConfBytes? ==> w == Fed(v, e.bytes))
            && (!e.ConfBytes? ==> w.asm == v.asm && w.flags == v.flags)
  {
    assert v.dataIn + [] == v.dataIn;
    if e.Saw? {
      SeenFailure(v.seen, e.input);
    } else if !e.ConfBytes? && !e.DataBytes? {
      ListenOther(v, e);
    }
  }

  lemma SeenFailure(s: Inputs, i: Input)
    ensures SeenNow(s, i).confFailed == (s.confFailed || i.ConfFailed?)
  {
  }

  lemma ListenOther(v: World, e: Event)
    requires !Disturbs(e) && !e.Saw? && !e.ConfBytes? && !e.DataBytes?
    ensures var w := Next(v, e);
            && w.okWrites == v.okWrites && w.mark == v.mark && w.dataIn == v.dataIn
            && w.seen.confFailed == v.seen.confFailed && w.asm == v.asm && w.flags == v.flags
  {
  }

  lemma ListenMore(v: World, e: Event, rest: seq<Event>, m: World, w: World)
    requires m.mark == v.mark && m.dataIn == v.dataIn + (if e.DataBytes? then e.bytes else [])
    requires m.seen.confFailed == (v.seen.confFailed || e == Saw(ConfFailed))
    requires if e.ConfBytes? then m.asm == Fed(v, e.bytes).asm && m.flags == Fed(v, e.bytes).flags
             else m.asm == v.asm && m.flags == v.flags
    requires Listening(m, rest, w)
    ensures Listening(v, [e] + rest, w)
  {
    assert ([e] + rest)[1..] == rest;
    Assoc(v.dataIn, if e.DataBytes? then e.bytes else [], DataRead(rest));
    if e.ConfBytes? {
      Conf.RunConcat(v.asm, e.bytes, ConfRead(rest));
      Conf.ApplyConcat(v.flags, Conf.Run(v.asm, e.bytes).1, Conf.Run(Conf.Run(v.asm, e.bytes).0, ConfRead(rest)).1);
    } else {
      assert [] + ConfRead(rest) == ConfRead(rest);
    }
  }

  /** What was read after a write that met the world `v` confirms it: with TX_RESULTs enabled, the DATA stream
      is well-formed and its first TX_RESULT has status OK; otherwise the CONF socket never failed and its
      lines hold a TX=1 event and leave the radio idle. */
  predicate ConfirmedBy(v: World, data: seq<byte>, conf: seq<byte>, broke: bool) {
    if TxResultOn(v.flags) then
      var r := Answer(Framed.Run(Framed.Run(Framed.INIT, v.dataIn).0, data).1);
      r.Some? && r.value.status == Framed.STATUS_OK
    else
      !broke && IdleHeard(Conf.ApplyLines(v.flags, Conf.Run(v.asm, conf).1), v.flags.txBusySeq)
  }

  lemma VerdictFromLog(v: World, log: seq<Event>, w: World)
    requires Listening(Wrote(v, true), log, w)
    ensures VerdictNow(w) == Confirmed <==> ConfirmedBy(v, DataRead(log), ConfRead(log), ConfBroke(log))
  {
    assert w.dataIn[..|v.dataIn|] == v.dataIn && w.dataIn[|v.dataIn|..] == DataRead(log);
  }

  /** A record is about a packet written at an event `k` and still in the queue, and it says "ok" exactly when
      what was read since confirms the transmission. */
  lemma RecordsAreTrue(cfg: Config, log: seq<Event>, i: nat) returns (k: nat)
    requires AllLegal(cfg, START, log) && i < |log| && log[i].RfLog?
    ensures k < i && log[k] == Write(log[i].packet, true) && Stays(Between(log, k, i))
    ensures log[i].ok <==> ConfirmedBy(Fold(START, log[..k]), DataRead(Between(log, k, i)),
                                       ConfRead(Between(log, k, i)), ConfBroke(Between(log, k, i)))
  {
    At(cfg, log, i);
    var w := Fold(START, log[..i]);
    k := StandsWhere(cfg, AWrite(w.queue[0]), log, i);
    StaysBetween(log, k, i);
    At(cfg, log, k);
    CoherentStep(cfg, Fold(START, log[..k]), log[k]);
    FoldParts(cfg, START, log, k, i);
    var v := Fold(START, log[..k]);
    Listens(cfg, Wrote(v, true), Between(log, k, i));
    VerdictFromLog(v, Between(log, k, i), w);
  }

  lemma StaysBetween(log: seq<Event>, k: nat, i: nat)
    requires k < i <= |log| && forall j :: k < j < i ==> !log[..i][j].Dequeued?
    ensures Stays(Between(log, k, i))
    decreases i - k
  {
    if k + 1 < i {
      assert log[..i][k + 1] == log[k + 1];
      StaysBetween(log, k + 1, i);
      assert Between(log, k, i)[1..] == Between(log, k + 1, i);
    }
  }

  /** How many RF-log records there are. */
  function Records(log: seq<Event>): nat {
    if log == [] then 0 else (if log[0].RfLog? then 1 else 0) + Records(log[1..])
  }

  lemma {:induction false} RecordsCounted(cfg: Config, w: World, log: seq<Event>)
    requires AllLegal(cfg, w, log) && Stays(log)
    ensures (if w.logged then 1 else 0) + Records(log) == if Fold(w, log).logged then 1 else 0
    decreases |log|
  {
    if log != [] {
      RecordStep(cfg, w, log[0]);
      RecordsCounted(cfg, Next(w, log[0]), log[1..]);
    }
  }

  lemma RecordStep(cfg: Config, w: World, e: Event)
    requires Legal(cfg, w, e) && !e.Dequeued?
    ensures (if w.logged then 1 else 0) + (if e.RfLog? then 1 else 0) == if Next(w, e).logged then 1 else 0
  {
  }

  /** Every packet that leaves the queue as written was written once, at an event `k`; between the two there
      is exactly one record of it, or none if its first TX_RESULT refuses it. */
  lemma RecordedOnce(cfg: Config, log: seq<Event>, i: nat) returns (k: nat)
    requires AllLegal(cfg, START, log) && i < |log| && log[i].Dequeued? && log[i].written
    ensures k < i && log[k] == Write(log[i].entry.packet, true) && Stays(Between(log, k, i))
    ensures Records(Between(log, k, i)) == if VerdictNow(Fold(START, log[..i])) == Refused then 0 else 1
  {
    At(cfg, log, i);
    k := StandsWhere(cfg, AWrite(log[i].entry), log, i);
    StaysBetween(log, k, i);
    At(cfg, log, k);
    FoldParts(cfg, START, log, k, i);
    RecordsCounted(cfg, Next(Fold(START, log[..k]), log[k]), Between(log, k, i));
  }

  /** The record comes before the way back to RX: no profile is sent between a write and its record, unless
      the transmission is refused. */
  lemma RecordComesFirst(cfg: Config, log: seq<Event>, i: nat) returns (k: nat)
    requires AllLegal(cfg, START, log) && i < |log| && log[i].Cfg?
    requires Fold(START, log[..i]).okWrites == 1 && VerdictNow(Fold(START, log[..i])) != Refused
    ensures k < i && log[k].RfLog? && forall j :: k < j < i ==> !log[j].Dequeued?
  {
    At(cfg, log, i);
    var w := Fold(START, log[..i]);
    k := StandsWhere(cfg, ARecord(w.queue[0]), log, i);
    assert forall j :: k < j < i ==> log[..i][j] == log[j];
  }
}
