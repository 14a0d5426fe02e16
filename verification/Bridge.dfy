/** The main loop (bridge.c): one step handles the TX queue and whatever select() reports. */
module Bridge {
  import opened Common
  import opened Runtime
  import opened Trace
  import opened Turns
  import BridgeKiss
  import BridgeRx
  import Conf
  import Framed
  import Kiss
  import RxPath
  import Sync
  import TxDrain
  import TxLifecycle
  import TxQueue

  const ACCEPT_BACKOFF_MS: int := 100

  // ---------- CAD statistics ----------

  /** One CAD statistic: what was counted, what is not collected yet and what was lost when the CONF state was
      cleared make up the events handled. */
  predicate CadCounted(counted: nat, counter: nat, mark: nat, lost: nat, events: nat) {
    counted + Above(counter, mark) + lost == events
  }

  /** The marks may be ahead of the counters only while there is no CONF socket. */
  predicate CadInv(w: World, c: Counters, markBusy: nat, markIdle: nat) {
    && markBusy == w.cad.markBusy && markIdle == w.cad.markIdle
    && CadCounted(c.cadBusy, w.flags.cadBusySeq, markBusy, w.cad.lostBusy, w.cad.busy)
    && CadCounted(c.cadIdle, w.flags.cadIdleSeq, markIdle, w.cad.lostIdle, w.cad.idle)
    && (w.confUp ==> markBusy <= w.flags.cadBusySeq && markIdle <= w.flags.cadIdleSeq)
    && (!w.confUp ==> w.flags == Conf.ZEROED)
  }

  /** The statistics are exact after a collection if and only if nothing was lost. */
  lemma CadExact(w: World, c: Counters)
    requires CadInv(w, c, w.flags.cadBusySeq, w.flags.cadIdleSeq)
    ensures c.cadBusy + w.cad.lostBusy == w.cad.busy && c.cadIdle + w.cad.lostIdle == w.cad.idle
    ensures c.cadBusy == w.cad.busy && c.cadIdle == w.cad.idle <==> w.cad.lostBusy == 0 && w.cad.lostIdle == 0
  {
  }

  const CAD_BUSY: seq<byte> := Conf.CAD_KEY + [Conf.ONE, LF]

  /** The line of the example: how it is read, and how it counts. */
  lemma CadLine(bytes: seq<byte>) returns (lines: seq<seq<byte>>)
    requires bytes == CAD_BUSY
    ensures Conf.Run(Conf.FRESH, bytes) == (Conf.FRESH, lines)
    ensures var f := Conf.ApplyLines(Conf.ZEROED, lines);
            f.cadBusySeq == 1 && f.cadIdleSeq == 0
    ensures Conf.CountCad(lines, true) == 1 && Conf.CountCad(lines, false) == 0
  {
    var line := bytes[..|bytes| - 1];
    lines := [line];
    CadLineRead(line, bytes);
    CadLineCounts(line);
  }

  lemma CadLineRead(line: seq<byte>, bytes: seq<byte>)
    requires bytes == line + [LF] && LF !in line && CR !in line && |line| < 100
    ensures Conf.Run(Conf.FRESH, bytes) == (Conf.FRESH, [line])
  {
    var none: seq<seq<byte>> := [];
    assert [line][1..] == none;
    Conf.AssemblerRefinesLines(bytes);
    StripNone(bytes);
    Conf.LinesSplit(line, []);
    assert bytes == line + ([LF] + []);
    assert Conf.Lines([]) == ([], []) && [line] + none == [line];
    assert Conf.Short([line]) == [line] + none;
  }

  lemma CadLineCounts(line: seq<byte>)
    requires line == Conf.CAD_KEY + [Conf.ONE]
    ensures var f := Conf.ApplyLines(Conf.ZEROED, [line]);
            f.cadBusySeq == 1 && f.cadIdleSeq == 0
    ensures Conf.CountCad([line], true) == 1 && Conf.CountCad([line], false) == 0
  {
    var none: seq<seq<byte>> := [];
    assert [line][1..] == none;
    CStrOfText(line);
    Conf.CountersCount(Conf.ZEROED, [line]);
  }

  lemma TwoEvents(cfg: Config, w: World, a: Event, b: Event)
    ensures Fold(w, [a, b]) == Next(Next(w, a), b)
    ensures AllLegal(cfg, w, [a, b]) <==> Legal(cfg, w, a) && Legal(cfg, Next(w, a), b)
  {
    FoldSnoc(cfg, w, [], a);
    FoldSnoc(cfg, w, [a], b);
    assert [] + [a] == [a] && [a] + [b] == [a, b];
    assert Fold(w, []) == w && AllLegal(cfg, w, []);
  }

  /** A new CONF connection, before anything is read from it. */
  predicate Fresh(w: World) {
    && w.okWrites == 0 && w.confUp && w.flags == Conf.ZEROED && w.asm == Conf.FRESH
    && w.cad == Cad(0, 0, 0, 0, 0, 0)
  }

  /** Startup: CONF is connected, the first message of the initial configuration fails, DATA is refused. */
  lemma Startup(cfg: Config, w: World, first: Event)
    requires w.okWrites == 0 && w.flags == Conf.ZEROED && w.cad == Cad(0, 0, 0, 0, 0, 0)
    requires first == if cfg.haveRx then Cfg(cfg.rx, false) else Commanded(Profile, false)
    ensures var log := [ConfUp, StatusAsked] + [first, Saw(DataRefused)];
            AllLegal(cfg, w, log) && Fresh(Fold(w, log))
  {
    TwoEvents(cfg, w, ConfUp, StatusAsked);
    var v := Fold(w, [ConfUp, StatusAsked]);
    assert Fresh(v);
    TwoEvents(cfg, v, first, Saw(DataRefused));
    FoldConcat(cfg, w, [ConfUp, StatusAsked], [first, Saw(DataRefused)]);
  }

  /** Nothing is queued, the CAD events are collected, and select() reports CONF. */
  lemma FirstIteration(cfg: Config, w: World, report: Report)
    requires Fresh(w)
    ensures var log := [CadCollected, Saw(Selected(report))];
            AllLegal(cfg, w, log) && Fresh(Fold(w, log))
  {
    TwoEvents(cfg, w, CadCollected, Saw(Selected(report)));
  }

  /** Bytes with one CAD=1 event are read, then the connection fails and is given up. */
  lemma LastBytes(cfg: Config, w: World, bytes: seq<byte>, lines: seq<seq<byte>>)
    requires Fresh(w) && Conf.Run(Conf.FRESH, bytes) == (Conf.FRESH, lines)
    requires var f := Conf.ApplyLines(Conf.ZEROED, lines);
             f.cadBusySeq == 1 && f.cadIdleSeq == 0
    requires Conf.CountCad(lines, true) == 1 && Conf.CountCad(lines, false) == 0
    ensures var log := [ConfBytes(bytes), Saw(ConfFailed)] + [ConfDown];
            && AllLegal(cfg, w, log)
            && Fold(w, log).cad == Cad(1, 0, 0, 0, 1, 0) && Fold(w, log).flags == Conf.ZEROED
  {
    TwoEvents(cfg, w, ConfBytes(bytes), Saw(ConfFailed));
    FoldSnoc(cfg, w, [ConfBytes(bytes), Saw(ConfFailed)], ConfDown);
  }

  /** A whole run in which the event is lost, in three parts. */
  lemma LossOf(cfg: Config, w: World, first: Event, report: Report, bytes: seq<byte>, lines: seq<seq<byte>>,
               a: seq<Event>, b: seq<Event>, c: seq<Event>)
    requires w.okWrites == 0 && w.flags == Conf.ZEROED && w.cad == Cad(0, 0, 0, 0, 0, 0)
    requires first == if cfg.haveRx then Cfg(cfg.rx, false) else Commanded(Profile, false)
    requires Conf.Run(Conf.FRESH, bytes) == (Conf.FRESH, lines)
    requires var f := Conf.ApplyLines(Conf.ZEROED, lines);
             f.cadBusySeq == 1 && f.cadIdleSeq == 0
    requires Conf.CountCad(lines, true) == 1 && Conf.CountCad(lines, false) == 0
    requires a == [ConfUp, StatusAsked] + [first, Saw(DataRefused)] && b == [CadCollected, Saw(Selected(report))]
    requires c == [ConfBytes(bytes), Saw(ConfFailed)] + [ConfDown]
    ensures AllLegal(cfg, w, a + (b + c)) && Fold(w, a + (b + c)).cad == Cad(1, 0, 0, 0, 1, 0)
    ensures Fold(w, a + (b + c)).flags == Conf.ZEROED
  {
    Startup(cfg, w, first);
    FirstIteration(cfg, Fold(w, a), report);
    LastBytes(cfg, Fold(Fold(w, a), b), bytes, lines);
    FoldConcat(cfg, w, a, b + c);
    FoldConcat(cfg, Fold(w, a), b, c);
  }

  /** An example of a loss: the bridge starts, gets a CONF connection but cannot configure the radio, collects
      nothing, and is told that CONF is readable; what it reads then holds a CAD event, and the connection fails
      before the event is collected. The log is that of a run; and in no bridge in this state is the event
      counted. */
  lemma CadLoss(cfg: Config, first: Event, report: Report, bytes: seq<byte>, log: seq<Event>,
                c: Counters, markBusy: nat, markIdle: nat)
    requires first == if cfg.haveRx then Cfg(cfg.rx, false) else Commanded(Profile, false)
    requires report == Report(Readiness.Ready, false, false, true, false)
    requires bytes == CAD_BUSY
    requires log == [ConfUp, StatusAsked, first, Saw(DataRefused), CadCollected, Saw(Selected(report)),
                     ConfBytes(bytes), Saw(ConfFailed), ConfDown]
    ensures var w := Fold(START, log);
            && AllLegal(cfg, START, log) && w.cad.busy == 1 && w.cad.lostBusy == 1
            && (CadInv(w, c, markBusy, markIdle) ==> c.cadBusy == 0)
  {
    var lines := CadLine(bytes);
    NineInParts(log, ConfUp, StatusAsked, first, Saw(DataRefused), CadCollected, Saw(Selected(report)),
                ConfBytes(bytes), Saw(ConfFailed), ConfDown);
    LossOf(cfg, START, first, report, bytes, lines, [ConfUp, StatusAsked] + [first, Saw(DataRefused)],
           [CadCollected, Saw(Selected(report))], [ConfBytes(bytes), Saw(ConfFailed)] + [ConfDown]);
  }

  lemma NineInParts<T>(s: seq<T>, a: T, b: T, c: T, d: T, e: T, f: T, g: T, h: T, i: T)
    requires s == [a, b, c, d, e, f, g, h, i]
    ensures s == ([a, b] + [c, d]) + ([e, f] + ([g, h] + [i]))
  {
  }

  lemma {:induction false} StripNone(s: seq<byte>)
    requires CR !in s
    ensures Conf.StripCr(s) == s
  {
    if s != [] {
      assert s == [s[0]] + s[1..];
      StripNone(s[1..]);
    }
  }

  // ---------- what holds between two steps ----------

  /** `configOk` means that the initial configuration was sent completely, TXRESULT before the STATUS request,
      and that the RX frequency is the last one commanded; the decoder is in sync. */
  ghost predicate Good(cfg: Config, w: World, st: Framed.State, c: Counters, dataUp: bool, confUp: bool, configOk: bool,
                       markBusy: nat, markIdle: nat) {
    && (dataUp ==> Sync.InSync(w.dataIn, w.rx, st))
    && (configOk ==> confUp && w.commands == TxLifecycle.SetUp(cfg) && (cfg.haveRx ==> w.freq == Some(cfg.rx)))
    && CadInv(w, c, markBusy, markIdle)
  }

  lemma GoodAfterDrain(cfg: Config, a: World, st: Framed.State, c: Counters, b: World, st1: Framed.State, c1: Counters,
                       code: Code, dataUp: bool, confUp: bool, configOk: bool, markBusy: nat, markIdle: nat,
                       v: World, tried: bool, d: Counters)
    requires Good(cfg, a, st, c, dataUp, confUp, configOk, markBusy, markIdle)
    requires TxDrain.Drained(cfg, a, b, code) && TxDrain.DrainDone(cfg, a, v, b, code, tried, c, d, c1)
    requires dataUp && code != ErrTxResult ==> Sync.InSync(b.dataIn, b.rx, st1)
    ensures CadInv(b, c1, markBusy, markIdle)
    ensures !TxLifecycle.Resets(code) ==> Good(cfg, b, st1, c1, dataUp, confUp, configOk, markBusy, markIdle)
  {
    TxDrain.CadUncounted(cfg, a, v, b, code, tried, c, d, c1);
  }

  lemma NothingYet(w: World, c: Counters)
    requires w == START && c.cadBusy == c.cadIdle == 0
    ensures CadInv(w, c, 0, 0) && TxLifecycle.Settled(w) && w.queue == [] && w.held == None
    ensures w.flags == Conf.ZEROED && w.asm == Conf.FRESH && !w.confUp && !w.dataUp && !w.client.up
  {
  }

  /** Close the CONF socket; its state starts afresh. */
  method CloseConf(env: Env, stats: Stats, ghost queue: TxQueue.Queue, conf: Conf.ConfState,
                   confUp: bool, ghost dataUp: bool)
    requires TxDrain.Linked(env, queue, conf, confUp, dataUp)
    modifies env`log, env`w, stats, conf
    ensures TxDrain.Linked(env, queue, conf, false, dataUp)
    ensures env.w == if confUp then Reset(old(env.w)).(confUp := false) else old(env.w)
    ensures stats.c == Reconnecting(old(stats.c), confUp)
  {
    if confUp {
      env.Record(ConfDown);
      conf.Init();
    }
    stats.c := stats.c.(reconnects := stats.c.reconnects + One(confUp));
  }

  /** Close the DATA socket; the framed decoder starts afresh. */
  method CloseData(env: Env, stats: Stats, ghost queue: TxQueue.Queue, ghost conf: Conf.ConfState,
                   dec: Framed.FramedDecoder, ghost confUp: bool, dataUp: bool)
    requires TxDrain.Linked(env, queue, conf, confUp, dataUp) && dec.Valid()
    modifies env`log, env`w, stats, dec
    ensures TxDrain.Linked(env, queue, conf, confUp, false) && dec.Valid() && dec.Abs() == Framed.INIT
    ensures env.w == if dataUp then NoData(old(env.w)) else old(env.w)
    ensures stats.c == Reconnecting(old(stats.c), dataUp)
  {
    if dataUp {
      env.Record(DataDown);
    }
    stats.c := stats.c.(reconnects := stats.c.reconnects + One(dataUp));
    dec.Init();
  }

  /** bridge_loraham_connect_conf_socket: the state of a fresh connection. */
  method ConnectConf(env: Env, ghost queue: TxQueue.Queue, conf: Conf.ConfState, ghost dataUp: bool) returns (ok: bool)
    requires TxDrain.Linked(env, queue, conf, false, dataUp)
    modifies env`log, env`w, conf
    ensures TxDrain.Linked(env, queue, conf, ok, dataUp)
    ensures env.w == if ok then ConfOpened(old(env.w)) else old(env.w).(seen := Asking(old(env.w).seen))
  {
    ok := env.ConnectConf();
    if ok {
      conf.Init();
    }
  }

  /** bridge_loraham_connect_data_socket, and the reset of the framed decoder. */
  method ConnectData(env: Env, ghost queue: TxQueue.Queue, ghost conf: Conf.ConfState, dec: Framed.FramedDecoder,
                     ghost confUp: bool) returns (ok: bool)
    requires TxDrain.Linked(env, queue, conf, confUp, false) && dec.Valid()
    modifies env`log, env`w, dec
    ensures TxDrain.Linked(env, queue, conf, confUp, ok) && dec.Valid()
    ensures env.w == if ok then NoStream(old(env.w)).(dataUp := true, seen := Asking(old(env.w).seen))
                     else old(env.w).(seen := Asking(old(env.w).seen))
    ensures dec.Abs() == if ok then Framed.INIT else old(dec.Abs())
  {
    ok := env.ConnectData();
    if ok {
      dec.Init();
    }
  }

  /** The initial configuration, if CONF is connected. */
  method Configure(env: Env, ghost queue: TxQueue.Queue, conf: Conf.ConfState, confUp: bool, ghost dataUp: bool)
    returns (code: Code, ghost s: TxLifecycle.Sends)
    requires TxDrain.Linked(env, queue, conf, confUp, dataUp)
    modifies env`log, env`w, conf
    ensures TxDrain.Linked(env, queue, conf, confUp, dataUp)
    ensures if confUp then TxLifecycle.Configured(env.cfg, old(env.w), env.w, code, s)
            else code == ErrConfSocket && env.w == old(env.w)
  {
    code, s := TxLifecycle.SendInitialConfig(env, conf, confUp);
  }

  /** accept(): a new client starts with a fresh KISS decoder. */
  method AcceptClient(env: Env, ghost queue: TxQueue.Queue, ghost conf: Conf.ConfState, kiss: Kiss.KissDecoder,
                      ghost confUp: bool, ghost dataUp: bool) returns (ok: bool)
    requires TxDrain.Linked(env, queue, conf, confUp, dataUp) && !env.w.client.up && kiss.Valid()
    modifies env`log, env`w, kiss
    ensures TxDrain.Linked(env, queue, conf, confUp, dataUp) && kiss.Valid() && env.w.client.up == ok
    ensures env.w == old(env.w).(client := if ok then old(env.w).client.(up := true, lost := false)
                                           else old(env.w).client,
                                 seen := Accepting(old(env.w).seen))
    ensures kiss.Abs() == if ok then Kiss.INIT else old(kiss.Abs())
  {
    ok := env.Accept();
    if ok {
      kiss.Init();
    }
  }

  /** Out of file descriptors, the loop does not try again at once. */
  method WaitIfExhausted(env: Env)
    requires env.Valid()
    modifies env`log, env`w, env`stop
    ensures env.Valid() && env.w == old(env.w).(seen := old(env.w.seen).(stopped := env.w.seen.stopped))
  {
    var exhausted := env.Choose();
    if exhausted {
      var slept := env.Sleep(ACCEPT_BACKOFF_MS);
    }
  }

  /** Close the client; its KISS decoder starts afresh. */
  method HangUp(env: Env, kiss: Kiss.KissDecoder, clientUp: bool)
    requires env.Valid() && env.w.okWrites == 0 && kiss.Valid() && (clientUp ==> env.w.client.up)
    modifies env`log, env`w, kiss
    ensures env.Valid() && kiss.Valid() && kiss.Abs() == Kiss.INIT
    ensures env.w == if clientUp then HungUp(old(env.w)) else old(env.w)
  {
    if clientUp {
      env.Record(ClientDown);
    }
    kiss.Init();
  }

  /** The CAD events since the marks are added to the statistics; the new marks. */
  method Collect(env: Env, stats: Stats, conf: Conf.ConfState, markBusy: nat, markIdle: nat)
    returns (busy: nat, idle: nat)
    requires env.Valid() && ConfLinked(env.w, conf) && CadInv(env.w, stats.c, markBusy, markIdle)
    modifies env`log, env`w, stats
    ensures env.Valid() && env.w == AfterCollect(old(env.w)) && CadInv(env.w, stats.c, busy, idle)
    ensures busy == env.w.flags.cadBusySeq && idle == env.w.flags.cadIdleSeq
    ensures stats.c == WithCad(old(stats.c), stats.c) && stats.c.cadNow == conf.flags.cadBusy
  {
    var b := Conf.Collect(conf.flags.cadBusySeq, markBusy);
    var i := Conf.Collect(conf.flags.cadIdleSeq, markIdle);
    stats.c := stats.c.(cadBusy := stats.c.cadBusy + b.1, cadIdle := stats.c.cadIdle + i.1,
                        cadNow := conf.flags.cadBusy);
    busy, idle := b.0, i.0;
    env.Record(CadCollected);
  }

  /** What is left of a read is never decoded. */
  ghost method SkipRest(env: Env, before: seq<byte>, data: seq<byte>, used: nat)
    requires env.Valid() && env.w.okWrites == 0 && env.w.client.lost
    requires used <= |data| && env.w.dataIn == before + data
    modifies env`log, env`w
    ensures env.Valid()
    ensures env.w == old(env.w).(dataIn := before + data[..used], skipped := old(env.w.skipped) + |data| - used)
  {
    assert (before + data)[..|before| + used] == before + data[..used];
    env.Record(Skipped(|data| - used));
  }

  /** Of some bytes read, `used` were decoded, and the others skipped. */
  ghost predicate Decoded(a: World, st: Framed.State, data: seq<byte>, used: nat, w: World, st1: Framed.State) {
    && used <= |data| && w.dataIn == a.dataIn + data[..used] && w.skipped == a.skipped + |data| - used
    && st1 == Framed.Run(st, data[..used]).0
    && w.rx == a.rx + BridgeRx.RxOf(Framed.Run(st, data[..used]).1, HasClient(a))
  }

  /** A failed client write: what is left of the read is never decoded, and the client is closed. */
  method CutOff(env: Env, kiss: Kiss.KissDecoder, ghost before: seq<byte>, ghost data: seq<byte>, ghost used: nat)
    requires env.Valid() && env.w.okWrites == 0 && env.w.client.lost && kiss.Valid() && env.w.client.up
    requires used <= |data| && env.w.dataIn == before + data
    modifies env`log, env`w, kiss
    ensures env.Valid() && kiss.Valid() && kiss.Abs() == Kiss.INIT
    ensures env.w == HungUp(old(env.w)).(dataIn := before + data[..used],
                                         skipped := old(env.w.skipped) + |data| - used)
  {
    SkipRest(env, before, data, used);
    HangUp(env, kiss, true);
  }

  /** The chunk handler leaves the world `m`, and a failed client write leads on to `b`. */
  lemma ChunkedOf(a: World, st: Framed.State, data: seq<byte>, used: nat, m: World, b: World, st1: Framed.State,
                  sent: seq<(seq<byte>, bool)>, code: Code)
    requires used <= |data| && (code == Ok ==> used == |data|) && !a.client.lost && HasClient(a) == a.client.up
    requires st1 == Framed.Run(st, data[..used]).0
    requires BridgeRx.OnlyRx(a.(dataIn := a.dataIn + data), m,
                             BridgeRx.RxOf(Framed.Run(st, data[..used]).1, HasClient(a)), sent)
    requires RxPath.ChunkTold(Framed.Run(st, data).1, HasClient(a), sent, code)
    requires b == if code == ErrClientSocket
                  then HungUp(m).(dataIn := a.dataIn + data[..used], skipped := m.skipped + |data| - used)
                  else m
    ensures Chunked(a, st, data, b, st1, sent, code)
    ensures code == Ok || code == ErrClientSocket ==> Decoded(a, st, data, used, b, st1)
    ensures !b.client.lost
  {
    if code == Ok {
      assert data[..used] == data;
    }
  }

  lemma SomeoneListens(es: seq<Framed.Event>, up: bool, sent: seq<(seq<byte>, bool)>, code: Code)
    requires RxPath.ChunkTold(es, up, sent, code) && code == ErrClientSocket
    ensures up
  {
    RxPath.NobodyListens(RxPath.CleanFrames(es));
  }

  /** bridge_rx_handle_framed_chunk, and what a failed client write leads to: what it leaves undecoded goes on
      record, and the client is closed. */
  method DecodeChunk(env: Env, stats: Stats, clientUp: bool, dec: Framed.FramedDecoder, kiss: Kiss.KissDecoder,
                     data: seq<byte>, ghost a: World)
    returns (code: Code, ghost used: nat, ghost sent: seq<(seq<byte>, bool)>)
    requires env.Valid() && dec.Valid() && kiss.Valid() && env.w == a.(dataIn := a.dataIn + data)
    requires clientUp == HasClient(a) && clientUp == a.client.up && !a.client.lost && a.okWrites == 0
    requires kiss.buf != dec.payload
    modifies env`log, env`w, stats, dec, dec.header, dec.payload, kiss
    ensures env.Valid() && dec.Valid() && kiss.Valid() && !env.w.client.lost
    ensures kiss.Abs() == if code == ErrClientSocket then Kiss.INIT else old(kiss.Abs())
    ensures BridgeRx.Balanced(old(stats.c), stats.c)
    ensures Chunked(a, old(dec.Abs()), data, env.w, dec.Abs(), sent, code)
    ensures code == Ok || code == ErrClientSocket ==> Decoded(a, old(dec.Abs()), data, used, env.w, dec.Abs())
  {
    ghost var st := dec.Abs();
    code, used, sent := BridgeRx.HandleFramedChunk(env, stats, clientUp, dec, data);
    ghost var m, es, st1 := env.w, Framed.Run(st, data).1, dec.Abs();
    if code == ErrClientSocket {
      SomeoneListens(es, clientUp, sent, code);
      CutOff(env, kiss, a.dataIn, data, used);
    }
    ghost var b := env.w;
    ChunkedOf(a, st, data, used, m, b, st1, sent, code);
  }

  /** The same; the queue and CONF are not concerned. */
  method DecodeAndRecord(env: Env, stats: Stats, ghost queue: TxQueue.Queue, ghost conf: Conf.ConfState, clientUp: bool,
                         dec: Framed.FramedDecoder, kiss: Kiss.KissDecoder, data: seq<byte>,
                         ghost confUp: bool, ghost a: World)
    returns (code: Code, ghost used: nat, ghost sent: seq<(seq<byte>, bool)>)
    requires TxDrain.Linked(env, queue, conf, confUp, true) && dec.Valid() && kiss.Valid() && kiss.buf != dec.payload
    requires env.w == a.(dataIn := a.dataIn + data)
    requires clientUp == HasClient(a) && clientUp == a.client.up
    modifies env`log, env`w, stats, dec, dec.header, dec.payload, kiss
    ensures TxDrain.Linked(env, queue, conf, confUp, true) && dec.Valid() && kiss.Valid()
    ensures kiss.Abs() == if code == ErrClientSocket then Kiss.INIT else old(kiss.Abs())
    ensures BridgeRx.Balanced(old(stats.c), stats.c)
    ensures Chunked(a, old(dec.Abs()), data, env.w, dec.Abs(), sent, code)
    ensures env.w.client.up == (clientUp && code != ErrClientSocket)
    ensures code == Ok || code == ErrClientSocket ==> Decoded(a, old(dec.Abs()), data, used, env.w, dec.Abs())
  {
    code, used, sent := DecodeChunk(env, stats, clientUp, dec, kiss, data, a);
  }

  lemma NoReset(code: Code)
    requires code in {Ok, ErrShort, ErrLong, ErrFormat, ErrUnsupported, ErrNoSpace}
    ensures !TxLifecycle.Resets(code)
  {
  }

  /** A KISS frame from the client. No code of the ingress path concerns a socket. */
  method CountAndHandle(env: Env, stats: Stats, queue: TxQueue.Queue, frame: Kiss.Frame)
    requires env.Valid() && queue.Holds(env.w.queue, env.w.held)
    modifies env`log, env`w, env`clock, env`ticks, stats, queue, queue.items
    ensures env.Valid() && queue.Holds(env.w.queue, env.w.held)
    ensures env.w == old(env.w).(queue := env.w.queue, seen := env.w.seen) && OnlyClock(old(env.w.seen), env.w.seen)
    ensures BridgeKiss.Packets(env.w.queue)
         == BridgeKiss.Packets(old(env.w.queue)) + BridgeKiss.Admitted(env.cfg, |old(env.w.queue)|, frame)
    ensures stats.c == BridgeKiss.EventTally(env.cfg, old(stats.c), |old(env.w.queue)|, Kiss.Got(frame))
  {
    stats.c := stats.c.(kissRx := stats.c.kissRx + 1);
    var code;
    ghost var fate;
    code, fate := BridgeKiss.HandleFrame(env, stats, queue, frame);
    NoReset(code);
  }

  class Bridge {
    const env: Env
    const stats: Stats
    const queue: TxQueue.Queue
    const conf: Conf.ConfState
    const dec: Framed.FramedDecoder
    const kiss: Kiss.KissDecoder
    var dataUp: bool
    var confUp: bool
    var clientUp: bool
    var configOk: bool
    var markBusy: nat
    var markIdle: nat

    /** Everything but the state of the sockets is in order. */
    ghost predicate Parts()
      reads this, env`log, env`w, env`clock, env`stop, queue, queue.items, conf, conf.line, dec, dec.header, kiss
    {
      && TxDrain.Linked(env, queue, conf, confUp, dataUp) && dec.Valid() && kiss.Valid()
      && clientUp == env.w.client.up && kiss.buf != dec.payload
    }

    ghost predicate Valid()
      reads this, env`log, env`w, env`clock, env`stop, stats, queue, queue.items, conf, conf.line, dec, dec.header,
            dec.payload, kiss
    {
      Parts() && Good(env.cfg, env.w, dec.Abs(), stats.c, dataUp, confUp, configOk, markBusy, markIdle)
    }

    /** The bridge as it is. */
    ghost function Now(): Snap
      requires Parts()
      reads this, env`log, env`w, env`clock, env`stop, stats, queue, queue.items, conf, conf.line, dec, dec.header,
            dec.payload, kiss, kiss.buf
    {
      Snap(env.w, dec.Abs(), kiss.Abs(), stats.c, configOk)
    }

    /** The CAD events handled so far are collected or lost. */
    predicate Collected()
      reads this, conf
    {
      markBusy == conf.flags.cadBusySeq && markIdle == conf.flags.cadIdleSeq
    }

    /** Everything down, nothing configured: the state before the first connection attempts. */
    constructor (config: Config)
      requires config.Sound()
      ensures Valid() && Collected() && env.cfg == config && env.w == START && env.log == []
      ensures !dataUp && !confUp && !clientUp && !configOk
      ensures fresh(env) && fresh(stats) && fresh(queue) && fresh(queue.items) && fresh(conf) && fresh(conf.line)
      ensures fresh(dec) && fresh(dec.header) && fresh(dec.payload) && fresh(kiss) && fresh(kiss.buf)
    {
      env := new Env(config);
      stats := new Stats();
      queue := new TxQueue.Queue();
      conf := new Conf.ConfState();
      dec := new Framed.FramedDecoder();
      kiss := new Kiss.KissDecoder();
      dataUp, confUp, clientUp, configOk := false, false, false, false;
      markBusy, markIdle := 0, 0;
      new;
      ghost var w := env.w;
      NothingYet(w, stats.c);
      assert queue.Holds(w.queue, w.held);
    }

    /** bridge_loraham_disconnect_data_socket, the framed decoder's reset, and config_ok = 0. */
    method DropData()
      requires Parts() && CadInv(env.w, stats.c, markBusy, markIdle)
      modifies this`dataUp, this`configOk, env`log, env`w, stats, dec
      ensures Valid() && !dataUp && !configOk
      ensures env.w == (if old(dataUp) then NoData(old(env.w)) else old(env.w)) && dec.Abs() == Framed.INIT
      ensures stats.c == Reconnecting(old(stats.c), old(dataUp))
    {
      CloseData(env, stats, queue, conf, dec, confUp, dataUp);
      ghost var w := env.w;
      dataUp, configOk := false, false;
      assert env.w == w && TxDrain.Linked(env, queue, conf, confUp, dataUp);
      assert Parts();
    }

    /** bridge_loraham_disconnect_conf_socket and config_ok = 0. */
    method DropConf()
      requires Parts() && CadInv(env.w, stats.c, markBusy, markIdle)
      requires dataUp ==> Sync.InSync(env.w.dataIn, env.w.rx, dec.Abs())
      modifies this`confUp, this`configOk, env`log, env`w, stats, conf
      ensures Valid() && !confUp && !configOk
      ensures env.w == if old(confUp) then Reset(old(env.w)).(confUp := false) else old(env.w)
      ensures stats.c == Reconnecting(old(stats.c), old(confUp))
    {
      CloseConf(env, stats, queue, conf, confUp, dataUp);
      ghost var w := env.w;
      confUp, configOk := false, false;
      assert env.w == w && TxDrain.Linked(env, queue, conf, confUp, dataUp);
      assert Parts();
    }

    /** Close the client; its KISS decoder starts afresh, the framed decoder does not. */
    method DropClient()
      requires Valid()
      modifies this`clientUp, env`log, env`w, kiss
      ensures Valid() && !clientUp
      ensures env.w == (if old(clientUp) then HungUp(old(env.w)) else old(env.w)) && kiss.Abs() == Kiss.INIT
    {
      HangUp(env, kiss, clientUp);
      clientUp := false;
    }

    /** bridge_conf_collect_cad_stats: afterwards the statistics are all CAD events but those lost with a CONF
        connection that was given up. */
    method CollectCad()
      requires Valid()
      modifies this`markBusy, this`markIdle, env`log, env`w, stats
      ensures Valid() && Collected() && env.w == AfterCollect(old(env.w))
      ensures stats.c == WithCad(old(stats.c), stats.c) && stats.c.cadNow == conf.flags.cadBusy
      ensures stats.c.cadBusy + env.w.cad.lostBusy == env.w.cad.busy
      ensures stats.c.cadIdle + env.w.cad.lostIdle == env.w.cad.idle
    {
      var busy, idle := Collect(env, stats, conf, markBusy, markIdle);
      ghost var w := env.w;
      markBusy, markIdle := busy, idle;
      assert env.w == w && TxDrain.Linked(env, queue, conf, confUp, dataUp);
      assert Parts();
    }

    /** What the main loop does about the result of the drain. */
    method React(code: Code)
      requires Parts() && CadInv(env.w, stats.c, markBusy, markIdle)
      requires dataUp && code != ErrTxResult ==> Sync.InSync(env.w.dataIn, env.w.rx, dec.Abs())
      requires !TxLifecycle.Resets(code) ==> Valid()
      modifies this, env`log, env`w, stats, conf, dec, kiss
      ensures Valid() && env.w == AfterReact(old(env.w), code)
      ensures kiss.Abs() == if code == ErrClientSocket then Kiss.INIT else old(kiss.Abs())
      ensures configOk == (old(configOk) && !TxLifecycle.Resets(code))
      ensures stats.c == Reconnecting(old(stats.c), GivenUp(old(env.w), code))
    {
      if TxLifecycle.ReconnectData(code) {
        DropData();
      } else if TxLifecycle.ReconnectConf(code) {
        DropConf();
      } else {
        ReactClient(code);
      }
    }

    /** The codes that concern no socket of the daemon. */
    method ReactClient(code: Code)
      requires Valid() && !TxLifecycle.Resets(code)
      modifies this`clientUp, env`log, env`w, kiss
      ensures Valid() && env.w == AfterReact(old(env.w), code)
      ensures kiss.Abs() == if code == ErrClientSocket then Kiss.INIT else old(kiss.Abs())
    {
      if code == ErrClientSocket {
        DropClient();
      }
    }

    /** bridge_loraham_tx_queue_drain_with_client. */
    method CallDrain() returns (code: Code, ghost v: World, ghost tried: bool, ghost d: Counters)
      requires Valid()
      modifies env, stats, queue, queue.items, conf, conf.line, dec, dec.header, dec.payload
      ensures Parts() && TxDrain.Drained(env.cfg, old(env.w), env.w, code)
      ensures dataUp && code != ErrTxResult ==> Sync.InSync(env.w.dataIn, env.w.rx, dec.Abs())
      ensures TxDrain.DrainDone(env.cfg, old(env.w), v, env.w, code, tried, old(stats.c), d, stats.c)
    {
      code, v, tried, d := TxDrain.Drain(env, stats, queue, conf, dec, clientUp, dataUp, confUp);
    }

    /** The statistics, and after most codes everything else, are in order. */
    method RunDrain() returns (code: Code, ghost v: World, ghost tried: bool, ghost d: Counters)
      requires Valid()
      modifies env, stats, queue, queue.items, conf, conf.line, dec, dec.header, dec.payload
      ensures Parts() && CadInv(env.w, stats.c, markBusy, markIdle)
      ensures dataUp && code != ErrTxResult ==> Sync.InSync(env.w.dataIn, env.w.rx, dec.Abs())
      ensures !TxLifecycle.Resets(code) ==> Valid()
      ensures TxDrain.DrainDone(env.cfg, old(env.w), v, env.w, code, tried, old(stats.c), d, stats.c)
    {
      ghost var a, st, c := env.w, dec.Abs(), stats.c;
      code, v, tried, d := CallDrain();
      GoodAfterDrain(env.cfg, a, st, c, env.w, dec.Abs(), stats.c, code,
                     dataUp, confUp, configOk, markBusy, markIdle, v, tried, d);
    }

    /** The TX queue's turn: up to the world `v` packets are dropped that are due to be, then the head is tried
        or there is nothing to do, which leads to the world `w`; and the sockets answer for the code. `d` and `e`
        are the counters in these two worlds. */
    method DrainQueue()
      returns (code: Code, ghost v: World, ghost w: World, ghost tried: bool, ghost d: Counters, ghost e: Counters)
      requires Valid()
      modifies this, env, stats, queue, queue.items, conf, conf.line, dec, dec.header, dec.payload, kiss
      ensures Valid()
      ensures TxDrain.DrainDone(env.cfg, old(env.w), v, w, code, tried, old(stats.c), d, e)
      ensures env.w == AfterReact(w, code)
      ensures kiss.Abs() == if code == ErrClientSocket then Kiss.INIT else old(kiss.Abs())
      ensures configOk == (old(configOk) && !TxLifecycle.Resets(code))
      ensures stats.c == Reconnecting(e, GivenUp(w, code))
    {
      code, v, tried, d := RunDrain();
      w, e := env.w, stats.c;
      React(code);
    }

    // ---------- select() timed out ----------

    method TryConf()
      requires Valid() && !confUp && Collected()
      modifies this`confUp, env`log, env`w, conf
      ensures Valid() && ConfAttempt(old(Now()), Now())
    {
      var ok := ConnectConf(env, queue, conf, dataUp);
      ghost var w := env.w;
      confUp := ok;
      assert env.w == w && TxDrain.Linked(env, queue, conf, confUp, dataUp);
      assert Parts();
    }

    /** A fresh framed stream, or none. */
    method OpenData()
      requires Valid() && !dataUp
      modifies this`dataUp, env`log, env`w, dec
      ensures Valid()
      ensures Now() == if dataUp then DataOpened(old(Now())) else DataRefusedNow(old(Now()))
    {
      ConnectFresh();
    }

    method ConnectFresh()
      requires Valid() && !dataUp
      modifies this`dataUp, env`log, env`w, dec
      ensures Valid()
      ensures env.w == if dataUp then NoStream(old(env.w)).(dataUp := true, seen := Asking(old(env.w).seen))
                       else old(env.w).(seen := Asking(old(env.w).seen))
      ensures dec.Abs() == if dataUp then Framed.INIT else old(dec.Abs())
    {
      Sync.SyncAtStart();
      var ok := ConnectData(env, queue, conf, dec, confUp);
      ghost var w := env.w;
      dataUp := ok;
      assert env.w == w && TxDrain.Linked(env, queue, conf, confUp, dataUp);
      assert Parts();
    }

    /** The initial configuration; config_ok tells whether it was sent. */
    method SetUp() returns (ghost s: TxLifecycle.Sends)
      requires Valid()
      modifies this`configOk, env`log, env`w, conf
      ensures Valid() && ConfigTurn(env.cfg, old(Now()), Now(), s)
    {
      var code;
      code, s := Configure(env, queue, conf, confUp, dataUp);
      configOk := code == Ok;
      assert TxDrain.Linked(env, queue, conf, confUp, dataUp);
      assert Parts();
    }

    /** A new DATA connection is counted, and the radio configured again. */
    method TryData() returns (ghost s: TxLifecycle.Sends)
      requires Valid() && !dataUp
      modifies this`dataUp, this`configOk, env`log, env`w, stats, conf, dec
      ensures Valid()
      ensures if dataUp then ConfigTurn(env.cfg, Reconnected(old(Now())), Now(), s)
              else Now() == DataRefusedNow(old(Now()))
    {
      ghost var a := Now();
      OpenData();
      s := TxLifecycle.ALL_SENT;
      if dataUp {
        s := CountAndConfigure(a);
      }
    }

    method CountAndConfigure(ghost a: Snap) returns (ghost s: TxLifecycle.Sends)
      requires Valid() && Now() == DataOpened(a)
      modifies this`configOk, env`log, env`w, stats, conf
      ensures Valid() && ConfigTurn(env.cfg, Reconnected(a), Now(), s)
    {
      stats.c := stats.c.(reconnects := stats.c.reconnects + 1);
      assert Now() == Reconnected(a);
      s := SetUp();
    }

    /** A quiet moment: reconnect one socket, or else send the initial configuration again if it is not in
        force, after which no packet is sent before a new STATUS. */
    method OnTimeout()
      requires Valid() && Collected()
      modifies this, env`log, env`w, stats, conf, dec
      ensures Valid() && TimeoutTurn(env.cfg, old(Now()), Now())
    {
      ghost var s;
      if !confUp {
        TryConf();
      } else if !dataUp {
        s := TryData();
      } else if !configOk {
        s := SetUp();
      }
    }

    // ---------- select() reported something ----------

    /** A KISS frame from the client. */
    method TakeFrame(frame: Kiss.Frame)
      requires Valid()
      modifies env`log, env`w, env`clock, env`ticks, stats, queue, queue.items
      ensures Valid()
      ensures env.w == old(env.w).(queue := env.w.queue, seen := env.w.seen) && OnlyClock(old(env.w.seen), env.w.seen)
      ensures BridgeKiss.Packets(env.w.queue)
           == BridgeKiss.Packets(old(env.w.queue)) + BridgeKiss.Admitted(env.cfg, |old(env.w.queue)|, frame)
      ensures stats.c == BridgeKiss.EventTally(env.cfg, old(stats.c), |old(env.w.queue)|, Kiss.Got(frame))
    {
      CountAndHandle(env, stats, queue, frame);
    }

    /** One byte from the client. */
    method TakeClientByte(b: byte)
      requires Valid()
      modifies env`log, env`w, env`clock, env`ticks, stats, queue, queue.items, kiss, kiss.buf
      ensures Valid()
      ensures env.w == old(env.w).(queue := env.w.queue, seen := env.w.seen) && OnlyClock(old(env.w.seen), env.w.seen)
      ensures kiss.Abs() == Kiss.DecodeStep(old(kiss.Abs()), b).0
      ensures Took(env.cfg, old(env.w), old(stats.c), Kiss.DecodeStep(old(kiss.Abs()), b).1, env.w, stats.c)
    {
      var e := DecodeKiss(b);
      TakeKiss(e);
    }

    method DecodeKiss(b: byte) returns (e: Kiss.Event)
      requires Valid()
      modifies kiss, kiss.buf
      ensures Valid() && (kiss.Abs(), e) == Kiss.DecodeStep(old(kiss.Abs()), b)
    {
      e := kiss.DecodeByte(b);
    }

    /** One event of the KISS decoder. */
    method TakeKiss(e: Kiss.Event)
      requires Valid()
      modifies env`log, env`w, env`clock, env`ticks, stats, queue, queue.items
      ensures Valid()
      ensures env.w == old(env.w).(queue := env.w.queue, seen := env.w.seen) && OnlyClock(old(env.w.seen), env.w.seen)
      ensures Took(env.cfg, old(env.w), old(stats.c), e, env.w, stats.c)
    {
      BridgeKiss.AdmitOne(env.cfg, stats.c, BridgeKiss.Packets(env.w.queue), e);
      match e {
        case Nothing =>
        case Bad(_) =>
          stats.c := stats.c.(kissDrop := stats.c.kissDrop + 1);
        case Got(frame) =>
          TakeFrame(frame);
      }
    }

    /** One read from the client: the queue gains the packets of the frames that its bytes complete. */
    method TakeClientBytes(data: seq<byte>)
      requires Valid()
      modifies env`log, env`w, env`clock, env`ticks, stats, queue, queue.items, kiss, kiss.buf
      ensures Valid()
      ensures ClientBytes(env.cfg, old(env.w), old(kiss.Abs()), old(stats.c), data, env.w, kiss.Abs(), stats.c)
    {
      ghost var a, d, c := env.w, kiss.Abs(), stats.c;
      var i := 0;
      assert data[..0] == [];
      ClientBytesNone(env.cfg, a, d, c);
      while i < |data|
        invariant 0 <= i <= |data| && Valid()
        invariant ClientBytes(env.cfg, a, d, c, data[..i], env.w, kiss.Abs(), stats.c)
      {
        TakeNext(data, i, a, d, c);
        i := i + 1;
      }
      assert data[..i] == data;
    }

    method TakeNext(data: seq<byte>, i: nat, ghost a: World, ghost d: Kiss.Decoder, ghost c: Counters)
      requires Valid() && i < |data| && ClientBytes(env.cfg, a, d, c, data[..i], env.w, kiss.Abs(), stats.c)
      modifies env`log, env`w, env`clock, env`ticks, stats, queue, queue.items, kiss, kiss.buf
      ensures Valid() && ClientBytes(env.cfg, a, d, c, data[..i + 1], env.w, kiss.Abs(), stats.c)
    {
      ghost var b, d1, c1 := env.w, kiss.Abs(), stats.c;
      TakeClientByte(data[i]);
      ghost var w, d2, c2 := env.w, kiss.Abs(), stats.c;
      ClientBytesMore(env.cfg, a, d, c, data, i, b, d1, c1, w, d2, c2);
    }

    lemma GoodAfterConf(a: World, st: Framed.State, c: Counters, b: World)
      requires Good(env.cfg, a, st, c, dataUp, confUp, configOk, markBusy, markIdle)
      requires confUp && a.confUp && OnlyConf(a, b)
      ensures Good(env.cfg, b, st, c, dataUp, confUp, configOk, markBusy, markIdle)
    {
    }

    method ReadLines() returns (ok: bool)
      requires Valid() && confUp
      modifies env`log, env`w, env`backlog, conf, conf.line
      ensures Valid() && OnlyConf(old(env.w), env.w)
      ensures env.w.seen == if ok then Dried(old(env.w.seen)) else Broke(old(env.w.seen))
    {
      ghost var a := env.w;
      ok := ReadAvailable(env, conf);
      GoodAfterConf(a, dec.Abs(), stats.c, env.w);
    }

    /** The CONF socket is readable; `m` is the world after it was read. */
    method ReadConf() returns (ghost m: World)
      requires Valid() && confUp
      modifies this`confUp, this`configOk, this`markBusy, this`markIdle,
               env`log, env`w, env`backlog, stats, conf, conf.line
      ensures Valid() && ConfAnswered(old(Now()), Now(), m)
    {
      ghost var a := Now();
      var ok := ReadLines();
      m := env.w;
      AfterLines(ok, a);
    }

    /** CONF was read to its end; it is kept, or given up. */
    method AfterLines(ok: bool, ghost a: Snap)
      requires Valid() && confUp && Now() == a.(w := env.w) && OnlyConf(a.w, env.w)
      requires env.w.seen == if ok then Dried(a.w.seen) else Broke(a.w.seen)
      modifies this`confUp, this`configOk, this`markBusy, this`markIdle, env`log, env`w, stats, conf
      ensures Valid() && ConfAnswered(a, Now(), old(env.w))
    {
      if ok {
        CollectCad();
      } else {
        DropConf();
      }
    }

    /** The bytes of one DATA read, as far as they were decoded. */
    lemma GoodAfterChunk(a: World, st: Framed.State, c: Counters, data: seq<byte>, used: nat,
                         b: World, st1: Framed.State, sent: seq<(seq<byte>, bool)>, code: Code, c1: Counters)
      requires Good(env.cfg, a, st, c, dataUp, confUp, configOk, markBusy, markIdle) && dataUp
      requires Chunked(a, st, data, b, st1, sent, code) && BridgeRx.Balanced(c, c1)
      requires code == Ok || code == ErrClientSocket ==> Decoded(a, st, data, used, b, st1)
      ensures CadInv(b, c1, markBusy, markIdle)
      ensures code == Ok || code == ErrClientSocket ==>
                Good(env.cfg, b, st1, c1, dataUp, confUp, configOk, markBusy, markIdle)
    {
      if code == Ok || code == ErrClientSocket {
        Sync.SyncAfterChunk(a, st, data[..used], st1, HasClient(a), b);
      }
    }

    /** bridge_rx_handle_framed_chunk, and the client's end if a write to it failed. */
    method DecodeData(data: seq<byte>, ghost a: World)
      returns (code: Code, ghost used: nat, ghost sent: seq<(seq<byte>, bool)>)
      requires Parts() && dataUp && env.w == a.(dataIn := a.dataIn + data)
      modifies this`clientUp, env`log, env`w, stats, dec, dec.header, dec.payload, kiss
      ensures Parts() && Chunked(a, old(dec.Abs()), data, env.w, dec.Abs(), sent, code)
      ensures code == Ok || code == ErrClientSocket ==> Decoded(a, old(dec.Abs()), data, used, env.w, dec.Abs())
      ensures BridgeRx.Balanced(old(stats.c), stats.c)
      ensures kiss.Abs() == if code == ErrClientSocket then Kiss.INIT else old(kiss.Abs())
    {
      code, used, sent := DecodeAndRecord(env, stats, queue, conf, clientUp, dec, kiss, data, confUp, a);
      clientUp := clientUp && code != ErrClientSocket;
      assert TxDrain.Linked(env, queue, conf, confUp, dataUp);
      assert Parts();
    }

    /** The bytes of one DATA read; any code but Ok and a failed client write costs the connection. */
    method TakeData(data: seq<byte>, ghost a: World) returns (ghost sent: seq<(seq<byte>, bool)>)
      requires Parts() && dataUp && env.w == a.(dataIn := a.dataIn + data)
      requires Good(env.cfg, a, dec.Abs(), stats.c, dataUp, confUp, configOk, markBusy, markIdle)
      modifies this`dataUp, this`clientUp, this`configOk, env`log, env`w, stats, dec, dec.header, dec.payload, kiss
      ensures Valid() && env.w.seen == a.seen
      ensures DataTaken(old(Now()).(w := a), Now(), data, sent)
    {
      ghost var s, used := Now(), 0;
      var code;
      code, used, sent := DecodeData(data, a);
      ghost var m := Now();
      GoodAfterChunk(a, s.dec, s.c, data, used, m.w, m.dec, sent, code, m.c);
      Conclude(code);
      TakenOf(s.(w := a), data, m, sent, code, Now());
    }

    /** What the main loop does about the code of a chunk. */
    method Conclude(code: Code)
      requires Parts() && CadInv(env.w, stats.c, markBusy, markIdle) && dataUp
      requires code == Ok || code == ErrClientSocket ==> Valid()
      modifies this`dataUp, this`configOk, env`log, env`w, stats, dec
      ensures Valid()
      ensures if code == Ok || code == ErrClientSocket then Now() == old(Now())
              else Now() == old(Now()).(w := NoData(old(env.w)), dec := Framed.INIT, configOk := false,
                                        c := Reconnecting(old(stats.c), true))
    {
      if code != Ok && code != ErrClientSocket {
        DropData();
      }
    }

    /** loraham_sock_read. */
    method Fetch() returns (got: ReadResult, ghost a: World)
      requires Valid() && dataUp
      modifies env`log, env`w
      ensures Parts() && Good(env.cfg, a, dec.Abs(), stats.c, dataUp, confUp, configOk, markBusy, markIdle)
      ensures !got.Closed? && a == old(env.w).(seen := DataReadNow(old(env.w.seen), got))
      ensures env.w == if got.Bytes? then a.(dataIn := a.dataIn + got.data) else a
    {
      got := env.ReadData();
      a := old(env.w).(seen := DataReadNow(old(env.w.seen), got));
    }

    /** The DATA socket is readable. An empty read means that the peer closed it; only an interrupted read is
        tried again. */
    method ReadData()
      requires Valid() && dataUp
      modifies this`dataUp, this`clientUp, this`configOk, env`log, env`w, stats, dec, dec.header, dec.payload, kiss
      ensures Valid() && DataTurn(old(Now()), Now())
    {
      ghost var s := Now();
      var got;
      ghost var a;
      got, a := Fetch();
      if got.Bytes? {
        TakeBytes(got.data, s, a);
      } else {
        TakeNone(got, s);
      }
    }

    /** A read without bytes. */
    method TakeNone(got: ReadResult, ghost s: Snap)
      requires Valid() && dataUp && !got.Bytes? && Now() == s.(w := s.w.(seen := DataReadNow(s.w.seen, got)))
      modifies this`dataUp, this`configOk, env`log, env`w, stats, dec
      ensures Valid() && DataTurn(s, Now())
    {
      ghost var m := Now();
      if !got.Intr? {
        LoseData();
      }
      DataTurnNone(s, got, m, Now());
    }

    method TakeBytes(data: seq<byte>, ghost s: Snap, ghost a: World)
      requires Parts() && dataUp && env.w == a.(dataIn := a.dataIn + data)
      requires Good(env.cfg, a, dec.Abs(), stats.c, dataUp, confUp, configOk, markBusy, markIdle)
      requires a == s.w.(seen := DataReadNow(s.w.seen, Bytes(data))) && s == Now().(w := s.w)
      modifies this`dataUp, this`clientUp, this`configOk, env`log, env`w, stats, dec, dec.header, dec.payload, kiss
      ensures Valid() && DataTurn(s, Now())
    {
      ghost var sent := TakeData(data, a);
      DataTurnOf(s, a, data, Now(), sent);
    }

    /** The connection is closed, or broken. */
    method LoseData()
      requires Valid() && dataUp
      modifies this`dataUp, this`configOk, env`log, env`w, stats, dec
      ensures Valid()
      ensures Now() == old(Now()).(w := NoData(old(env.w)), dec := Framed.INIT, configOk := false,
                                   c := Reconnecting(old(stats.c), true))
    {
      DropData();
    }

    /** accept(). */
    method Accept()
      requires Valid() && !clientUp
      modifies this`clientUp, env`log, env`w, env`stop, kiss
      ensures Valid() && AcceptTurn(old(Now()), Now())
    {
      AcceptOne();
      if !clientUp {
        BackOff();
      }
    }

    method AcceptOne()
      requires Valid() && !clientUp
      modifies this`clientUp, env`log, env`w, kiss
      ensures Valid()
      ensures env.w == old(env.w).(client := if clientUp then old(env.w).client.(up := true, lost := false)
                                             else old(env.w).client,
                                   seen := Accepting(old(env.w).seen))
      ensures kiss.Abs() == if clientUp then Kiss.INIT else old(kiss.Abs())
    {
      var ok := AcceptClient(env, queue, conf, kiss, confUp, dataUp);
      ghost var w := env.w;
      clientUp := ok;
      assert env.w == w && TxDrain.Linked(env, queue, conf, confUp, dataUp);
      assert Parts();
    }

    /** No client: a pause, perhaps. */
    method BackOff()
      requires Valid()
      modifies env`log, env`w, env`stop
      ensures Valid() && env.w == old(env.w).(seen := old(env.w.seen).(stopped := env.w.seen.stopped))
    {
      WaitIfExhausted(env);
    }

    /** The client's end of the connection is closed, or broken. */
    method LoseClient(closed: bool)
      requires Valid() && clientUp
      modifies this`clientUp, env`log, env`w, stats, kiss
      ensures Valid()
      ensures Now() == old(Now()).(w := HungUp(old(env.w)), kiss := Kiss.INIT,
                                   c := old(stats.c).(disconnects := old(stats.c).disconnects + One(closed)))
    {
      stats.c := stats.c.(disconnects := stats.c.disconnects + One(closed));
      DropClient();
    }

    /** The client is readable. False if the rest of the step is skipped. */
    method ReadClient() returns (more: bool)
      requires Valid() && clientUp
      modifies this`clientUp, env`log, env`w, env`clock, env`ticks, stats, queue, queue.items, kiss, kiss.buf
      ensures Valid() && ClientTurn(env.cfg, old(Now()), Now())
      ensures more == env.w.seen.calls.clientRead.Bytes?
    {
      ghost var a := Now();
      var got := FetchClient();
      more := got.Bytes?;
      TakeClientRead(got, a);
    }

    /** What was read from the client. */
    method TakeClientRead(got: ReadResult, ghost a: Snap)
      requires Valid() && clientUp && Now() == a.(w := a.w.(seen := SeenNow(a.w.seen, ClientRead(got))))
      modifies this`clientUp, env`log, env`w, env`clock, env`ticks, stats, queue, queue.items, kiss, kiss.buf
      ensures Valid() && ClientTurn(env.cfg, a, Now()) && env.w.seen.calls.clientRead == got
    {
      if got.Bytes? {
        TakeClientData(got.data, a);
      } else {
        TakeClientNone(got, a);
      }
    }

    /** A read without bytes. */
    method TakeClientNone(got: ReadResult, ghost a: Snap)
      requires Valid() && clientUp && !got.Bytes?
      requires Now() == a.(w := a.w.(seen := SeenNow(a.w.seen, ClientRead(got))))
      modifies this`clientUp, env`log, env`w, stats, kiss
      ensures Valid() && ClientTurn(env.cfg, a, Now()) && env.w.seen.calls.clientRead == got
    {
      ghost var m := Now();
      if got == Closed || got == Lost {
        LoseClient(got == Closed);
      }
      ClientTurnNone(env.cfg, a, got, m, Now());
    }

    method TakeClientData(data: seq<byte>, ghost a: Snap)
      requires Valid() && clientUp && Now() == a.(w := a.w.(seen := SeenNow(a.w.seen, ClientRead(Bytes(data)))))
      modifies env`log, env`w, env`clock, env`ticks, stats, queue, queue.items, kiss, kiss.buf
      ensures Valid() && ClientTurn(env.cfg, a, Now()) && env.w.seen.calls.clientRead == Bytes(data)
    {
      ghost var m := Now();
      TakeClientBytes(data);
      ClientTurnOf(env.cfg, a, data, m, Now());
    }

    method FetchClient() returns (got: ReadResult)
      requires Valid() && clientUp
      modifies env`log, env`w
      ensures Valid() && env.w == old(env.w).(seen := SeenNow(old(env.w.seen), ClientRead(got)))
    {
      got := env.ReadClient();
    }

    /** The client's share of a ready select(): accept one, or read from it. */
    method ServeClient(report: Report) returns (more: bool, ghost accepted: Snap)
      requires Valid() && (report.listen ==> !clientUp) && (report.client ==> clientUp)
      modifies this`clientUp, env`log, env`w, env`clock, env`ticks, env`stop, stats, queue, queue.items, kiss, kiss.buf
      ensures Valid()
      ensures if report.listen then AcceptTurn(old(Now()), accepted) else accepted == old(Now())
      ensures if report.client then ClientTurn(env.cfg, accepted, Now()) else Now() == accepted
      ensures more == (if report.listen then clientUp
                       else report.client ==> env.w.seen.calls.clientRead.Bytes?)
    {
      more := true;
      if report.listen {
        Accept();
        more := clientUp;
      }
      accepted := Now();
      if report.client {
        more := ReadClient();
      }
    }

    /** The daemon's share. */
    method ServeDaemon(report: Report) returns (ghost m: Snap)
      requires Valid() && (report.conf ==> confUp) && (report.data ==> dataUp)
      modifies this`dataUp, this`confUp, this`clientUp, this`configOk, this`markBusy, this`markIdle,
               env`log, env`w, env`backlog, stats, conf, conf.line, kiss, dec, dec.header, dec.payload
      ensures Valid()
      ensures if report.conf then ConfTurn(old(Now()), m) else m == old(Now())
      ensures if report.data then DataTurn(m, Now()) else Now() == m
    {
      if report.conf {
        ghost var w := ReadConf();
        assert ConfAnswered(old(Now()), Now(), w);
      }
      m := Now();
      if report.data {
        ReadData();
      }
    }

    /** Something was reported. */
    method ServeReady(report: Report) returns (ghost m: Stages)
      requires Valid() && (report.listen ==> !clientUp) && (report.client ==> clientUp)
      requires (report.conf ==> confUp) && (report.data ==> dataUp)
      modifies this, env, stats, queue, queue.items, conf, conf.line, kiss, kiss.buf, dec, dec.header, dec.payload
      ensures Valid() && ReadyTurn(env.cfg, report, old(Now()), m, Now())
    {
      var more;
      ghost var accepted, read, served;
      more, accepted := ServeClient(report);
      read := Now();
      served := read;
      if more {
        served := ServeDaemon(report);
      }
      m := Stages(accepted, read, served);
    }

    /** select(). */
    method AskSelect() returns (report: Report)
      requires Valid()
      modifies env`log, env`w
      ensures Valid() && env.w == old(env.w).(seen := SeenNow(old(env.w.seen), Selected(report)))
      ensures (report.listen ==> !clientUp) && (report.client ==> clientUp)
      ensures (report.conf ==> confUp) && (report.data ==> dataUp)
    {
      report := env.Select(clientUp, confUp, dataUp);
    }

    /** The answer to its report. */
    method Answer(report: Report) returns (ghost m: Stages)
      requires Valid() && Collected() && (report.listen ==> !clientUp) && (report.client ==> clientUp)
      requires (report.conf ==> confUp) && (report.data ==> dataUp)
      modifies this, env, stats, queue, queue.items, conf, conf.line, kiss, kiss.buf, dec, dec.header, dec.payload
      ensures Valid() && Answered(env.cfg, report, old(Now()), m, Now())
    {
      m := Stages(Now(), Now(), Now());
      match report.end {
        case Timeout =>
          OnTimeout();
        case Ready =>
          m := ServeReady(report);
        case _ =>
      }
    }

    /** select(), and what it reports; false when it fails for good. */
    method Serve() returns (go: bool, ghost m: Stages)
      requires Valid() && Collected()
      modifies this, env, stats, queue, queue.items, conf, conf.line, kiss, kiss.buf, dec, dec.header, dec.payload
      ensures Valid() && ServeTurn(env.cfg, old(Now()), go, m, Now())
    {
      ghost var a := Now();
      var report := AskSelect();
      ghost var s := Now();
      go := report.end != Broken;
      m := Answer(report);
      ServedAfter(env.cfg, a, report, s, m, Now());
    }

    /** One iteration of the main loop. The TX queue had its turn: up to the world `v` packets were dropped that
        were due to be, and then the head was tried, or there was a reason, found in this turn, to leave it; each
        socket was given up exactly for the codes that ask for it; the CAD events were collected, which leads to
        `s`; and select() was asked, and each of its reports answered, as `m` tells. Afterwards the radio is not
        parked on the TX frequency, as far as the loop counts it as configured; and the framed decoder is in sync
        with what was read and not skipped. */
    method Step() returns (go: bool, ghost t: Passage, ghost m: Stages)
      requires Valid()
      modifies this, env, stats, queue, queue.items, conf, conf.line, kiss, kiss.buf, dec, dec.header, dec.payload
      ensures Valid()
      ensures configOk && env.cfg.haveRx ==> env.w.freq == Some(env.cfg.rx)
      ensures dataUp ==> Sync.InSync(env.w.dataIn, env.w.rx, dec.Abs())
      ensures Stepped(env.cfg, old(Now()), go, t, m, Now())
    {
      t := BeforeSelect();
      go, m := Serve();
    }

    /** An iteration up to select(). */
    method BeforeSelect() returns (ghost t: Passage)
      requires Valid()
      modifies this, env, stats, queue, queue.items, conf, conf.line, dec, dec.header, dec.payload, kiss
      ensures Valid() && Collected() && t.s == Now() && Prepared(env.cfg, old(Now()), t)
    {
      ghost var code, v, w, tried, d, e;
      ghost var a := Now();
      code, v, w, tried, d, e := DrainQueue();
      ghost var b := Now();
      CollectCad();
      ghost var s := Now();
      t := Passage(v, w, code, tried, d, e, s);
      PreparedOf(env.cfg, a, b, t);
    }

    /** Startup: both sockets are tried once, and the initial configuration is sent between the two. */
    method Start() returns (ghost a: Snap, ghost b: Snap, ghost s: TxLifecycle.Sends)
      requires Valid() && !dataUp && !confUp && Collected()
      modifies this, env`log, env`w, conf, dec
      ensures Valid() && ConfAttempt(old(Now()), a) && ConfigTurn(env.cfg, a, b, s)
      ensures Now() == if dataUp then DataOpened(b) else DataRefusedNow(b)
    {
      TryConf();
      a := Now();
      s := SetUp();
      b := Now();
      OpenData();
    }

    /** One look at the stop flag, and an iteration unless it is set. */
    method Turn() returns (go: bool)
      requires Valid()
      modifies this, env, stats, queue, queue.items, conf, conf.line, kiss, kiss.buf, dec, dec.header, dec.payload
      ensures Valid() && Turned(env.cfg, old(Now()), go, Now())
    {
      ghost var a := Now();
      var stop := ShouldStop();
      go := !stop;
      if go {
        assert Now() == a;
        ghost var t, m;
        go, t, m := Step();
        ghost var b := Now();
        assert Stepped(env.cfg, a, go, t, m, b);
      }
    }

    /** bridge_runtime_should_stop. */
    method ShouldStop() returns (stop: bool)
      requires Valid()
      modifies env`log, env`w, env`stop
      ensures Valid()
      ensures env.w == if stop then old(env.w).(seen := old(env.w.seen).(stopped := true)) else old(env.w)
    {
      stop := env.ShouldStop();
    }

    /** The main loop, cut off after any number of iterations, from each moment to the next: whatever the
        surroundings do, every iteration keeps what Valid() says. */
    method Loop(iterations: nat) returns (ghost ps: seq<Snap>)
      requires Valid()
      modifies this, env, stats, queue, queue.items, conf, conf.line, kiss, kiss.buf, dec, dec.header, dec.payload
      ensures Valid() && ps != [] && ps[0] == old(Now()) && ps[|ps| - 1] == Now()
      ensures Turning(env.cfg, ps, |ps| - 1 == iterations) || Turning(env.cfg, ps, false)
    {
      var i, go := 0, true;
      ps := [Now()];
      while i < iterations && go
        invariant Valid() && i <= iterations && |ps| == i + 1 && ps[0] == old(Now()) && ps[i] == Now()
        invariant Turning(env.cfg, ps, go)
        decreases iterations - i
      {
        ghost var qs := ps;
        go := Turn();
        TurningOn(env.cfg, qs, Now(), go);
        ps := qs + [Now()];
        i := i + 1;
      }
    }

    /** lhkt_bridge_run up to the end of the main loop: the attempts to connect around the initial configuration,
        which lead to the moments `a` and `b`, and then the loop. */
    method Run(iterations: nat)
      returns (ghost a: Snap, ghost b: Snap, ghost s: TxLifecycle.Sends, ghost ps: seq<Snap>)
      requires Valid() && !dataUp && !confUp && Collected()
      modifies this, env, stats, queue, queue.items, conf, conf.line, kiss, kiss.buf, dec, dec.header, dec.payload
      ensures Valid() && ps != [] && ConfAttempt(old(Now()), a) && ConfigTurn(env.cfg, a, b, s)
      ensures ps[0] == if ps[0].w.dataUp then DataOpened(b) else DataRefusedNow(b)
      ensures Turning(env.cfg, ps, |ps| - 1 == iterations) || Turning(env.cfg, ps, false)
      ensures env.w == AfterCollect(ps[|ps| - 1].w)
      ensures stats.c.cadBusy + env.w.cad.lostBusy == env.w.cad.busy
      ensures stats.c.cadIdle + env.w.cad.lostIdle == env.w.cad.idle
    {
      a, b, s := Start();
      ps := Loop(iterations);
      CollectCad();
    }

    // ---------- what holds of every run ----------

    /** The log is that of a legal run, of which all the laws hold. */
    lemma Lawful()
      requires Valid()
      ensures AllLegal(env.cfg, START, env.log) && Fold(START, env.log) == env.w
    {
      RunIsLegal(env.cfg, env.log, env.w);
    }

    /** Between two iterations of any run: the packets taken from clients are those that left the queue
        followed by those in it, which are never more than the limit and are what the ring buffer holds; and
        the packets written are those that left it as written, in order, each of them once. */
    lemma WholeRun()
      requires Valid()
      ensures Pushed(env.log) == Popped(env.log) + env.w.queue
      ensures queue.Contents() == TxQueue.Items(env.w.queue, env.w.held) && |env.w.queue| <= env.cfg.QueueLimit()
      ensures Sent(env.log) == PoppedWritten(env.log)
    {
      RunIsLegal(env.cfg, env.log, env.w);
      Fifo(env.cfg, START, env.log);
      SentOnce(env.cfg, START, env.log);
      assert START.queue + Pushed(env.log) == Pushed(env.log);
      assert [] + Sent(env.log) == Sent(env.log) && PoppedWritten(env.log) + [] == PoppedWritten(env.log);
    }

    /** What the client was sent in a run are the KISS frames of the daemon frames handled, frame by frame, in
        order, up to a failed write in each; all of them if no write failed. */
    lemma ClientSide(i: nat)
      requires Valid() && i < |env.log|
      ensures Writes(env.log) == SentFor(env.log)
      ensures RxPath.AllSent(Writes(env.log)) ==> RxPath.Outputs(Writes(env.log)) == KissFor(env.log)
      ensures var e, w := env.log[i], Fold(START, env.log[..i]);
              e.Handled? ==> e.clientUp == HasClient(w) && RxPath.FrameServed(e.frame, e.clientUp, e.sent)
    {
      RunIsLegal(env.cfg, env.log, env.w);
      ClientGets(env.cfg, START, env.log);
      assert [] + Writes(env.log) == Writes(env.log) && SentFor(env.log) + [] == SentFor(env.log);
      At(env.cfg, env.log, i);
    }

    /** Every profile that a run sends the radio goes to a connected CONF socket and is the RX profile, or the TX
        profile: then no other profile was sent since event `k`, the decision to send the head of the queue. */
    lemma RadioSide(i: nat) returns (k: nat)
      requires Valid() && i < |env.log| && env.log[i].Cfg?
      ensures var w := Fold(START, env.log[..i]);
              && w.confUp
              && ((env.cfg.haveRx && env.log[i].freq == env.cfg.rx)
                  || (env.cfg.haveTx && env.log[i].freq == env.cfg.tx && w.queue != [] && k < i
                      && DecisionAt(env.cfg, env.log, k, Send, w.seen.clock, w.queue[0])
                      && Undecided(Between(env.log, k, i)) && Profiles(Between(env.log, k, i)) == []))
    {
      RunIsLegal(env.cfg, env.log, env.w);
      k := ProfilesAreTwo(env.cfg, env.log, i);
    }

    /** Every event of a run is accounted for by an event `k` before it: a write, through the gate, by the
        decision to send the packet, alive at the latest clock reading; a drop, by the decision that it is too
        old or was held back for too long; a packet that leaves as written, and its record, by its write. Each
        written packet has one record, or none if it is refused, and the record is true. */
    lemma EveryEvent(i: nat) returns (k: nat)
      requires Valid() && i < |env.log|
      ensures var e, w := env.log[i], Fold(START, env.log[..i]);
              && (e.Write? ==>
                    && MayWrite(env.cfg, w, e.packet) && Stands(AStatus, env.log[..i]) && k < i
                    && DecisionAt(env.cfg, env.log, k, Send, w.seen.clock, w.queue[0]))
              && (e.Dequeued? && !e.written ==>
                    k < i && DecisionAt(env.cfg, env.log, k, Drop, w.seen.clock, e.entry))
              && (e.Dequeued? && e.written ==>
                    && k < i && env.log[k] == Write(e.entry.packet, true) && Stays(Between(env.log, k, i))
                    && Records(Between(env.log, k, i)) == if VerdictNow(w) == Refused then 0 else 1)
              && (e.RfLog? ==>
                    && k < i && env.log[k] == Write(e.packet, true)
                    && (e.ok <==> ConfirmedBy(Fold(START, env.log[..k]), DataRead(Between(env.log, k, i)),
                                              ConfRead(Between(env.log, k, i)), ConfBroke(Between(env.log, k, i)))))
    {
      RunIsLegal(env.cfg, env.log, env.w);
      match env.log[i] {
        case Write(_, _) =>
          var entry;
          k, entry := WritesAreGated(env.cfg, env.log, i);
        case Dequeued(_, written) =>
          if written {
            k := RecordedOnce(env.cfg, env.log, i);
          } else {
            k := DropsAreDue(env.cfg, env.log, i);
          }
        case RfLog(_, _) =>
          k := RecordsAreTrue(env.cfg, env.log, i);
        case _ =>
          k := 0;
      }
    }
  }
}
