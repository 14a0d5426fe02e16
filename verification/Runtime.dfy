/** The surroundings of the bridge: sockets, the monotonic clock and the stop flag answer as they like. What
    they answer and what is done to them is logged, and nothing illegal can be logged. Also the statistics
    counters. */
module Runtime {
  import opened Common
  import opened Trace
  import Conf
  import Framed

  /** lhkt_stats_t. */
  datatype Counters = Counters(
    kissRx: nat, kissTx: nat, kissDrop: nat,
    ax25Rx: nat, ax25Tx: nat, ax25Drop: nat,
    tnc2Rx: nat, tnc2Tx: nat, tnc2Drop: nat,
    loraRx: nat, loraTx: nat, loraDrop: nat, framedErrors: nat,
    cadBusy: nat, cadIdle: nat, cadNow: bool,
    oversize: nat, unconfirmed: nat, restoreFailures: nat, reconnects: nat, disconnects: nat)

  class Stats {
    var c: Counters

    constructor ()
      ensures c == Counters(0, 0, 0, 0, 0, 0, 0, 0, 0, 0, 0, 0, 0, 0, 0, false, 0, 0, 0, 0, 0)
    {
      c := Counters(0, 0, 0, 0, 0, 0, 0, 0, 0, 0, 0, 0, 0, 0, 0, false, 0, 0, 0, 0, 0);
    }
  }

  /** What waiting for and reading the CONF socket changes. */
  predicate OnlyConf(a: World, b: World) {
    && b == a.(flags := b.flags, asm := b.asm, cad := b.cad, seen := b.seen)
    && CadKept(a, b) && a.flags.txBusySeq <= b.flags.txBusySeq
  }

  /** CONF lines move the CAD counters and the CAD events together. */
  predicate CadKept(a: World, b: World) {
    && b.cad == a.cad.(busy := b.cad.busy, idle := b.cad.idle)
    && b.cad.busy - b.flags.cadBusySeq == a.cad.busy - a.flags.cadBusySeq && a.cad.busy <= b.cad.busy
    && b.cad.idle - b.flags.cadIdleSeq == a.cad.idle - a.flags.cadIdleSeq && a.cad.idle <= b.cad.idle
  }

  /** Time goes on, and what was seen stays seen. */
  predicate Later(a: Inputs, b: Inputs) {
    && a.clock <= b.clock && (a.stopped ==> b.stopped)
    && (a.confFailed ==> b.confFailed) && (a.dataFailed ==> b.dataFailed)
  }

  /** The clock was read. */
  predicate OnlyClock(a: Inputs, b: Inputs) {
    b == a.(clock := b.clock, reading := b.reading, readings := b.readings) && a.clock <= b.clock
  }

  class Env {
    const cfg: Config
    ghost var log: seq<Event>
    ghost var w: World
    /** The last clock reading, and how many more readings the clock may stand still. */
    var clock: int
    var ticks: nat
    var stop: bool
    /** How many more reads of CONF bytes there are before the socket would block. */
    var backlog: nat

    /** The log is that of a run; a frame may be in the middle of its way to the client. */
    ghost predicate Open()
      reads `log, `w, `clock, `stop
    {
      IsRun(cfg, log, w) && Coherent(w) && clock == w.seen.clock && stop == w.seen.stopped
    }

    /** And none is: all writes to the client are accounted for. */
    ghost predicate Valid()
      reads `log, `w, `clock, `stop
    {
      Open() && w.client.open == []
    }

    constructor (config: Config)
      ensures Valid() && cfg == config && log == [] && w == START
    {
      cfg := config;
      log, w := [], START;
      clock, ticks, stop, backlog := 0, 0, false, 0;
      new;
      RunStarts(cfg);
    }

    /** Something that the surroundings say; `clock` and `stop` follow. */
    ghost method Receive(i: Input)
      requires IsRun(cfg, log, w) && Coherent(w) && Legal(cfg, w, Saw(i))
      modifies `log, `w
      ensures IsRun(cfg, log, w) && Coherent(w) && w == Next(old(w), Saw(i))
    {
      RunGoesOn(cfg, log, w, Saw(i));
      CoherentStep(cfg, w, Saw(i));
      log, w := log + [Saw(i)], Next(w, Saw(i));
    }

    /** Anything else. */
    ghost method Record(e: Event)
      requires Open() && !e.Saw? && Legal(cfg, w, e)
      modifies `log, `w
      ensures Open() && w == Next(old(w), e)
    {
      RunGoesOn(cfg, log, w, e);
      CoherentStep(cfg, w, e);
      KeepsInputs(w, e);
      log, w := log + [e], Next(w, e);
    }

    /** bridge_runtime_now_ms: never goes back, and stands still only finitely often. */
    method Now() returns (now: int)
      requires Valid()
      modifies `log, `w, `clock, `ticks
      ensures Valid() && now == clock >= old(clock) && w == Ticked(old(w), now)
      ensures clock > old(clock) || ticks < old(ticks)
    {
      var advance: int := *;
      now := if advance > 0 then clock + advance else if ticks > 0 then clock else clock + 1;
      if now <= 0 {
        now := 1;
      }
      if now == clock {
        ticks := ticks - 1;
      } else {
        ticks := *;
      }
      Receive(Tick(now));
      clock := now;
    }

    /** bridge_runtime_should_stop: a signal may arrive at any time. */
    method ShouldStop() returns (b: bool)
      requires Valid()
      modifies `log, `w, `stop
      ensures Valid() && b == stop && (old(stop) ==> stop)
      ensures w == old(w).(seen := old(w).seen.(stopped := stop))
    {
      if * {
        stop := true;
      }
      if stop {
        Receive(StopSeen);
      }
      b := stop;
    }

    /** bridge_runtime_sleep_ms: fails exactly when a stop is requested before it ends. */
    method Sleep(ms: int) returns (ok: bool)
      requires Valid()
      modifies `log, `w, `stop
      ensures Valid() && (old(stop) ==> stop) && w == old(w).(seen := old(w).seen.(stopped := stop))
      ensures ok == (ms <= 0 || !stop)
    {
      if ms <= 0 {
        return true;
      }
      var s := ShouldStop();
      return !s;
    }

    /** A pause on record, once it is over. */
    method Pause(ms: int) returns (ok: bool)
      requires Valid()
      modifies `log, `w, `stop
      ensures Valid() && (old(stop) ==> stop)
      ensures w == old(w).(seen := old(w).seen.(stopped := stop), paused := if ok then Some(ms) else old(w).paused)
      ensures ok == (ms <= 0 || !stop)
    {
      ok := Sleep(ms);
      if ok {
        Record(Paused(ms));
      }
    }

    method SendProfile(freq: real) returns (ok: bool)
      requires Valid() && MayProfile(cfg, w, freq)
      modifies `log, `w
      ensures Valid()
      ensures w == old(w).(freq := if ok then Some(freq) else old(w).freq, cfgs := old(w).cfgs + [(freq, ok)],
                           paused := None)
    {
      ok := *;
      Record(Cfg(freq, ok));
    }

    /** A CONF line without a frequency. */
    method SendCommand(command: Command) returns (ok: bool)
      requires Valid() && w.okWrites == 0 && w.confUp
      modifies `log, `w
      ensures Valid() && w == old(w).(commands := old(w).commands + [(command, ok)])
    {
      ok := *;
      Record(Commanded(command, ok));
    }

    /** One read() of the CONF socket into a 256-byte buffer. */
    method ReadConf() returns (r: ReadResult)
      requires Valid()
      modifies `log, `w, `backlog
      ensures Valid()
      ensures match r
              case Bytes(data) => 0 < |data| <= 256 && w == Fed(old(w), data) && backlog < old(backlog)
              case Intr => w == old(w) && backlog < old(backlog)
              case WouldBlock => w == old(w).(seen := Dried(old(w).seen))
              case _ => r == Lost && w == old(w).(seen := Broke(old(w).seen))
    {
      var data: seq<byte> := *;
      if backlog > 0 {
        backlog := backlog - 1;
        if 0 < |data| <= 256 {
          Record(ConfBytes(data));
          return Bytes(data);
        }
        return Intr;
      }
      backlog := *;
      r := EndConf();
    }

    /** No more CONF bytes for now, or for good. */
    method EndConf() returns (r: ReadResult)
      requires Valid()
      modifies `log, `w
      ensures Valid()
      ensures r == WouldBlock || r == Lost
      ensures w == old(w).(seen := if r == Lost then Broke(old(w).seen) else Dried(old(w).seen))
    {
      if * {
        Receive(ConfDrained);
        r := WouldBlock;
      } else {
        Receive(ConfFailed);
        r := Lost;
      }
    }

    /** select() on the CONF socket. */
    method WaitConf() returns (r: Readiness)
      requires Valid()
      modifies `log, `w
      ensures Valid() && w == if r == Broken then old(w).(seen := Broke(old(w).seen)) else old(w)
    {
      r := *;
      if r == Broken {
        Receive(ConfFailed);
      }
    }

    /** select() on the DATA socket until a deadline. */
    method WaitData() returns (r: Readiness)
      requires Valid()
      modifies `log, `w
      ensures Valid()
      ensures w == if r == Broken || r == Timeout then old(w).(seen := DataReadNow(old(w).seen, Lost)) else old(w)
    {
      r := *;
      if r == Broken || r == Timeout {
        Receive(DataFailed);
      }
    }

    /** One read() of the DATA socket into a 512-byte buffer. */
    method ReadData() returns (r: ReadResult)
      requires Valid()
      modifies `log, `w
      ensures Valid()
      ensures !r.Closed? && (r.Bytes? ==> 0 < |r.data| <= 512)
      ensures w == old(w).(seen := DataReadNow(old(w).seen, r),
                           dataIn := if r.Bytes? then old(w).dataIn + r.data else old(w).dataIn)
    {
      var data: seq<byte> := *;
      if 0 < |data| <= 512 {
        Record(DataBytes(data));
        return Bytes(data);
      }
      r := DataIdles();
    }

    /** A read of the DATA socket without bytes. */
    method DataIdles() returns (r: ReadResult)
      requires Valid()
      modifies `log, `w
      ensures Valid() && (r == WouldBlock || r == Intr || r == Lost)
      ensures w == old(w).(seen := DataReadNow(old(w).seen, r))
    {
      if * {
        Receive(DataFailed);
        return Lost;
      }
      var intr: bool := *;
      Receive(DataIdle(intr));
      r := if intr then Intr else WouldBlock;
    }

    /** Write one encoded TX frame to the DATA socket. */
    method WriteFrame(bytes: seq<byte>, ghost packet: seq<byte>) returns (ok: bool)
      requires Valid() && |packet| <= LORAHAM_TX_MAX
      requires bytes == Framed.Encode(Framed.Frame(Framed.TX_PACKET, packet))
      requires MayWrite(cfg, w, packet)
      modifies `log, `w
      ensures Valid() && w == Wrote(old(w), ok)
    {
      ok := *;
      Record(Write(packet, ok));
    }

    method WriteClient(bytes: seq<byte>) returns (ok: bool)
      requires Open()
      modifies `log, `w
      ensures Open() && w == WithClient(old(w), [(bytes, ok)])
    {
      ok := *;
      Record(ToClient(bytes, ok));
    }

    /** One read() from the client into a 512-byte buffer. */
    method ReadClient() returns (r: ReadResult)
      requires Valid() && w.client.up
      modifies `log, `w
      ensures Valid() && (r.Bytes? ==> 0 < |r.data| <= 512)
      ensures w == old(w).(seen := SeenNow(old(w).seen, ClientRead(r)))
    {
      r := Any();
      Receive(ClientRead(r));
    }

    /** Any result of a read() into a 512-byte buffer. */
    method Any() returns (r: ReadResult)
      ensures r.Bytes? ==> 0 < |r.data| <= 512
    {
      r := *;
      if r.Bytes? && !(0 < |r.data| <= 512) {
        r := WouldBlock;
      }
    }

    /** accept(). */
    method Accept() returns (ok: bool)
      requires Valid() && !w.client.up
      modifies `log, `w
      ensures Valid()
      ensures w == old(w).(client := if ok then old(w).client.(up := true, lost := false) else old(w).client,
                           seen := Accepting(old(w).seen))
    {
      ok := *;
      if ok {
        Record(ClientUp);
      } else {
        Receive(NotAccepted);
      }
    }

    method ConnectConf() returns (ok: bool)
      requires Valid() && w.okWrites == 0
      modifies `log, `w
      ensures Valid() && w == if ok then ConfOpened(old(w)) else old(w).(seen := Asking(old(w).seen))
    {
      ok := *;
      if ok {
        Record(ConfUp);
      } else {
        Receive(ConfRefused);
      }
    }

    method ConnectData() returns (ok: bool)
      requires Valid() && w.okWrites == 0
      modifies `log, `w
      ensures Valid()
      ensures w == if ok then NoStream(old(w)).(dataUp := true, seen := Asking(old(w).seen))
                   else old(w).(seen := Asking(old(w).seen))
    {
      ok := *;
      if ok {
        Record(DataUp);
      } else {
        Receive(DataRefused);
      }
    }

    /** The main loop's select(): it reports only sockets that were given to it. */
    method Select(clientUp: bool, confUp: bool, dataUp: bool) returns (r: Report)
      requires Valid()
      modifies `log, `w
      ensures Valid() && w == old(w).(seen := SeenNow(old(w).seen, Selected(r)))
      ensures (r.listen ==> !clientUp) && (r.client ==> clientUp) && (r.conf ==> confUp) && (r.data ==> dataUp)
    {
      r := *;
      r := r.(listen := r.listen && !clientUp, client := r.client && clientUp,
              conf := r.conf && confUp, data := r.data && dataUp);
      Receive(Selected(r));
    }

    /** Any other yes-or-no answer of the surroundings. */
    method Choose() returns (b: bool)
    {
      b := *;
    }
  }

  lemma KeepsInputs(w: World, e: Event)
    requires !e.Saw?
    ensures Next(w, e).seen.clock == w.seen.clock && Next(w, e).seen.stopped == w.seen.stopped
  {
    match e {
      case ConfBytes(_) | DataBytes(_) | ClientUp | ClientDown | ToClient(_, _) | Handled(_, _, _) =>
      case ConfUp | ConfDown | StatusAsked | Commanded(_, _) | DataUp | DataDown | Skipped(_) | CadCollected =>
      case Cfg(_, _) | Paused(_) | Queued(_) | Judged(_) | Write(_, _) | RfLog(_, _) | Dequeued(_, _) =>
    }
  }

  // ---------- reading the CONF socket ----------

  /** The CONF state agrees with the run on record. */
  ghost predicate ConfLinked(w: World, conf: Conf.ConfState)
    reads conf, conf.line
  {
    conf.Valid() && conf.flags == w.flags && conf.Assembly() == w.asm
  }

  lemma FedIsConf(w: World, bytes: seq<byte>)
    ensures OnlyConf(w, Fed(w, bytes))
  {
    Conf.CountersCount(w.flags, Conf.Run(w.asm, bytes).1);
  }

  lemma OnlyConfTwice(a: World, b: World, c: World)
    requires OnlyConf(a, b) && OnlyConf(b, c)
    ensures OnlyConf(a, c)
  {
  }

  /** bridge_conf_feed, of bytes that were just read. */
  method FeedConf(env: Env, conf: Conf.ConfState, bytes: seq<byte>, ghost w0: World)
    requires ConfLinked(w0, conf) && env.w == Fed(w0, bytes)
    modifies conf, conf.line
    ensures ConfLinked(env.w, conf)
  {
    ghost var ls := conf.Feed(bytes);
  }

  /** bridge_conf_read_available: feed every read until the socket would block; any other end is a failure,
      and the only one. */
  method ReadAvailable(env: Env, conf: Conf.ConfState) returns (ok: bool)
    requires env.Valid() && ConfLinked(env.w, conf)
    modifies env`log, env`w, env`backlog, conf, conf.line
    ensures env.Valid() && ConfLinked(env.w, conf) && OnlyConf(old(env.w), env.w)
    ensures env.w.seen == if ok then Dried(old(env.w.seen)) else Broke(old(env.w.seen))
  {
    while true
      invariant env.Valid() && ConfLinked(env.w, conf) && OnlyConf(old(env.w), env.w)
      invariant env.w.seen == old(env.w.seen)
      decreases env.backlog
    {
      ghost var w1 := env.w;
      var r := env.ReadConf();
      match r {
        case Bytes(data) =>
          FedIsConf(w1, data);
          FeedConf(env, conf, data, w1);
          OnlyConfTwice(old(env.w), w1, env.w);
        case Intr =>
        case WouldBlock =>
          return true;
        case _ =>
          return false;
      }
    }
  }

  /** bridge_conf_wait_read: an interrupted or empty wait is no progress; only a broken socket, at select() or
      at a read, is a failure. */
  method WaitRead(env: Env, conf: Conf.ConfState) returns (ok: bool)
    requires env.Valid() && ConfLinked(env.w, conf)
    modifies env`log, env`w, env`backlog, conf, conf.line
    ensures env.Valid() && ConfLinked(env.w, conf) && OnlyConf(old(env.w), env.w)
    ensures ok ==> env.w.seen == old(env.w.seen) || env.w.seen == Dried(old(env.w.seen))
    ensures !ok ==> env.w.seen == Broke(old(env.w.seen))
  {
    var r := env.WaitConf();
    ok := r != Broken;
    if r == Ready {
      ok := ReadAvailable(env, conf);
    }
  }
}
