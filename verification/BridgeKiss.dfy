/** The TX ingress path (bridge_kiss.c): KISS data frames become queued LoRa-APRS packets. */
module BridgeKiss {
  import opened Common
  import opened Runtime
  import opened Trace
  import Ax25
  import Kiss
  import Scanner
  import Tnc2
  import TxQueue

  /** The TNC2 line that an AX.25 frame becomes. */
  function LineOfFrame(raw: seq<byte>): Result<seq<byte>> {
    var f := Ax25.DecodeUi(raw);
    if f.Failure? then Failure(f.code) else Tnc2.Format(f.value)
  }

  /** And the RF packet. */
  function PacketOf(raw: seq<byte>): Result<seq<byte>> {
    var line := LineOfFrame(raw);
    if line.Failure? then Failure(line.code) else Scanner.BuildPacket(line.value)
  }

  lemma PacketOfCodes(raw: seq<byte>)
    ensures PacketOf(raw).Failure? ==> PacketOf(raw).code in {ErrShort, ErrLong, ErrFormat, ErrUnsupported}
  {
  }

  /** A decoded frame formats unless its payload holds a NUL, always into the 512-byte buffer; its packet is
      refused exactly when the line is longer than 252 bytes. */
  lemma OnlyNulAndLengthFail(raw: seq<byte>)
    requires Ax25.DecodeUi(raw).Success?
    ensures var f := Ax25.DecodeUi(raw).value;
            && Tnc2.FitsFrame(f)
            && (Tnc2.Format(f).Failure? <==> NUL in f.payload)
            && |Tnc2.LineText(f)| <= 364 < TNC2_MAX_LINE
            && (Scanner.BuildPacket(Tnc2.LineText(f)).Failure? <==> |Tnc2.LineText(f)| > 252)
  {
    var f := Ax25.DecodeUi(raw).value;
    Ax25.EncodeDecode(raw);
    Tnc2.GoodFits(f.path);
    Tnc2.LineSize(f);
  }

  /** The fate of a data frame. */
  datatype Fate = NotAx25 | NotText | TooBig | Suppressed | NoRoom | Enqueued

  /** What becomes of a TNC2 line when the queue already holds `n` packets. */
  function LineFate(cfg: Config, n: nat, line: seq<byte>): Fate {
    if Scanner.BuildPacket(line).Failure? then TooBig
    else if cfg.rxOnly then Suppressed
    else if n >= cfg.QueueLimit() then NoRoom
    else Enqueued
  }

  /** And of a data frame. */
  function FateOf(cfg: Config, n: nat, raw: seq<byte>): Fate {
    var line := LineOfFrame(raw);
    if Ax25.DecodeUi(raw).Failure? then NotAx25
    else if line.Failure? then NotText
    else LineFate(cfg, n, line.value)
  }

  /** How a line of that fate counts. */
  function LineTally(c: Counters, fate: Fate): Counters {
    c.(loraDrop := c.loraDrop + One(fate == TooBig || fate == NoRoom), oversize := c.oversize + One(fate == TooBig))
  }

  /** How a data frame of that fate counts. */
  function Tally(c: Counters, fate: Fate): Counters {
    match fate
    case NotAx25 => c.(ax25Drop := c.ax25Drop + 1)
    case NotText => c.(ax25Rx := c.ax25Rx + 1, tnc2Drop := c.tnc2Drop + 1)
    case _ => LineTally(c.(ax25Rx := c.ax25Rx + 1, tnc2Tx := c.tnc2Tx + 1), fate)
  }

  /** What becomes of a packet when the queue already holds `n`. */
  function Admission(cfg: Config, n: nat, p: Result<seq<byte>>): seq<seq<byte>> {
    if p.Success? && !cfg.rxOnly && n < cfg.QueueLimit() then [p.value] else []
  }

  /** The packets of a queue. */
  function Packets(queue: seq<Entry>): (r: seq<seq<byte>>)
    ensures |r| == |queue|
  {
    if queue == [] then [] else [queue[0].packet] + Packets(queue[1..])
  }

  lemma {:induction false} PacketsSnoc(queue: seq<Entry>, e: Entry)
    ensures Packets(queue + [e]) == Packets(queue) + [e.packet]
  {
    if queue == [] {
      assert queue + [e] == [e] && [e][1..] == [];
    } else {
      assert (queue + [e])[0] == queue[0] && (queue + [e])[1..] == queue[1..] + [e];
      PacketsSnoc(queue[1..], e);
    }
  }

  /** What becomes of the packet `p`: the code, its fate, and the world, in which nothing but the queue and the
      clock moves. */
  ghost predicate Ingress(cfg: Config, w: World, w1: World, p: Result<seq<byte>>, code: Code, fate: Fate) {
    && w1 == w.(queue := w1.queue, seen := w1.seen) && OnlyClock(w.seen, w1.seen)
    && Packets(w1.queue) == Packets(w.queue) + Admission(cfg, |w.queue|, p)
    && (p.Failure? ==> code == p.code && fate in {NotAx25, NotText, TooBig})
    && (p.Success? ==>
          fate == if cfg.rxOnly then Suppressed else if |w.queue| >= cfg.QueueLimit() then NoRoom else Enqueued)
    && (code == Ok <==> fate in {Suppressed, Enqueued})
    && (fate == NoRoom ==> code == ErrNoSpace)
  }

  /** Nothing is queued. */
  lemma IngressNothing(cfg: Config, w: World, p: Result<seq<byte>>, code: Code, fate: Fate)
    requires Admission(cfg, |w.queue|, p) == []
    requires p.Failure? ==> code == p.code && fate in {NotAx25, NotText, TooBig} && code != Ok
    requires p.Success? ==> fate == if cfg.rxOnly then Suppressed else NoRoom
    requires fate == Suppressed ==> code == Ok
    requires fate == NoRoom ==> code == ErrNoSpace
    ensures Ingress(cfg, w, w, p, code, fate)
  {
    assert Packets(w.queue) + [] == Packets(w.queue);
  }

  /** bridge_kiss_handle_data_frame. */
  method HandleDataFrame(env: Env, stats: Stats, queue: TxQueue.Queue, raw: seq<byte>)
    returns (code: Code, ghost fate: Fate)
    requires env.Valid() && queue.Holds(env.w.queue, env.w.held)
    modifies env`log, env`w, env`clock, env`ticks, stats, queue, queue.items
    ensures env.Valid() && queue.Holds(env.w.queue, env.w.held)
    ensures Ingress(env.cfg, old(env.w), env.w, PacketOf(raw), code, fate)
    ensures fate == FateOf(env.cfg, |old(env.w.queue)|, raw) && stats.c == Tally(old(stats.c), fate)
  {
    ghost var w := env.w;
    var line;
    line, fate := LineOf(stats, raw);
    assert env.w == w && env.Valid() && queue.Holds(env.w.queue, env.w.held);
    if line.Failure? {
      PacketOfCodes(raw);
      IngressNothing(env.cfg, w, PacketOf(raw), line.code, fate);
      code := line.code;
    } else {
      code, fate := EnqueueLine(env, stats, queue, line.value);
    }
  }

  /** The first two stages: AX.25 frame to TNC2 line. */
  method LineOf(stats: Stats, raw: seq<byte>) returns (line: Result<seq<byte>>, ghost fate: Fate)
    modifies stats
    ensures line == LineOfFrame(raw) && (line.Failure? ==> fate in {NotAx25, NotText})
    ensures line.Failure? ==> (fate == NotAx25 <==> Ax25.DecodeUi(raw).Failure?) && stats.c == Tally(old(stats.c), fate)
    ensures line.Success? ==>
              stats.c == old(stats.c).(ax25Rx := old(stats.c).ax25Rx + 1, tnc2Tx := old(stats.c).tnc2Tx + 1)
  {
    fate := NotText;
    var f := Ax25.ReadUi(raw);
    if f.Failure? {
      stats.c := stats.c.(ax25Drop := stats.c.ax25Drop + 1);
      return Failure(f.code), NotAx25;
    }
    stats.c := stats.c.(ax25Rx := stats.c.ax25Rx + 1);
    line := FormatFrame(f.value, raw);
    if line.Failure? {
      stats.c := stats.c.(tnc2Drop := stats.c.tnc2Drop + 1);
      return;
    }
    stats.c := stats.c.(tnc2Tx := stats.c.tnc2Tx + 1);
  }

  /** Format into the fixed line buffer; what follows reads it as a C string. */
  method FormatFrame(f: Ax25.Frame, ghost raw: seq<byte>) returns (line: Result<seq<byte>>)
    requires Ax25.DecodeUi(raw) == Success(f)
    ensures line == Tnc2.Format(f)
  {
    OnlyNulAndLengthFail(raw);
    Ax25.EncodeDecode(raw);
    var out := new byte[TNC2_MAX_LINE];
    var code, len := Tnc2.FormatLine(f, out);
    if code != Ok {
      return Failure(code);
    }
    Tnc2.LineNoNul(f);
    assert out[..][..len] == out[..len];
    IndexOfUnique(out[..], NUL, len);
    return Success(CStr(out[..]));
  }

  method EnqueueLine(env: Env, stats: Stats, queue: TxQueue.Queue, line: seq<byte>)
    returns (code: Code, ghost fate: Fate)
    requires env.Valid() && queue.Holds(env.w.queue, env.w.held)
    modifies env`log, env`w, env`clock, env`ticks, stats, queue, queue.items
    ensures env.Valid() && queue.Holds(env.w.queue, env.w.held)
    ensures Ingress(env.cfg, old(env.w), env.w, Scanner.BuildPacket(line), code, fate)
    ensures fate == LineFate(env.cfg, |old(env.w.queue)|, line) && stats.c == LineTally(old(stats.c), fate)
  {
    ghost var p := Scanner.BuildPacket(line);
    ghost var w := env.w;
    var out := new byte[LORAHAM_TX_MAX];
    var len: nat;
    code, len := Scanner.BuildAprsPacket(line, out);
    if code != Ok {
      stats.c := stats.c.(loraDrop := stats.c.loraDrop + 1, oversize := stats.c.oversize + 1);
      fate := TooBig;
      IngressNothing(env.cfg, w, p, code, fate);
    } else if env.cfg.rxOnly {
      fate := Suppressed;
      IngressNothing(env.cfg, w, p, Ok, fate);
    } else {
      code := EnqueuePacket(env, queue, out[..len]);
      fate := if code == Ok then Enqueued else NoRoom;
      if code != Ok {
        stats.c := stats.c.(loraDrop := stats.c.loraDrop + 1);
      }
    }
  }

  /** A packet is queued at the time `now`. */
  lemma IngressQueued(cfg: Config, w: World, packet: Packet, now: int)
    requires !cfg.rxOnly && |w.queue| < cfg.QueueLimit() && w.seen.clock <= now && Coherent(w)
    ensures var w1 := Trace.Enqueued(Ticked(w, now), Entry(packet, now));
            && Ingress(cfg, w, w1, Success(packet), Ok, Enqueued)
            && TxQueue.Items(w1.queue, w1.held) == TxQueue.Items(w.queue, w.held) + [TxQueue.Item(packet, now, 0)]
  {
    TxQueue.ItemsSnoc(w.queue, w.held, Entry(packet, now));
    PacketsSnoc(w.queue, Entry(packet, now));
  }

  lemma IngressPush(cfg: Config, w: World, packet: Packet, now: int, code: Code, w1: World)
    requires !cfg.rxOnly && Coherent(w) && code == if |w.queue| >= cfg.QueueLimit() then ErrNoSpace else Ok
    requires code == Ok ==> w.seen.clock <= now && w1 == Trace.Enqueued(Ticked(w, now), Entry(packet, now))
    requires code != Ok ==> w1 == w
    ensures Ingress(cfg, w, w1, Success(packet), code, if code == Ok then Enqueued else NoRoom)
    ensures TxQueue.Items(w1.queue, w1.held)
         == TxQueue.Items(w.queue, w.held) + (if code == Ok then [TxQueue.Item(packet, now, 0)] else [])
  {
    if code == Ok {
      IngressQueued(cfg, w, packet, now);
    } else {
      IngressNothing(cfg, w, Success(packet), code, NoRoom);
      assert TxQueue.Items(w.queue, w.held) + [] == TxQueue.Items(w.queue, w.held);
    }
  }

  ghost method RecordQueued(env: Env, e: Entry)
    requires env.Valid() && !env.cfg.rxOnly && |env.w.queue| < env.cfg.QueueLimit() && env.w.seen.reading == Some(e.at)
    modifies env`log, env`w
    ensures env.Valid() && env.w == Trace.Enqueued(old(env.w), e)
  {
    env.Record(Queued(e));
  }

  /** bridge_tx_queue_push, on record. */
  method EnqueuePacket(env: Env, queue: TxQueue.Queue, packet: Packet) returns (code: Code)
    requires env.Valid() && queue.Holds(env.w.queue, env.w.held) && !env.cfg.rxOnly
    modifies env`log, env`w, env`clock, env`ticks, queue, queue.items
    ensures env.Valid() && queue.Holds(env.w.queue, env.w.held)
    ensures code == Ok || code == ErrNoSpace
    ensures Ingress(env.cfg, old(env.w), env.w, Success(packet), code, if code == Ok then Enqueued else NoRoom)
  {
    ghost var w := env.w;
    code := queue.Push(env, packet);
    if code == Ok {
      RecordQueued(env, Entry(packet, env.clock));
    }
    IngressPush(env.cfg, w, packet, env.clock, code, env.w);
  }

  /** What a KISS frame adds to a queue of `n` packets. */
  function Admitted(cfg: Config, n: nat, frame: Kiss.Frame): seq<seq<byte>> {
    if frame.command == Kiss.CMD_DATA && frame.port == 0 then Admission(cfg, n, PacketOf(frame.data)) else []
  }

  /** How a KISS frame counts when the queue already holds `n` packets. */
  function FrameTally(cfg: Config, c: Counters, n: nat, frame: Kiss.Frame): Counters {
    if frame.command != Kiss.CMD_DATA then c
    else if frame.port != 0 then c.(kissDrop := c.kissDrop + 1)
    else Tally(c, FateOf(cfg, n, frame.data))
  }

  /** How an event of the KISS decoder counts. */
  function EventTally(cfg: Config, c: Counters, n: nat, e: Kiss.Event): Counters {
    match e
    case Nothing => c
    case Bad(_) => c.(kissDrop := c.kissDrop + 1)
    case Got(frame) => FrameTally(cfg, c.(kissRx := c.kissRx + 1), n, frame)
  }

  /** How a client's decoded frames count. */
  function TallyAll(cfg: Config, c: Counters, queue: seq<seq<byte>>, es: seq<Kiss.Event>): Counters
    decreases |es|
  {
    if es == [] then c
    else
      TallyAll(cfg, EventTally(cfg, c, |queue|, es[0]),
               if es[0].Got? then queue + Admitted(cfg, |queue|, es[0].frame) else queue, es[1..])
  }

  /** What a client's decoded frames make of the queue. */
  function AdmitAll(cfg: Config, queue: seq<seq<byte>>, es: seq<Kiss.Event>): seq<seq<byte>>
    decreases |es|
  {
    if es == [] then queue
    else AdmitAll(cfg, if es[0].Got? then queue + Admitted(cfg, |queue|, es[0].frame) else queue, es[1..])
  }

  lemma {:induction false} AdmitConcat(cfg: Config, c: Counters, queue: seq<seq<byte>>,
                                       a: seq<Kiss.Event>, b: seq<Kiss.Event>)
    ensures AdmitAll(cfg, queue, a + b) == AdmitAll(cfg, AdmitAll(cfg, queue, a), b)
    ensures TallyAll(cfg, c, queue, a + b) == TallyAll(cfg, TallyAll(cfg, c, queue, a), AdmitAll(cfg, queue, a), b)
    decreases |a|
  {
    if a == [] {
      assert a + b == b;
    } else {
      assert (a + b)[0] == a[0] && (a + b)[1..] == a[1..] + b;
      AdmitConcat(cfg, EventTally(cfg, c, |queue|, a[0]),
                  if a[0].Got? then queue + Admitted(cfg, |queue|, a[0].frame) else queue, a[1..], b);
    }
  }

  /** Every frame of a client that becomes a line is queued, suppressed or counted as dropped. */
  lemma {:induction false} NoneUncounted(cfg: Config, c: Counters, queue: seq<seq<byte>>, es: seq<Kiss.Event>)
    ensures var d := TallyAll(cfg, c, queue, es);
            && d.tnc2Tx - c.tnc2Tx == d.ax25Rx - c.ax25Rx - (d.tnc2Drop - c.tnc2Drop)
            && (cfg.rxOnly ==> AdmitAll(cfg, queue, es) == queue)
            && (!cfg.rxOnly ==>
                  d.tnc2Tx - c.tnc2Tx == (d.loraDrop - c.loraDrop) + (|AdmitAll(cfg, queue, es)| - |queue|))
    decreases |es|
  {
    if es != [] {
      AdmittedCounted(cfg, c, queue, es[0]);
      NoneUncounted(cfg, EventTally(cfg, c, |queue|, es[0]),
                    if es[0].Got? then queue + Admitted(cfg, |queue|, es[0].frame) else queue, es[1..]);
    }
  }

  lemma AdmittedCounted(cfg: Config, c: Counters, queue: seq<seq<byte>>, e: Kiss.Event)
    ensures var d := EventTally(cfg, c, |queue|, e);
            var n := if e.Got? then |Admitted(cfg, |queue|, e.frame)| else 0;
            && d.tnc2Tx - c.tnc2Tx == d.ax25Rx - c.ax25Rx - (d.tnc2Drop - c.tnc2Drop)
            && (cfg.rxOnly ==> n == 0) && (!cfg.rxOnly ==> d.tnc2Tx - c.tnc2Tx == (d.loraDrop - c.loraDrop) + n)
  {
  }

  lemma AdmitOne(cfg: Config, c: Counters, queue: seq<seq<byte>>, e: Kiss.Event)
    ensures AdmitAll(cfg, queue, Kiss.AsSeq(e)) == if e.Got? then queue + Admitted(cfg, |queue|, e.frame) else queue
    ensures TallyAll(cfg, c, queue, Kiss.AsSeq(e)) == EventTally(cfg, c, |queue|, e)
  {
    if e != Kiss.Nothing {
      assert [e][1..] == [];
    }
  }

  /** Other ports are refused, other commands accepted and ignored. */
  method PassBy(stats: Stats, frame: Kiss.Frame) returns (code: Code)
    requires frame.command != Kiss.CMD_DATA || frame.port != 0
    modifies stats
    ensures code == if frame.command != Kiss.CMD_DATA then Ok else ErrUnsupported
    ensures stats.c == if frame.command != Kiss.CMD_DATA then old(stats.c)
                       else old(stats.c).(kissDrop := old(stats.c).kissDrop + 1)
  {
    if frame.command != Kiss.CMD_DATA {
      return Ok;
    }
    stats.c := stats.c.(kissDrop := stats.c.kissDrop + 1);
    return ErrUnsupported;
  }

  /** bridge_kiss_handle_frame: data on port 0 is sent, other ports are refused, other commands accepted
      and ignored. */
  method HandleFrame(env: Env, stats: Stats, queue: TxQueue.Queue, frame: Kiss.Frame)
    returns (code: Code, ghost fate: Fate)
    requires env.Valid() && queue.Holds(env.w.queue, env.w.held)
    modifies env`log, env`w, env`clock, env`ticks, stats, queue, queue.items
    ensures env.Valid() && queue.Holds(env.w.queue, env.w.held)
    ensures env.w == old(env.w).(queue := env.w.queue, seen := env.w.seen) && OnlyClock(old(env.w.seen), env.w.seen)
    ensures Packets(env.w.queue) == Packets(old(env.w.queue)) + Admitted(env.cfg, |old(env.w.queue)|, frame)
    ensures code in {Ok, ErrShort, ErrLong, ErrFormat, ErrUnsupported, ErrNoSpace}
    ensures frame.command != Kiss.CMD_DATA ==> code == Ok
    ensures frame.command == Kiss.CMD_DATA && frame.port != 0 ==> code == ErrUnsupported
    ensures frame.command == Kiss.CMD_DATA && frame.port == 0 ==>
              && fate == FateOf(env.cfg, |old(env.w.queue)|, frame.data)
              && (code == Ok <==> fate in {Suppressed, Enqueued})
    ensures stats.c == FrameTally(env.cfg, old(stats.c), |old(env.w.queue)|, frame)
  {
    if frame.command != Kiss.CMD_DATA || frame.port != 0 {
      code := PassBy(stats, frame);
      fate := NotAx25;
      assert Packets(env.w.queue) + [] == Packets(env.w.queue);
    } else {
      code, fate := HandleDataFrame(env, stats, queue, frame.data);
      PacketOfCodes(frame.data);
    }
  }
}
