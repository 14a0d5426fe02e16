/** The drain loop that takes packets from the queue (bridge_loraham.c). */
module TxDrain {
  import opened Common
  import opened Runtime
  import opened Trace
  import opened TxLifecycle
  import Conf
  import Framed
  import Sync
  import TxQueue

  /** The ring buffer and the CONF state agree with the run on record, and no packet is half done. */
  ghost predicate Linked(env: Env, queue: TxQueue.Queue, conf: Conf.ConfState, confUp: bool, dataUp: bool)
    reads env`log, env`w, env`clock, env`stop, queue, queue.items, conf, conf.line
  {
    && env.Valid() && ConfLinked(env.w, conf) && env.cfg.Sound()
    && queue.Holds(env.w.queue, env.w.held) && |env.w.queue| <= env.cfg.QueueLimit()
    && confUp == env.w.confUp && dataUp == env.w.dataUp && Settled(env.w)
  }

  /** Packets have left the queue `a` at its front. */
  predicate FrontGone(a: seq<Entry>, b: seq<Entry>)
    decreases |a|
  {
    b == a || (a != [] && FrontGone(a[1..], b))
  }

  lemma {:induction false} FrontGoneTwice(a: seq<Entry>, b: seq<Entry>, c: seq<Entry>)
    requires FrontGone(a, b) && FrontGone(b, c)
    ensures FrontGone(a, c)
    decreases |a|
  {
    if b != a {
      FrontGoneTwice(a[1..], b, c);
    }
  }

  /** What draining may change. */
  predicate OnlyDrain(a: World, b: World) {
    && b == a.(flags := b.flags, asm := b.asm, cad := b.cad, dataIn := b.dataIn, rx := b.rx, client := b.client,
               freq := b.freq, cfgs := b.cfgs, paused := b.paused, queue := b.queue, held := b.held, judged := b.judged,
               okWrites := b.okWrites, logged := b.logged, mark := b.mark, seen := b.seen)
    && CadKept(a, b) && (!a.confUp ==> b.flags == a.flags) && b.client.up == a.client.up
  }

  /** What a drain leaves behind: packets only ever leave the queue at its front. */
  ghost predicate Drained(cfg: Config, a: World, b: World, code: Code) {
    && OnlyDrain(a, b) && FrontGone(a.queue, b.queue) && Settled(b)
    && (!Resets(code) ==> b.freq == a.freq || b.freq == Some(cfg.rx))
  }

  lemma DrainedTwice(cfg: Config, a: World, b: World, c: World, code: Code)
    requires Drained(cfg, a, b, Ok) && Drained(cfg, b, c, code)
    ensures Drained(cfg, a, c, code)
  {
    FrontGoneTwice(a.queue, b.queue, c.queue);
  }

  /** CONF reads, clock readings and decisions only add up. */
  predicate Onward(a: World, b: World) {
    a.seen.polls <= b.seen.polls && a.seen.readings <= b.seen.readings && a.seen.decisions <= b.seen.decisions
  }

  /** The last decision was made since `a`, on the latest clock reading, which was taken since `a`. */
  predicate JudgedSince(a: World, w: World) {
    && w.seen.decisions > a.seen.decisions && w.seen.readings > a.seen.readings
    && w.judged.Some? && w.judged.value.at == w.seen.clock
  }

  /** The packets that left the queue were dropped, and counted. */
  predicate DropsCounted(a: World, b: World, c: Counters, d: Counters) {
    d == c.(loraDrop := d.loraDrop) && d.loraDrop + |b.queue| == c.loraDrop + |a.queue|
  }

  // ---------- up to the decision ----------

  predicate TxResultOff(w: World) {
    w.flags.txresultKnown && !w.flags.txresultEnabled
  }

  /** CONF was read to the end since `a`, and would block. */
  predicate ReadDry(a: World, w: World) {
    w.seen.polls > a.seen.polls && w.seen.dry
  }

  /** A connected CONF socket was read to the end since `a`, but it failed, or has not reported a STATUS. */
  predicate Undecidable(a: World, w: World) {
    w.confUp && w.seen.polls > a.seen.polls && (!w.seen.dry || !w.flags.haveStatus)
  }

  /** A decision made since `a`, on a clock reading taken since `a`, found the head neither too old nor held back
      for too long: it has to wait, or it may be sent but a socket is missing. */
  predicate HeadStays(cfg: Config, a: World, w: World) {
    && w.queue != [] && JudgedSince(a, w) && !TooOld(cfg, w.queue[0], w.seen.clock)
    && match w.judged.value.policy
       case Wait => w.held.Some? && w.seen.clock - w.held.value < cfg.busyTimeoutMs
       case Send => !w.dataUp || !w.confUp
       case Drop => false
  }

  /** Why a drain that began in the world `a` stops in the world `w` without a transmission. */
  predicate Rests(cfg: Config, a: World, w: World, code: Code) {
    if code == ErrConfSocket then TxResultOff(w) && (w.confUp ==> ReadDry(a, w) && w.flags.haveStatus)
    else code == Ok && (w.queue == [] || Undecidable(a, w) || HeadStays(cfg, a, w))
  }

  /** Bringing the CONF state up to date before a decision: one read of the socket to its end, if there is one.
      `go` exactly if that succeeded, a STATUS was heard and TX_RESULTs are not off. */
  method CheckConf(env: Env, conf: Conf.ConfState, confUp: bool) returns (go: bool, code: Code)
    requires env.Valid() && ConfLinked(env.w, conf) && confUp == env.w.confUp
    modifies env`log, env`w, env`backlog, conf, conf.line
    ensures env.Valid() && ConfLinked(env.w, conf) && OnlyConf(old(env.w), env.w)
    ensures if confUp then env.w.seen == Dried(old(env.w.seen)) || env.w.seen == Broke(old(env.w.seen))
            else env.w == old(env.w)
    ensures go <==> (confUp ==> env.w.seen.dry && env.w.flags.haveStatus) && !TxResultOff(env.w)
    ensures code == if (confUp ==> env.w.seen.dry && env.w.flags.haveStatus) && TxResultOff(env.w)
                    then ErrConfSocket else Ok
  {
    if confUp {
      var ok := ReadAvailable(env, conf);
      if !ok {
        return false, Ok;
      }
      if !conf.flags.haveStatus {
        return false, Ok;
      }
    }
    if conf.flags.txresultKnown && !conf.flags.txresultEnabled {
      return false, ErrConfSocket;
    }
    return true, Ok;
  }

  /** A decision on record. */
  ghost method Judge(env: Env, d: Policy)
    requires env.Valid() && MayJudge(env.cfg, env.w, d)
    modifies env`log, env`w
    ensures env.Valid() && env.w == Decided(old(env.w), d)
  {
    env.Record(Judged(d));
  }

  /** What a decision at the latest clock reading says about the head. */
  predicate NotOverdue(cfg: Config, w: World, d: Policy) {
    && (d != Drop ==> w.queue != [] && !TooOld(cfg, w.queue[0], w.seen.clock))
    && (d == Wait ==> w.held.Some? && w.seen.clock - w.held.value < cfg.busyTimeoutMs)
  }

  /** The decision about the queue head. After a DROP the head is about to go, and its waiting time does not
      matter. */
  method DecideNow(env: Env, queue: TxQueue.Queue, confUp: bool, busy: bool) returns (d: Policy)
    requires env.Valid() && queue.Holds(env.w.queue, env.w.held)
    requires env.w.queue != [] && ConfReady(env.w) && env.w.okWrites == 0 && (confUp && busy) == RadioBusy(env.w)
    modifies env`log, env`w, env`clock, env`ticks, queue.items
    ensures env.Valid() && queue.Valid() && env.w == Decided(Ticked(old(env.w), env.clock), d)
    ensures d == Due(env.cfg, old(env.w), env.clock)
    ensures queue.HoldsBehind(env.w.queue)
    ensures d != Drop ==> queue.Holds(env.w.queue, env.w.held)
    ensures NotOverdue(env.cfg, env.w, d)
  {
    ghost var w0, items := env.w, queue.Contents();
    var now := env.Now();
    d := queue.DecideHead(env.cfg, confUp && busy, now);
    DecisionFits(env.cfg, w0, now, items, d, queue.Contents());
    Judge(env, d);
  }

  lemma DecisionFits(cfg: Config, w: World, now: int, items: seq<TxQueue.Item>, d: Policy, after: seq<TxQueue.Item>)
    requires w.queue != [] && Coherent(w) && now > 0 && items == TxQueue.Items(w.queue, w.held)
    requires after != [] && after[1..] == items[1..]
    requires (d, after[0]) == TxQueue.Decide(cfg, items[0], RadioBusy(w), now)
    ensures d == Due(cfg, w, now) && after[1..] == TxQueue.Items(w.queue[1..], None) && |after| == |w.queue|
    ensures d != Drop ==> after == TxQueue.Items(w.queue, Decided(Ticked(w, now), d).held)
  {
    TxQueue.DecisionIsDue(cfg, w, now);
    TxQueue.ItemsHead(w.queue, w.held);
    assert |after| == 1 + |after[1..]| == 1 + |items[1..]| == |items|;
    var held := Decided(Ticked(w, now), d).held;
    TxQueue.ItemsHead(w.queue, held);
    if d != Drop {
      assert after == [after[0]] + after[1..];
      assert TxQueue.Items(w.queue, held) == [TxQueue.Items(w.queue, held)[0]] + TxQueue.Items(w.queue, held)[1..];
    }
  }

  // ---------- the head leaves ----------

  /** The queue head leaves the queue: written, or by decision. */
  method TakeHead(env: Env, queue: TxQueue.Queue, ghost written: bool)
    requires env.Valid() && queue.Valid() && env.w.queue != []
    requires queue.HoldsBehind(env.w.queue)
    requires MayLeave(env.w, env.w.queue[0], written)
    modifies env`log, env`w, queue, queue.items
    ensures env.Valid() && queue.Valid() && env.w == Taken(old(env.w))
    ensures queue.Holds(env.w.queue, env.w.held) && queue.count == old(queue.count) - 1
  {
    assert |queue.Contents()| == queue.count;
    env.Record(Dequeued(env.w.queue[0], written));
    queue.Pop();
    assert |queue.Contents()| == queue.count;
  }

  lemma TakenIsDrained(cfg: Config, a: World, b: World, code: Code)
    requires OnlyDrain(a, b) && b.queue == a.queue != []
    requires !Resets(code) ==> b.freq == a.freq || b.freq == Some(cfg.rx)
    ensures Drained(cfg, a, Taken(b), code)
  {
  }

  /** A packet that is too old, or held back for too long, goes. */
  method DropHead(env: Env, stats: Stats, queue: TxQueue.Queue)
    requires env.Valid() && queue.Valid() && env.w.queue != [] && Settled(env.w)
    requires queue.HoldsBehind(env.w.queue)
    requires env.w.judged == Some(Judgement(Drop, env.w.seen.clock))
    modifies env`log, env`w, stats, queue, queue.items
    ensures env.Valid() && queue.Valid() && env.w == Taken(old(env.w))
    ensures queue.Holds(env.w.queue, env.w.held) && queue.count == old(queue.count) - 1
    ensures stats.c == old(stats.c).(loraDrop := old(stats.c).loraDrop + 1)
  {
    stats.c := stats.c.(loraDrop := stats.c.loraDrop + 1);
    TakeHead(env, queue, false);
  }

  // ---------- sending ----------

  /** The head has been tried, and is still in the queue. */
  ghost predicate HeadTried(cfg: Config, a: World, b: World, code: Code, written: bool) {
    && OnlyDrain(a, b) && b.queue == a.queue && b.held == a.held && Outcome(b, written)
    && (code == Ok ==> written)
    && (!Resets(code) ==> b.freq == a.freq || b.freq == Some(cfg.rx))
  }

  lemma TriedBySend(cfg: Config, a: World, b: World, code: Code, written: bool, stop: bool)
    requires Attempted(cfg, a, b, code, written, stop) && a.confUp
    ensures HeadTried(cfg, a, b, code, written)
  {
  }

  /** The head leaves the queue once it is written, and stays otherwise. */
  method PopWritten(env: Env, queue: TxQueue.Queue, code: Code, written: bool, ghost a: World)
    requires env.Valid() && queue.Valid() && a.queue != []
    requires queue.Holds(a.queue, a.held) && HeadTried(env.cfg, a, env.w, code, written)
    modifies env`log, env`w, queue, queue.items
    ensures env.Valid() && queue.Holds(env.w.queue, env.w.held)
    ensures Drained(env.cfg, a, env.w, code)
    ensures env.w == if written then Taken(old(env.w)) else old(env.w)
    ensures env.w.queue == if written then a.queue[1..] else a.queue
    ensures env.w.flags == old(env.w.flags) && env.w.asm == old(env.w.asm)
    ensures env.w.dataIn == old(env.w.dataIn) && env.w.rx == old(env.w.rx)
  {
    TxQueue.ItemsHead(a.queue, a.held);
    if written || code == Ok {
      TakenIsDrained(env.cfg, a, env.w, code);
      TakeHead(env, queue, true);
    }
  }

  method HeadPacket(queue: TxQueue.Queue, ghost entries: seq<Entry>, ghost held: Option<int>) returns (packet: Packet)
    requires queue.Valid() && entries != [] && queue.Holds(entries, held)
    ensures packet == entries[0].packet
  {
    TxQueue.ItemsHead(entries, held);
    var head := queue.Head();
    packet := head.value.packet;
  }

  /** The head may be sent. */
  ghost predicate HeadReady(w: World) {
    w.queue != [] && w.dataUp && MaySend(w, w.queue[0].packet)
  }

  /** The transmission of the head, as the queue sees it. */
  method TryHead(env: Env, stats: Stats, queue: TxQueue.Queue, conf: Conf.ConfState, dec: Framed.FramedDecoder,
                 clientUp: bool) returns (code: Code, written: bool)
    requires env.Valid() && dec.Valid() && env.cfg.Sound() && ConfLinked(env.w, conf)
    requires queue.Holds(env.w.queue, env.w.held) && HeadReady(env.w)
    requires Sync.InSync(env.w.dataIn, env.w.rx, dec.Abs()) && clientUp == HasClient(env.w)
    modifies env, stats, conf, conf.line, dec, dec.header, dec.payload
    ensures env.Valid() && dec.Valid() && ConfLinked(env.w, conf)
    ensures HeadTried(env.cfg, old(env.w), env.w, code, written)
    ensures Attempted(env.cfg, old(env.w), env.w, code, written, env.stop)
    ensures code != ErrTxResult ==> Sync.InSync(env.w.dataIn, env.w.rx, dec.Abs())
    ensures TxCounted(env.cfg, old(stats.c), stats.c, FailedRx(env.w.cfgs), env.w, code)
  {
    ghost var a := env.w;
    var packet := HeadPacket(queue, a.queue, a.held);
    code, written := SendPacket(env, stats, conf, dec, clientUp, true, packet);
    TriedBySend(env.cfg, a, env.w, code, written, env.stop);
  }

  /** The transmission of the head of the queue in `a`, which leaves the queue if it is written; and how it
      counts. */
  ghost predicate Tried(cfg: Config, a: World, b: World, code: Code, stop: bool, c: Counters, d: Counters) {
    exists m: World, written: bool ::
      && Attempted(cfg, a, m, code, written, stop) && b == (if written then Taken(m) else m)
      && TxCounted(cfg, c, d, FailedRx(m.cfgs), m, code)
  }

  /** Send the queue head: it leaves the queue once it is written, whatever comes after, and only then. */
  method SendHead(env: Env, stats: Stats, queue: TxQueue.Queue, conf: Conf.ConfState, dec: Framed.FramedDecoder,
                  clientUp: bool) returns (code: Code, written: bool)
    requires env.Valid() && queue.Valid() && dec.Valid() && env.cfg.Sound() && ConfLinked(env.w, conf)
    requires queue.Holds(env.w.queue, env.w.held) && HeadReady(env.w)
    requires Sync.InSync(env.w.dataIn, env.w.rx, dec.Abs()) && clientUp == HasClient(env.w)
    modifies env, stats, queue, queue.items, conf, conf.line, dec, dec.header, dec.payload
    ensures env.Valid() && queue.Valid() && dec.Valid() && ConfLinked(env.w, conf)
    ensures queue.Holds(env.w.queue, env.w.held)
    ensures env.w.queue == if written then old(env.w.queue)[1..] else old(env.w.queue)
    ensures code == Ok ==> written
    ensures Tried(env.cfg, old(env.w), env.w, code, env.stop, old(stats.c), stats.c)
    ensures Drained(env.cfg, old(env.w), env.w, code)
    ensures code != ErrTxResult ==> Sync.InSync(env.w.dataIn, env.w.rx, dec.Abs())
  {
    ghost var a := env.w;
    code, written := TryHead(env, stats, queue, conf, dec, clientUp);
    ghost var m := env.w;
    PopWritten(env, queue, code, written, a);
    assert Attempted(env.cfg, a, m, code, written, env.stop);
  }

  // ---------- the loop ----------

  /** The state between the decision `d` and its execution. */
  ghost predicate Poised(env: Env, queue: TxQueue.Queue, conf: Conf.ConfState, confUp: bool, dataUp: bool, d: Policy)
    reads env`log, env`w, env`clock, env`stop, queue, queue.items, conf, conf.line
  {
    && env.Valid() && queue.Valid() && ConfLinked(env.w, conf) && env.cfg.Sound()
    && |env.w.queue| <= env.cfg.QueueLimit() && env.w.queue != []
    && confUp == env.w.confUp && dataUp == env.w.dataUp && Settled(env.w) && env.w.cfgs == []
    && env.w.judged == Some(Judgement(d, env.w.seen.clock))
    && queue.HoldsBehind(env.w.queue)
    && (d != Drop ==> queue.Holds(env.w.queue, env.w.held))
    && (confUp ==> env.w.flags.haveStatus) && !(env.w.flags.txresultKnown && !env.w.flags.txresultEnabled)
    && (d == Send ==> !RadioBusy(env.w)) && NotOverdue(env.cfg, env.w, d)
  }

  /** The decision changes nothing that a drain may not change. */
  lemma DrainedByDecision(cfg: Config, a: World, b: World, now: int, d: Policy)
    requires OnlyConf(a, b) && Settled(a) && (!a.confUp ==> b.flags == a.flags)
    ensures Drained(cfg, a, b, Ok) && Drained(cfg, a, b, ErrConfSocket)
    ensures Drained(cfg, a, Decided(Ticked(b, now), d), Ok)
  {
  }

  /** One round of the drain loop, up to the decision; None if there is none to make. */
  method DecideRound(env: Env, queue: TxQueue.Queue, conf: Conf.ConfState, confUp: bool, ghost dataUp: bool)
    returns (d: Option<Policy>, code: Code)
    requires Linked(env, queue, conf, confUp, dataUp)
    modifies env`log, env`w, env`clock, env`ticks, env`backlog, queue.items, conf, conf.line
    ensures d.None? ==> Linked(env, queue, conf, confUp, dataUp) && Drained(env.cfg, old(env.w), env.w, code)
    ensures d.None? ==> Rests(env.cfg, old(env.w), env.w, code)
    ensures d.Some? ==> Poised(env, queue, conf, confUp, dataUp, d.value) && Drained(env.cfg, old(env.w), env.w, Ok)
    ensures d.Some? ==> JudgedSince(old(env.w), env.w) && code == Ok
    ensures Onward(old(env.w), env.w)
    ensures env.w.queue == old(env.w.queue) && queue.count == old(queue.count)
    ensures env.w.dataIn == old(env.w.dataIn) && env.w.rx == old(env.w.rx)
  {
    ghost var a := env.w;
    assert |queue.Contents()| == queue.count;
    var head := queue.Head();
    if head.None? {
      return None, Ok;
    }
    var go;
    go, code := CheckConf(env, conf, confUp);
    ghost var b := env.w;
    assert Linked(env, queue, conf, confUp, dataUp);
    DrainedByDecision(env.cfg, a, b, 0, Wait);
    d := None;
    if go {
      var policy := DecideHere(env, queue, conf, confUp, dataUp);
      DrainedByDecision(env.cfg, a, b, env.clock, policy);
      d := Some(policy);
    }
  }

  method DecideHere(env: Env, queue: TxQueue.Queue, conf: Conf.ConfState, confUp: bool, ghost dataUp: bool)
    returns (d: Policy)
    requires Linked(env, queue, conf, confUp, dataUp) && env.w.queue != [] && ConfReady(env.w)
    modifies env`log, env`w, env`clock, env`ticks, queue.items
    ensures Poised(env, queue, conf, confUp, dataUp, d)
    ensures env.w == Decided(Ticked(old(env.w), env.clock), d) && queue.count == old(queue.count)
  {
    assert |queue.Contents()| == queue.count;
    d := DecideNow(env, queue, confUp, conf.flags.txBusy);
    assert |queue.Contents()| == queue.count;
  }

  /** What the decision `d` about the head leads to. */
  method ActOn(env: Env, stats: Stats, queue: TxQueue.Queue, conf: Conf.ConfState, dec: Framed.FramedDecoder,
               clientUp: bool, dataUp: bool, confUp: bool, d: Policy)
    returns (again: bool, code: Code)
    requires Poised(env, queue, conf, confUp, dataUp, d) && dec.Valid() && clientUp == HasClient(env.w)
    requires dataUp ==> Sync.InSync(env.w.dataIn, env.w.rx, dec.Abs())
    modifies env, stats, queue, queue.items, conf, conf.line, dec, dec.header, dec.payload
    ensures Linked(env, queue, conf, confUp, dataUp) && dec.Valid()
    ensures Drained(env.cfg, old(env.w), env.w, code)
    ensures dataUp && code != ErrTxResult ==> Sync.InSync(env.w.dataIn, env.w.rx, dec.Abs())
    ensures again == (d == Drop) && (again ==> env.w == Taken(old(env.w)))
    ensures d == Drop ==> stats.c == old(stats.c).(loraDrop := old(stats.c).loraDrop + 1)
    ensures d == Wait || (d == Send && !(dataUp && confUp)) ==>
              env.w == old(env.w) && code == Ok && stats.c == old(stats.c)
    ensures d == Send && dataUp && confUp ==>
              HeadReady(old(env.w)) && Tried(env.cfg, old(env.w), env.w, code, env.stop, old(stats.c), stats.c)
    ensures again ==> code == Ok && queue.count < old(queue.count)
  {
    again, code := false, Ok;
    ghost var a := env.w;
    if d == Drop {
      TakenIsDrained(env.cfg, a, a, Ok);
      DropHead(env, stats, queue);
      again := true;
    } else if d == Send && dataUp && confUp {
      ghost var written;
      code, written := SendHead(env, stats, queue, conf, dec, clientUp);
    }
  }

  /** How a drain that began in the world `a` ends, with the counters `c` to `d`: it rests, or the head that may
      be sent in the world `v`, by a decision of this drain, has been tried. */
  ghost predicate DrainEnds(cfg: Config, a: World, v: World, w: World, code: Code, tried: bool,
                            c: Counters, d: Counters) {
    if tried then
      HeadReady(v) && JudgedSince(a, v) && Tried(cfg, v, w, code, w.seen.stopped, c, d)
    else w == v && d == c && Rests(cfg, a, w, code)
  }

  /** The same from an earlier beginning. */
  lemma EndsLonger(cfg: Config, a: World, b: World, v: World, w: World, code: Code, tried: bool,
                   c: Counters, d: Counters)
    requires Onward(a, b) && DrainEnds(cfg, b, v, w, code, tried, c, d)
    ensures DrainEnds(cfg, a, v, w, code, tried, c, d)
  {
  }

  /** A decision `d`, made since `a`. */
  predicate Decisive(cfg: Config, a: World, v: World, d: Policy, dataUp: bool, confUp: bool) {
    && v.queue != [] && JudgedSince(a, v) && v.judged == Some(Judgement(d, v.seen.clock))
    && NotOverdue(cfg, v, d) && dataUp == v.dataUp && confUp == v.confUp
  }

  lemma ActEnds(cfg: Config, a: World, v: World, w: World, d: Policy, dataUp: bool, confUp: bool, code: Code,
                stop: bool, c: Counters, e: Counters)
    requires Decisive(cfg, a, v, d, dataUp, confUp) && d != Drop && stop == w.seen.stopped
    requires d == Wait || (d == Send && !(dataUp && confUp)) ==> w == v && code == Ok && e == c
    requires d == Send && dataUp && confUp ==> HeadReady(v) && Tried(cfg, v, w, code, stop, c, e)
    ensures DrainEnds(cfg, a, v, w, code, d == Send && dataUp && confUp, c, e)
  {
  }

  /** The same, in a drain that began in the world `a`. */
  method ActNow(env: Env, stats: Stats, queue: TxQueue.Queue, conf: Conf.ConfState, dec: Framed.FramedDecoder,
                clientUp: bool, dataUp: bool, confUp: bool, d: Policy, ghost a: World)
    returns (again: bool, code: Code)
    requires Poised(env, queue, conf, confUp, dataUp, d) && dec.Valid() && clientUp == HasClient(env.w)
    requires dataUp ==> Sync.InSync(env.w.dataIn, env.w.rx, dec.Abs())
    requires JudgedSince(a, env.w)
    modifies env, stats, queue, queue.items, conf, conf.line, dec, dec.header, dec.payload
    ensures Linked(env, queue, conf, confUp, dataUp) && dec.Valid()
    ensures Drained(env.cfg, old(env.w), env.w, code)
    ensures dataUp && code != ErrTxResult ==> Sync.InSync(env.w.dataIn, env.w.rx, dec.Abs())
    ensures again ==>
              && code == Ok && queue.count < old(queue.count) && Onward(old(env.w), env.w)
              && DropsCounted(old(env.w), env.w, old(stats.c), stats.c)
    ensures !again ==>
              DrainEnds(env.cfg, a, old(env.w), env.w, code, d == Send && dataUp && confUp, old(stats.c), stats.c)
  {
    ghost var v, c := env.w, stats.c;
    assert Decisive(env.cfg, a, v, d, dataUp, confUp);
    again, code := ActOn(env, stats, queue, conf, dec, clientUp, dataUp, confUp, d);
    if !again {
      ActEnds(env.cfg, a, v, env.w, d, dataUp, confUp, code, env.stop, c, stats.c);
    }
  }

  /** One round of the drain loop; `v` is the world after its decision. */
  method DrainRound(env: Env, stats: Stats, queue: TxQueue.Queue, conf: Conf.ConfState, dec: Framed.FramedDecoder,
                    clientUp: bool, dataUp: bool, confUp: bool)
    returns (again: bool, code: Code, ghost v: World, ghost tried: bool)
    requires Linked(env, queue, conf, confUp, dataUp) && dec.Valid() && clientUp == env.w.client.up
    requires dataUp ==> Sync.InSync(env.w.dataIn, env.w.rx, dec.Abs())
    modifies env, stats, queue, queue.items, conf, conf.line, dec, dec.header, dec.payload
    ensures Linked(env, queue, conf, confUp, dataUp) && dec.Valid()
    ensures Drained(env.cfg, old(env.w), env.w, code)
    ensures dataUp && code != ErrTxResult ==> Sync.InSync(env.w.dataIn, env.w.rx, dec.Abs())
    ensures again ==>
              && code == Ok && queue.count < old(queue.count) && Onward(old(env.w), env.w)
              && DropsCounted(old(env.w), env.w, old(stats.c), stats.c)
    ensures !again ==>
              && Drained(env.cfg, old(env.w), v, if tried then Ok else code) && v.queue == old(env.w.queue)
              && DrainEnds(env.cfg, old(env.w), v, env.w, code, tried, old(stats.c), stats.c)
  {
    var d;
    d, code := DecideRound(env, queue, conf, confUp, dataUp);
    again, v, tried := false, env.w, false;
    if d.Some? {
      tried := d.value == Send && dataUp && confUp;
      again, code := ActNow(env, stats, queue, conf, dec, clientUp, dataUp, confUp, d.value, old(env.w));
      DrainedTwice(env.cfg, old(env.w), v, env.w, code);
    }
  }

  /** The drain so far: everything that left the queue was dropped, and counted. */
  ghost predicate SoFar(cfg: Config, a: World, w: World, c: Counters, d: Counters) {
    Drained(cfg, a, w, Ok) && Onward(a, w) && DropsCounted(a, w, c, d)
  }

  /** The whole drain, with the counters `d` in the world `v` after the last decision. */
  ghost predicate DrainDone(cfg: Config, a: World, v: World, w: World, code: Code, tried: bool,
                            c: Counters, d: Counters, e: Counters) {
    && Drained(cfg, a, v, if tried then Ok else code) && DropsCounted(a, v, c, d)
    && DrainEnds(cfg, a, v, w, code, tried, d, e)
  }

  lemma RoundDone(cfg: Config, a: World, w1: World, v: World, w: World, code: Code, tried: bool,
                  c: Counters, d: Counters, e: Counters)
    requires SoFar(cfg, a, w1, c, d) && Drained(cfg, w1, v, if tried then Ok else code) && v.queue == w1.queue
    requires DrainEnds(cfg, w1, v, w, code, tried, d, e)
    ensures DrainDone(cfg, a, v, w, code, tried, c, d, e)
  {
    DrainedTwice(cfg, a, w1, v, if tried then Ok else code);
    EndsLonger(cfg, a, w1, v, w, code, tried, d, e);
  }

  /** bridge_loraham_tx_queue_drain_with_client: drop packets until one is tried, has to wait, or none is
      left; `v` is the world after the last decision, with the counters `d`. */
  method Drain(env: Env, stats: Stats, queue: TxQueue.Queue, conf: Conf.ConfState, dec: Framed.FramedDecoder,
               clientUp: bool, dataUp: bool, confUp: bool)
    returns (code: Code, ghost v: World, ghost tried: bool, ghost d: Counters)
    requires Linked(env, queue, conf, confUp, dataUp) && dec.Valid() && clientUp == env.w.client.up
    requires dataUp ==> Sync.InSync(env.w.dataIn, env.w.rx, dec.Abs())
    modifies env, stats, queue, queue.items, conf, conf.line, dec, dec.header, dec.payload
    ensures Linked(env, queue, conf, confUp, dataUp) && dec.Valid()
    ensures Drained(env.cfg, old(env.w), env.w, code)
    ensures dataUp && code != ErrTxResult ==> Sync.InSync(env.w.dataIn, env.w.rx, dec.Abs())
    ensures DrainDone(env.cfg, old(env.w), v, env.w, code, tried, old(stats.c), d, stats.c)
  {
    ghost var w0, c0 := env.w, stats.c;
    code, v, tried, d := Ok, env.w, false, stats.c;
    var again := true;
    while again
      invariant Linked(env, queue, conf, confUp, dataUp) && dec.Valid()
      invariant Drained(env.cfg, w0, env.w, code) && (again ==> code == Ok)
      invariant dataUp && code != ErrTxResult ==> Sync.InSync(env.w.dataIn, env.w.rx, dec.Abs())
      invariant if again then SoFar(env.cfg, w0, env.w, c0, stats.c)
                else DrainDone(env.cfg, w0, v, env.w, code, tried, c0, d, stats.c)
      decreases again, queue.count
    {
      ghost var w1 := env.w;
      d := stats.c;
      again, code, v, tried := DrainRound(env, stats, queue, conf, dec, clientUp, dataUp, confUp);
      DrainedTwice(env.cfg, w0, w1, env.w, code);
      if !again {
        RoundDone(env.cfg, w0, w1, v, env.w, code, tried, c0, d, stats.c);
      }
    }
  }

  /** A drain leaves the CAD statistics alone. */
  lemma CadUncounted(cfg: Config, a: World, v: World, w: World, code: Code, tried: bool,
                     c: Counters, d: Counters, e: Counters)
    requires DrainDone(cfg, a, v, w, code, tried, c, d, e)
    ensures e.cadBusy == c.cadBusy && e.cadIdle == c.cadIdle
  {
    if tried {
      var m: World, written: bool :|
        && Attempted(cfg, v, m, code, written, w.seen.stopped) && w == (if written then Taken(m) else m)
        && TxCounted(cfg, d, e, FailedRx(m.cfgs), m, code);
    }
  }
}
