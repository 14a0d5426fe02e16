/** Waiting for the daemon to confirm a transmission (bridge_loraham.c): TX=1/TX=0 events on the CONF
    socket, or a TX_RESULT frame on the DATA socket. */
module TxWait {
  import opened Common
  import opened Runtime
  import opened Trace
  import BridgeRx
  import Conf
  import Framed
  import RxPath

  // ---------- TX=1 / TX=0 ----------

  /** How many more clock readings below a deadline there can be. */
  function TimeLeft(deadline: int, clock: int): nat {
    if clock < deadline then deadline - clock else 0
  }

  datatype Poll = Progressing | TimedOut | Failed

  /** CONF lines handled since `w0`, and time gone by. */
  predicate ConfSince(w0: World, w: World) {
    OnlyConf(w0, w) && Later(w0.seen, w.seen)
  }

  lemma ConfSinceTwice(a: World, b: World, c: World)
    requires ConfSince(a, b) && ConfSince(b, c)
    ensures ConfSince(a, c)
  {
    OnlyConfTwice(a, b, c);
  }

  /** A clock reading or a look at the stop flag. */
  lemma ConfSinceSeen(a: World, b: World, s: Inputs)
    requires ConfSince(a, b) && Later(b.seen, s)
    ensures ConfSince(a, b.(seen := s))
  {
  }

  /** A clock reading, against a deadline. */
  method Late(env: Env, deadline: int) returns (late: bool)
    requires env.Valid()
    modifies env`log, env`w, env`clock, env`ticks
    ensures env.Valid() && env.w == old(env.w).(seen := env.w.seen) && Later(old(env.w.seen), env.w.seen)
    ensures env.w.seen == TickedNow(old(env.w.seen), env.clock)
    ensures late == (env.clock >= deadline)
    ensures !late ==>
              TimeLeft(deadline, env.clock) < TimeLeft(deadline, old(env.clock))
              || (env.clock == old(env.clock) && env.ticks < old(env.ticks))
  {
    var now := env.Now();
    late := now >= deadline;
  }

  /** One round of either wait: give up at the deadline, else wait for CONF input and read it. */
  method PollConf(env: Env, conf: Conf.ConfState, deadline: int, ghost w0: World) returns (p: Poll)
    requires env.Valid() && ConfLinked(env.w, conf) && ConfSince(w0, env.w)
    modifies env, conf, conf.line
    ensures env.Valid() && ConfLinked(env.w, conf) && ConfSince(w0, env.w)
    ensures p == TimedOut ==> env.w.flags == old(env.w.flags) && env.clock >= deadline
    ensures env.w.seen.confFailed == (old(env.w.seen.confFailed) || p == Failed) && env.stop == old(env.stop)
    ensures p == Progressing ==>
              TimeLeft(deadline, env.clock) < TimeLeft(deadline, old(env.clock))
              || (env.clock == old(env.clock) && env.ticks < old(env.ticks))
  {
    ghost var w1 := env.w;
    var late := Late(env, deadline);
    ConfSinceSeen(w0, w1, env.w.seen);
    if late {
      return TimedOut;
    }
    var ok := WaitMore(env, conf, w0);
    p := if ok then Progressing else Failed;
  }

  method WaitMore(env: Env, conf: Conf.ConfState, ghost w0: World) returns (ok: bool)
    requires env.Valid() && ConfLinked(env.w, conf) && ConfSince(w0, env.w)
    modifies env`log, env`w, env`backlog, conf, conf.line
    ensures env.Valid() && ConfLinked(env.w, conf) && ConfSince(w0, env.w)
    ensures env.w.seen.confFailed == (old(env.w.seen.confFailed) || !ok)
  {
    ghost var w1 := env.w;
    ok := WaitRead(env, conf);
    OnlyConfTwice(w0, w1, env.w);
  }

  /** bridge_loraham_wait_tx_complete on a connected CONF socket: Ok exactly if no wait or read failed, the
      radio is idle at return, and it was busy at entry or a TX=1 event was handled. A TX=1 and TX=0 in one
      read are such a case. Err needs a failure, or a radio still busy at a stop or a timeout; and without a
      TX=1 event in the start window, the answer is ErrUnsupported. */
  method WaitTxComplete(env: Env, conf: Conf.ConfState) returns (code: Code)
    requires env.Valid() && ConfLinked(env.w, conf) && !env.w.seen.confFailed
    modifies env, conf, conf.line
    ensures env.Valid() && ConfLinked(env.w, conf) && ConfSince(old(env.w), env.w)
    ensures code in {Ok, Err, ErrUnsupported}
    ensures code == Ok <==>
              && !env.w.seen.confFailed && !env.w.flags.txBusy
              && (old(env.w.flags.txBusy) || env.w.flags.txBusySeq > old(env.w.flags.txBusySeq))
    ensures code == Err ==>
              env.w.seen.confFailed
              || (env.w.flags.txBusy && (env.stop || env.clock >= old(env.clock) + env.cfg.busyTimeoutMs)
                  && (old(env.w.flags.txBusy) || env.w.flags.txBusySeq > old(env.w.flags.txBusySeq)))
    ensures code == ErrUnsupported ==>
              && !old(env.w.flags.txBusy) && env.w.flags.txBusySeq == old(env.w.flags.txBusySeq)
              && env.clock >= old(env.clock) + START_WAIT_MS
  {
    var startBusy, startIdle := conf.flags.txBusySeq, conf.flags.txIdleSeq;
    ghost var w0 := env.w;
    code := WaitTxStart(env, conf);
    if code != Ok {
      return;
    }
    if !conf.flags.txBusy && conf.flags.txBusySeq != startBusy && conf.flags.txIdleSeq != startIdle {
      return Ok;
    }
    ghost var w1 := env.w;
    code := WaitTxEnd(env, conf);
    ConfSinceTwice(w0, w1, env.w);
  }

  /** A time `ms` from now. */
  method Deadline(env: Env, ms: int) returns (t: int)
    requires env.Valid()
    modifies env`log, env`w, env`clock, env`ticks
    ensures env.Valid() && env.w == old(env.w).(seen := env.w.seen) && Later(old(env.w.seen), env.w.seen)
    ensures env.w.seen.confFailed == old(env.w.seen.confFailed) && env.w.seen.dataFailed == old(env.w.seen.dataFailed)
    ensures t == env.clock + ms
  {
    var now := env.Now();
    t := now + ms;
  }

  /** The start window: Ok once TX-busy holds or a TX=1 event was counted. */
  method WaitTxStart(env: Env, conf: Conf.ConfState) returns (code: Code)
    requires env.Valid() && ConfLinked(env.w, conf) && !env.w.seen.confFailed
    modifies env, conf, conf.line
    ensures env.Valid() && ConfLinked(env.w, conf) && ConfSince(old(env.w), env.w)
    ensures code in {Ok, Err, ErrUnsupported} && (code == Err <==> env.w.seen.confFailed)
    ensures code == Ok ==> old(env.w.flags.txBusy) || env.w.flags.txBusySeq > old(env.w.flags.txBusySeq)
    ensures code == ErrUnsupported ==>
              && !old(env.w.flags.txBusy) && env.w.flags.txBusySeq == old(env.w.flags.txBusySeq)
              && env.clock >= old(env.clock) + START_WAIT_MS
  {
    if conf.flags.txBusy {
      return Ok;
    }
    var start := conf.flags.txBusySeq;
    var deadline := Deadline(env, START_WAIT_MS);
    while conf.flags.txBusySeq == start
      invariant env.Valid() && ConfLinked(env.w, conf) && ConfSince(old(env.w), env.w) && !env.w.seen.confFailed
      decreases TimeLeft(deadline, env.clock), env.ticks
    {
      var p := PollConf(env, conf, deadline, old(env.w));
      if p == TimedOut {
        return ErrUnsupported;
      }
      if p == Failed {
        return Err;
      }
    }
    code := Ok;
  }

  /** The busy phase: Ok once TX-busy no longer holds. */
  method WaitTxEnd(env: Env, conf: Conf.ConfState) returns (code: Code)
    requires env.Valid() && ConfLinked(env.w, conf) && !env.w.seen.confFailed
    modifies env, conf, conf.line
    ensures env.Valid() && ConfLinked(env.w, conf) && ConfSince(old(env.w), env.w)
    ensures code in {Ok, Err}
    ensures code == Ok <==> !env.w.seen.confFailed && !env.w.flags.txBusy
    ensures code == Err ==>
              env.w.seen.confFailed
              || (env.w.flags.txBusy && (env.stop || env.clock >= old(env.clock) + env.cfg.busyTimeoutMs))
  {
    var deadline := Deadline(env, env.cfg.busyTimeoutMs);
    while conf.flags.txBusy
      invariant env.Valid() && ConfLinked(env.w, conf) && ConfSince(old(env.w), env.w) && !env.w.seen.confFailed
      decreases TimeLeft(deadline, env.clock), env.ticks
    {
      ghost var w1 := env.w;
      var stop := env.ShouldStop();
      ConfSinceSeen(old(env.w), w1, env.w.seen);
      if stop {
        return Err;
      }
      var p := PollConf(env, conf, deadline, old(env.w));
      if p == TimedOut {
        return Err;
      }
      if p == Failed {
        return Err;
      }
    }
    code := Ok;
  }

  // ---------- TX_RESULT ----------

  /** What the wait knows so far: the first TX_RESULT and whether the client failed. */
  datatype Found = Found(result: Option<Framed.TxResult>, clientUp: bool, clientError: bool)

  /** What the wait has done since `w0`: the frames recorded and the bytes sent to the client. */
  datatype Done = Done(rx: seq<(Framed.Frame, bool)>, sent: seq<(seq<byte>, bool)>)

  /** Only the stream's part of the world changed. */
  predicate OnlyStream(w0: World, w: World) {
    w == w0.(dataIn := w.dataIn, rx := w.rx, client := w.client, seen := w.seen) && w.client.up == w0.client.up
  }

  /** The events `es` of the stream, read since `w0`, led to `f`: the result is the first TX_RESULT, every
      other frame was handled once and in order, and the client was sent their KISS frames until a write failed. */
  ghost predicate Progress(w0: World, w: World, clientUp: bool, es: seq<Framed.Event>, d: Done, f: Found) {
    && Framed.Clean(es)
    && OnlyStream(w0, w) && w.rx == w0.rx + d.rx
    && clientUp == HasClient(w0) && w.client == BridgeRx.Served(w0.client, d.sent)
    && BridgeRx.Bare(d.rx) == Framed.Others(Framed.FramesOf(es))
    && RxPath.Passed(Framed.Others(Framed.FramesOf(es)), clientUp, d.sent, f.clientError)
    && f.clientUp == (clientUp && !f.clientError)
    && f.result == Framed.ResultAmong(Framed.FramesOf(es))
  }

  /** Every frame but the answer has left a trace in the statistics; later TX_RESULTs count as drops. */
  predicate Traced(a: Counters, b: Counters, es: seq<Framed.Event>, f: Found) {
    && BridgeRx.Balanced(a, b)
    && BridgeRx.Traces(b) + (if f.result.Some? then 1 else 0) >= BridgeRx.Traces(a) + |Framed.FramesOf(es)|
  }

  lemma ProgressFrame(es: seq<Framed.Event>, frame: Framed.Frame)
    requires Framed.Clean(es)
    ensures Framed.Clean(es + [Framed.Got(frame)])
    ensures var before, after := Framed.FramesOf(es), Framed.FramesOf(es + [Framed.Got(frame)]);
            && |after| == |before| + 1
            && Framed.Others(after) == Framed.Others(before) + (if Framed.IsResult(frame) then [] else [frame])
            && Framed.FirstResult(after) == if Framed.FirstResult(before).Some? then Framed.FirstResult(before)
                                     else if Framed.IsResult(frame) then Some(frame) else None
  {
    Framed.FramesConcat(es, [Framed.Got(frame)]);
    assert [Framed.Got(frame)][1..] == [];
    assert Framed.FramesOf([Framed.Got(frame)]) == [frame];
    Framed.OthersConcat(Framed.FramesOf(es), [frame]);
    Framed.OthersOne(frame);
  }

  /** A frame that is not a TX_RESULT goes to the RX path. */
  method WaitOther(env: Env, stats: Stats, frame: Framed.Frame, f: Found, ghost w0: World, ghost clientUp: bool,
                   ghost es: seq<Framed.Event>, ghost d: Done)
    returns (f1: Found, ghost d1: Done)
    requires env.Valid() && Progress(w0, env.w, clientUp, es, d, f)
    requires |frame.payload| <= Framed.MAX_PAYLOAD && !Framed.IsResult(frame)
    modifies env`log, env`w, stats
    ensures env.Valid() && Progress(w0, env.w, clientUp, es + [Framed.Got(frame)], d1, f1)
    ensures env.w.dataIn == old(env.w.dataIn) && env.w.seen == old(env.w.seen)
    ensures BridgeRx.Balanced(old(stats.c), stats.c) && BridgeRx.Counted(old(stats.c), stats.c)
    ensures f1.result == f.result
  {
    ghost var sent;
    var code;
    code, sent := BridgeRx.HandleFrame(env, stats, f.clientUp, frame);
    ProgressFrame(es, frame);
    OneMore(w0, d, (frame, f.clientUp), sent);
    d1 := Done(d.rx + [(frame, f.clientUp)], d.sent + sent);
    f1 := f;
    if code == ErrClientSocket {
      f1 := f.(clientUp := false, clientError := true);
    }
    RxPath.PassedMore(Framed.Others(Framed.FramesOf(es)), clientUp, d.sent, f.clientError, frame, sent, code);
  }

  lemma OneMore(w0: World, d: Done, x: (Framed.Frame, bool), sent: seq<(seq<byte>, bool)>)
    ensures (w0.rx + d.rx) + [x] == w0.rx + (d.rx + [x])
    ensures BridgeRx.Served(BridgeRx.Served(w0.client, d.sent), sent) == BridgeRx.Served(w0.client, d.sent + sent)
    ensures BridgeRx.Bare(d.rx + [x]) == BridgeRx.Bare(d.rx) + [x.0]
  {
    BridgeRx.BareConcat(d.rx, [x]);
    RxPath.AllSentConcat(d.sent, sent);
    Assoc(w0.client.sent, d.sent, sent);
    assert BridgeRx.Bare([x]) == [x.0] + [];
  }

  /** What the wait does with one decoder event; it gives up on a malformed TX_RESULT and on a stream
      error. The source has one loop up to the first TX_RESULT and another for the rest of the buffer;
      here `f.result` tells them apart. */
  method WaitEvent(env: Env, stats: Stats, e: Framed.Event, f: Found, ghost w0: World, ghost clientUp: bool,
                   ghost es: seq<Framed.Event>, ghost d: Done)
    returns (ok: bool, f1: Found, ghost d1: Done)
    requires env.Valid() && Progress(w0, env.w, clientUp, es, d, f)
    requires Framed.FirstResult(Framed.FramesOf(es)).Some? ==> f.result.Some?
    requires e.Got? ==> |e.frame.payload| <= Framed.MAX_PAYLOAD
    modifies env`log, env`w, stats
    ensures env.Valid() && OnlyStream(w0, env.w)
    ensures ok ==> Progress(w0, env.w, clientUp, es + Framed.AsSeq(e), d1, f1)
    ensures ok ==> Framed.FirstResult(Framed.FramesOf(es + Framed.AsSeq(e))).Some? ==> f1.result.Some?
    ensures !ok ==> BadAnswer(es + Framed.AsSeq(e))
    ensures env.w.dataIn == old(env.w.dataIn) && env.w.seen == old(env.w.seen)
    ensures BridgeRx.Balanced(old(stats.c), stats.c)
    ensures ok && e.Got? ==> BridgeRx.Counted(old(stats.c), stats.c) || (f.result.None? && f1.result.Some?)
    ensures ok ==> e != Framed.TooLong && (f.result.Some? ==> f1.result.Some?)
  {
    ok, f1, d1 := true, f, d;
    Framed.FramesConcat(es, Framed.AsSeq(e));
    match e {
      case Nothing =>
        assert es + [] == es;
      case TooLong =>
        stats.c := stats.c.(loraDrop := stats.c.loraDrop + 1);
        ok := false;
      case Got(frame) =>
        ProgressFrame(es, frame);
        if frame.kind != Framed.TX_RESULT {
          f1, d1 := WaitOther(env, stats, frame, f, w0, clientUp, es, d);
        } else if f.result.Some? {
          stats.c := stats.c.(loraDrop := stats.c.loraDrop + 1);
          assert Framed.Others(Framed.FramesOf(es)) + [] == Framed.Others(Framed.FramesOf(es));
        } else {
          var r := Framed.DecodeTxResult(frame);
          assert Framed.Others(Framed.FramesOf(es)) + [] == Framed.Others(Framed.FramesOf(es));
          if r.Failure? {
            ok := false;
          } else {
            f1 := f.(result := Some(r.value));
          }
        }
    }
  }

  /** Where the wait stands: how the decoder got there, and what it found. */
  ghost predicate Standing(st0: Framed.State, read: seq<byte>, st: Framed.State, es: seq<Framed.Event>) {
    Framed.Run(st0, read) == (st, es)
  }

  /** One byte of a DATA read during the wait. */
  method WaitByte(env: Env, stats: Stats, dec: Framed.FramedDecoder, b: byte, f: Found, ghost w0: World,
                  ghost clientUp: bool, ghost es: seq<Framed.Event>, ghost d: Done, ghost c0: Counters)
    returns (ok: bool, f1: Found, ghost es1: seq<Framed.Event>, ghost d1: Done)
    requires env.Valid() && dec.Valid() && Progress(w0, env.w, clientUp, es, d, f) && Traced(c0, stats.c, es, f)
    requires Framed.FirstResult(Framed.FramesOf(es)).Some? ==> f.result.Some?
    modifies env`log, env`w, stats, dec, dec.header, dec.payload
    ensures env.Valid() && dec.Valid() && OnlyStream(w0, env.w)
    ensures dec.Abs() == Framed.Step(old(dec.Abs()), b).0
    ensures es1 == es + Framed.AsSeq(Framed.Step(old(dec.Abs()), b).1)
    ensures ok ==> Progress(w0, env.w, clientUp, es1, d1, f1)
    ensures ok ==> Framed.FirstResult(Framed.FramesOf(es1)).Some? ==> f1.result.Some?
    ensures !ok ==> BadAnswer(es1)
    ensures env.w.dataIn == old(env.w.dataIn) && env.w.seen == old(env.w.seen)
    ensures BridgeRx.Balanced(old(stats.c), stats.c)
    ensures ok ==> Traced(c0, stats.c, es1, f1)
  {
    ghost var st, c := dec.Abs(), stats.c;
    if Framed.Step(st, b).1.Got? {
      Framed.GotFits(st, b);
    }
    var e := dec.DecodeByte(b);
    ok, f1, d1 := WaitEvent(env, stats, e, f, w0, clientUp, es, d);
    es1 := es + Framed.AsSeq(e);
    if ok {
      TracedMore(c0, c, stats.c, es, e, f, f1);
    }
  }

  lemma TracedMore(c0: Counters, c: Counters, c1: Counters, es: seq<Framed.Event>, e: Framed.Event, f: Found, f1: Found)
    requires Traced(c0, c, es, f) && BridgeRx.Balanced(c, c1) && (f.result.Some? ==> f1.result.Some?)
    requires e.Got? ==> BridgeRx.Counted(c, c1) || (f.result.None? && f1.result.Some?)
    requires e != Framed.TooLong
    ensures Traced(c0, c1, es + Framed.AsSeq(e), f1)
  {
    BridgeRx.BalancedTwice(c0, c, c1);
    Framed.FramesConcat(es, Framed.AsSeq(e));
    if e.Got? {
      BridgeRx.FramesOne(e.frame);
    }
  }

  /** The state of the wait: `read` are the bytes so far, `es` their events. */
  datatype Heard = Heard(read: seq<byte>, es: seq<Framed.Event>, d: Done)

  ghost predicate Hearing(w0: World, w: World, clientUp: bool, st0: Framed.State, st: Framed.State,
                          h: Heard, f: Found) {
    && Progress(w0, w, clientUp, h.es, h.d, f)
    && Standing(st0, h.read, st, h.es)
    && (Framed.FirstResult(Framed.FramesOf(h.es)).Some? ==> f.result.Some?)
  }

  /** One byte, with its place in the stream. */
  method HearByte(env: Env, stats: Stats, dec: Framed.FramedDecoder, b: byte, f: Found,
                  ghost w0: World, ghost clientUp: bool, ghost st0: Framed.State, ghost h: Heard, ghost c0: Counters)
    returns (ok: bool, f1: Found, ghost h1: Heard)
    requires env.Valid() && dec.Valid() && Hearing(w0, env.w, clientUp, st0, dec.Abs(), h, f)
    requires Traced(c0, stats.c, h.es, f)
    modifies env`log, env`w, stats, dec, dec.header, dec.payload
    ensures env.Valid() && dec.Valid() && OnlyStream(w0, env.w)
    ensures env.w.dataIn == old(env.w.dataIn) && env.w.seen == old(env.w.seen)
    ensures h1.read == h.read + [b]
    ensures ok ==> Hearing(w0, env.w, clientUp, st0, dec.Abs(), h1, f1) && Traced(c0, stats.c, h1.es, f1)
    ensures !ok ==> BadAnswer(Framed.Run(st0, h1.read).1) && BridgeRx.Balanced(c0, stats.c)
  {
    ghost var es, d;
    ghost var c1 := stats.c;
    StandMore(st0, h.read, b, dec.Abs(), h.es);
    ok, f1, es, d := WaitByte(env, stats, dec, b, f, w0, clientUp, h.es, h.d, c0);
    h1 := Heard(h.read + [b], es, d);
    BridgeRx.BalancedTwice(c0, c1, stats.c);
  }

  /** What is wrong with a stream stays wrong. */
  lemma BadStays(st0: Framed.State, a: seq<byte>, b: seq<byte>)
    requires BadAnswer(Framed.Run(st0, a).1)
    ensures BadAnswer(Framed.Run(st0, a + b).1)
  {
    Framed.RunConcat(st0, a, b);
    var es, more := Framed.Run(st0, a).1, Framed.Run(Framed.Run(st0, a).0, b).1;
    Framed.FramesConcat(es, more);
    Framed.OthersConcat(Framed.FramesOf(es), Framed.FramesOf(more));
  }

  /** All bytes of one DATA read: the rest of the buffer is kept after the result. */
  method WaitBuffer(env: Env, stats: Stats, dec: Framed.FramedDecoder, buf: seq<byte>, f: Found,
                    ghost w0: World, ghost clientUp: bool, ghost st0: Framed.State, ghost h: Heard, ghost c0: Counters)
    returns (ok: bool, f1: Found, ghost h1: Heard)
    requires env.Valid() && dec.Valid() && Hearing(w0, env.w, clientUp, st0, dec.Abs(), h, f)
    requires Traced(c0, stats.c, h.es, f)
    modifies env`log, env`w, stats, dec, dec.header, dec.payload
    ensures env.Valid() && dec.Valid() && OnlyStream(w0, env.w)
    ensures env.w.dataIn == old(env.w.dataIn) && env.w.seen == old(env.w.seen)
    ensures h1.read == h.read + buf
    ensures ok ==> Hearing(w0, env.w, clientUp, st0, dec.Abs(), h1, f1) && Traced(c0, stats.c, h1.es, f1)
    ensures !ok ==> BadAnswer(Framed.Run(st0, h1.read).1) && BridgeRx.Balanced(c0, stats.c)
  {
    ok, f1, h1 := true, f, h;
    var i := 0;
    assert h.read + buf[..0] == h.read;
    while i < |buf|
      invariant 0 <= i <= |buf| && env.Valid() && dec.Valid() && ok
      invariant env.w.dataIn == old(env.w.dataIn) && env.w.seen == old(env.w.seen)
      invariant Hearing(w0, env.w, clientUp, st0, dec.Abs(), h1, f1) && h1.read == h.read + buf[..i]
      invariant Traced(c0, stats.c, h1.es, f1)
    {
      ok, f1, h1 := HearByte(env, stats, dec, buf[i], f1, w0, clientUp, st0, h1, c0);
      SliceMore(h.read, buf, i);
      i := i + 1;
      if !ok {
        BadStays(st0, h1.read, buf[i..]);
        h1 := h1.(read := h.read + buf);
        return;
      }
    }
    assert buf[..i] == buf;
  }

  lemma SliceMore(a: seq<byte>, buf: seq<byte>, i: nat)
    requires i < |buf|
    ensures a + buf[..i] + [buf[i]] == a + buf[..i + 1]
    ensures a + buf[..i + 1] + buf[i + 1..] == a + buf
  {
  }

  lemma StandMore(st0: Framed.State, read: seq<byte>, b: byte, st: Framed.State, es: seq<Framed.Event>)
    requires Standing(st0, read, st, es)
    ensures Standing(st0, read + [b], Framed.Step(st, b).0, es + Framed.AsSeq(Framed.Step(st, b).1))
  {
    Framed.RunConcat(st0, read, [b]);
    Framed.RunOne(st, b);
  }

  /** Nothing that was heard depends on the clock, the stop flag or the bytes not yet decoded. */
  lemma HearingKept(w0: World, w: World, clientUp: bool, st0: Framed.State, st: Framed.State,
                    h: Heard, f: Found, w1: World)
    requires Hearing(w0, w, clientUp, st0, st, h, f) && w1 == w.(seen := w1.seen, dataIn := w1.dataIn)
    ensures Hearing(w0, w1, clientUp, st0, st, h, f)
  {
  }

  lemma StartProgress(w: World, clientUp: bool)
    requires clientUp == HasClient(w)
    ensures Progress(w, w, clientUp, [], Done([], []), Found(None, clientUp, false))
  {
    assert w.rx + [] == w.rx && w.client.sent + [] == w.client.sent;
  }

  /** A wait for DATA may be given up. */
  predicate WaitOver(s: Inputs, deadline: int) {
    s.stopped || s.dataFailed || s.clock >= deadline
  }

  /** One round of the wait: give up (Lost) on a stop request, at the deadline, or when the socket times
      out or breaks; otherwise some bytes, or nothing yet. */
  method AwaitData(env: Env, deadline: int) returns (r: ReadResult)
    requires env.Valid()
    modifies env
    ensures env.Valid() && Later(old(env.w.seen), env.w.seen)
    ensures env.w == old(env.w).(seen := env.w.seen,
                                 dataIn := if r.Bytes? then old(env.w.dataIn) + r.data else old(env.w.dataIn))
    ensures r == Lost ==> WaitOver(env.w.seen, deadline)
    ensures r != Lost ==>
              TimeLeft(deadline, env.clock) < TimeLeft(deadline, old(env.clock))
              || (env.clock == old(env.clock) && env.ticks < old(env.ticks))
  {
    var over := StopOrLate(env, deadline);
    if over {
      return Lost;
    }
    r := SelectAndRead(env);
  }

  method StopOrLate(env: Env, deadline: int) returns (over: bool)
    requires env.Valid()
    modifies env
    ensures env.Valid() && Later(old(env.w.seen), env.w.seen) && env.w == old(env.w).(seen := env.w.seen)
    ensures over ==> WaitOver(env.w.seen, deadline)
    ensures !over ==>
              TimeLeft(deadline, env.clock) < TimeLeft(deadline, old(env.clock))
              || (env.clock == old(env.clock) && env.ticks < old(env.ticks))
  {
    over := env.ShouldStop();
    if !over {
      over := Late(env, deadline);
    }
  }

  method SelectAndRead(env: Env) returns (r: ReadResult)
    requires env.Valid()
    modifies env`log, env`w
    ensures env.Valid() && Later(old(env.w.seen), env.w.seen)
    ensures env.w == old(env.w).(seen := env.w.seen,
                                 dataIn := if r.Bytes? then old(env.w.dataIn) + r.data else old(env.w.dataIn))
    ensures r == Lost ==> env.w.seen.dataFailed
  {
    var ready := env.WaitData();
    if ready == Interrupted {
      return Intr;
    }
    if ready != Readiness.Ready {
      return Lost;
    }
    r := env.ReadData();
  }

  /** Where the wait is between two rounds: all that was read has been heard, and why it is over. */
  ghost predicate RoundDone(w0: World, w: World, clientUp: bool, st0: Framed.State, st: Framed.State,
                            h: Heard, f: Found, ok: bool, deadline: int) {
    && OnlyStream(w0, w) && Later(w0.seen, w.seen) && w.dataIn == w0.dataIn + h.read
    && (ok ==> Hearing(w0, w, clientUp, st0, st, h, f))
    && (!ok ==> BadAnswer(Framed.Run(st0, h.read).1)
                || (Hearing(w0, w, clientUp, st0, st, h, f) && WaitOver(w.seen, deadline)))
  }

  /** One round: read what there is and take all of it in. */
  method WaitRound(env: Env, stats: Stats, dec: Framed.FramedDecoder, deadline: int, f: Found,
                   ghost w0: World, ghost clientUp: bool, ghost st0: Framed.State, ghost h: Heard, ghost c0: Counters)
    returns (ok: bool, f1: Found, ghost h1: Heard)
    requires env.Valid() && dec.Valid() && RoundDone(w0, env.w, clientUp, st0, dec.Abs(), h, f, true, deadline)
    requires Traced(c0, stats.c, h.es, f)
    modifies env, stats, dec, dec.header, dec.payload
    ensures env.Valid() && dec.Valid() && RoundDone(w0, env.w, clientUp, st0, dec.Abs(), h1, f1, ok, deadline)
    ensures ok ==> Traced(c0, stats.c, h1.es, f1)
    ensures BridgeRx.Balanced(c0, stats.c)
    ensures !ok && !BadAnswer(Framed.Run(st0, h1.read).1) ==> f1 == f
    ensures ok ==>
              TimeLeft(deadline, env.clock) < TimeLeft(deadline, old(env.clock))
              || (env.clock == old(env.clock) && env.ticks < old(env.ticks))
  {
    ghost var w1 := env.w;
    f1, h1 := f, h;
    var r := AwaitData(env, deadline);
    ok := r != Lost;
    HearingKept(w0, w1, clientUp, st0, dec.Abs(), h, f, env.w);
    if r.Bytes? {
      Assoc(w0.dataIn, h.read, r.data);
      ok, f1, h1 := WaitBuffer(env, stats, dec, r.data, f, w0, clientUp, st0, h, c0);
    }
  }

  /** bridge_loraham_wait_tx_result. `h.read` is what was read during the wait. It is Ok exactly if these bytes
      hold a well-formed first TX_RESULT and no stream error, and then that is `result`; the decoder state is
      the fold of them, every other frame was handled once and in order, the client was sent their KISS frames
      until a write failed, and later TX_RESULTs count as drops. ErrTxResult otherwise: the answer cannot come
      any more, a stop was requested, the socket failed or timed out, or the time is over. */
  method WaitTxResult(env: Env, stats: Stats, dec: Framed.FramedDecoder, clientUp: bool)
    returns (code: Code, result: Framed.TxResult, clientError: bool, ghost h: Heard, ghost g: Found)
    requires env.Valid() && dec.Valid() && clientUp == HasClient(env.w)
    modifies env, stats, dec, dec.header, dec.payload
    ensures env.Valid() && dec.Valid() && OnlyStream(old(env.w), env.w) && Later(old(env.w.seen), env.w.seen)
    ensures env.w.dataIn == old(env.w.dataIn) + h.read
    ensures code == Ok || code == ErrTxResult
    ensures var answer := Answer(Framed.Run(old(dec.Abs()), h.read).1);
            && (code == Ok <==> answer.Some?)
            && (code == Ok ==> answer == Some(result))
    ensures code == Ok ==>
              && g == Found(Some(result), clientUp && !clientError, clientError)
              && Hearing(old(env.w), env.w, clientUp, old(dec.Abs()), dec.Abs(), h, g)
              && BridgeRx.Traces(stats.c) + 1 >= BridgeRx.Traces(old(stats.c)) + |Framed.FramesOf(h.es)|
    ensures code != Ok ==>
              BadAnswer(Framed.Run(old(dec.Abs()), h.read).1)
              || (Hearing(old(env.w), env.w, clientUp, old(dec.Abs()), dec.Abs(), h, g)
                  && WaitOver(env.w.seen, old(env.clock) + env.cfg.busyTimeoutMs))
    ensures BridgeRx.Balanced(old(stats.c), stats.c)
  {
    result := Framed.TxResult(0, 0, 0);
    h := Heard([], [], Done([], []));
    StartProgress(env.w, clientUp);
    assert env.w.dataIn + [] == env.w.dataIn;
    ghost var w0, st0, c0 := env.w, dec.Abs(), stats.c;
    var f := Found(None, clientUp, false);
    var deadline := Deadline(env, env.cfg.busyTimeoutMs);
    HearingKept(w0, w0, clientUp, st0, st0, h, f, env.w);
    while f.result.None?
      invariant env.Valid() && dec.Valid()
      invariant RoundDone(w0, env.w, clientUp, st0, dec.Abs(), h, f, true, deadline)
      invariant Traced(c0, stats.c, h.es, f)
      decreases TimeLeft(deadline, env.clock), env.ticks
    {
      var ok;
      ok, f, h := WaitRound(env, stats, dec, deadline, f, w0, clientUp, st0, h, c0);
      if !ok {
        NoAnswer(w0, env.w, clientUp, st0, dec.Abs(), h, f, deadline);
        return ErrTxResult, result, false, h, f;
      }
    }
    AnswerFound(w0, env.w, clientUp, st0, dec.Abs(), h, f);
    return Ok, f.result.value, f.clientError, h, f;
  }

  lemma AnswerFound(w0: World, w: World, clientUp: bool, st0: Framed.State, st: Framed.State, h: Heard, f: Found)
    requires Hearing(w0, w, clientUp, st0, st, h, f) && f.result.Some?
    ensures Answer(Framed.Run(st0, h.read).1) == f.result
  {
  }

  lemma NoAnswer(w0: World, w: World, clientUp: bool, st0: Framed.State, st: Framed.State,
                 h: Heard, f: Found, deadline: int)
    requires RoundDone(w0, w, clientUp, st0, st, h, f, false, deadline)
    requires f.result.None? || BadAnswer(Framed.Run(st0, h.read).1)
    ensures Answer(Framed.Run(st0, h.read).1) == None
    ensures BadAnswer(Framed.Run(st0, h.read).1)
            || (Hearing(w0, w, clientUp, st0, st, h, f) && WaitOver(w.seen, deadline))
  {
  }
}
