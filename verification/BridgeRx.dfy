/** The RX path (bridge_rx.c): daemon frames become KISS frames for the connected client. */
module BridgeRx {
  import opened Common
  import opened Runtime
  import opened RxPath
  import opened Trace
  import Ax25
  import Framed
  import Kiss
  import Scanner
  import Tnc2

  // ---------- counters ----------

  /** Only RX counters move, only upwards. */
  predicate RxOnly(a: Counters, b: Counters) {
    && b == a.(loraRx := b.loraRx, loraDrop := b.loraDrop, framedErrors := b.framedErrors,
               tnc2Rx := b.tnc2Rx, tnc2Drop := b.tnc2Drop, ax25Tx := b.ax25Tx, ax25Drop := b.ax25Drop,
               kissTx := b.kissTx, kissDrop := b.kissDrop)
    && a.loraRx <= b.loraRx && a.loraDrop <= b.loraDrop && a.framedErrors <= b.framedErrors
    && a.tnc2Rx <= b.tnc2Rx && a.tnc2Drop <= b.tnc2Drop && a.ax25Tx <= b.ax25Tx && a.ax25Drop <= b.ax25Drop
    && a.kissTx <= b.kissTx && a.kissDrop <= b.kissDrop
  }

  /** Each stage hands on what it does not drop: the increments of the stages balance. */
  predicate Balanced(a: Counters, b: Counters) {
    && RxOnly(a, b)
    && b.loraRx - a.loraRx == (b.tnc2Rx - a.tnc2Rx) + (b.tnc2Drop - a.tnc2Drop)
    && b.tnc2Rx - a.tnc2Rx == (b.ax25Tx - a.ax25Tx) + (b.ax25Drop - a.ax25Drop)
    && b.ax25Tx - a.ax25Tx == (b.kissTx - a.kissTx) + (b.kissDrop - a.kissDrop)
  }

  /** The frame left a trace in the statistics. */
  predicate Counted(a: Counters, b: Counters) {
    b.loraRx > a.loraRx || b.loraDrop > a.loraDrop || b.framedErrors > a.framedErrors
  }

  /** How many traces daemon frames have left in the statistics. */
  function Traces(c: Counters): nat {
    c.loraRx + c.loraDrop + c.framedErrors
  }

  // ---------- methods ----------

  /** bridge_rx_send_tnc2_to_kiss_client, with a client connected. */
  method SendText(env: Env, stats: Stats, text: seq<byte>)
    returns (code: Code, ghost sent: seq<(seq<byte>, bool)>)
    requires env.Open()
    modifies env`log, env`w, stats
    ensures env.Open() && env.w == WithClient(old(env.w), sent)
    ensures Delivered([text], false, sent, code)
    ensures Balanced(old(stats.c), stats.c.(loraRx := stats.c.loraRx + 1))
    ensures stats.c.loraRx == old(stats.c).loraRx && stats.c.loraDrop == old(stats.c).loraDrop
  {
    sent := [];
    CStrNoNul(text);
    WithClientTwice(env.w, [], []);
    var f := Tnc2.ParseLine(CStr(text));
    if f.Failure? {
      stats.c := stats.c.(tnc2Drop := stats.c.tnc2Drop + 1);
      return f.code, sent;
    }
    stats.c := stats.c.(tnc2Rx := stats.c.tnc2Rx + 1);
    var kiss := EncodeForClient(f.value, CStr(text));
    stats.c := stats.c.(ax25Tx := stats.c.ax25Tx + 1);
    OneDelivered(text, kiss);
    code, sent := WriteKiss(env, stats, kiss);
  }

  method WriteKiss(env: Env, stats: Stats, kiss: seq<byte>) returns (code: Code, ghost sent: seq<(seq<byte>, bool)>)
    requires env.Open()
    modifies env`log, env`w, stats
    ensures env.Open() && env.w == WithClient(old(env.w), sent)
    ensures (sent == [(kiss, true)] && code == Ok && stats.c == old(stats.c).(kissTx := old(stats.c).kissTx + 1))
         || (sent == [(kiss, false)] && code == ErrClientSocket
             && stats.c == old(stats.c).(kissDrop := old(stats.c).kissDrop + 1))
  {
    var ok := env.WriteClient(kiss);
    sent := [(kiss, ok)];
    if !ok {
      stats.c := stats.c.(kissDrop := stats.c.kissDrop + 1);
      return ErrClientSocket, sent;
    }
    stats.c := stats.c.(kissTx := stats.c.kissTx + 1);
    return Ok, sent;
  }

  /** The two encoders into their fixed buffers. */
  method EncodeForClient(f: Ax25.Frame, ghost line: seq<byte>) returns (kiss: seq<byte>)
    requires NUL !in line && Tnc2.Parse(line) == Success(f)
    ensures kiss == Kiss.Encode(Ax25.EncodeUi(f))
  {
    EncodersCannotFail(line);
    var ax25Raw, kissRaw := new byte[AX25_MAX_FRAME], new byte[KISS_MAX_FRAME];
    var code, len := Ax25.EncodeUiInto(f, ax25Raw);
    assert code == Ok;
    code, len := Kiss.EncodeDataFrame(ax25Raw[..len], kissRaw);
    assert code == Ok;
    kiss := kissRaw[..len];
  }

  /** What one call of the chunk handler scans. */
  function ChunkScan(c: Scanner.Core, pending: seq<byte>, data: seq<byte>): Scanner.Fed
    requires Scanner.CoreValid(c)
  {
    if |pending| + |data| > Scanner.MAX_PENDING then Scanner.Fed([], true, Scanner.INIT)
    else if pending + data == [] then Scanner.Prepend(Scanner.Flush(c), Scanner.Fed([], false, Scanner.INIT))
    else Scanner.Feed(c, pending + data)
  }

  /** Texts already handled, then what is still to come. */
  function Onto(done: seq<seq<byte>>, f: Scanner.Fed): Scanner.Fed {
    Scanner.Fed(done + f.texts, f.overflow, f.core)
  }

  lemma OntoStep(done: seq<seq<byte>>, o: Scanner.Out, f: Scanner.Fed)
    ensures o == Scanner.Nothing ==> Onto(done, Scanner.Prepend(o, f)) == Onto(done, f)
    ensures o == Scanner.Overflow ==> Onto(done, Scanner.Prepend(o, f)) == Scanner.Fed(done, true, Scanner.INIT)
    ensures o.Packet? ==> Onto(done, Scanner.Prepend(o, f)) == Onto(done + [o.text], f)
    ensures Onto([], f) == f
  {
    assert done + [] == done && [] + f.texts == f.texts;
    if o.Packet? {
      Assoc(done, [o.text], f.texts);
    }
  }

  /** One call of the extractor, seen from what is still to come. */
  method ExtractOne(rx: Scanner.RxScanner, data: seq<byte>) returns (o: Scanner.Out)
    requires rx.Valid()
    modifies rx, rx.buf, rx.pending
    ensures rx.Valid()
    ensures ChunkScan(old(rx.Abs()), old(rx.Pending()), data)
         == Scanner.Prepend(o, Scanner.Feed(rx.Abs(), rx.Pending()))
    ensures |rx.Pending()| <= |old(rx.Pending())| + |data|
    ensures o == Scanner.Nothing ==> rx.Pending() == []
    ensures |old(rx.Pending())| + |data| > 0 ==> |rx.Pending()| < |old(rx.Pending())| + |data|
  {
    ghost var c, p := rx.Abs(), rx.Pending();
    Scanner.PullFeeds(c, p + data);
    o := rx.Extract(data);
  }

  /** What the handler does with one result of the extractor. */
  method HandleOut(env: Env, stats: Stats, o: Scanner.Out) returns (code: Code, ghost sent: seq<(seq<byte>, bool)>)
    requires env.Open()
    modifies env`log, env`w, stats
    ensures env.Open() && env.w == WithClient(old(env.w), sent)
    ensures Balanced(old(stats.c), stats.c)
    ensures o.Packet? ==> Delivered([o.text], false, sent, code) && stats.c.loraRx == old(stats.c).loraRx + 1
    ensures o == Scanner.Nothing ==> code == Ok && sent == [] && stats.c == old(stats.c)
    ensures o == Scanner.Overflow ==>
              code == ErrLong && sent == [] && stats.c == old(stats.c).(loraDrop := old(stats.c).loraDrop + 1)
  {
    sent := [];
    assert env.w.client.sent + [] == env.w.client.sent;
    match o {
      case Nothing =>
        code := Ok;
      case Overflow =>
        stats.c := stats.c.(loraDrop := stats.c.loraDrop + 1);
        code := ErrLong;
      case Packet(text) =>
        code, sent := SendText(env, stats, text);
        stats.c := stats.c.(loraRx := stats.c.loraRx + 1);
    }
  }

  lemma OnePacketMore(done: seq<seq<byte>>, sent: seq<(seq<byte>, bool)>, text: seq<byte>,
                      one: seq<(seq<byte>, bool)>, code: Code)
    requires Delivered(done, false, sent, Ok) && Delivered([text], false, one, code)
    ensures Delivered(done + [text], false, sent + one, code)
  {
    DeliveredJoin(done, sent, [text], false, one, code);
  }

  lemma WithClientTwice(w: World, a: seq<(seq<byte>, bool)>, b: seq<(seq<byte>, bool)>)
    ensures WithClient(WithClient(w, a), b) == WithClient(w, a + b)
    ensures WithClient(w, []) == w
  {
    Assoc(w.client.sent, a, b);
    Assoc(w.client.open, a, b);
    assert w.client.sent + [] == w.client.sent && w.client.open + [] == w.client.open;
  }

  lemma OverflowEnds(done: seq<seq<byte>>, sent: seq<(seq<byte>, bool)>)
    requires Delivered(done, false, sent, Ok)
    ensures Delivered(done, true, sent, ErrLong)
  {
    DeliveredJoin(done, sent, [], true, [], ErrLong);
    assert done + [] == done && sent + [] == sent;
  }

  /** What one call of the chunk handler owes: every text of the scan delivered until one fails, and the
      counters to match. */
  ghost predicate ChunkDone(f: Scanner.Fed, sent: seq<(seq<byte>, bool)>, code: Code, a: Counters, b: Counters) {
    && Delivered(f.texts, f.overflow, sent, code)
    && Balanced(a, b)
    && (b.loraRx > a.loraRx <==> f.texts != [])
    && (f.texts == [] && f.overflow ==> b.loraDrop > a.loraDrop)
  }

  /** What one result of the extractor adds to the delivery of the scan `f`; `rest` is still to come. */
  lemma RoundDone(f: Scanner.Fed, done: seq<seq<byte>>, sent: seq<(seq<byte>, bool)>, o: Scanner.Out, rest: Scanner.Fed,
                  one: seq<(seq<byte>, bool)>, code: Code) returns (done1: seq<seq<byte>>)
    requires f == Onto(done, Scanner.Prepend(o, rest)) && Delivered(done, false, sent, Ok)
    requires o.Packet? ==> Delivered([o.text], false, one, code)
    requires !o.Packet? ==> one == [] && code == if o == Scanner.Overflow then ErrLong else Ok
    ensures |done1| == |done| + (if o.Packet? then 1 else 0)
    ensures code == Ok ==> f == Onto(done1, rest) && Delivered(done1, false, sent + one, Ok)
    ensures code != Ok ==> Delivered(f.texts, f.overflow, sent + one, code) && done1 <= f.texts
    ensures code != Ok && done1 == done ==> f.texts == done && f.overflow && o == Scanner.Overflow
  {
    OntoStep(done, o, rest);
    done1 := done;
    assert sent + [] == sent;
    if o.Packet? {
      OnePacketMore(done, sent, o.text, one, code);
      done1 := done + [o.text];
      if code != Ok {
        DeliveredStops(done1, sent + one, rest.texts, f.overflow, code);
      }
    } else if o == Scanner.Overflow {
      OverflowEnds(done, sent);
    }
  }

  /** One round of the chunk handler. `f` is the whole scan, `done` and `sent` what earlier rounds did. */
  method ChunkRound(env: Env, stats: Stats, rx: Scanner.RxScanner, chunk: seq<byte>,
                    ghost f: Scanner.Fed, ghost done: seq<seq<byte>>, ghost sent: seq<(seq<byte>, bool)>)
    returns (code: Code, ghost done1: seq<seq<byte>>, ghost one: seq<(seq<byte>, bool)>)
    requires env.Open() && rx.Valid()
    requires f == Onto(done, ChunkScan(rx.Abs(), rx.Pending(), chunk)) && Delivered(done, false, sent, Ok)
    modifies env`log, env`w, stats, rx, rx.buf, rx.pending
    ensures env.Open() && rx.Valid() && env.w == WithClient(old(env.w), one)
    ensures |old(rx.Pending())| + |chunk| > 0 ==> |rx.Pending()| < |old(rx.Pending())| + |chunk|
    ensures |rx.Pending()| <= |old(rx.Pending())| + |chunk|
    ensures Balanced(old(stats.c), stats.c) && stats.c.loraRx == old(stats.c).loraRx + |done1| - |done|
    ensures code == Ok ==>
              f == Onto(done1, Scanner.Feed(rx.Abs(), rx.Pending())) && Delivered(done1, false, sent + one, Ok)
    ensures code != Ok ==> Delivered(f.texts, f.overflow, sent + one, code) && done1 <= f.texts
    ensures code != Ok && done1 == done ==> f.texts == done && f.overflow && stats.c.loraDrop > old(stats.c).loraDrop
  {
    var o := ExtractOne(rx, chunk);
    ghost var rest := Scanner.Feed(rx.Abs(), rx.Pending());
    code, one := HandleOut(env, stats, o);
    done1 := RoundDone(f, done, sent, o, rest, one, code);
  }

  /** Texts delivered, and counted. */
  ghost predicate SoFar(done: seq<seq<byte>>, sent: seq<(seq<byte>, bool)>, a: Counters, b: Counters) {
    Delivered(done, false, sent, Ok) && Balanced(a, b) && b.loraRx == a.loraRx + |done|
  }

  /** One more round, after earlier ones that started from `w0` and `c0`. */
  method ChunkMore(env: Env, stats: Stats, rx: Scanner.RxScanner, chunk: seq<byte>, ghost f: Scanner.Fed,
                   ghost done: seq<seq<byte>>, ghost sent: seq<(seq<byte>, bool)>, ghost w0: World, ghost c0: Counters)
    returns (code: Code, ghost done1: seq<seq<byte>>, ghost sent1: seq<(seq<byte>, bool)>)
    requires env.Open() && rx.Valid() && env.w == WithClient(w0, sent) && SoFar(done, sent, c0, stats.c)
    requires f == Onto(done, ChunkScan(rx.Abs(), rx.Pending(), chunk))
    modifies env`log, env`w, stats, rx, rx.buf, rx.pending
    ensures env.Open() && rx.Valid() && env.w == WithClient(w0, sent1)
    ensures |old(rx.Pending())| + |chunk| > 0 ==> |rx.Pending()| < |old(rx.Pending())| + |chunk|
    ensures |rx.Pending()| <= |old(rx.Pending())| + |chunk|
    ensures code == Ok ==> f == Onto(done1, Scanner.Feed(rx.Abs(), rx.Pending())) && SoFar(done1, sent1, c0, stats.c)
    ensures code != Ok ==> ChunkDone(f, sent1, code, c0, stats.c)
  {
    ghost var one, c1 := [], stats.c;
    code, done1, one := ChunkRound(env, stats, rx, chunk, f, done, sent);
    BalancedTwice(c0, c1, stats.c);
    WithClientTwice(w0, sent, one);
    sent1 := sent + one;
  }

  /** bridge_rx_handle_loraham_chunk: extract, deliver, and drain what is queued without forcing the tail
      out. */
  method HandleChunk(env: Env, stats: Stats, rx: Scanner.RxScanner, data: seq<byte>)
    returns (code: Code, ghost sent: seq<(seq<byte>, bool)>)
    requires env.Open() && rx.Valid()
    modifies env`log, env`w, stats, rx, rx.buf, rx.pending
    ensures env.Open() && rx.Valid() && env.w == WithClient(old(env.w), sent)
    ensures var f := ChunkScan(old(rx.Abs()), old(rx.Pending()), data);
            && ChunkDone(f, sent, code, old(stats.c), stats.c)
            && (code == Ok ==> rx.Abs() == f.core && rx.Pending() == [])
  {
    ghost var f := ChunkScan(rx.Abs(), rx.Pending(), data);
    ghost var done: seq<seq<byte>> := [];
    sent := [];
    OntoStep([], Scanner.Nothing, f);
    WithClientTwice(env.w, [], []);
    var chunk := data;
    while true
      invariant env.Open() && rx.Valid() && env.w == WithClient(old(env.w), sent)
      invariant f == Onto(done, ChunkScan(rx.Abs(), rx.Pending(), chunk))
      invariant SoFar(done, sent, old(stats.c), stats.c)
      decreases |rx.Pending()| + |chunk|
    {
      code, done, sent := ChunkMore(env, stats, rx, chunk, f, done, sent, old(env.w), old(stats.c));
      if code != Ok {
        return;
      }
      if rx.pendingLen == 0 {
        assert done + [] == done;
        return;
      }
      chunk := [];
      assert rx.Pending() + [] == rx.Pending();
    }
  }

  lemma BalancedTwice(a: Counters, b: Counters, c: Counters)
    requires Balanced(a, b) && Balanced(b, c)
    ensures Balanced(a, c)
  {
  }

  /** The flush after a packet, whose scan is `f` up to there. */
  method FlushPacket(env: Env, stats: Stats, rx: Scanner.RxScanner, ghost f: Scanner.Fed,
                     ghost sent0: seq<(seq<byte>, bool)>, ghost w0: World)
    returns (code: Code, ghost sent: seq<(seq<byte>, bool)>)
    requires env.Open() && rx.Valid() && rx.Abs() == f.core && rx.Pending() == []
    requires env.w == WithClient(w0, sent0) && Delivered(f.texts, false, sent0, Ok)
    modifies env`log, env`w, stats, rx, rx.buf, rx.pending
    ensures env.Open() && env.w == WithClient(w0, sent)
    ensures var g := ChunkScan(f.core, [], []);
            && Delivered(f.texts + g.texts, g.overflow, sent, code)
            && (stats.c.loraRx > old(stats.c).loraRx <==> g.texts != [])
            && (g.texts == [] && g.overflow ==> stats.c.loraDrop > old(stats.c).loraDrop)
    ensures Balanced(old(stats.c), stats.c)
  {
    ghost var g := ChunkScan(f.core, [], []);
    ghost var more;
    code, more := HandleChunk(env, stats, rx, []);
    WithClientTwice(w0, sent0, more);
    DeliveredJoin(f.texts, sent0, g.texts, g.overflow, more, code);
    sent := sent0 + more;
  }

  /** The texts of one packet, and of the flush after it. */
  method ScanPacket(env: Env, stats: Stats, packet: seq<byte>) returns (code: Code, ghost sent: seq<(seq<byte>, bool)>)
    requires env.Open() && |packet| <= Scanner.MAX_PENDING
    modifies env`log, env`w, stats
    ensures env.Open() && env.w == WithClient(old(env.w), sent)
    ensures var f := PacketScan(packet);
            && Delivered(f.texts, f.overflow, sent, code)
            && (code == Ok ==> (stats.c.loraRx > old(stats.c).loraRx <==> f.texts != []))
    ensures Balanced(old(stats.c), stats.c) && (code != Ok ==> Counted(old(stats.c), stats.c))
  {
    var rx := new Scanner.RxScanner();
    ghost var w := env.w;
    PacketIsTwoChunks(packet);
    code, sent := HandleChunk(env, stats, rx, packet);
    ghost var f := ChunkScan(Scanner.INIT, [], packet);
    ghost var g := ChunkScan(f.core, [], []);
    if code != Ok {
      FirstChunkFails(f, g, sent, code);
      return;
    }
    NoOverflowWhenOk(f.texts, f.overflow, sent);
    code, sent := FlushPacket(env, stats, rx, f, sent, w);
  }

  /** bridge_rx_send_loraham_packet_to_kiss_client: scan one packet and flush; a packet without any text is
      an error. */
  method SendPacket(env: Env, stats: Stats, packet: seq<byte>)
    returns (code: Code, ghost sent: seq<(seq<byte>, bool)>)
    requires env.Open() && |packet| <= Scanner.MAX_PENDING
    modifies env`log, env`w, stats
    ensures env.Open() && env.w == WithClient(old(env.w), sent)
    ensures PacketDone(packet, sent, code)
    ensures Balanced(old(stats.c), stats.c) && Counted(old(stats.c), stats.c)
  {
    var before := stats.c.loraRx;
    code, sent := ScanPacket(env, stats, packet);
    if code == Ok && stats.c.loraRx == before {
      stats.c := stats.c.(loraDrop := stats.c.loraDrop + 1);
      code := ErrFormat;
    }
  }

  lemma PacketIsTwoChunks(packet: seq<byte>)
    requires |packet| <= Scanner.MAX_PENDING
    ensures var f := ChunkScan(Scanner.INIT, [], packet);
              if f.overflow then PacketScan(packet) == Scanner.Scan(f.texts, true)
              else
                var g := ChunkScan(f.core, [], []);
                PacketScan(packet) == Scanner.Scan(f.texts + g.texts, g.overflow)
  {
    assert [] + packet == packet && packet + [] == packet;
    Scanner.WholeScan(packet);
    var f := Scanner.Feed(Scanner.INIT, packet);
    Scanner.FeedThenScan(Scanner.INIT, packet, []);
    if packet == [] {
      assert ChunkScan(Scanner.INIT, [], packet) == f;
    }
  }

  lemma FirstChunkFails(f: Scanner.Fed, g: Scanner.Fed, sent: seq<(seq<byte>, bool)>, code: Code)
    requires Delivered(f.texts, f.overflow, sent, code) && code != Ok
    ensures !f.overflow ==> Delivered(f.texts + g.texts, g.overflow, sent, code) && f.texts != []
  {
    if !f.overflow {
      DeliveredStops(f.texts, sent, g.texts, g.overflow, code);
    }
  }

  /** The client after some writes that frames account for. */
  function Served(c: Client, sent: seq<(seq<byte>, bool)>): Client {
    c.(sent := c.sent + sent, lost := c.lost || !AllSent(sent))
  }

  function FrameWorld(w: World, frame: Framed.Frame, clientUp: bool, sent: seq<(seq<byte>, bool)>): World {
    w.(rx := w.rx + [(frame, clientUp)], client := Served(w.client, sent))
  }

  /** bridge_rx_handle_framed_frame: every frame leaves a trace in the statistics, and accounts for what it makes
      the client be sent. */
  method HandleFrame(env: Env, stats: Stats, clientUp: bool, frame: Framed.Frame)
    returns (code: Code, ghost sent: seq<(seq<byte>, bool)>)
    requires env.Valid() && |frame.payload| <= Framed.MAX_PAYLOAD && clientUp == HasClient(env.w)
    modifies env`log, env`w, stats
    ensures env.Valid() && env.w == FrameWorld(old(env.w), frame, clientUp, sent)
    ensures FrameDone(frame, clientUp, sent, code)
    ensures Balanced(old(stats.c), stats.c) && Counted(old(stats.c), stats.c)
  {
    code, sent := PassOn(env, stats, clientUp, frame);
    ServedByFrame(frame, clientUp, sent, code);
    assert [] + sent == sent;
    env.Record(Handled(frame, clientUp, sent));
  }

  method PassOn(env: Env, stats: Stats, clientUp: bool, frame: Framed.Frame)
    returns (code: Code, ghost sent: seq<(seq<byte>, bool)>)
    requires env.Open() && |frame.payload| <= Framed.MAX_PAYLOAD
    modifies env`log, env`w, stats
    ensures env.Open() && env.w == WithClient(old(env.w), sent)
    ensures FrameDone(frame, clientUp, sent, code)
    ensures Balanced(old(stats.c), stats.c) && Counted(old(stats.c), stats.c)
  {
    sent := [];
    WithClientTwice(env.w, [], []);
    if frame.kind == Framed.RX_PACKET {
      if !clientUp {
        stats.c := stats.c.(loraDrop := stats.c.loraDrop + 1);
        return Ok, sent;
      }
      if |frame.payload| < META_LEN {
        stats.c := stats.c.(loraDrop := stats.c.loraDrop + 1);
        return Ok, sent;
      }
      code, sent := SendPacket(env, stats, frame.payload[META_LEN..]);
      return;
    }
    if frame.kind == Framed.FRAME_ERROR {
      stats.c := stats.c.(framedErrors := stats.c.framedErrors + 1);
      return Ok, sent;
    }
    stats.c := stats.c.(loraDrop := stats.c.loraDrop + 1);
    return Ok, sent;
  }

  // ---------- a chunk of the framed stream ----------

  /** The frames of some RX records. */
  function Bare(rx: seq<(Framed.Frame, bool)>): seq<Framed.Frame> {
    if rx == [] then [] else [rx[0].0] + Bare(rx[1..])
  }

  lemma {:induction false} BareConcat(a: seq<(Framed.Frame, bool)>, b: seq<(Framed.Frame, bool)>)
    ensures Bare(a + b) == Bare(a) + Bare(b)
    decreases |a|
  {
    if a == [] {
      assert a + b == b;
      assert [] + Bare(b) == Bare(b);
    } else {
      Uncons(a, b);
      assert (a + b)[0] == a[0] && (a + b)[1..] == a[1..] + b;
      BareConcat(a[1..], b);
      Assoc([a[0].0], Bare(a[1..]), Bare(b));
    }
  }

  /** Frames given to the RX path with one client status. */
  function Tagged(frames: seq<Framed.Frame>, clientUp: bool): seq<(Framed.Frame, bool)> {
    if frames == [] then [] else [(frames[0], clientUp)] + Tagged(frames[1..], clientUp)
  }

  lemma {:induction false} TaggedConcat(a: seq<Framed.Frame>, b: seq<Framed.Frame>, clientUp: bool)
    ensures Tagged(a + b, clientUp) == Tagged(a, clientUp) + Tagged(b, clientUp)
    decreases |a|
  {
    if a == [] {
      assert a + b == b;
      assert [] + Tagged(b, clientUp) == Tagged(b, clientUp);
    } else {
      Uncons(a, b);
      assert (a + b)[0] == a[0] && (a + b)[1..] == a[1..] + b;
      TaggedConcat(a[1..], b, clientUp);
      Assoc([(a[0], clientUp)], Tagged(a[1..], clientUp), Tagged(b, clientUp));
    }
  }

  /** What handling frames changes: the frames on record, and what was written to the client. */
  predicate OnlyRx(a: World, b: World, rx: seq<(Framed.Frame, bool)>, sent: seq<(seq<byte>, bool)>) {
    b == a.(rx := a.rx + rx, client := Served(a.client, sent))
  }

  lemma OnlyRxTwice(a: World, rx: seq<(Framed.Frame, bool)>, sent: seq<(seq<byte>, bool)>, b: World,
                    rx1: seq<(Framed.Frame, bool)>, sent1: seq<(seq<byte>, bool)>, c: World)
    requires OnlyRx(a, b, rx, sent) && OnlyRx(b, c, rx1, sent1)
    ensures OnlyRx(a, c, rx + rx1, sent + sent1)
  {
    Assoc(a.rx, rx, rx1);
    Assoc(a.client.sent, sent, sent1);
    AllSentConcat(sent, sent1);
  }

  /** The frames of some decoder events, as the RX path records them. */
  function RxOf(es: seq<Framed.Event>, clientUp: bool): seq<(Framed.Frame, bool)> {
    Tagged(Framed.FramesOf(es), clientUp)
  }

  lemma RxConcat(a: seq<Framed.Event>, b: seq<Framed.Event>, clientUp: bool)
    ensures RxOf(a + b, clientUp) == RxOf(a, clientUp) + RxOf(b, clientUp)
    ensures Framed.Clean(a + b) == (Framed.Clean(a) && Framed.Clean(b))
  {
    Framed.FramesConcat(a, b);
    TaggedConcat(Framed.FramesOf(a), Framed.FramesOf(b), clientUp);
  }

  lemma RxOne(e: Framed.Event, clientUp: bool)
    ensures RxOf(Framed.AsSeq(e), clientUp) == if e.Got? then [(e.frame, clientUp)] else []
    ensures Framed.Clean(Framed.AsSeq(e)) == (e != Framed.TooLong)
  {
    if e.Got? {
      assert [e][1..] == [];
      assert Framed.FramesOf([e]) == [e.frame] + [];
      assert Tagged([e.frame], clientUp) == [(e.frame, clientUp)] + [];
    } else if e == Framed.TooLong {
      assert [e][1..] == [];
      assert Framed.FramesOf([e]) == [] + [];
    }
  }

  /** What one decoder event leads to. */
  ghost predicate EventTold(e: Framed.Event, clientUp: bool, sent: seq<(seq<byte>, bool)>, code: Code) {
    match e
    case Nothing => sent == [] && code == Ok
    case TooLong => sent == [] && code == ErrLong
    case Got(frame) => FrameDone(frame, clientUp, sent, code)
  }

  /** Some decoder events, none of which led to a complaint. */
  ghost predicate SoGood(es: seq<Framed.Event>, clientUp: bool, sent: seq<(seq<byte>, bool)>) {
    && Framed.Clean(es) && AllFine(Framed.FramesOf(es), clientUp)
    && AllSent(sent) && Outputs(sent) == Outgoing(Framed.FramesOf(es), clientUp)
  }

  lemma OneOutgoing(frame: Framed.Frame, rest: seq<Framed.Frame>, clientUp: bool)
    ensures Outgoing([frame] + rest, clientUp)
         == FrameKiss(frame, clientUp) + (if Fine(frame, clientUp) then Outgoing(rest, clientUp) else [])
    ensures AllFine([frame] + rest, clientUp) == (Fine(frame, clientUp) && AllFine(rest, clientUp))
  {
    assert ([frame] + rest)[1..] == rest;
  }

  lemma GoodMore(es: seq<Framed.Event>, sent: seq<(seq<byte>, bool)>, e: Framed.Event, clientUp: bool,
                 one: seq<(seq<byte>, bool)>)
    requires SoGood(es, clientUp, sent) && EventTold(e, clientUp, one, Ok)
    ensures SoGood(es + Framed.AsSeq(e), clientUp, sent + one)
  {
    match e {
      case Nothing =>
        assert es + [] == es && sent + [] == sent;
      case TooLong =>
        assert false;
      case Got(frame) =>
        GoodFrame(es, sent, frame, clientUp, one);
    }
  }

  lemma GoodFrame(es: seq<Framed.Event>, sent: seq<(seq<byte>, bool)>, frame: Framed.Frame, clientUp: bool,
                  one: seq<(seq<byte>, bool)>)
    requires SoGood(es, clientUp, sent) && FrameDone(frame, clientUp, one, Ok)
    ensures SoGood(es + [Framed.Got(frame)], clientUp, sent + one)
  {
    FrameOk(frame, clientUp, one, Ok);
    FrameBytes(frame, clientUp, one, Ok);
    AllSentConcat(sent, one);
    OutputsConcat(sent, one);
    RxOne(Framed.Got(frame), clientUp);
    Framed.FramesConcat(es, [Framed.Got(frame)]);
    FramesOne(frame);
    OutgoingConcat(Framed.FramesOf(es), [frame], clientUp);
    OneOutgoing(frame, [], clientUp);
    assert [frame] + [] == [frame] && FrameKiss(frame, clientUp) + [] == FrameKiss(frame, clientUp);
  }

  lemma FramesOne(frame: Framed.Frame)
    ensures Framed.FramesOf([Framed.Got(frame)]) == [frame] && Framed.Clean([Framed.Got(frame)])
  {
    assert [Framed.Got(frame)][1..] == [];
  }

  lemma GoodAtEnd(es: seq<Framed.Event>, clientUp: bool, sent: seq<(seq<byte>, bool)>)
    requires SoGood(es, clientUp, sent)
    ensures ChunkTold(es, clientUp, sent, Ok)
  {
    CleanConcat(es, []);
    assert es + [] == es && Framed.FramesOf(es) + [] == Framed.FramesOf(es);
  }

  /** Good events, then a frame that is complained about, then anything. */
  lemma ToldAtFrame(es: seq<Framed.Event>, sent: seq<(seq<byte>, bool)>, frame: Framed.Frame, rest: seq<Framed.Event>,
                    clientUp: bool, one: seq<(seq<byte>, bool)>, code: Code)
    requires SoGood(es, clientUp, sent) && FrameDone(frame, clientUp, one, code) && code != Ok
    ensures ChunkTold(es + ([Framed.Got(frame)] + rest), clientUp, sent + one, code)
  {
    var more := [Framed.Got(frame)] + rest;
    assert more[1..] == rest;
    FrameOk(frame, clientUp, one, code);
    AllSentConcat(sent, one);
    Framed.FramesConcat(es, more);
    OutgoingConcat(Framed.FramesOf(es), Framed.FramesOf(more), clientUp);
    OneOutgoing(frame, Framed.FramesOf(rest), clientUp);
    BytesAtFrame(es, sent, frame, rest, clientUp, one, code);
  }

  lemma BytesAtFrame(es: seq<Framed.Event>, sent: seq<(seq<byte>, bool)>, frame: Framed.Frame, rest: seq<Framed.Event>,
                     clientUp: bool, one: seq<(seq<byte>, bool)>, code: Code)
    requires SoGood(es, clientUp, sent) && FrameDone(frame, clientUp, one, code) && code != Ok
    ensures var all := Outgoing(CleanFrames(es + ([Framed.Got(frame)] + rest)), clientUp);
            Outputs(sent + one) <= all && (AllSent(one) ==> Outputs(sent + one) == all)
  {
    var more := [Framed.Got(frame)] + rest;
    assert more[1..] == rest;
    OutputsConcat(sent, one);
    FrameOk(frame, clientUp, one, code);
    FrameBytes(frame, clientUp, one, code);
    CleanConcat(es, more);
    OutgoingConcat(Framed.FramesOf(es), CleanFrames(more), clientUp);
    OneOutgoing(frame, CleanFrames(rest), clientUp);
    PrefixMore(Outgoing(Framed.FramesOf(es), clientUp), Outputs(one), FrameKiss(frame, clientUp),
               if Fine(frame, clientUp) then Outgoing(CleanFrames(rest), clientUp) else []);
    assert FrameKiss(frame, clientUp) + [] == FrameKiss(frame, clientUp);
  }

  lemma PrefixMore<T>(a: seq<T>, b: seq<T>, c: seq<T>, d: seq<T>)
    requires b <= c
    ensures a + b <= a + (c + d)
  {
    assert (a + (c + d))[..|a| + |b|] == a + b;
  }

  /** Good events, then a stream error, then anything. */
  lemma ToldAtError(es: seq<Framed.Event>, sent: seq<(seq<byte>, bool)>, rest: seq<Framed.Event>, clientUp: bool)
    requires SoGood(es, clientUp, sent)
    ensures ChunkTold(es + ([Framed.TooLong] + rest), clientUp, sent, ErrLong)
  {
    var more := [Framed.TooLong] + rest;
    Framed.FramesConcat(es, more);
    CleanConcat(es, more);
    assert Framed.FramesOf(es) + [] == Framed.FramesOf(es);
  }

  /** The first complaint decides. */
  lemma ToldAtStop(es: seq<Framed.Event>, sent: seq<(seq<byte>, bool)>, e: Framed.Event, rest: seq<Framed.Event>,
                   clientUp: bool, one: seq<(seq<byte>, bool)>, code: Code)
    requires SoGood(es, clientUp, sent) && EventTold(e, clientUp, one, code) && code != Ok
    ensures ChunkTold(es + (Framed.AsSeq(e) + rest), clientUp, sent + one, code)
  {
    if e.Got? {
      ToldAtFrame(es, sent, e.frame, rest, clientUp, one, code);
    } else {
      ToldAtError(es, sent, rest, clientUp);
      assert sent + [] == sent;
    }
  }

  /** What the chunk handler does with one decoder event. */
  method HandleEvent(env: Env, stats: Stats, clientUp: bool, e: Framed.Event)
    returns (code: Code, ghost sent: seq<(seq<byte>, bool)>)
    requires env.Valid() && (e.Got? ==> |e.frame.payload| <= Framed.MAX_PAYLOAD) && clientUp == HasClient(env.w)
    modifies env`log, env`w, stats
    ensures env.Valid() && OnlyRx(old(env.w), env.w, RxOf(Framed.AsSeq(e), clientUp), sent)
    ensures EventTold(e, clientUp, sent, code)
    ensures Balanced(old(stats.c), stats.c)
    ensures e != Framed.Nothing ==> Counted(old(stats.c), stats.c)
  {
    RxOne(e, clientUp);
    sent := [];
    assert env.w.rx + [] == env.w.rx && env.w.client.sent + [] == env.w.client.sent;
    match e {
      case Nothing =>
        code := Ok;
      case TooLong =>
        stats.c := stats.c.(loraDrop := stats.c.loraDrop + 1);
        code := ErrLong;
      case Got(frame) =>
        code, sent := HandleFrame(env, stats, clientUp, frame);
    }
  }

  /** One byte of the framed stream. */
  method HandleByte(env: Env, stats: Stats, clientUp: bool, dec: Framed.FramedDecoder, b: byte)
    returns (code: Code, ghost sent: seq<(seq<byte>, bool)>)
    requires env.Valid() && dec.Valid() && clientUp == HasClient(env.w)
    modifies env`log, env`w, stats, dec, dec.header, dec.payload
    ensures env.Valid() && dec.Valid()
    ensures var (st, e) := Framed.Step(old(dec.Abs()), b);
            && dec.Abs() == st
            && OnlyRx(old(env.w), env.w, RxOf(Framed.AsSeq(e), clientUp), sent)
            && EventTold(e, clientUp, sent, code)
            && (e != Framed.Nothing ==> Counted(old(stats.c), stats.c))
    ensures Balanced(old(stats.c), stats.c)
  {
    ghost var st := dec.Abs();
    if Framed.Step(st, b).1.Got? {
      Framed.GotFits(st, b);
    }
    var e := dec.DecodeByte(b);
    code, sent := HandleEvent(env, stats, clientUp, e);
  }

  /** How far a chunk has got, from the decoder state `st0`, without a complaint. */
  ghost predicate Along(st0: Framed.State, bytes: seq<byte>, st: Framed.State, es: seq<Framed.Event>, clientUp: bool,
                        sent: seq<(seq<byte>, bool)>, a: Counters, b: Counters) {
    && Framed.Run(st0, bytes) == (st, es) && SoGood(es, clientUp, sent)
    && Balanced(a, b) && Traces(b) >= Traces(a) + |es|
  }

  lemma AlongMore(st0: Framed.State, buf: seq<byte>, i: nat, st: Framed.State, es: seq<Framed.Event>, clientUp: bool,
                  sent: seq<(seq<byte>, bool)>, one: seq<(seq<byte>, bool)>, c0: Counters, c: Counters, c1: Counters)
    requires i < |buf| && Along(st0, buf[..i], st, es, clientUp, sent, c0, c)
    requires EventTold(Framed.Step(st, buf[i]).1, clientUp, one, Ok)
    requires Balanced(c, c1) && (Framed.Step(st, buf[i]).1 != Framed.Nothing ==> Counted(c, c1))
    ensures var (st1, e) := Framed.Step(st, buf[i]);
              Along(st0, buf[..i + 1], st1, es + Framed.AsSeq(e), clientUp, sent + one, c0, c1)
  {
    ByteMore(st0, buf, i);
    GoodMore(es, sent, Framed.Step(st, buf[i]).1, clientUp, one);
    BalancedTwice(c0, c, c1);
  }

  /** What the complaint about byte `i` of a chunk means for the whole chunk. */
  ghost predicate Stopped(st0: Framed.State, buf: seq<byte>, i: nat, st: Framed.State, es: seq<Framed.Event>,
                          clientUp: bool, sent: seq<(seq<byte>, bool)>, code: Code)
    requires i < |buf|
  {
    code != Ok && Framed.Run(st0, buf[..i + 1]) == (st, es) && ChunkTold(Framed.Run(st0, buf).1, clientUp, sent, code)
  }

  lemma AlongStops(st0: Framed.State, buf: seq<byte>, i: nat, st: Framed.State, es: seq<Framed.Event>, clientUp: bool,
                   sent: seq<(seq<byte>, bool)>, one: seq<(seq<byte>, bool)>, code: Code)
    requires i < |buf| && Framed.Run(st0, buf[..i]) == (st, es) && SoGood(es, clientUp, sent)
    requires EventTold(Framed.Step(st, buf[i]).1, clientUp, one, code) && code != Ok
    ensures var (st1, e) := Framed.Step(st, buf[i]);
              Stopped(st0, buf, i, st1, es + Framed.AsSeq(e), clientUp, sent + one, code)
  {
    ByteMore(st0, buf, i);
    var rest := RunSplit(st0, buf, i, st, es);
    ToldAtStop(es, sent, Framed.Step(st, buf[i]).1, rest, clientUp, one, code);
  }

  /** The events of a chunk, before, at and after byte `i`. */
  lemma RunSplit(st0: Framed.State, buf: seq<byte>, i: nat, st: Framed.State, es: seq<Framed.Event>)
    returns (rest: seq<Framed.Event>)
    requires i < |buf| && Framed.Run(st0, buf[..i]) == (st, es)
    ensures Framed.Run(st0, buf).1 == es + (Framed.AsSeq(Framed.Step(st, buf[i]).1) + rest)
  {
    assert buf == buf[..i] + ([buf[i]] + buf[i + 1..]);
    Framed.RunConcat(st0, buf[..i], [buf[i]] + buf[i + 1..]);
    Framed.RunCons(st, buf[i], buf[i + 1..]);
    rest := Framed.Run(Framed.Step(st, buf[i]).0, buf[i + 1..]).1;
  }

  lemma ByteMore(st: Framed.State, buf: seq<byte>, i: nat)
    requires i < |buf|
    ensures var (st1, es) := Framed.Run(st, buf[..i]);
            var (st2, e) := Framed.Step(st1, buf[i]);
              Framed.Run(st, buf[..i + 1]) == (st2, es + Framed.AsSeq(e))
  {
    assert buf[..i + 1] == buf[..i] + [buf[i]];
    Framed.RunConcat(st, buf[..i], [buf[i]]);
    Framed.RunOne(Framed.Run(st, buf[..i]).0, buf[i]);
  }

  /** bridge_rx_handle_framed_chunk: decode byte by byte, handle every frame, and stop at the first one
      that is not Ok. On Ok the decoder has consumed all of `buf`. `used` bytes were consumed. */
  method HandleFramedChunk(env: Env, stats: Stats, clientUp: bool, dec: Framed.FramedDecoder, buf: seq<byte>)
    returns (code: Code, ghost used: nat, ghost sent: seq<(seq<byte>, bool)>)
    requires env.Valid() && dec.Valid() && clientUp == HasClient(env.w)
    modifies env`log, env`w, stats, dec, dec.header, dec.payload
    ensures env.Valid() && dec.Valid()
    ensures used <= |buf| && (code == Ok ==> used == |buf|)
    ensures var (st, es) := Framed.Run(old(dec.Abs()), buf[..used]);
              dec.Abs() == st && OnlyRx(old(env.w), env.w, RxOf(es, clientUp), sent)
    ensures ChunkTold(Framed.Run(old(dec.Abs()), buf).1, clientUp, sent, code)
    ensures Balanced(old(stats.c), stats.c)
    ensures Traces(stats.c) >= Traces(old(stats.c)) + |Framed.Run(old(dec.Abs()), buf[..used]).1|
  {
    used, sent := 0, [];
    ghost var st0, w0, c0 := dec.Abs(), env.w, stats.c;
    ghost var es: seq<Framed.Event> := [];
    var i := 0;
    assert env.w.rx + [] == env.w.rx && env.w.client.sent + [] == env.w.client.sent;
    assert buf[..0] == [];
    while i < |buf|
      invariant 0 <= i == used <= |buf| && env.Valid() && dec.Valid()
      invariant Along(st0, buf[..i], dec.Abs(), es, clientUp, sent, c0, stats.c)
      invariant OnlyRx(w0, env.w, RxOf(es, clientUp), sent)
    {
      var stop;
      stop, code, es, sent := ChunkByte(env, stats, clientUp, dec, buf, i, st0, w0, c0, es, sent);
      i := i + 1;
      used := i;
      if stop {
        return;
      }
    }
    assert buf[..i] == buf;
    GoodAtEnd(es, clientUp, sent);
    code := Ok;
  }

  /** Byte `i` of a chunk; `es0` and `sent0` are what came of the bytes before it. */
  method ChunkByte(env: Env, stats: Stats, clientUp: bool, dec: Framed.FramedDecoder, buf: seq<byte>, i: nat,
                   ghost st0: Framed.State, ghost w0: World, ghost c0: Counters,
                   ghost es0: seq<Framed.Event>, ghost sent0: seq<(seq<byte>, bool)>)
    returns (stop: bool, code: Code, ghost es: seq<Framed.Event>, ghost sent: seq<(seq<byte>, bool)>)
    requires env.Valid() && dec.Valid() && i < |buf| && clientUp == HasClient(w0)
    requires Along(st0, buf[..i], dec.Abs(), es0, clientUp, sent0, c0, stats.c)
    requires OnlyRx(w0, env.w, RxOf(es0, clientUp), sent0)
    modifies env`log, env`w, stats, dec, dec.header, dec.payload
    ensures env.Valid() && dec.Valid() && OnlyRx(w0, env.w, RxOf(es, clientUp), sent)
    ensures !stop ==> Along(st0, buf[..i + 1], dec.Abs(), es, clientUp, sent, c0, stats.c)
    ensures stop ==>
              && Stopped(st0, buf, i, dec.Abs(), es, clientUp, sent, code)
              && Balanced(c0, stats.c) && Traces(stats.c) >= Traces(c0) + |es|
  {
    ghost var st, w1, c1, one := dec.Abs(), env.w, stats.c, [];
    ghost var e := Framed.Step(st, buf[i]).1;
    code, one := HandleByte(env, stats, clientUp, dec, buf[i]);
    RxConcat(es0, Framed.AsSeq(e), clientUp);
    OnlyRxTwice(w0, RxOf(es0, clientUp), sent0, w1, RxOf(Framed.AsSeq(e), clientUp), one, env.w);
    es, sent, stop := es0 + Framed.AsSeq(e), sent0 + one, code != Ok;
    BalancedTwice(c0, c1, stats.c);
    if stop {
      AlongStops(st0, buf, i, st, es0, clientUp, sent0, one, code);
    } else {
      AlongMore(st0, buf, i, st, es0, clientUp, sent0, one, c0, c1, stats.c);
    }
  }
}
