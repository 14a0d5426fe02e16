/** What the main loop does about each report of select() (bridge.c), on values. */
module Turns {
  import opened Common
  import opened Runtime
  import opened Trace
  import BridgeKiss
  import BridgeRx
  import Framed
  import Kiss
  import RxPath
  import TxDrain
  import TxLifecycle

  /** The bridge at one moment: the run so far, both decoders, the statistics and config_ok. */
  datatype Snap = Snap(w: World, dec: Framed.State, kiss: Kiss.Decoder, c: Counters, configOk: bool)

  // ---------- the client ----------

  /** accept(): a new client starts with a fresh KISS decoder; without one nothing changes. */
  predicate AcceptTurn(a: Snap, b: Snap) {
    if b.w.client.up then
      b == a.(w := a.w.(client := a.w.client.(up := true, lost := false), seen := Accepting(a.w.seen)),
              kiss := Kiss.INIT)
    else
      b == a.(w := a.w.(seen := Accepting(a.w.seen).(stopped := b.w.seen.stopped)))
  }

  /** What some client bytes made of the KISS decoder, the queue and the statistics. */
  ghost predicate FromClient(cfg: Config, d0: Kiss.Decoder, queue0: seq<seq<byte>>, c0: Counters, bytes: seq<byte>,
                             d: Kiss.Decoder, queue: seq<seq<byte>>, c: Counters) {
    var (d1, es) := Kiss.Run(d0, bytes);
    d == d1 && queue == BridgeKiss.AdmitAll(cfg, queue0, es) && c == BridgeKiss.TallyAll(cfg, c0, queue0, es)
  }

  lemma FromClientMore(cfg: Config, d0: Kiss.Decoder, queue0: seq<seq<byte>>, c0: Counters, bytes: seq<byte>,
                       d: Kiss.Decoder, queue: seq<seq<byte>>, c: Counters, b: byte)
    requires FromClient(cfg, d0, queue0, c0, bytes, d, queue, c)
    ensures var (d1, e) := Kiss.DecodeStep(d, b);
            var es := Kiss.AsSeq(e);
            FromClient(cfg, d0, queue0, c0, bytes + [b],
                       d1, BridgeKiss.AdmitAll(cfg, queue, es), BridgeKiss.TallyAll(cfg, c, queue, es))
  {
    Kiss.RunConcat(d0, bytes, [b]);
    Kiss.RunOne(d, b);
    BridgeKiss.AdmitConcat(cfg, c0, queue0, Kiss.Run(d0, bytes).1, Kiss.AsSeq(Kiss.DecodeStep(d, b).1));
  }

  /** The same, as part of a run: in the world only the queue changes, and the clock was read. */
  ghost predicate ClientBytes(cfg: Config, a: World, d: Kiss.Decoder, c: Counters, bytes: seq<byte>,
                              b: World, d1: Kiss.Decoder, c1: Counters) {
    && b == a.(queue := b.queue, seen := b.seen) && OnlyClock(a.seen, b.seen)
    && FromClient(cfg, d, BridgeKiss.Packets(a.queue), c, bytes, d1, BridgeKiss.Packets(b.queue), c1)
  }

  lemma ClientBytesNone(cfg: Config, a: World, d: Kiss.Decoder, c: Counters)
    ensures ClientBytes(cfg, a, d, c, [], a, d, c)
  {
  }

  lemma ClientBytesMore(cfg: Config, a: World, d: Kiss.Decoder, c: Counters, data: seq<byte>, i: nat,
                        b: World, d1: Kiss.Decoder, c1: Counters, w: World, d2: Kiss.Decoder, c2: Counters)
    requires i < |data| && ClientBytes(cfg, a, d, c, data[..i], b, d1, c1)
    requires w == b.(queue := w.queue, seen := w.seen) && OnlyClock(b.seen, w.seen)
    requires d2 == Kiss.DecodeStep(d1, data[i]).0
    requires Took(cfg, b, c1, Kiss.DecodeStep(d1, data[i]).1, w, c2)
    ensures ClientBytes(cfg, a, d, c, data[..i + 1], w, d2, c2)
  {
    FromClientMore(cfg, d, BridgeKiss.Packets(a.queue), c, data[..i], d1, BridgeKiss.Packets(b.queue), c1, data[i]);
    assert data[..i + 1] == data[..i] + [data[i]];
  }

  /** What one event of the KISS decoder made of the queue and the statistics. */
  ghost predicate Took(cfg: Config, a: World, c: Counters, e: Kiss.Event, b: World, c1: Counters) {
    var queue := BridgeKiss.Packets(a.queue);
    && BridgeKiss.Packets(b.queue) == BridgeKiss.AdmitAll(cfg, queue, Kiss.AsSeq(e))
    && c1 == BridgeKiss.TallyAll(cfg, c, queue, Kiss.AsSeq(e))
  }

  function HungUp(w: World): World {
    w.(client := w.client.(up := false, lost := false))
  }

  /** One read from the client: the queue gains the packets of the frames that its bytes complete; a closed or
      broken connection is given up with its decoder. */
  ghost predicate ClientTurn(cfg: Config, a: Snap, b: Snap) {
    var r := b.w.seen.calls.clientRead;
    var seen := SeenNow(a.w.seen, ClientRead(r));
    match r
    case Bytes(data) =>
      && b.dec == a.dec && b.configOk == a.configOk
      && ClientBytes(cfg, a.w.(seen := seen), a.kiss, a.c, data, b.w, b.kiss, b.c)
    case WouldBlock => b == a.(w := a.w.(seen := seen))
    case Intr => b == a.(w := a.w.(seen := seen))
    case _ =>
      b == a.(w := HungUp(a.w).(seen := seen), kiss := Kiss.INIT,
              c := a.c.(disconnects := a.c.disconnects + One(r == Closed)))
  }

  // ---------- the daemon ----------

  /** The CAD events handled so far are collected. */
  function AfterCollect(w: World): World {
    w.(cad := w.cad.(markBusy := w.flags.cadBusySeq, markIdle := w.flags.cadIdleSeq))
  }

  /** One more connection given up, perhaps. */
  function Reconnecting(c: Counters, lost: bool): Counters {
    c.(reconnects := c.reconnects + One(lost))
  }

  /** The counters `a` with the CAD statistics of `b`. */
  function WithCad(a: Counters, b: Counters): Counters {
    a.(cadBusy := b.cadBusy, cadIdle := b.cadIdle, cadNow := b.cadNow)
  }

  /** CONF, read to its end, which led to `m`: the connection is kept, and the CAD events collected, exactly if
      that end is not a failure. */
  predicate ConfAnswered(a: Snap, b: Snap, m: World) {
    && OnlyConf(a.w, m) && b.dec == a.dec && b.kiss == a.kiss
    && b.c == WithCad(Reconnecting(a.c, !b.w.confUp), b.c)
    && ((m.seen == Dried(a.w.seen) && b.w == AfterCollect(m) && b.configOk == a.configOk)
        || (m.seen == Broke(a.w.seen) && b.w == Reset(m).(confUp := false) && !b.configOk))
  }

  ghost predicate ConfTurn(a: Snap, b: Snap) {
    exists m: World :: ConfAnswered(a, b, m)
  }

  function NoData(w: World): World {
    NoStream(w).(dataUp := false)
  }

  /** The bytes of one DATA read: the client was sent the KISS frames of the daemon frames, in order, up to the
      first trouble. A failed write to the client costs the client and throws the rest of the bytes away.
      Otherwise the DATA connection is lost exactly if the stream is broken or, with a client connected, an RX
      packet has no APRS text or an unreadable one. */
  predicate DataTaken(a: Snap, b: Snap, data: seq<byte>, sent: seq<(seq<byte>, bool)>) {
    var es := Framed.Run(a.dec, data).1;
    var up := HasClient(a.w);
    && b.w.client.sent == a.w.client.sent + sent
    && RxPath.Told(es, up, sent)
    && b.w.client.up == (a.w.client.up && RxPath.AllSent(sent))
    && b.kiss == (if RxPath.AllSent(sent) then a.kiss else Kiss.INIT)
    && (b.w.dataUp <==> !RxPath.AllSent(sent) || (Framed.Clean(es) && RxPath.AllFine(Framed.FramesOf(es), up)))
    && BridgeRx.Balanced(a.c, b.c.(reconnects := a.c.reconnects))
    && b.c.reconnects == a.c.reconnects + One(!b.w.dataUp)
    && b.configOk == (a.configOk && b.w.dataUp) && b.w.confUp == a.w.confUp && b.w.queue == a.w.queue
    && (b.w.dataUp && RxPath.AllSent(sent) ==>
          b.dec == Framed.Run(a.dec, data).0 && b.w.dataIn == a.w.dataIn + data && b.w.skipped == a.w.skipped)
  }

  /** One read of the DATA socket: only an interrupted one leaves everything as it is; without bytes the
      connection is given up with config_ok, and the client stays. */
  ghost predicate DataTurn(a: Snap, b: Snap) {
    var r := b.w.seen.calls.dataRead;
    var seen := DataReadNow(a.w.seen, r);
    && b.w.seen == seen
    && match r
       case Bytes(data) => exists sent :: DataTaken(a, b, data, sent)
       case Intr => b == a.(w := a.w.(seen := seen))
       case _ =>
         b == a.(w := NoData(a.w.(seen := seen)), dec := Framed.INIT, configOk := false,
                 c := Reconnecting(a.c, true))
  }

  // ---------- a quiet moment ----------

  predicate ConfAttempt(a: Snap, b: Snap) {
    b == a.(w := if b.w.confUp then ConfOpened(a.w) else a.w.(seen := Asking(a.w.seen)))
  }

  /** The initial configuration, with the messages `s`. */
  predicate ConfigTurn(cfg: Config, a: Snap, b: Snap, s: TxLifecycle.Sends) {
    && b == a.(w := b.w, configOk := b.configOk)
    && if a.w.confUp then
         TxLifecycle.Configured(cfg, a.w, b.w, if b.configOk then Ok else ErrConfSocket, s)
       else b.w == a.w && !b.configOk
  }

  /** A DATA connection, with a fresh framed stream. */
  function DataOpened(a: Snap): Snap {
    a.(w := NoStream(a.w).(dataUp := true, seen := Asking(a.w.seen)), dec := Framed.INIT)
  }

  function Reconnected(a: Snap): Snap {
    DataOpened(a).(c := Reconnecting(a.c, true))
  }

  function DataRefusedNow(a: Snap): Snap {
    a.(w := a.w.(seen := Asking(a.w.seen)))
  }

  /** A quiet moment: one attempt to reconnect CONF, or else DATA, which is followed by the initial
      configuration; or else the initial configuration again, if it is not in force. */
  ghost predicate TimeoutTurn(cfg: Config, a: Snap, b: Snap) {
    if !a.w.confUp then ConfAttempt(a, b)
    else if !a.w.dataUp then
      if b.w.dataUp then
        var m := Reconnected(a);
        exists s: TxLifecycle.Sends :: ConfigTurn(cfg, m, b, s)
      else b == DataRefusedNow(a)
    else if !a.configOk then exists s: TxLifecycle.Sends :: ConfigTurn(cfg, a, b, s)
    else b == a
  }

  // ---------- select() ----------

  /** The moments between: after accept(), after the client's and after the CONF socket's turn. */
  datatype Stages = Stages(accepted: Snap, read: Snap, conf: Snap)

  /** Something was reported: accept() and a read from the client, each of which may end the iteration, then CONF
      and DATA, each exactly if it was reported. */
  ghost predicate ReadyTurn(cfg: Config, rep: Report, a: Snap, m: Stages, b: Snap) {
    && (if rep.listen then AcceptTurn(a, m.accepted) else m.accepted == a)
    && if rep.listen && !m.accepted.w.client.up then b == m.accepted
       else
         && (if rep.client then ClientTurn(cfg, m.accepted, m.read) else m.read == m.accepted)
         && if rep.client && !m.read.w.seen.calls.clientRead.Bytes? then b == m.read
            else
              && (if rep.conf then ConfTurn(m.read, m.conf) else m.conf == m.read)
              && (if rep.data then DataTurn(m.conf, b) else b == m.conf)
  }

  /** The answer to a report. */
  ghost predicate Answered(cfg: Config, rep: Report, a: Snap, m: Stages, b: Snap) {
    match rep.end
    case Timeout => TimeoutTurn(cfg, a, b)
    case Ready => ReadyTurn(cfg, rep, a, m, b)
    case _ => b == a
  }

  /** select(), and what follows from its report. */
  ghost predicate ServeTurn(cfg: Config, a: Snap, go: bool, m: Stages, b: Snap) {
    var rep := b.w.seen.calls.report;
    go == (rep.end != Broken) && Answered(cfg, rep, a.(w := a.w.(seen := SeenNow(a.w.seen, Selected(rep)))), m, b)
  }

  /** What the codes of the drain cost. */
  function AfterReact(w: World, code: Code): World {
    if code == ErrTxSocket || code == ErrTxResult then (if w.dataUp then NoData(w) else w)
    else if code == ErrConfSocket then (if w.confUp then Reset(w).(confUp := false) else w)
    else if code == ErrClientSocket && w.client.up then HungUp(w)
    else w
  }

  /** The code costs a socket of the daemon. */
  predicate GivenUp(w: World, code: Code) {
    if code == ErrTxSocket || code == ErrTxResult then w.dataUp else code == ErrConfSocket && w.confUp
  }

  // ---------- the report of select() stays on record ----------

  lemma ClientKeeps(cfg: Config, a: Snap, b: Snap)
    requires ClientTurn(cfg, a, b)
    ensures b.w.seen.calls.report == a.w.seen.calls.report
  {
  }

  lemma ConfKeeps(a: Snap, b: Snap)
    requires ConfTurn(a, b)
    ensures b.w.seen.calls.report == a.w.seen.calls.report
  {
  }

  lemma DataKeeps(a: Snap, b: Snap)
    requires DataTurn(a, b)
    ensures b.w.seen.calls.report == a.w.seen.calls.report
  {
  }

  lemma TimeoutKeeps(cfg: Config, a: Snap, b: Snap)
    requires TimeoutTurn(cfg, a, b)
    ensures b.w.seen.calls.report == a.w.seen.calls.report
  {
  }

  lemma ReadyKeeps(cfg: Config, rep: Report, a: Snap, m: Stages, b: Snap)
    requires ReadyTurn(cfg, rep, a, m, b)
    ensures b.w.seen.calls.report == a.w.seen.calls.report
  {
    if !(rep.listen && !m.accepted.w.client.up) {
      if rep.client {
        ClientKeeps(cfg, m.accepted, m.read);
      }
      if !(rep.client && !m.read.w.seen.calls.clientRead.Bytes?) {
        if rep.conf {
          ConfKeeps(m.read, m.conf);
        }
        if rep.data {
          DataKeeps(m.conf, b);
        }
      }
    }
  }

  lemma ServedAfter(cfg: Config, a: Snap, rep: Report, s: Snap, m: Stages, b: Snap)
    requires s == a.(w := a.w.(seen := SeenNow(a.w.seen, Selected(rep)))) && Answered(cfg, rep, s, m, b)
    ensures ServeTurn(cfg, a, rep.end != Broken, m, b)
  {
    match rep.end
    case Timeout => TimeoutKeeps(cfg, s, b);
    case Ready => ReadyKeeps(cfg, rep, s, m, b);
    case _ =>
  }

  /** The bytes of a client read, after the read itself. */
  lemma ClientTurnOf(cfg: Config, a: Snap, data: seq<byte>, m: Snap, b: Snap)
    requires m == a.(w := a.w.(seen := SeenNow(a.w.seen, ClientRead(Bytes(data)))))
    requires b.dec == m.dec && b.configOk == m.configOk
    requires ClientBytes(cfg, m.w, m.kiss, m.c, data, b.w, b.kiss, b.c)
    ensures ClientTurn(cfg, a, b) && b.w.seen.calls.clientRead == Bytes(data)
  {
  }

  lemma DataTurnOf(a: Snap, w: World, data: seq<byte>, b: Snap, sent: seq<(seq<byte>, bool)>)
    requires w == a.w.(seen := DataReadNow(a.w.seen, Bytes(data))) && b.w.seen == w.seen
    requires DataTaken(a.(w := w), b, data, sent)
    ensures DataTurn(a, b)
  {
    assert DataTaken(a, b, data, sent);
  }

  /** A read of the client without bytes. */
  lemma ClientTurnNone(cfg: Config, a: Snap, got: ReadResult, m: Snap, b: Snap)
    requires !got.Bytes? && m == a.(w := a.w.(seen := SeenNow(a.w.seen, ClientRead(got))))
    requires b == if got == WouldBlock || got == Intr then m
                  else m.(w := HungUp(m.w), kiss := Kiss.INIT,
                          c := m.c.(disconnects := m.c.disconnects + One(got == Closed)))
    ensures ClientTurn(cfg, a, b) && b.w.seen.calls.clientRead == got
  {
  }

  /** A read of the DATA socket without bytes. */
  lemma DataTurnNone(a: Snap, got: ReadResult, m: Snap, b: Snap)
    requires !got.Bytes? && m == a.(w := a.w.(seen := DataReadNow(a.w.seen, got)))
    requires b == if got.Intr? then m
                  else m.(w := NoData(m.w), dec := Framed.INIT, configOk := false,
                          c := Reconnecting(m.c, true))
    ensures DataTurn(a, b)
  {
  }

  /** What the chunk handler did with the bytes of a read, and what its code says, before the connection is given
      up for it. */
  ghost predicate Chunked(a: World, st: Framed.State, data: seq<byte>, w: World, st1: Framed.State,
                          sent: seq<(seq<byte>, bool)>, code: Code) {
    && RxPath.ChunkTold(Framed.Run(st, data).1, HasClient(a), sent, code)
    && w == a.(dataIn := w.dataIn, rx := w.rx, skipped := w.skipped,
               client := a.client.(up := a.client.up && code != ErrClientSocket, lost := false,
                                   sent := a.client.sent + sent))
    && (code == Ok ==> w.dataIn == a.dataIn + data && w.skipped == a.skipped && st1 == Framed.Run(st, data).0)
  }

  lemma TakenOf(a: Snap, data: seq<byte>, m: Snap, sent: seq<(seq<byte>, bool)>, code: Code, b: Snap)
    requires Chunked(a.w, a.dec, data, m.w, m.dec, sent, code) && m.configOk == a.configOk && a.w.dataUp
    requires m.kiss == (if code == ErrClientSocket then Kiss.INIT else a.kiss) && BridgeRx.Balanced(a.c, m.c)
    requires if code == Ok || code == ErrClientSocket then b == m
             else b == m.(w := NoData(m.w), dec := b.dec, configOk := false,
                          c := Reconnecting(m.c, true))
    ensures DataTaken(a, b, data, sent)
  {
  }

  // ---------- the main loop ----------

  /** One iteration: the drain up to the world `v` after its last decision, with the counters `d`, and to its end
      in the world `w`, with the code, whether the head was tried, and the counters `e`; and then `s`, before
      select(). */
  datatype Passage = Passage(v: World, w: World, code: Code, tried: bool, d: Counters, e: Counters, s: Snap)

  /** The TX queue had its turn; each socket was given up exactly for the codes that ask for it; the CAD events
      were collected; select() was asked, and its report answered. */
  ghost predicate Stepped(cfg: Config, a: Snap, go: bool, t: Passage, m: Stages, b: Snap) {
    Prepared(cfg, a, t) && ServeTurn(cfg, t.s, go, m, b)
  }

  /** The same, up to select(). */
  ghost predicate Prepared(cfg: Config, a: Snap, t: Passage) {
    && TxDrain.DrainDone(cfg, a.w, t.v, t.w, t.code, t.tried, a.c, t.d, t.e)
    && t.s.w == AfterCollect(AfterReact(t.w, t.code))
    && t.s.c == WithCad(Reconnecting(t.e, GivenUp(t.w, t.code)), t.s.c)
    && t.s.configOk == (a.configOk && t.code != ErrTxSocket && t.code != ErrTxResult && t.code != ErrConfSocket)
    && t.s.kiss == (if t.code == ErrClientSocket then Kiss.INIT else a.kiss)
  }

  lemma PreparedOf(cfg: Config, a: Snap, b: Snap, t: Passage)
    requires TxDrain.DrainDone(cfg, a.w, t.v, t.w, t.code, t.tried, a.c, t.d, t.e)
    requires b.w == AfterReact(t.w, t.code) && b.c == Reconnecting(t.e, GivenUp(t.w, t.code))
    requires b.configOk == (a.configOk && !TxLifecycle.Resets(t.code))
    requires b.kiss == (if t.code == ErrClientSocket then Kiss.INIT else a.kiss)
    requires t.s == b.(w := AfterCollect(b.w), c := WithCad(b.c, t.s.c))
    ensures Prepared(cfg, a, t)
  {
  }

  /** The way back from a parked radio: while the configuration is not in force, an iteration that ends in a quiet
      moment with both sockets connected sends the messages `s` of it, the RX profile first; and it is in force
      again if and only if all of them went out, which makes RX the last frequency commanded. */
  lemma QuietRecovers(cfg: Config, a: Snap, go: bool, t: Passage, m: Stages, b: Snap) returns (s: TxLifecycle.Sends)
    requires Stepped(cfg, a, go, t, m, b) && b.w.seen.calls.report.end == Timeout
    requires t.s.w.confUp && b.w.dataUp && !t.s.configOk
    ensures b.configOk <==> s == TxLifecycle.ALL_SENT
    ensures b.w.commands == TxLifecycle.ConfigLines(cfg, s)
    ensures cfg.haveRx ==>
              && b.w.cfgs == t.s.w.cfgs + [(cfg.rx, s.profile)]
              && b.w.freq == if s.profile then Some(cfg.rx) else t.s.w.freq
  {
    var q := t.s.(w := t.s.w.(seen := SeenNow(t.s.w.seen, Selected(b.w.seen.calls.report))));
    assert TimeoutTurn(cfg, q, b);
    s := ConfiguredWhenQuiet(cfg, q, b);
  }

  lemma ConfiguredWhenQuiet(cfg: Config, a: Snap, b: Snap) returns (s: TxLifecycle.Sends)
    requires TimeoutTurn(cfg, a, b) && a.w.confUp && b.w.dataUp && !a.configOk
    ensures b.configOk <==> s == TxLifecycle.ALL_SENT
    ensures b.w.commands == TxLifecycle.ConfigLines(cfg, s)
    ensures cfg.haveRx ==>
              && b.w.cfgs == a.w.cfgs + [(cfg.rx, s.profile)]
              && b.w.freq == if s.profile then Some(cfg.rx) else a.w.freq
  {
    var m := if a.w.dataUp then a else Reconnected(a);
    s :| ConfigTurn(cfg, m, b, s);
  }

  /** One turn of the loop: the end for a stop request, or an iteration. */
  ghost predicate Turned(cfg: Config, a: Snap, go: bool, b: Snap) {
    || (!go && b == a.(w := a.w.(seen := a.w.seen.(stopped := true))))
    || exists t: Passage, m: Stages :: Stepped(cfg, a, go, t, m, b)
  }

  /** A run of the loop, from one moment to the next; it goes on until a turn ends it. */
  ghost predicate Turning(cfg: Config, ps: seq<Snap>, go: bool)
    decreases |ps|
  {
    && ps != []
    && (|ps| > 1 ==> Turned(cfg, ps[|ps| - 2], go, ps[|ps| - 1]) && Turning(cfg, ps[..|ps| - 1], true))
    && (!go ==> |ps| > 1)
  }

  lemma TurningOn(cfg: Config, ps: seq<Snap>, b: Snap, go: bool)
    requires Turning(cfg, ps, true) && Turned(cfg, ps[|ps| - 1], go, b)
    ensures Turning(cfg, ps + [b], go)
  {
    assert (ps + [b])[..|ps|] == ps && (ps + [b])[|ps| - 1] == ps[|ps| - 1];
  }
}
