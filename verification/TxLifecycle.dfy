/** One transmission, from the decision to send to the return to the RX frequency (bridge_loraham.c). */
module TxLifecycle {
  import opened Common
  import opened Runtime
  import opened Trace
  import BridgeRx
  import Conf
  import Framed
  import Sync
  import TxWait

  const RESTORE_RETRY_DELAY_MS: int := 100

  // ---------- what the main loop does about a code ----------

  /** bridge_loraham_should_reconnect_data_socket. */
  predicate ReconnectData(code: Code) { code == ErrTxSocket || code == ErrTxResult }

  /** bridge_loraham_should_reconnect_conf_socket. */
  predicate ReconnectConf(code: Code) { code == ErrConfSocket }

  /** The codes after which the main loop forgets that the radio is configured. */
  predicate Resets(code: Code) { ReconnectData(code) || ReconnectConf(code) }

  // ---------- radio profiles ----------

  function AfterSends(w: World, sends: seq<(real, bool)>, freq: Option<real>): World {
    w.(freq := if freq.Some? then freq else w.freq, cfgs := w.cfgs + sends,
       paused := if sends == [] then w.paused else None)
  }

  /** bridge_loraham_send_config_freq. */
  method SendConfigFreq(env: Env, confUp: bool, freq: real) returns (code: Code, ghost sends: seq<(real, bool)>)
    requires env.Valid() && confUp == env.w.confUp && (confUp && freq > 0.0 ==> MayProfile(env.cfg, env.w, freq))
    modifies env`log, env`w
    ensures env.Valid() && env.w == AfterSends(old(env.w), sends, if code == Ok then Some(freq) else None)
    ensures sends == if freq <= 0.0 || !confUp then [] else [(freq, code == Ok)]
    ensures code == Ok || code == (if freq <= 0.0 then ErrFormat else ErrConfSocket)
    ensures freq <= 0.0 || !confUp ==> code != Ok
  {
    sends := [];
    assert env.w.cfgs + [] == env.w.cfgs;
    if freq <= 0.0 {
      return ErrFormat, sends;
    }
    if !confUp {
      return ErrConfSocket, sends;
    }
    var ok := env.SendProfile(freq);
    return (if ok then Ok else ErrConfSocket), [(freq, ok)];
  }

  /** Which of the three messages of an initial configuration went out; each is sent only after the ones before
      it. */
  datatype Sends = Sends(profile: bool, txresult: bool, status: bool)

  const ALL_SENT := Sends(true, true, true)

  /** The CONF lines of an initial configuration, besides a profile with the RX frequency. */
  function ConfigLines(cfg: Config, s: Sends): seq<(Command, bool)> {
    (if cfg.haveRx then [] else [(Profile, s.profile)]) + (if s.profile then RestLines(s) else [])
  }

  /** TXRESULT before the STATUS request. */
  function RestLines(s: Sends): seq<(Command, bool)> {
    [(EnableTxResult, s.txresult)] + (if s.txresult then [(GetStatus, s.status)] else [])
  }

  function SetUp(cfg: Config): seq<(Command, bool)> {
    ConfigLines(cfg, ALL_SENT)
  }

  /** A fresh STATUS is required, and the profile has been tried. */
  function AfterProfile(cfg: Config, w: World, s: Sends): World {
    if cfg.haveRx then
      Asked(w).(freq := if s.profile then Some(cfg.rx) else w.freq, cfgs := w.cfgs + [(cfg.rx, s.profile)],
                paused := None)
    else Asked(w).(commands := [(Profile, s.profile)])
  }

  /** What an initial configuration leaves behind on a connected CONF socket, and what its code means: the
      profile is sent in any case, then TXRESULT, then the STATUS request, and Ok is that all three went out. */
  predicate Configured(cfg: Config, a: World, b: World, code: Code, s: Sends) {
    && b == AfterProfile(cfg, a, s).(commands := ConfigLines(cfg, s))
    && code == if s == ALL_SENT then Ok else ErrConfSocket
  }

  method ClearStatus(env: Env, conf: Conf.ConfState)
    requires env.Valid() && ConfLinked(env.w, conf) && env.w.okWrites == 0
    modifies env`log, env`w, conf
    ensures env.Valid() && ConfLinked(env.w, conf) && env.w == Asked(old(env.w))
  {
    conf.flags := conf.flags.(haveStatus := false, txresultKnown := false, txresultEnabled := false);
    env.Record(StatusAsked);
  }

  /** loraham_send_config: the RX frequency if it is known. */
  method SendConfig(env: Env, ghost w0: World) returns (ok: bool)
    requires env.Valid() && env.w == Asked(w0) && env.w.okWrites == 0 && env.w.confUp && env.cfg.Sound()
    modifies env`log, env`w
    ensures env.Valid() && forall s: Sends :: s.profile == ok ==> env.w == AfterProfile(env.cfg, w0, s)
  {
    ok := false;
    if !env.cfg.haveRx {
      ok := env.SendCommand(Profile);
      assert [] + [(Profile, ok)] == [(Profile, ok)];
    } else if env.cfg.rx > 0.0 {
      ok := env.SendProfile(env.cfg.rx);
    }
  }

  /** The rest of an initial configuration. */
  method SendRest(env: Env) returns (ok: bool, ghost s: Sends)
    requires env.Valid() && env.w.okWrites == 0 && env.w.confUp
    modifies env`log, env`w
    ensures env.Valid() && env.w == old(env.w).(commands := old(env.w.commands) + RestLines(s))
    ensures s.profile && ok == (s == ALL_SENT)
  {
    ok := env.SendCommand(EnableTxResult);
    s := Sends(true, ok, false);
    if ok {
      ok := env.SendCommand(GetStatus);
      s := s.(status := ok);
    }
    assert old(env.w.commands) + RestLines(s)
        == if s.txresult then old(env.w.commands) + [(EnableTxResult, true)] + [(GetStatus, ok)]
           else old(env.w.commands) + [(EnableTxResult, false)];
  }

  /** bridge_loraham_send_initial_config_with_state: from here on a fresh STATUS is required. Ok means that the
      profile, TXRESULT and the STATUS request went out, in this order; and it is only for a failed send, or
      the lack of a CONF socket, that it is anything else. */
  method SendInitialConfig(env: Env, conf: Conf.ConfState, confUp: bool) returns (code: Code, ghost s: Sends)
    requires env.Valid() && ConfLinked(env.w, conf) && confUp == env.w.confUp && env.w.okWrites == 0
    requires env.cfg.Sound()
    modifies env`log, env`w, conf
    ensures env.Valid() && ConfLinked(env.w, conf)
    ensures if confUp then Configured(env.cfg, old(env.w), env.w, code, s)
            else code == ErrConfSocket && env.w == old(env.w)
  {
    s := Sends(false, false, false);
    if !confUp {
      return ErrConfSocket, s;
    }
    ghost var w0 := env.w;
    ClearStatus(env, conf);
    var ok := SendConfig(env, w0);
    assert env.w == AfterProfile(env.cfg, w0, s.(profile := ok));
    if !ok {
      return ErrConfSocket, s;
    }
    ok, s := SendRest(env);
    assert env.cfg.haveRx ==> ConfigLines(env.cfg, s) == [] + RestLines(s) == RestLines(s);
    return (if ok then Ok else ErrConfSocket), s;
  }

  function Failed(sends: seq<(real, bool)>): nat {
    if sends == [] then 0 else (if sends[0].1 then 0 else 1) + Failed(sends[1..])
  }

  lemma FailedOf(a: (real, bool), b: (real, bool))
    ensures Failed([]) == 0 && Failed([a]) == (if a.1 then 0 else 1)
    ensures Failed([a, b]) == (if a.1 then 0 else 1) + (if b.1 then 0 else 1)
  {
    assert [a][1..] == [] && [b][1..] == [] && [a, b][1..] == [b];
  }

  /** The RX profiles sent on the way back, at most one retry; only a stop request prevents the retry. */
  predicate RestoreShape(cfg: Config, sends: seq<(real, bool)>, code: Code, stop: bool) {
    var no, yes := (cfg.rx, false), (cfg.rx, true);
    if !cfg.haveRx then sends == [] && code == ErrFormat
    else if !cfg.ShiftNeeded() then sends == [] && code == Ok
    else if code == Ok then sends == [yes] || sends == [no, yes]
    else code == ErrConfSocket && (sends == [no, no] || (sends == [no] && stop))
  }

  /** What a restore leaves behind. */
  function AfterRestore(cfg: Config, w: World, sends: seq<(real, bool)>, code: Code, stop: bool): World {
    AfterSends(w, sends, if code == Ok && sends != [] then Some(cfg.rx) else None).(seen := w.seen.(stopped := stop))
  }

  /** bridge_loraham_restore_rx_freq. On a connected CONF socket tx_restore_failures grows by exactly the failed
      sends; without one nothing is sent, and each of the tries counts. */
  method RestoreRx(env: Env, stats: Stats, confUp: bool) returns (code: Code, ghost sends: seq<(real, bool)>)
    requires env.Valid() && confUp == env.w.confUp && env.cfg.Sound() && MayTune(env.w)
    modifies env`log, env`w, env`stop, stats
    ensures env.Valid() && env.w == AfterRestore(env.cfg, old(env.w), sends, code, env.stop)
    ensures old(env.stop) ==> env.stop
    ensures confUp ==>
              && RestoreShape(env.cfg, sends, code, env.stop)
              && stats.c == old(stats.c).(restoreFailures := old(stats.c).restoreFailures + Failed(sends))
    ensures !confUp ==>
              && sends == []
              && code == (if !env.cfg.haveRx then ErrFormat else if !env.cfg.ShiftNeeded() then Ok else ErrConfSocket)
              && stats.c == old(stats.c).(restoreFailures := stats.c.restoreFailures)
              && (code == ErrConfSocket ==>
                    stats.c.restoreFailures == old(stats.c).restoreFailures + 2
                    || (stats.c.restoreFailures == old(stats.c).restoreFailures + 1 && env.stop))
              && (code != ErrConfSocket ==> stats.c == old(stats.c))
  {
    sends := [];
    assert env.w.cfgs + [] == env.w.cfgs;
    if !env.cfg.haveRx {
      return ErrFormat, sends;
    }
    if !env.cfg.ShiftNeeded() {
      return Ok, sends;
    }
    code, sends := TryRxTwice(env, stats, confUp);
  }

  /** The RX profile, sent again after a pause if it fails. */
  method TryRxTwice(env: Env, stats: Stats, confUp: bool) returns (code: Code, ghost sends: seq<(real, bool)>)
    requires env.Valid() && confUp == env.w.confUp && env.cfg.Sound() && MayTune(env.w)
    requires env.cfg.haveRx && env.cfg.ShiftNeeded()
    modifies env`log, env`w, env`stop, stats
    ensures env.Valid() && env.w == AfterRestore(env.cfg, old(env.w), sends, code, env.stop)
    ensures old(env.stop) ==> env.stop
    ensures confUp ==>
              && RestoreShape(env.cfg, sends, code, env.stop)
              && stats.c == old(stats.c).(restoreFailures := old(stats.c).restoreFailures + Failed(sends))
    ensures !confUp ==>
              && sends == [] && code == ErrConfSocket
              && stats.c == old(stats.c).(restoreFailures := stats.c.restoreFailures)
              && (stats.c.restoreFailures == old(stats.c).restoreFailures + 2
                  || (stats.c.restoreFailures == old(stats.c).restoreFailures + 1 && env.stop))
  {
    FailedOf((env.cfg.rx, false), (env.cfg.rx, false));
    FailedOf((env.cfg.rx, false), (env.cfg.rx, true));
    FailedOf((env.cfg.rx, true), (env.cfg.rx, true));
    code, sends := TryRx(env, stats, confUp);
    if code == Ok {
      return;
    }
    ghost var first, again, n := sends, [], 0;
    code, again, n := RetryRx(env, stats, confUp);
    Assoc(old(env.w.cfgs), first, again);
    sends := first + again;
  }

  lemma RestoreNothing(cfg: Config, w: World, stop: bool)
    ensures AfterRestore(cfg, w, [], ErrConfSocket, stop) == w.(seen := w.seen.(stopped := stop))
  {
    assert w.cfgs + [] == w.cfgs;
  }

  lemma RestoreSent(cfg: Config, w: World, sends: seq<(real, bool)>, code: Code, stop: bool)
    requires code == Ok ==> sends != []
    ensures AfterSends(w.(seen := w.seen.(stopped := stop)), sends, if code == Ok then Some(cfg.rx) else None)
         == AfterRestore(cfg, w, sends, code, stop)
  {
  }

  /** After a failed try: a pause, which only a stop request ends, and a second one; `n` of them failed. */
  method RetryRx(env: Env, stats: Stats, confUp: bool)
    returns (code: Code, ghost sends: seq<(real, bool)>, ghost n: nat)
    requires env.Valid() && confUp == env.w.confUp && MayTune(env.w)
    requires env.cfg.haveRx && env.cfg.ShiftNeeded() && env.cfg.Sound()
    modifies env`log, env`w, env`stop, stats
    ensures env.Valid() && env.w == AfterRestore(env.cfg, old(env.w), sends, code, env.stop)
    ensures (old(env.stop) ==> env.stop) && (code == Ok || code == ErrConfSocket) && (!confUp ==> code != Ok)
    ensures if n == 0 && code != Ok then sends == [] && env.stop
            else sends == (if confUp then [(env.cfg.rx, code == Ok)] else []) && n == One(code != Ok)
    ensures stats.c == old(stats.c).(restoreFailures := old(stats.c).restoreFailures + n)
  {
    ghost var w := env.w;
    RestoreNothing(env.cfg, w, true);
    var slept := env.Sleep(RESTORE_RETRY_DELAY_MS);
    if !slept {
      return ErrConfSocket, [], 0;
    }
    code, sends := TryRx(env, stats, confUp);
    RestoreSent(env.cfg, w, sends, code, env.stop);
    n := One(code != Ok);
  }

  /** One try to send the RX profile. */
  method TryRx(env: Env, stats: Stats, confUp: bool) returns (code: Code, ghost sends: seq<(real, bool)>)
    requires env.Valid() && confUp == env.w.confUp && MayTune(env.w)
    requires env.cfg.haveRx && env.cfg.ShiftNeeded() && env.cfg.Sound()
    modifies env`log, env`w, stats
    ensures env.Valid() && env.w == AfterSends(old(env.w), sends, if code == Ok then Some(env.cfg.rx) else None)
    ensures sends == if confUp then [(env.cfg.rx, code == Ok)] else []
    ensures code == Ok || code == ErrConfSocket
    ensures !confUp ==> code != Ok
    ensures stats.c == old(stats.c).(restoreFailures := old(stats.c).restoreFailures + One(code != Ok))
  {
    code, sends := SendConfigFreq(env, confUp, env.cfg.rx);
    if code != Ok {
      stats.c := stats.c.(restoreFailures := stats.c.restoreFailures + 1);
    }
  }

  // ---------- the answer to a write ----------

  /** No packet is between its write and its removal from the queue. */
  predicate Settled(w: World) { w.okWrites == 0 && !w.logged && !w.client.lost }

  /** What a transmission may change. */
  predicate OnlyTx(a: World, b: World) {
    && b == a.(flags := b.flags, asm := b.asm, cad := b.cad, dataIn := b.dataIn, rx := b.rx, client := b.client,
               freq := b.freq, cfgs := b.cfgs, paused := b.paused, judged := b.judged, okWrites := b.okWrites,
               logged := b.logged, mark := b.mark, seen := b.seen)
    && CadKept(a, b) && b.client.up == a.client.up
  }

  /** The packet has just been written. */
  predicate Written(w: World, packet: seq<byte>) {
    && IsHead(w, packet) && w.okWrites == 1 && !w.logged && w.confUp && !w.flags.txBusy
    && w.mark == Mark(|w.dataIn|, w.flags.txBusySeq, w.seen.clock, TxResultOn(w.flags))
    && !w.seen.confFailed && !w.seen.dataFailed && !w.client.lost
  }

  /** The answer to a write is on record; the radio is where it was. */
  predicate Recorded(a: World, b: World) {
    OnlyTx(a, b) && b.freq == a.freq && b.cfgs == a.cfgs && b.okWrites == 1 && Noted(b)
  }

  /** The RX path balances; the TX counters and `drops` dropped packets aside. */
  predicate RxBalanced(a: Counters, b: Counters, drops: nat) {
    && b.loraDrop >= a.loraDrop + drops
    && BridgeRx.Balanced(a, b.(restoreFailures := a.restoreFailures, unconfirmed := a.unconfirmed, loraTx := a.loraTx,
                               loraDrop := b.loraDrop - drops))
  }

  predicate HeardCounted(a: Counters, b: Counters, unconfirmed: nat) {
    && RxBalanced(a, b, 0) && b.restoreFailures == a.restoreFailures && b.loraTx == a.loraTx
    && b.unconfirmed == a.unconfirmed + unconfirmed
  }

  /** How the wait for an answer ended, in terms of the rules of a run: `code` is Ok exactly if there is one. */
  predicate ResultKnown(cfg: Config, w: World, code: Code, status: byte) {
    && w.mark.byResult && (code == Ok || code == ErrTxResult)
    && VerdictNow(w) == (if code != Ok then Unknown else if status == Framed.STATUS_OK then Confirmed else Refused)
    && (code != Ok ==> GaveUp(cfg, w))
  }

  lemma ResultIsKnown(cfg: Config, w0: World, st0: Framed.State, read: seq<byte>, w: World, code: Code,
                      result: Framed.TxResult)
    requires Sync.InSync(w0.dataIn, w0.rx, st0) && w.mark == w0.mark && w0.mark.at == |w0.dataIn| && w0.mark.byResult
    requires w.dataIn == w0.dataIn + read && (code == Ok || code == ErrTxResult)
    requires var answer := Answer(Framed.Run(st0, read).1);
             (code == Ok <==> answer.Some?) && (code == Ok ==> answer == Some(result))
    requires code != Ok ==>
               BadAnswer(Framed.Run(st0, read).1) || TxWait.WaitOver(w.seen, w0.mark.time + cfg.busyTimeoutMs)
    ensures ResultKnown(cfg, w, code, result.status)
  {
    Sync.HeardSince(w0.dataIn, w0.rx, st0, read);
  }

  /** The wait for a TX_RESULT, as the rules of a run ask for it. */
  method AwaitResult(env: Env, stats: Stats, dec: Framed.FramedDecoder, clientUp: bool, ghost packet: seq<byte>)
    returns (code: Code, status: byte, clientCode: Code)
    requires env.Valid() && dec.Valid() && Written(env.w, packet) && env.w.mark.byResult && clientUp == HasClient(env.w)
    requires Sync.InSync(env.w.dataIn, env.w.rx, dec.Abs())
    modifies env, stats, dec, dec.header, dec.payload
    ensures env.Valid() && dec.Valid() && TxWait.OnlyStream(old(env.w), env.w)
    ensures ResultKnown(env.cfg, env.w, code, status)
    ensures code == Ok ==> Sync.InSync(env.w.dataIn, env.w.rx, dec.Abs())
    ensures clientCode == Ok || clientCode == ErrClientSocket
    ensures code == Ok ==> (clientCode == ErrClientSocket <==> env.w.client.lost)
    ensures BridgeRx.Balanced(old(stats.c), stats.c)
  {
    var result, clientError;
    ghost var h, f;
    ghost var w0, st0 := env.w, dec.Abs();
    code, result, clientError, h, f := TxWait.WaitTxResult(env, stats, dec, clientUp);
    status, clientCode := result.status, if clientError then ErrClientSocket else Ok;
    ResultIsKnown(env.cfg, w0, st0, h.read, env.w, code, result);
    if code == Ok {
      Sync.SyncAfterWait(w0, env.w, clientUp, st0, dec.Abs(), h, f);
    }
  }

  /** The RF-log record is made before the restore, whose failure must not lose it; none for a refusal. */
  method LogResult(env: Env, stats: Stats, code: Code, status: byte, packet: seq<byte>)
    requires env.Valid() && IsHead(env.w, packet) && env.w.okWrites == 1 && !env.w.logged
    requires ResultKnown(env.cfg, env.w, code, status)
    modifies env`log, env`w, stats
    ensures env.Valid() && env.w == old(env.w).(logged := code != Ok || status == Framed.STATUS_OK)
    ensures stats.c == old(stats.c).(unconfirmed := old(stats.c).unconfirmed + One(code != Ok))
  {
    if code != Ok {
      stats.c := stats.c.(unconfirmed := stats.c.unconfirmed + 1);
      LogTx(env, false, packet);
    } else if status == Framed.STATUS_OK {
      LogTx(env, true, packet);
    }
  }

  /** lhkt_rflog_tx. */
  method LogTx(env: Env, ok: bool, packet: seq<byte>)
    requires env.Valid() && MayLog(env.cfg, env.w, ok, packet)
    modifies env`log, env`w
    ensures env.Valid() && env.w == old(env.w).(logged := true)
  {
    env.Record(RfLog(ok, packet));
  }

  /** Confirmation by a TX_RESULT frame. */
  method HearResult(env: Env, stats: Stats, dec: Framed.FramedDecoder, clientUp: bool, packet: seq<byte>)
    returns (code: Code, clientCode: Code, refused: bool)
    requires env.Valid() && dec.Valid() && Written(env.w, packet) && env.w.mark.byResult && clientUp == HasClient(env.w)
    requires Sync.InSync(env.w.dataIn, env.w.rx, dec.Abs())
    modifies env, stats, dec, dec.header, dec.payload
    ensures env.Valid() && dec.Valid()
    ensures Recorded(old(env.w), env.w) && env.w.flags == old(env.w.flags) && env.w.asm == old(env.w.asm)
    ensures code == Ok || code == ErrTxResult
    ensures code == ErrTxResult <==> VerdictNow(env.w) == Unknown
    ensures refused == (VerdictNow(env.w) == Refused)
    ensures code == Ok ==> Sync.InSync(env.w.dataIn, env.w.rx, dec.Abs())
    ensures env.w.mark.byResult && (clientCode == Ok || clientCode == ErrClientSocket)
    ensures code == Ok ==> (clientCode == ErrClientSocket <==> env.w.client.lost)
    ensures HeardCounted(old(stats.c), stats.c, One(code == ErrTxResult))
  {
    var status;
    code, status, clientCode := AwaitResult(env, stats, dec, clientUp, packet);
    LogResult(env, stats, code, status, packet);
    refused := code == Ok && status != Framed.STATUS_OK;
  }

  /** How the wait for TX=1 and TX=0 ended, in terms of the rules of a run. */
  predicate EventsKnown(cfg: Config, w: World, ok: bool) {
    && !w.mark.byResult && VerdictNow(w) == (if ok then Confirmed else Unknown)
    && (!ok ==> GaveUp(cfg, w))
  }

  /** The wait for TX=1 and TX=0, as the rules of a run ask for it. */
  method AwaitEvents(env: Env, conf: Conf.ConfState, ghost packet: seq<byte>) returns (code: Code)
    requires env.Valid() && ConfLinked(env.w, conf) && Written(env.w, packet) && !env.w.mark.byResult
    modifies env, conf, conf.line
    ensures env.Valid() && ConfLinked(env.w, conf) && OnlyConf(old(env.w), env.w)
    ensures EventsKnown(env.cfg, env.w, code == Ok)
  {
    code := TxWait.WaitTxComplete(env, conf);
  }

  /** The fallback wait of an unconfirmed packet, and the record. */
  method LogEvents(env: Env, stats: Stats, ok: bool, packet: seq<byte>)
    requires env.Valid() && IsHead(env.w, packet) && env.w.okWrites == 1 && !env.w.logged
    requires EventsKnown(env.cfg, env.w, ok)
    modifies env`log, env`w, env`stop, stats
    ensures env.Valid() && (old(env.stop) ==> env.stop)
    ensures env.w == old(env.w).(logged := true, seen := old(env.w.seen).(stopped := env.stop))
    ensures stats.c == old(stats.c).(unconfirmed := old(stats.c).unconfirmed + One(!ok))
  {
    if !ok {
      stats.c := stats.c.(unconfirmed := stats.c.unconfirmed + 1);
      var slept := env.Sleep(env.cfg.returnMs);
    }
    LogTx(env, ok, packet);
  }

  /** Confirmation by TX=1 and TX=0 events; without it, a fixed wait. */
  method HearEvents(env: Env, stats: Stats, conf: Conf.ConfState, packet: seq<byte>)
    requires env.Valid() && ConfLinked(env.w, conf) && Written(env.w, packet) && !env.w.mark.byResult
    modifies env, stats, conf, conf.line
    ensures env.Valid() && ConfLinked(env.w, conf)
    ensures Recorded(old(env.w), env.w) && VerdictNow(env.w) != Refused && !env.w.mark.byResult
    ensures env.w.client == old(env.w.client)
    ensures env.w.dataIn == old(env.w.dataIn) && env.w.rx == old(env.w.rx)
    ensures HeardCounted(old(stats.c), stats.c, One(VerdictNow(env.w) == Unknown))
  {
    var code := AwaitEvents(env, conf, packet);
    LogEvents(env, stats, code == Ok, packet);
  }

  // ---------- the way back ----------

  function FinishCount(c: Counters, failures: nat, done: bool, refused: bool): Counters {
    c.(restoreFailures := c.restoreFailures + failures,
       loraDrop := c.loraDrop + One(done && refused), loraTx := c.loraTx + One(done && !refused))
  }

  /** Back to RX after a write, and what the transmission amounts to. `heard` is ErrTxResult when no valid
      TX_RESULT came. */
  method Finish(env: Env, stats: Stats, heard: Code, clientCode: Code, refused: bool)
    returns (code: Code, ghost sends: seq<(real, bool)>, ghost back: Code)
    requires env.Valid() && env.w.confUp && env.cfg.Sound() && MayTune(env.w)
    modifies env`log, env`w, env`stop, stats
    ensures env.Valid() && env.w == AfterRestore(env.cfg, old(env.w), sends, back, env.stop)
    ensures RestoreShape(env.cfg, sends, back, env.stop)
    ensures code == if heard != Ok then heard else if back != Ok then back else clientCode
    ensures stats.c == FinishCount(old(stats.c), Failed(sends), heard == Ok && back == Ok, refused)
  {
    code, sends := RestoreRx(env, stats, true);
    back := code;
    ghost var c := stats.c;
    code := Conclude(stats, heard, code, clientCode, refused);
    FinishCounted(old(stats.c), c, stats.c, Failed(sends), heard == Ok && back == Ok, refused);
  }

  lemma FinishCounted(a: Counters, b: Counters, c: Counters, failures: nat, done: bool, refused: bool)
    requires b == a.(restoreFailures := a.restoreFailures + failures) && c == FinishCount(b, 0, done, refused)
    ensures c == FinishCount(a, failures, done, refused)
  {
  }

  /** What a transmission amounts to, once the way back is over. */
  method Conclude(stats: Stats, heard: Code, back: Code, clientCode: Code, refused: bool) returns (code: Code)
    modifies stats
    ensures code == if heard != Ok then heard else if back != Ok then back else clientCode
    ensures stats.c == FinishCount(old(stats.c), 0, heard == Ok && back == Ok, refused)
  {
    if heard != Ok {
      return heard;
    }
    if back != Ok {
      return back;
    }
    if refused {
      stats.c := stats.c.(loraDrop := stats.c.loraDrop + 1);
    } else {
      stats.c := stats.c.(loraTx := stats.c.loraTx + 1);
    }
    return clientCode;
  }

  /** What the code of a transmission says: a TX_RESULT was expected and none came; the write failed; or else
      whether a write to the client failed meanwhile. */
  ghost predicate CodeFits(a: World, b: World, code: Code, written: bool) {
    && (code == ErrTxResult <==> written && b.mark.byResult && VerdictNow(b) == Unknown)
    && (code == ErrTxSocket <==> !written && b.judged.None?)
    && (code == Ok || code == ErrClientSocket ==> written && (code == ErrClientSocket <==> b.client.lost))
  }

  /** From the written packet `a` to the end of the transmission: how it was answered, and the way back. */
  ghost predicate Answered(cfg: Config, a: World, b: World, code: Code, sends: seq<(real, bool)>, back: Code,
                           stop: bool) {
    && OnlyTx(a, b) && b.okWrites == 1 && Noted(b)
    && b.cfgs == a.cfgs + sends && RestoreShape(cfg, sends, back, stop)
    && b.freq == (if back == Ok && sends != [] then Some(cfg.rx) else a.freq)
    && CodeFits(a, b, code, true)
    && (code == Ok || code == ErrClientSocket ==> back == Ok)
    && (code == Ok || code == ErrClientSocket || code == ErrTxResult || (back != Ok && code == ErrConfSocket))
  }

  /** The packet counts as dropped: refused, with the RX frequency restored; or not written, although not for a
      stop request. */
  predicate TxDropped(cfg: Config, w: World, code: Code) {
    if w.okWrites == 1 then VerdictNow(w) == Refused && (code == Ok || code == ErrClientSocket)
    else code == ErrFormat || code == ErrTxSocket || w.cfgs == [(cfg.tx, false)]
  }

  /** Counters of a transmission: failed RX profiles; written packets without a confirmation; written packets
      not refused whose RX frequency is restored; dropped packets; and what the RX path counted meanwhile. */
  ghost predicate TxCounted(cfg: Config, a: Counters, b: Counters, failures: nat, w: World, code: Code) {
    && RxBalanced(a, b, One(TxDropped(cfg, w, code)))
    && b.restoreFailures == a.restoreFailures + failures
    && b.unconfirmed == a.unconfirmed + One(w.okWrites == 1 && VerdictNow(w) == Unknown)
    && b.loraTx
       == a.loraTx + One(w.okWrites == 1 && VerdictNow(w) != Refused && (code == Ok || code == ErrClientSocket))
  }

  /** The way back changes nothing that the verdict depends on. */
  lemma VerdictKept(cfg: Config, m: World, sends: seq<(real, bool)>, back: Code, stop: bool)
    ensures VerdictNow(AfterRestore(cfg, m, sends, back, stop)) == VerdictNow(m)
  {
  }

  lemma AnswerDone(cfg: Config, a: World, m: World, sends: seq<(real, bool)>, back: Code, heard: Code, clientCode: Code,
                   stop: bool)
    requires Recorded(a, m) && cfg.haveRx && RestoreShape(cfg, sends, back, stop)
    requires heard in {Ok, ErrTxResult} && clientCode in {Ok, ErrClientSocket}
    requires heard == ErrTxResult <==> m.mark.byResult && VerdictNow(m) == Unknown
    requires heard == Ok ==> (clientCode == ErrClientSocket <==> m.client.lost)
    ensures Answered(cfg, a, AfterRestore(cfg, m, sends, back, stop),
                     if heard != Ok then heard else if back != Ok then back else clientCode, sends, back, stop)
  {
    VerdictKept(cfg, m, sends, back, stop);
  }

  lemma CountDone(cfg: Config, a: Counters, m: Counters, failures: nat, w: World, heard: Code, back: Code,
                  clientCode: Code)
    requires HeardCounted(a, m, One(VerdictNow(w) == Unknown)) && w.okWrites == 1
    requires heard in {Ok, ErrTxResult} && clientCode in {Ok, ErrClientSocket} && back in {Ok, ErrConfSocket}
    ensures TxCounted(cfg, a, FinishCount(m, failures, heard == Ok && back == Ok, VerdictNow(w) == Refused),
                      failures, w, if heard != Ok then heard else if back != Ok then back else clientCode)
  {
  }

  /** Both of the above. */
  lemma ConfirmDone(cfg: Config, a: World, m: World, sends: seq<(real, bool)>, back: Code, heard: Code,
                    clientCode: Code, stop: bool, c0: Counters, c: Counters)
    requires Recorded(a, m) && cfg.haveRx && RestoreShape(cfg, sends, back, stop)
    requires heard in {Ok, ErrTxResult} && clientCode in {Ok, ErrClientSocket}
    requires heard == ErrTxResult <==> m.mark.byResult && VerdictNow(m) == Unknown
    requires heard == Ok ==> (clientCode == ErrClientSocket <==> m.client.lost)
    requires HeardCounted(c0, c, One(VerdictNow(m) == Unknown))
    ensures var w := AfterRestore(cfg, m, sends, back, stop);
            var code := if heard != Ok then heard else if back != Ok then back else clientCode;
            && Answered(cfg, a, w, code, sends, back, stop)
            && TxCounted(cfg, c0, FinishCount(c, Failed(sends), heard == Ok && back == Ok, VerdictNow(m) == Refused),
                         Failed(sends), w, code)
  {
    VerdictKept(cfg, m, sends, back, stop);
    AnswerDone(cfg, a, m, sends, back, heard, clientCode, stop);
    CountDone(cfg, c0, c, Failed(sends), AfterRestore(cfg, m, sends, back, stop), heard, back, clientCode);
  }

  method ConfirmByResult(env: Env, stats: Stats, dec: Framed.FramedDecoder, clientUp: bool, packet: seq<byte>)
    returns (code: Code, ghost sends: seq<(real, bool)>, ghost back: Code)
    requires env.Valid() && dec.Valid() && env.cfg.Sound() && env.cfg.haveRx && clientUp == HasClient(env.w)
    requires Written(env.w, packet) && env.w.mark.byResult && Sync.InSync(env.w.dataIn, env.w.rx, dec.Abs())
    modifies env, stats, dec, dec.header, dec.payload
    ensures env.Valid() && dec.Valid() && env.w.flags == old(env.w.flags) && env.w.asm == old(env.w.asm)
    ensures Answered(env.cfg, old(env.w), env.w, code, sends, back, env.stop)
    ensures code != ErrTxResult ==> Sync.InSync(env.w.dataIn, env.w.rx, dec.Abs())
    ensures TxCounted(env.cfg, old(stats.c), stats.c, Failed(sends), env.w, code)
  {
    var heard, clientCode, refused;
    heard, clientCode, refused := HearResult(env, stats, dec, clientUp, packet);
    ghost var m, c := env.w, stats.c;
    code, sends, back := Finish(env, stats, heard, clientCode, refused);
    ConfirmDone(env.cfg, old(env.w), m, sends, back, heard, clientCode, env.stop, old(stats.c), c);
  }

  method ConfirmByEvents(env: Env, stats: Stats, conf: Conf.ConfState, packet: seq<byte>)
    returns (code: Code, ghost sends: seq<(real, bool)>, ghost back: Code)
    requires env.Valid() && env.cfg.Sound() && env.cfg.haveRx
    requires ConfLinked(env.w, conf) && Written(env.w, packet) && !env.w.mark.byResult
    modifies env, stats, conf, conf.line
    ensures env.Valid() && ConfLinked(env.w, conf)
    ensures Answered(env.cfg, old(env.w), env.w, code, sends, back, env.stop) && code != ErrTxResult
    ensures env.w.dataIn == old(env.w.dataIn) && env.w.rx == old(env.w.rx)
    ensures TxCounted(env.cfg, old(stats.c), stats.c, Failed(sends), env.w, code)
  {
    HearEvents(env, stats, conf, packet);
    ghost var m, c := env.w, stats.c;
    code, sends, back := Finish(env, stats, Ok, Ok, false);
    ConfirmDone(env.cfg, old(env.w), m, sends, back, Ok, Ok, env.stop, old(stats.c), c);
  }

  /** Everything after the write. */
  method Confirm(env: Env, stats: Stats, conf: Conf.ConfState, dec: Framed.FramedDecoder, clientUp: bool,
                 packet: seq<byte>)
    returns (code: Code, ghost sends: seq<(real, bool)>, ghost back: Code)
    requires env.Valid() && dec.Valid() && env.cfg.Sound() && env.cfg.haveRx && clientUp == HasClient(env.w)
    requires ConfLinked(env.w, conf) && Written(env.w, packet) && Sync.InSync(env.w.dataIn, env.w.rx, dec.Abs())
    modifies env, stats, conf, conf.line, dec, dec.header, dec.payload
    ensures env.Valid() && dec.Valid() && ConfLinked(env.w, conf)
    ensures Answered(env.cfg, old(env.w), env.w, code, sends, back, env.stop)
    ensures code != ErrTxResult ==> Sync.InSync(env.w.dataIn, env.w.rx, dec.Abs())
    ensures TxCounted(env.cfg, old(stats.c), stats.c, Failed(sends), env.w, code)
  {
    if conf.flags.txresultKnown && conf.flags.txresultEnabled {
      code, sends, back := ConfirmByResult(env, stats, dec, clientUp, packet);
    } else {
      code, sends, back := ConfirmByEvents(env, stats, conf, packet);
    }
  }

  // ---------- from the decision to the write ----------

  /** The decision to send is made: what the caller of a transmission guarantees. */
  ghost predicate MaySend(w: World, packet: seq<byte>) {
    IsHead(w, packet) && Gate(w) && Settled(w) && w.cfgs == []
  }

  /** The world after the switch to TX, if there is one. */
  function SwitchedWorld(cfg: Config, a: World): World {
    if cfg.ShiftNeeded() then a.(freq := Some(cfg.tx), cfgs := Retuned(cfg), paused := None)
    else a.(cfgs := Retuned(cfg))
  }

  function UnswitchedWorld(cfg: Config, a: World): World {
    a.(cfgs := [(cfg.tx, false)], paused := None)
  }

  /** The world after the settling time, if there is one. */
  function SettledWorld(cfg: Config, a: World, stop: bool): World {
    if cfg.ShiftNeeded() then a.(paused := Some(cfg.settleMs), seen := a.seen.(stopped := stop)) else a
  }

  /** The switch to TX, if there is one. */
  method SwitchToTx(env: Env, stats: Stats) returns (code: Code)
    requires env.Valid() && env.cfg.Sound() && env.cfg.haveTx
    requires env.w.queue != [] && Gate(env.w) && env.w.cfgs == [] && env.w.okWrites == 0
    modifies env`log, env`w, stats
    ensures env.Valid() && code in {Ok, ErrConfSocket}
    ensures code == Ok ==> env.w == SwitchedWorld(env.cfg, old(env.w))
    ensures code != Ok ==> env.w == UnswitchedWorld(env.cfg, old(env.w)) && env.cfg.ShiftNeeded()
    ensures stats.c == old(stats.c).(loraDrop := old(stats.c).loraDrop + One(code != Ok))
  {
    code := Ok;
    if env.cfg.ShiftNeeded() {
      ghost var sends;
      code, sends := SendConfigFreq(env, true, env.cfg.tx);
      assert [] + sends == sends;
      if code != Ok {
        stats.c := stats.c.(loraDrop := stats.c.loraDrop + 1);
      }
    }
  }

  /** A stop request during the pause: back to the RX frequency, if it can be. */
  method Abandon(env: Env, stats: Stats) returns (code: Code, ghost sends: seq<(real, bool)>, ghost back: Code)
    requires env.Valid() && env.w.confUp && env.cfg.Sound() && env.cfg.haveRx && env.w.okWrites == 0 && env.stop
    modifies env`log, env`w, env`stop, stats
    ensures env.Valid() && env.stop
    ensures env.w == AfterRestore(env.cfg, old(env.w), sends, back, true)
    ensures RestoreShape(env.cfg, sends, back, true) && code == (if back == Ok then Err else back)
    ensures stats.c == old(stats.c).(restoreFailures := old(stats.c).restoreFailures + Failed(sends))
  {
    code, sends := RestoreRx(env, stats, true);
    back := code;
    if code == Ok {
      code := Err;
    }
  }

  /** The pause after a switch; a stop request ends the transmission, on the RX frequency again if it can be. */
  method Settle(env: Env, stats: Stats) returns (go: bool, code: Code, ghost sends: seq<(real, bool)>, ghost back: Code)
    requires env.Valid() && env.w.confUp && env.cfg.Sound() && env.cfg.haveRx && env.w.okWrites == 0
    modifies env`log, env`w, env`stop, stats
    ensures env.Valid()
    ensures go ==> env.w == SettledWorld(env.cfg, old(env.w), env.stop) && stats.c == old(stats.c)
    ensures !go ==>
              && env.w == AfterRestore(env.cfg, old(env.w), sends, back, true) && env.stop
              && RestoreShape(env.cfg, sends, back, true) && code == (if back == Ok then Err else back)
              && stats.c == old(stats.c).(restoreFailures := old(stats.c).restoreFailures + Failed(sends))
  {
    sends, back := [], Ok;
    if env.cfg.ShiftNeeded() {
      var slept := env.Pause(env.cfg.settleMs);
      if !slept {
        code, sends, back := Abandon(env, stats);
        return false, code, sends, back;
      }
    }
    return true, Ok, sends, back;
  }

  /** loraham_send_framed_tx_packet: type, little-endian length, payload. */
  method WriteOut(env: Env, packet: Packet) returns (ok: bool)
    requires env.Valid() && MayWrite(env.cfg, env.w, packet) && Settled(env.w)
    modifies env`log, env`w
    ensures env.Valid() && env.w == Wrote(old(env.w), ok)
    ensures env.w.flags == old(env.w.flags) && env.w.asm == old(env.w.asm) && env.w.confUp
    ensures ok ==> Written(env.w, packet)
  {
    var frame := new byte[LORAHAM_HDR_LEN + LORAHAM_TX_MAX];
    var n := |packet|;
    frame[0], frame[1], frame[2] := Framed.TX_PACKET, n % 256, n / 256 % 256;
    forall i | 0 <= i < n {
      frame[LORAHAM_HDR_LEN + i] := packet[i];
    }
    var bytes := frame[..LORAHAM_HDR_LEN + n];
    assert bytes == Framed.Encode(Framed.Frame(Framed.TX_PACKET, packet));
    ok := env.WriteFrame(bytes, packet);
  }

  /** A written packet has its record or its refusal; one not written is not recorded. */
  predicate Outcome(b: World, written: bool) {
    b.okWrites == One(written) && (if written then Noted(b) else !b.logged && !b.client.lost)
  }

  /** From the tuned radio `a` to the end of the transmission. */
  ghost predicate Returned(cfg: Config, a: World, b: World, code: Code, written: bool, sends: seq<(real, bool)>,
                           back: Code, stop: bool) {
    && OnlyTx(a, b) && Outcome(b, written)
    && b.cfgs == a.cfgs + sends && RestoreShape(cfg, sends, back, stop)
    && b.freq == (if back == Ok && sends != [] then Some(cfg.rx) else a.freq)
    && CodeFits(a, b, code, written)
    && (!Resets(code) ==> back == Ok) && (code == ErrConfSocket ==> back != Ok) && (code == Err ==> !written && stop)
    && code in {Ok, ErrClientSocket, ErrTxResult, ErrTxSocket, ErrConfSocket, Err}
  }

  lemma ReturnWritten(cfg: Config, w: World, b: World, code: Code, sends: seq<(real, bool)>, back: Code,
                      stop: bool)
    requires cfg.haveRx && Settled(w) && Answered(cfg, Wrote(w, true), b, code, sends, back, stop)
    ensures Returned(cfg, w, b, code, true, sends, back, stop)
  {
  }

  lemma ReturnUnwritten(cfg: Config, w: World, m: World, sends: seq<(real, bool)>, back: Code, stop: bool)
    requires Settled(w) && RestoreShape(cfg, sends, back, stop) && m == Wrote(w, false).(seen := m.seen)
    ensures Returned(cfg, w, AfterRestore(cfg, m, sends, back, stop), ErrTxSocket, false, sends, back, stop)
  {
  }

  /** Counters of a transmission that wrote nothing. */
  lemma CountNothingWritten(cfg: Config, a: Counters, b: Counters, failures: nat, w: World, code: Code)
    requires b == a.(loraDrop := a.loraDrop + One(TxDropped(cfg, w, code)),
                     restoreFailures := a.restoreFailures + failures)
    requires w.okWrites == 0
    ensures TxCounted(cfg, a, b, failures, w, code)
  {
  }

  /** A failed write: pause, and back to RX; the DATA socket has to be reconnected. */
  method AfterFailedWrite(env: Env, stats: Stats, ghost w0: World)
    returns (code: Code, ghost sends: seq<(real, bool)>, ghost back: Code)
    requires env.Valid() && env.w.confUp && env.cfg.Sound()
    requires Settled(w0) && env.w == Wrote(w0, false)
    modifies env`log, env`w, env`stop, stats
    ensures env.Valid() && code == ErrTxSocket
    ensures Returned(env.cfg, w0, env.w, code, false, sends, back, env.stop)
    ensures env.w.flags == w0.flags && env.w.asm == w0.asm && env.w.dataIn == w0.dataIn && env.w.rx == w0.rx
    ensures TxCounted(env.cfg, old(stats.c), stats.c, Failed(sends), env.w, code)
    ensures stats.c.loraDrop == old(stats.c).loraDrop + 1
  {
    stats.c := stats.c.(loraDrop := stats.c.loraDrop + 1);
    var slept := env.Sleep(env.cfg.returnMs);
    ghost var m := env.w;
    back, sends := RestoreRx(env, stats, true);
    ReturnUnwritten(env.cfg, w0, m, sends, back, env.stop);
    CountNothingWritten(env.cfg, old(stats.c), stats.c, Failed(sends), env.w, ErrTxSocket);
    code := ErrTxSocket;
  }

  /** A complete write: confirmation, and back to RX. */
  method AfterWrite(env: Env, stats: Stats, conf: Conf.ConfState, dec: Framed.FramedDecoder, clientUp: bool,
                    packet: seq<byte>, ghost w0: World)
    returns (code: Code, ghost sends: seq<(real, bool)>, ghost back: Code)
    requires env.Valid() && dec.Valid() && env.cfg.Sound() && env.cfg.haveRx && clientUp == HasClient(env.w)
    requires Settled(w0) && env.w == Wrote(w0, true) && Written(env.w, packet)
    requires ConfLinked(env.w, conf) && Sync.InSync(env.w.dataIn, env.w.rx, dec.Abs())
    modifies env, stats, conf, conf.line, dec, dec.header, dec.payload
    ensures env.Valid() && dec.Valid() && ConfLinked(env.w, conf)
    ensures Returned(env.cfg, w0, env.w, code, true, sends, back, env.stop)
    ensures code != ErrTxResult ==> Sync.InSync(env.w.dataIn, env.w.rx, dec.Abs())
    ensures TxCounted(env.cfg, old(stats.c), stats.c, Failed(sends), env.w, code)
  {
    code, sends, back := Confirm(env, stats, conf, dec, clientUp, packet);
    ReturnWritten(env.cfg, w0, env.w, code, sends, back, env.stop);
  }

  /** The write and everything after it. */
  method WriteAndConfirm(env: Env, stats: Stats, conf: Conf.ConfState, dec: Framed.FramedDecoder, clientUp: bool,
                         packet: Packet)
    returns (code: Code, written: bool, ghost sends: seq<(real, bool)>, ghost back: Code)
    requires env.Valid() && dec.Valid() && env.cfg.Sound() && env.cfg.haveRx && clientUp == HasClient(env.w)
    requires MayWrite(env.cfg, env.w, packet) && Settled(env.w)
    requires ConfLinked(env.w, conf) && Sync.InSync(env.w.dataIn, env.w.rx, dec.Abs())
    modifies env, stats, conf, conf.line, dec, dec.header, dec.payload
    ensures env.Valid() && dec.Valid() && ConfLinked(env.w, conf)
    ensures Returned(env.cfg, old(env.w), env.w, code, written, sends, back, env.stop)
    ensures code != ErrTxResult ==> Sync.InSync(env.w.dataIn, env.w.rx, dec.Abs())
    ensures TxCounted(env.cfg, old(stats.c), stats.c, Failed(sends), env.w, code)
  {
    var ok := WriteOut(env, packet);
    if !ok {
      code, sends, back := AfterFailedWrite(env, stats, old(env.w));
      written := false;
    } else {
      code, sends, back := AfterWrite(env, stats, conf, dec, clientUp, packet, old(env.w));
      written := true;
    }
  }

  // ---------- a whole transmission ----------

  /** The radio profiles of one transmission, and what they mean for its code. */
  predicate RetuneTrace(cfg: Config, cfgs: seq<(real, bool)>, code: Code, written: bool, stop: bool) {
    var txNo, txYes, rxNo, rxYes := (cfg.tx, false), (cfg.tx, true), (cfg.rx, false), (cfg.rx, true);
    if !cfg.haveTx || !cfg.haveRx then cfgs == [] && !written && code == ErrFormat
    else if !cfg.ShiftNeeded() then cfgs == [] && code != ErrConfSocket
    else
      || (cfgs == [txNo] && !written && code == ErrConfSocket)
      || ((cfgs == [txYes, rxYes] || cfgs == [txYes, rxNo, rxYes]) && code != ErrConfSocket)
      || ((cfgs == [txYes, rxNo, rxNo] || (cfgs == [txYes, rxNo] && stop)) && Resets(code))
  }

  /** How many RX profiles of a transmission failed: every one but the first send. */
  function FailedRx(cfgs: seq<(real, bool)>): nat {
    if cfgs == [] then 0 else Failed(cfgs[1..])
  }

  /** What a transmission does to the world. */
  ghost predicate Attempted(cfg: Config, a: World, b: World, code: Code, written: bool, stop: bool) {
    && OnlyTx(a, b) && Outcome(b, written)
    && RetuneTrace(cfg, b.cfgs, code, written, stop) && CodeFits(a, b, code, written)
    && (code == Err ==> stop && !written)
    && code in {Ok, ErrClientSocket, ErrTxResult, ErrTxSocket, ErrConfSocket, ErrFormat, Err}
    && (!Resets(code) ==> b.freq == a.freq || b.freq == Some(cfg.rx))
  }

  lemma AttemptDone(cfg: Config, a: World, b: World, code: Code, written: bool, sends: seq<(real, bool)>, back: Code,
                    stop: bool)
    requires a.cfgs == [] && cfg.haveRx && cfg.haveTx
    requires Returned(cfg, SwitchedWorld(cfg, a), b, code, written, sends, back, stop)
    ensures Attempted(cfg, a, b, code, written, stop) && FailedRx(b.cfgs) == Failed(sends)
  {
    if cfg.ShiftNeeded() {
      assert b.cfgs[1..] == sends;
    }
  }

  /** A transmission that ends before the write. */
  lemma AttemptUnswitched(cfg: Config, a: World, stop: bool)
    requires a.cfgs == [] && cfg.haveRx && cfg.haveTx && cfg.ShiftNeeded() && Settled(a) && a.judged.Some?
    ensures Attempted(cfg, a, UnswitchedWorld(cfg, a), ErrConfSocket, false, stop)
    ensures FailedRx([(cfg.tx, false)]) == 0
  {
    assert [(cfg.tx, false)][1..] == [];
  }

  lemma ReturnUnsettled(cfg: Config, a: World, sends: seq<(real, bool)>, back: Code)
    requires Settled(a) && RestoreShape(cfg, sends, back, true) && cfg.haveRx && a.judged.Some?
    ensures Returned(cfg, a, AfterRestore(cfg, a, sends, back, true), if back == Ok then Err else back, false, sends,
                     back, true)
  {
  }

  lemma TunedNow(cfg: Config, a: World, packet: seq<byte>)
    requires MaySend(a, packet) && cfg.haveRx && cfg.haveTx
    ensures Tuned(cfg, SwitchedWorld(cfg, a), packet)
  {
  }

  lemma MayWriteNow(cfg: Config, a: World, packet: seq<byte>, stop: bool)
    requires Tuned(cfg, a, packet)
    ensures MayWrite(cfg, SettledWorld(cfg, a, stop), packet)
  {
  }

  lemma ReturnSettled(cfg: Config, a: World, b: World, code: Code, written: bool, sends: seq<(real, bool)>, back: Code,
                      stop0: bool, stop: bool)
    requires Returned(cfg, SettledWorld(cfg, a, stop0), b, code, written, sends, back, stop)
    ensures Returned(cfg, a, b, code, written, sends, back, stop)
  {
  }

  /** The write and everything after it, once the radio that was tuned in the world `a` has settled. */
  method WriteSettled(env: Env, stats: Stats, conf: Conf.ConfState, dec: Framed.FramedDecoder, clientUp: bool,
                      packet: Packet, ghost a: World)
    returns (code: Code, written: bool, ghost sends: seq<(real, bool)>, ghost back: Code)
    requires env.Valid() && dec.Valid() && env.cfg.Sound() && env.cfg.haveRx && clientUp == HasClient(a)
    requires Tuned(env.cfg, a, packet) && Settled(a) && env.w == SettledWorld(env.cfg, a, env.stop)
    requires ConfLinked(a, conf) && Sync.InSync(a.dataIn, a.rx, dec.Abs())
    modifies env, stats, conf, conf.line, dec, dec.header, dec.payload
    ensures env.Valid() && dec.Valid() && ConfLinked(env.w, conf)
    ensures Returned(env.cfg, a, env.w, code, written, sends, back, env.stop)
    ensures code != ErrTxResult ==> Sync.InSync(env.w.dataIn, env.w.rx, dec.Abs())
    ensures TxCounted(env.cfg, old(stats.c), stats.c, Failed(sends), env.w, code)
  {
    ghost var stop := env.stop;
    MayWriteNow(env.cfg, a, packet, stop);
    code, written, sends, back := WriteAndConfirm(env, stats, conf, dec, clientUp, packet);
    ghost var b := env.w;
    ReturnSettled(env.cfg, a, b, code, written, sends, back, stop, env.stop);
  }

  /** After the switch: the pause, the write and everything after it. */
  method SettleAndWrite(env: Env, stats: Stats, conf: Conf.ConfState, dec: Framed.FramedDecoder, clientUp: bool,
                        packet: Packet)
    returns (code: Code, written: bool, ghost sends: seq<(real, bool)>, ghost back: Code)
    requires env.Valid() && dec.Valid() && env.cfg.Sound() && env.cfg.haveRx && clientUp == HasClient(env.w)
    requires Tuned(env.cfg, env.w, packet) && Settled(env.w) && env.w.confUp
    requires ConfLinked(env.w, conf) && Sync.InSync(env.w.dataIn, env.w.rx, dec.Abs())
    modifies env, stats, conf, conf.line, dec, dec.header, dec.payload
    ensures env.Valid() && dec.Valid() && ConfLinked(env.w, conf)
    ensures Returned(env.cfg, old(env.w), env.w, code, written, sends, back, env.stop)
    ensures code != ErrTxResult ==> Sync.InSync(env.w.dataIn, env.w.rx, dec.Abs())
    ensures TxCounted(env.cfg, old(stats.c), stats.c, Failed(sends), env.w, code)
  {
    var go;
    ghost var a, c := env.w, stats.c;
    go, code, sends, back := Settle(env, stats);
    if go {
      code, written, sends, back := WriteSettled(env, stats, conf, dec, clientUp, packet, a);
    } else {
      written := false;
      ghost var b, d := env.w, stats.c;
      ReturnUnsettled(env.cfg, a, sends, back);
      CountNothingWritten(env.cfg, c, d, Failed(sends), b, code);
    }
  }

  /** The transmission proper, with both frequencies known. */
  method Transmit(env: Env, stats: Stats, conf: Conf.ConfState, dec: Framed.FramedDecoder, clientUp: bool,
                  packet: Packet)
    returns (code: Code, written: bool)
    requires env.Valid() && dec.Valid() && env.cfg.Sound() && clientUp == HasClient(env.w)
    requires env.cfg.haveTx && env.cfg.haveRx && MaySend(env.w, packet)
    requires ConfLinked(env.w, conf) && Sync.InSync(env.w.dataIn, env.w.rx, dec.Abs())
    modifies env, stats, conf, conf.line, dec, dec.header, dec.payload
    ensures env.Valid() && dec.Valid() && ConfLinked(env.w, conf)
    ensures Attempted(env.cfg, old(env.w), env.w, code, written, env.stop)
    ensures code != ErrTxResult ==> Sync.InSync(env.w.dataIn, env.w.rx, dec.Abs())
    ensures TxCounted(env.cfg, old(stats.c), stats.c, FailedRx(env.w.cfgs), env.w, code)
  {
    ghost var w0 := env.w;
    ghost var sends, back;
    TunedNow(env.cfg, w0, packet);
    code := SwitchToTx(env, stats);
    if code != Ok {
      written := false;
      AttemptUnswitched(env.cfg, w0, env.stop);
      CountNothingWritten(env.cfg, old(stats.c), stats.c, 0, env.w, code);
    } else {
      code, written, sends, back := SettleAndWrite(env, stats, conf, dec, clientUp, packet);
      AttemptDone(env.cfg, w0, env.w, code, written, sends, back, env.stop);
    }
  }

  /** bridge_loraham_send_packet_with_client. */
  method SendPacket(env: Env, stats: Stats, conf: Conf.ConfState, dec: Framed.FramedDecoder,
                    clientUp: bool, dataUp: bool, packet: Packet)
    returns (code: Code, written: bool)
    requires env.Valid() && dec.Valid() && env.cfg.Sound() && ConfLinked(env.w, conf) && dataUp == env.w.dataUp
    requires clientUp == HasClient(env.w)
    requires dataUp ==> MaySend(env.w, packet) && Sync.InSync(env.w.dataIn, env.w.rx, dec.Abs())
    modifies env, stats, conf, conf.line, dec, dec.header, dec.payload
    ensures env.Valid() && dec.Valid() && ConfLinked(env.w, conf)
    ensures !dataUp ==> code == Err && !written && env.w == old(env.w)
    ensures !dataUp || !env.cfg.haveTx || !env.cfg.haveRx ==>
              stats.c == old(stats.c).(loraDrop := old(stats.c).loraDrop + 1)
    ensures dataUp ==>
              && Attempted(env.cfg, old(env.w), env.w, code, written, env.stop)
              && (code != ErrTxResult ==> Sync.InSync(env.w.dataIn, env.w.rx, dec.Abs()))
              && TxCounted(env.cfg, old(stats.c), stats.c, FailedRx(env.w.cfgs), env.w, code)
  {
    if !dataUp {
      stats.c := stats.c.(loraDrop := stats.c.loraDrop + 1);
      return Err, false;
    }
    if !env.cfg.haveTx || !env.cfg.haveRx {
      stats.c := stats.c.(loraDrop := stats.c.loraDrop + 1);
      CountNothingWritten(env.cfg, old(stats.c), stats.c, 0, env.w, ErrFormat);
      return ErrFormat, false;
    }
    code, written := Transmit(env, stats, conf, dec, clientUp, packet);
  }
}
