/** What the rules of a run mean in octets, characters and numbers: the gate, the switch to the TX frequency, the
    records and the drops, stated on what was read and sent. */
module Laws {
  import opened Common
  import opened Trace
  import Conf
  import Framed
  import TxLifecycle

  // ---------- configuration ----------

  /** The two frequencies are known and more than 1 Hz apart. */
  predicate Apart(cfg: Config) {
    cfg.haveTx && cfg.haveRx && (cfg.tx - cfg.rx > 0.000001 || cfg.rx - cfg.tx > 0.000001)
  }

  predicate BothKnown(cfg: Config) { cfg.haveTx && cfg.haveRx }

  lemma ShiftMeans(cfg: Config)
    requires BothKnown(cfg)
    ensures cfg.ShiftNeeded() <==> Apart(cfg)
  {
  }

  /** The way back to RX, and the profiles of a whole transmission, by the distance of the frequencies. */
  lemma WayBack(cfg: Config, sends: seq<(real, bool)>, code: Code, stop: bool)
    requires BothKnown(cfg) && TxLifecycle.RestoreShape(cfg, sends, code, stop)
    ensures if Apart(cfg) then sends != [] && forall s :: s in sends ==> s.0 == cfg.rx else sends == [] && code == Ok
  {
  }

  lemma Transmission(cfg: Config, a: World, b: World, code: Code, written: bool, stop: bool)
    requires BothKnown(cfg) && TxLifecycle.Attempted(cfg, a, b, code, written, stop)
    ensures if Apart(cfg) then b.cfgs != [] && b.cfgs[0].0 == cfg.tx && (written ==> b.cfgs[0].1) else b.cfgs == []
  {
  }

  /** The queue takes the configured number of packets, or the nearest one from 1 to 16. */
  lemma LimitMeans(cfg: Config, n: int)
    requires 1 <= n <= 16
    ensures 1 <= cfg.QueueLimit() <= 16
    ensures cfg.QueueLimit() == cfg.queueLen
            || (cfg.queueLen < cfg.QueueLimit() <= n) || (n <= cfg.QueueLimit() < cfg.queueLen)
  {
  }

  // ---------- what was read from CONF ----------

  /** CONF was neither connected nor given up. */
  predicate Unbroken(log: seq<Event>) {
    log == [] || (!log[0].ConfUp? && !log[0].ConfDown? && Unbroken(log[1..]))
  }

  /** Nor was a STATUS asked for afresh. */
  predicate Unasked(log: seq<Event>) {
    log == [] || (!log[0].ConfUp? && !log[0].ConfDown? && !log[0].StatusAsked? && Unasked(log[1..]))
  }

  lemma {:induction false} UnbrokenSnoc(log: seq<Event>, e: Event)
    requires Unbroken(log) && !e.ConfUp? && !e.ConfDown?
    ensures Unbroken(log + [e]) && (Unasked(log) && !e.StatusAsked? ==> Unasked(log + [e]))
    decreases |log|
  {
    if log == [] {
      assert [e][1..] == [] && log + [e] == [e];
    } else {
      assert (log + [e])[0] == log[0] && (log + [e])[1..] == log[1..] + [e];
      UnbrokenSnoc(log[1..], e);
    }
  }

  lemma ConfStep(w: World, e: Event)
    ensures e.ConfUp? ==> Next(w, e).confUp
    ensures e.ConfDown? ==> !Next(w, e).confUp
    ensures !e.ConfUp? && !e.ConfDown? ==> Next(w, e).confUp == w.confUp
  {
  }

  lemma BetweenSnoc(log: seq<Event>, k: nat, i: nat)
    requires k < i < |log|
    ensures Between(log, k, i + 1) == Between(log, k, i) + [log[i]]
  {
  }

  /** A connected CONF socket was connected at some event `k`. */
  lemma {:induction false} ConnectedAt(cfg: Config, log: seq<Event>, i: nat) returns (k: nat)
    requires i <= |log| && Fold(START, log[..i]).confUp
    ensures k < i && log[k] == ConfUp && Unbroken(Between(log, k, i))
    decreases i
  {
    assert log[..0] == [];
    var e := log[i - 1];
    assert log[..i] == log[..i - 1] + [e];
    FoldSnoc(cfg, START, log[..i - 1], e);
    ConfStep(Fold(START, log[..i - 1]), e);
    if e.ConfUp? {
      k := i - 1;
      assert Between(log, k, i) == [];
    } else {
      k := ConnectedAt(cfg, log, i - 1);
      BetweenSnoc(log, k, i - 1);
      UnbrokenSnoc(Between(log, k, i - 1), e);
    }
  }

  /** What CONF bytes did to the state, TXRESULT aside. */
  ghost predicate Followed(v: World, log: seq<Event>, w: World) {
    var (asm, ls) := Conf.Run(v.asm, ConfRead(log));
    w.asm == asm && Conf.Told(Conf.Tx, v.flags.txBusy, ls, w.flags.txBusy)
  }

  /** And to what is known of TXRESULT. */
  ghost predicate ModeFollowed(v: World, log: seq<Event>, w: World) {
    var (asm, ls) := Conf.Run(v.asm, ConfRead(log));
    && w.asm == asm && Conf.Told(Conf.TxResult, v.flags.txresultEnabled, ls, w.flags.txresultEnabled)
    && (w.flags.txresultKnown <==> v.flags.txresultKnown || !Conf.Silent(Conf.TxResult, ls))
  }

  lemma FlagsStep(w: World, e: Event)
    requires !e.ConfUp? && !e.ConfDown?
    ensures e.ConfBytes? ==> Next(w, e) == Fed(w, e.bytes)
    ensures !e.ConfBytes? ==>
              && Next(w, e).asm == w.asm && Next(w, e).flags.txBusy == w.flags.txBusy
              && (!e.StatusAsked? ==> Next(w, e).flags == w.flags)
  {
  }

  lemma {:induction false} Follows(v: World, log: seq<Event>)
    requires Unbroken(log)
    ensures Followed(v, log, Fold(v, log))
    decreases |log|
  {
    if log == [] {
      assert Conf.Run(v.asm, []) == (v.asm, []);
      assert Conf.Silent(Conf.Tx, []);
    } else {
      var e, m := log[0], Next(v, log[0]);
      FlagsStep(v, e);
      Follows(m, log[1..]);
      if e.ConfBytes? {
        FollowedMore(v, e.bytes, log[1..], m, Fold(v, log));
      } else {
        assert [] + ConfRead(log[1..]) == ConfRead(log[1..]);
      }
    }
  }

  /** A new connection starts with a fresh line and an idle radio. */
  lemma FollowsUp(w: World, log: seq<Event>)
    requires Unbroken(log)
    ensures var v := Fold(Next(w, ConfUp), log);
            var (asm, ls) := Conf.Run(Conf.FRESH, ConfRead(log));
            v.asm == asm && Conf.Told(Conf.Tx, false, ls, v.flags.txBusy)
  {
    Follows(Next(w, ConfUp), log);
  }

  lemma FollowedMore(v: World, bytes: seq<byte>, rest: seq<Event>, m: World, w: World)
    requires m == Fed(v, bytes) && Followed(m, rest, w)
    ensures Followed(v, [ConfBytes(bytes)] + rest, w)
  {
    assert ([ConfBytes(bytes)] + rest)[1..] == rest;
    var ls := Conf.Run(v.asm, bytes).1;
    Conf.LastWord(Conf.Tx, v.flags, ls);
    Conf.RunConcat(v.asm, bytes, ConfRead(rest));
    Conf.ToldTwice(Conf.Tx, v.flags.txBusy, ls, m.flags.txBusy, Conf.Run(m.asm, ConfRead(rest)).1, w.flags.txBusy);
  }

  lemma {:induction false} ModeFollows(v: World, log: seq<Event>)
    requires Unasked(log)
    ensures ModeFollowed(v, log, Fold(v, log))
    decreases |log|
  {
    if log == [] {
      assert Conf.Run(v.asm, []) == (v.asm, []);
      assert Conf.Silent(Conf.TxResult, []);
    } else {
      var e, m := log[0], Next(v, log[0]);
      FlagsStep(v, e);
      ModeFollows(m, log[1..]);
      if e.ConfBytes? {
        ModeFollowedMore(v, e.bytes, log[1..], m, Fold(v, log));
      } else {
        assert [] + ConfRead(log[1..]) == ConfRead(log[1..]);
      }
    }
  }

  lemma ModeFollowedMore(v: World, bytes: seq<byte>, rest: seq<Event>, m: World, w: World)
    requires m == Fed(v, bytes) && ModeFollowed(m, rest, w)
    ensures ModeFollowed(v, [ConfBytes(bytes)] + rest, w)
  {
    assert ([ConfBytes(bytes)] + rest)[1..] == rest;
    var ls, more := Conf.Run(v.asm, bytes).1, Conf.Run(m.asm, ConfRead(rest)).1;
    Conf.LastWord(Conf.TxResult, v.flags, ls);
    Conf.ResultKnown(v.flags, ls);
    Conf.RunConcat(v.asm, bytes, ConfRead(rest));
    Conf.ToldTwice(Conf.TxResult, v.flags.txresultEnabled, ls, m.flags.txresultEnabled, more, w.flags.txresultEnabled);
    Conf.SilentBoth(Conf.TxResult, ls, more);
  }

  /** The lines of some CONF bytes: separated by LF, without CR, of at most 511 bytes. */
  function LinesOf(bytes: seq<byte>): seq<seq<byte>> {
    Conf.Short(Conf.Lines(Conf.StripCr(bytes)).0)
  }

  lemma LinesSinceConnected(cfg: Config, log: seq<Event>, k: nat, i: nat)
    requires AllLegal(cfg, START, log) && k < i <= |log| && log[k] == ConfUp && Unbroken(Between(log, k, i))
    ensures Conf.Told(Conf.Tx, false, LinesOf(ConfRead(Between(log, k, i))), Fold(START, log[..i]).flags.txBusy)
  {
    FoldParts(cfg, START, log, k, i);
    FollowsUp(Fold(START, log[..k]), Between(log, k, i));
    Conf.AssemblerRefinesLines(ConfRead(Between(log, k, i)));
  }

  /** While CONF is connected, the radio counts as busy if and only if the last line that reports TX, of those read
      since the connection was made at event `k`, says so. */
  lemma BusyByLines(cfg: Config, log: seq<Event>, i: nat) returns (k: nat)
    requires AllLegal(cfg, START, log) && i <= |log| && Fold(START, log[..i]).confUp
    ensures k < i && log[k] == ConfUp && Unbroken(Between(log, k, i))
    ensures Conf.Told(Conf.Tx, false, LinesOf(ConfRead(Between(log, k, i))), RadioBusy(Fold(START, log[..i])))
  {
    k := ConnectedAt(cfg, log, i);
    LinesSinceConnected(cfg, log, k, i);
  }

  /** No packet is written while the radio is busy: of the lines read since CONF was connected, at event `k`, the last
      one that reports TX says that it is idle, or none reports it. */
  lemma WritesOnIdleRadio(cfg: Config, log: seq<Event>, i: nat) returns (k: nat)
    requires AllLegal(cfg, START, log) && i < |log| && log[i].Write?
    ensures k < i && log[k] == ConfUp && Unbroken(Between(log, k, i))
    ensures Conf.Told(Conf.Tx, false, LinesOf(ConfRead(Between(log, k, i))), false)
  {
    At(cfg, log, i);
    k := BusyByLines(cfg, log, i);
  }

  lemma {:induction false} AskedAt(cfg: Config, log: seq<Event>, i: nat) returns (k: nat)
    requires i <= |log| && Fold(START, log[..i]).confUp
    ensures k < i && (log[k] == ConfUp || log[k] == StatusAsked) && Unasked(Between(log, k, i))
    decreases i
  {
    assert log[..0] == [];
    var e := log[i - 1];
    assert log[..i] == log[..i - 1] + [e];
    FoldSnoc(cfg, START, log[..i - 1], e);
    ConfStep(Fold(START, log[..i - 1]), e);
    if e.ConfUp? || e.StatusAsked? {
      k := i - 1;
      assert Between(log, k, i) == [];
    } else {
      k := AskedAt(cfg, log, i - 1);
      BetweenSnoc(log, k, i - 1);
      UnaskedIsUnbroken(Between(log, k, i - 1));
      UnbrokenSnoc(Between(log, k, i - 1), e);
    }
  }

  lemma {:induction false} UnaskedIsUnbroken(log: seq<Event>)
    requires Unasked(log)
    ensures Unbroken(log) && forall j :: 0 <= j < |log| ==> !log[j].ConfUp?
    decreases |log|
  {
    if log != [] {
      UnaskedIsUnbroken(log[1..]);
      assert log == [log[0]] + log[1..];
    }
  }

  lemma {:induction false} UnbrokenPrefix(log: seq<Event>, n: nat)
    requires Unbroken(log) && n <= |log|
    ensures Unbroken(log[..n])
    decreases n
  {
    if n > 0 {
      UnbrokenPrefix(log[1..], n - 1);
      assert log[..n][1..] == log[1..][..n - 1];
    }
  }

  lemma {:induction false} ConfReadConcat(a: seq<Event>, b: seq<Event>)
    ensures ConfRead(a + b) == ConfRead(a) + ConfRead(b)
    decreases |a|
  {
    if a == [] {
      assert a + b == b && [] + ConfRead(b) == ConfRead(b);
    } else {
      assert (a + b)[0] == a[0] && (a + b)[1..] == a[1..] + b;
      ConfReadConcat(a[1..], b);
      Assoc(if a[0].ConfBytes? then a[0].bytes else [], ConfRead(a[1..]), ConfRead(b));
    }
  }

  lemma FoldNext(cfg: Config, w: World, log: seq<Event>, k: nat)
    requires k < |log|
    ensures Fold(w, log[..k + 1]) == Next(Fold(w, log[..k]), log[k])
  {
    assert log[..k + 1] == log[..k] + [log[k]];
    FoldSnoc(cfg, w, log[..k], log[k]);
  }

  lemma BetweenParts(log: seq<Event>, c: nat, k: nat, i: nat)
    requires c <= k < i <= |log|
    ensures Between(log, c, i) == Between(log, c, k + 1) + Between(log, k, i)
    ensures Unbroken(Between(log, c, i)) ==> Unbroken(Between(log, c, k + 1))
  {
    var a, b := Between(log, c, k + 1), Between(log, k, i);
    assert Between(log, c, i) == a + b && (a + b)[..|a|] == a;
    if Unbroken(a + b) {
      UnbrokenPrefix(a + b, |a|);
    }
  }

  /** The line in progress after event `k`. */
  lemma AssembledSince(cfg: Config, log: seq<Event>, c: nat, k: nat)
    requires AllLegal(cfg, START, log) && c <= k < |log| && log[c] == ConfUp && Unbroken(Between(log, c, k + 1))
    ensures Next(Fold(START, log[..k]), log[k]).asm == Conf.Run(Conf.FRESH, ConfRead(Between(log, c, k + 1))).0
  {
    FoldParts(cfg, START, log, c, k + 1);
    FoldNext(cfg, START, log, k);
    FollowsUp(Fold(START, log[..c]), Between(log, c, k + 1));
  }

  lemma LinesInParts(a: seq<byte>, b: seq<byte>)
    ensures LinesOf(a + b) == LinesOf(a) + Conf.Run(Conf.Run(Conf.FRESH, a).0, b).1
  {
    Conf.RunConcat(Conf.FRESH, a, b);
    Conf.AssemblerRefinesLines(a);
    Conf.AssemblerRefinesLines(a + b);
  }

  /** The lines that were complete after event `k`, and those since. */
  lemma LinesGoOn(cfg: Config, log: seq<Event>, c: nat, k: nat, i: nat)
    requires AllLegal(cfg, START, log) && c <= k < i <= |log| && log[c] == ConfUp && Unbroken(Between(log, c, i))
    ensures LinesOf(ConfRead(Between(log, c, i)))
         == LinesOf(ConfRead(Between(log, c, k + 1)))
            + Conf.Run(Next(Fold(START, log[..k]), log[k]).asm, ConfRead(Between(log, k, i))).1
  {
    var a, b := Between(log, c, k + 1), Between(log, k, i);
    BetweenParts(log, c, k, i);
    AssembledSince(cfg, log, c, k);
    ConfReadConcat(a, b);
    LinesInParts(ConfRead(a), ConfRead(b));
  }

  lemma NotBefore(log: seq<Event>, c: nat, k: nat, i: nat)
    requires c < i <= |log| && k < i && log[c].ConfUp? && Unasked(Between(log, k, i))
    ensures c <= k
  {
    if k < c {
      assert Between(log, k, i)[c - k - 1] == log[c];
      UnaskedIsUnbroken(Between(log, k, i));
    }
  }

  lemma ModeSince(cfg: Config, log: seq<Event>, k: nat, i: nat)
    requires AllLegal(cfg, START, log) && k < i <= |log| && (log[k] == ConfUp || log[k] == StatusAsked)
    requires Unasked(Between(log, k, i))
    ensures var f, v := Fold(START, log[..i]).flags, Next(Fold(START, log[..k]), log[k]);
            var ls := Conf.Run(v.asm, ConfRead(Between(log, k, i))).1;
            && Conf.Told(Conf.TxResult, false, ls, f.txresultEnabled)
            && (f.txresultKnown <==> !Conf.Silent(Conf.TxResult, ls))
  {
    FoldParts(cfg, START, log, k, i);
    ModeFollows(Next(Fold(START, log[..k]), log[k]), Between(log, k, i));
  }

  /** Whether a write is confirmed by a TX_RESULT, and that TX_RESULTs are not off, by the lines `ls` read since CONF
      was connected or asked for its STATUS, at event `k`: they are on if the last of these that reports TXRESULT
      says 1, and unknown if none reports it; that the last one says 0 does not happen. */
  lemma ModeByLines(cfg: Config, log: seq<Event>, i: nat) returns (c: nat, k: nat, ls: seq<seq<byte>>)
    requires AllLegal(cfg, START, log) && i < |log| && log[i].Write?
    ensures c <= k < i && log[c] == ConfUp && Unbroken(Between(log, c, i))
    ensures (log[k] == ConfUp || log[k] == StatusAsked) && Unasked(Between(log, k, i))
    ensures LinesOf(ConfRead(Between(log, c, i))) == LinesOf(ConfRead(Between(log, c, k + 1))) + ls
    ensures TxResultOn(Fold(START, log[..i]).flags) <==> !Conf.Silent(Conf.TxResult, ls)
    ensures Conf.Silent(Conf.TxResult, ls) || exists j: nat :: Conf.LastReport(Conf.TxResult, ls, j, true)
  {
    At(cfg, log, i);
    c := ConnectedAt(cfg, log, i);
    k := AskedAt(cfg, log, i);
    NotBefore(log, c, k, i);
    ls := Conf.Run(Next(Fold(START, log[..k]), log[k]).asm, ConfRead(Between(log, k, i))).1;
    LinesGoOn(cfg, log, c, k, i);
    ModeSince(cfg, log, k, i);
  }

  // ---------- the switch to the TX frequency ----------

  lemma {:induction false} NoneJudged(log: seq<Event>)
    requires forall j :: 0 <= j < |log| ==> !log[j].Judged?
    ensures Undecided(log)
    decreases |log|
  {
    if log != [] {
      NoneJudged(log[1..]);
    }
  }

  lemma ProfilesSince(cfg: Config, log: seq<Event>, k: nat, i: nat)
    requires AllLegal(cfg, START, log) && k < i <= |log| && log[k].Judged?
    requires forall j :: k < j < i ==> !log[j].Judged?
    ensures Fold(START, log[..i]).cfgs == Profiles(Between(log, k, i))
  {
    NoneJudged(Between(log, k, i));
    FoldParts(cfg, START, log, k, i);
    ProfilesKept(cfg, Next(Fold(START, log[..k]), log[k]), Between(log, k, i));
    assert [] + Profiles(Between(log, k, i)) == Profiles(Between(log, k, i));
  }

  /** Every write of a run is made on the TX frequency: if it is more than 1 Hz from the RX frequency, in either
      direction, exactly the TX profile was sent since the decision to send, at event `k`, and accepted, and the
      settling time is over; otherwise no profile was sent. */
  lemma WritesOnTx(cfg: Config, log: seq<Event>, i: nat) returns (k: nat, entry: Entry)
    requires AllLegal(cfg, START, log) && i < |log| && log[i].Write?
    ensures var w := Fold(START, log[..i]);
            && k < i && DecisionAt(cfg, log, k, Send, w.seen.clock, entry) && entry.packet == log[i].packet
            && BothKnown(cfg)
            && if Apart(cfg) then
                 && Profiles(Between(log, k, i)) == [(cfg.tx, true)] && w.freq == Some(cfg.tx)
                 && w.paused == Some(cfg.settleMs)
               else Profiles(Between(log, k, i)) == []
  {
    k, entry := WritesAreGated(cfg, log, i);
    ProfilesSince(cfg, log, k, i);
    ShiftMeans(cfg);
  }

  lemma StatusStays(w: World, e: Event)
    requires w.flags.haveStatus && !e.ConfUp? && !e.ConfDown? && !e.StatusAsked?
    ensures Next(w, e).flags.haveStatus
  {
    if e.ConfBytes? {
      Conf.StatusSeen(w.flags, Conf.Run(w.asm, e.bytes).1);
    }
  }

  lemma {:induction false} StatusHolds(v: World, log: seq<Event>)
    requires Unasked(log) && v.flags.haveStatus
    ensures Fold(v, log).flags.haveStatus
    decreases |log|
  {
    if log != [] {
      StatusStays(v, log[0]);
      StatusHolds(Next(v, log[0]), log[1..]);
    }
  }

  /** If the two frequencies are the same, no profile is ever sent but by an initial configuration: none between a
      moment `k` with a known STATUS, such as any decision with CONF connected, and the next request for it. */
  lemma NoNeedlessProfile(cfg: Config, log: seq<Event>, k: nat, i: nat)
    requires AllLegal(cfg, START, log) && k < i < |log| && BothKnown(cfg) && !Apart(cfg)
    requires Fold(START, log[..k]).flags.haveStatus && log[i].Cfg?
    ensures log[k].ConfUp? || log[k].ConfDown? || log[k].StatusAsked? || !Unasked(Between(log, k, i))
  {
    At(cfg, log, i);
    ShiftMeans(cfg);
    var v := Fold(START, log[..k]);
    if !log[k].ConfUp? && !log[k].ConfDown? && !log[k].StatusAsked? && Unasked(Between(log, k, i)) {
      StatusStays(v, log[k]);
      FoldParts(cfg, START, log, k, i);
      StatusHolds(Next(v, log[k]), Between(log, k, i));
      assert false;
    }
  }

  // ---------- the records ----------

  /** The first frame of kind 0x04, TX_RESULT. */
  predicate FirstAnswer(frames: seq<Framed.Frame>, j: nat, payload: seq<byte>) {
    j < |frames| && frames[j] == Framed.Frame(0x04, payload) && forall n :: 0 <= n < j ==> frames[n].kind != 0x04
  }

  /** It has four octets, the first of which is the status. */
  ghost predicate Status(frames: seq<Framed.Frame>, status: byte) {
    exists j: nat, g: byte, lo: byte, hi: byte :: FirstAnswer(frames, j, [status, g, lo, hi])
  }

  lemma {:induction false} FirstResultAt(frames: seq<Framed.Frame>) returns (j: nat)
    requires Framed.FirstResult(frames).Some?
    ensures FirstAnswer(frames, j, Framed.FirstResult(frames).value.payload)
    decreases |frames|
  {
    if frames[0].kind == 0x04 {
      j := 0;
    } else {
      j := FirstResultAt(frames[1..]);
      j := j + 1;
    }
  }

  lemma {:induction false} FirstResultOf(frames: seq<Framed.Frame>, j: nat, payload: seq<byte>)
    requires FirstAnswer(frames, j, payload)
    ensures Framed.FirstResult(frames) == Some(Framed.Frame(0x04, payload))
    decreases j
  {
    if j > 0 {
      assert frames[0].kind != 0x04;
      FirstResultOf(frames[1..], j - 1, payload);
    }
  }

  /** The answer is the status of the first TX_RESULT of a well-formed stream, if it has four octets of which the first
      is at most 6. */
  lemma AnswerOctets(es: seq<Framed.Event>, status: byte)
    ensures Answer(es).Some? && Answer(es).value.status == status
       <==> Framed.Clean(es) && Status(Framed.FramesOf(es), status) && status <= 6
  {
    var frames := Framed.FramesOf(es);
    if Framed.FirstResult(frames).Some? {
      var j := FirstResultAt(frames);
      var f := Framed.FirstResult(frames).value;
      Framed.ResultOctets(f);
      if Framed.DecodeTxResult(f).Success? {
        var s: byte, g: byte, lo: byte, hi: byte :| f == Framed.Frame(0x04, [s, g, lo, hi]) && s <= 6;
        assert FirstAnswer(frames, j, [s, g, lo, hi]);
      }
    }
    forall j: nat, g: byte, lo: byte, hi: byte | FirstAnswer(frames, j, [status, g, lo, hi])
      ensures Framed.FirstResult(frames) == Some(Framed.Frame(0x04, [status, g, lo, hi]))
    {
      FirstResultOf(frames, j, [status, g, lo, hi]);
    }
    if Status(frames, status) {
      var j: nat, g: byte, lo: byte, hi: byte :| FirstAnswer(frames, j, [status, g, lo, hi]);
      Framed.ResultOctets(Framed.Frame(0x04, [status, g, lo, hi]));
    }
  }

  /** A line "TX=1" was read. */
  ghost predicate BusyHeard(ls: seq<seq<byte>>) {
    exists l :: l in ls && CStr(l) == [84, 88, 61, 49]
  }

  lemma {:induction false} BusyCounted(ls: seq<seq<byte>>)
    ensures Conf.CountTx(ls, true) > 0 <==> BusyHeard(ls)
    decreases |ls|
  {
    if ls != [] {
      Conf.EventLines(ls[0]);
      BusyCounted(ls[1..]);
      assert ls == [ls[0]] + ls[1..];
    }
  }

  lemma OneWord(t: Conf.Topic, ls: seq<seq<byte>>, before: bool, a: bool, b: bool)
    requires Conf.Told(t, before, ls, a) && Conf.Told(t, before, ls, b)
    ensures a == b
  {
    if !Conf.Silent(t, ls) {
      var j: nat :| Conf.LastReport(t, ls, j, a);
      var k: nat :| Conf.LastReport(t, ls, k, b);
      Conf.OneReport(t, ls[j]);
      if j < k {
        assert ls[k] in ls[j + 1..];
      }
      if k < j {
        assert ls[j] in ls[k + 1..];
      }
    }
  }

  lemma IdleByLines(f: Conf.Flags, ls: seq<seq<byte>>)
    ensures IdleHeard(Conf.ApplyLines(f, ls), f.txBusySeq) <==> BusyHeard(ls) && Conf.Told(Conf.Tx, f.txBusy, ls, false)
  {
    Conf.CountersCount(f, ls);
    BusyCounted(ls);
    Conf.LastWord(Conf.Tx, f, ls);
    if Conf.Told(Conf.Tx, f.txBusy, ls, false) {
      OneWord(Conf.Tx, ls, f.txBusy, false, Conf.ApplyLines(f, ls).txBusy);
    }
  }

  /** The DATA bytes that followed those read up to the write, as decoder events. */
  function Heard(v: World, log: seq<Event>): seq<Framed.Event> {
    Framed.Run(Framed.Run(Framed.INIT, v.dataIn).0, DataRead(log)).1
  }

  /** What a record says, by the octets and lines read since the write, which met the world `v`. */
  ghost predicate SaysOk(v: World, log: seq<Event>) {
    if TxResultOn(v.flags) then Framed.Clean(Heard(v, log)) && Status(Framed.FramesOf(Heard(v, log)), 0)
    else
      var ls := Conf.Run(v.asm, ConfRead(log)).1;
      !ConfBroke(log) && BusyHeard(ls) && Conf.Told(Conf.Tx, v.flags.txBusy, ls, false)
  }

  /** A record says "ok" if and only if, with TX_RESULTs on, the stream since the write is well-formed and its first
      frame of kind 0x04 has four octets, the first of them 0; and without them, CONF did not fail, a line TX=1 was
      read since, and the last report of TX is that the radio is idle. */
  lemma RecordsByOctets(cfg: Config, log: seq<Event>, i: nat) returns (k: nat)
    requires AllLegal(cfg, START, log) && i < |log| && log[i].RfLog?
    ensures k < i && log[k] == Write(log[i].packet, true) && Stays(Between(log, k, i))
    ensures log[i].ok <==> SaysOk(Fold(START, log[..k]), Between(log, k, i))
  {
    k := RecordsAreTrue(cfg, log, i);
    var v := Fold(START, log[..k]);
    AnswerOctets(Heard(v, Between(log, k, i)), 0);
    IdleByLines(v.flags, Conf.Run(v.asm, ConfRead(Between(log, k, i))).1);
  }

  /** A refusal: the stream is well-formed and its first frame of kind 0x04 has four octets, the first of them from
      1 to 6. */
  ghost predicate Refusal(es: seq<Framed.Event>) {
    Framed.Clean(es) && exists s: byte :: 1 <= s <= 6 && Status(Framed.FramesOf(es), s)
  }

  lemma RefusalOctets(es: seq<Framed.Event>)
    ensures AnswerVerdict(Answer(es)) == Refused <==> Refusal(es)
  {
    if Answer(es).Some? {
      AnswerOctets(es, Answer(es).value.status);
    }
    forall s: byte | Framed.Clean(es) && 1 <= s <= 6 && Status(Framed.FramesOf(es), s)
      ensures Answer(es).Some? && Answer(es).value.status == s
    {
      AnswerOctets(es, s);
    }
  }

  /** Every packet that leaves the queue as written has one record, or none if TX_RESULTs were on at its write and the
      stream since then holds a refusal. */
  lemma RefusalsByOctets(cfg: Config, log: seq<Event>, i: nat) returns (k: nat)
    requires AllLegal(cfg, START, log) && i < |log| && log[i].Dequeued? && log[i].written
    ensures k < i && log[k] == Write(log[i].entry.packet, true) && Stays(Between(log, k, i))
    ensures var v := Fold(START, log[..k]);
            Records(Between(log, k, i))
            == if TxResultOn(v.flags) && Refusal(Heard(v, Between(log, k, i))) then 0 else 1
  {
    k := RecordedOnce(cfg, log, i);
    var v := Fold(START, log[..k]);
    VerdictSince(cfg, log, k, i);
    RefusalOctets(Heard(v, Between(log, k, i)));
  }

  lemma VerdictSince(cfg: Config, log: seq<Event>, k: nat, i: nat)
    requires AllLegal(cfg, START, log) && k < i < |log| && log[k].Write? && log[k].ok && Stays(Between(log, k, i))
    ensures var v := Fold(START, log[..k]);
            VerdictNow(Fold(START, log[..i])) == Refused
            <==> TxResultOn(v.flags) && AnswerVerdict(Answer(Heard(v, Between(log, k, i)))) == Refused
  {
    At(cfg, log, k);
    var v := Fold(START, log[..k]);
    CoherentStep(cfg, v, log[k]);
    FoldParts(cfg, START, log, k, i);
    Listens(cfg, Wrote(v, true), Between(log, k, i));
    RefusedFromLog(v, Between(log, k, i), Fold(START, log[..i]));
  }

  lemma RefusedFromLog(v: World, log: seq<Event>, w: World)
    requires Listening(Wrote(v, true), log, w)
    ensures VerdictNow(w) == Refused
       <==> TxResultOn(v.flags) && AnswerVerdict(Answer(Heard(v, log))) == Refused
  {
    assert w.dataIn[..|v.dataIn|] == v.dataIn && w.dataIn[|v.dataIn|..] == DataRead(log);
  }

  // ---------- the decisions ----------

  /** The lifetime, if there is one, is over. */
  predicate Expired(cfg: Config, at: int, now: int) {
    cfg.ttlMs > 0 && now >= at + cfg.ttlMs
  }

  /** Every decision of a run, in numbers: made at the clock reading `now` about a packet queued at `at`, which a busy
      radio has held back since `since`, it is DROP if the lifetime is over or the radio is busy and `now` is the
      busy timeout or more after `since`, WAIT if the radio is busy otherwise, and SEND if neither is the case. */
  lemma DecisionsByNumbers(cfg: Config, log: seq<Event>, i: nat)
    returns (now: int, at: int, since: int, busy: bool)
    requires AllLegal(cfg, START, log) && i < |log| && log[i].Judged?
    ensures var w := Fold(START, log[..i]);
            && w.seen.reading == Some(now) && w.queue != [] && at == w.queue[0].at
            && busy == (w.confUp && w.flags.txBusy) && since == (if w.held.Some? then w.held.value else now)
    ensures log[i].policy == if Expired(cfg, at, now) then Drop
                             else if !busy then Send
                             else if now >= since + cfg.busyTimeoutMs then Drop
                             else Wait
  {
    At(cfg, log, i);
    var w := Fold(START, log[..i]);
    now, at, busy := w.seen.reading.value, w.queue[0].at, w.confUp && w.flags.txBusy;
    since := if w.held.Some? then w.held.value else now;
  }

  /** A packet is dropped only at a clock reading `now` at which its lifetime is over, or at which the radio is busy
      and has held it back for the busy timeout or more, and sent only within its lifetime. */
  lemma DropsByNumbers(cfg: Config, log: seq<Event>, i: nat) returns (k: nat)
    requires AllLegal(cfg, START, log) && i < |log| && log[i].Dequeued? && !log[i].written
    ensures k < i && log[k] == Judged(Drop)
    ensures var now, v := Fold(START, log[..i]).seen.clock, Fold(START, log[..k]);
            && v.seen.reading == Some(now)
            && (Expired(cfg, log[i].entry.at, now)
                || (v.confUp && v.flags.txBusy
                    && now >= (if v.held.Some? then v.held.value else now) + cfg.busyTimeoutMs))
  {
    k := DropsAreDue(cfg, log, i);
  }

  lemma WritesInTime(cfg: Config, log: seq<Event>, i: nat)
    requires AllLegal(cfg, START, log) && i < |log| && log[i].Write?
    ensures var w := Fold(START, log[..i]);
            w.queue != [] && w.queue[0].packet == log[i].packet && !Expired(cfg, w.queue[0].at, w.seen.clock)
  {
    var k, entry := WritesAreGated(cfg, log, i);
  }
}
