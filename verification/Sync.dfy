/** The framed decoder against the DATA stream: it is the fold of the bytes read since the socket was
    connected, and every frame they hold, TX_RESULTs aside, went through the RX path once, in order. */
module Sync {
  import opened Common
  import opened Trace
  import BridgeRx
  import Framed
  import TxWait

  ghost predicate InSync(dataIn: seq<byte>, rx: seq<(Framed.Frame, bool)>, st: Framed.State) {
    var (now, es) := Framed.Run(Framed.INIT, dataIn);
    && st == now
    && Framed.Others(BridgeRx.Bare(rx)) == Framed.Others(Framed.FramesOf(es))
  }

  lemma SyncAtStart()
    ensures InSync([], [], Framed.INIT)
  {
    assert Framed.Run(Framed.INIT, []) == (Framed.INIT, []);
  }

  lemma {:induction false} OthersTwice(frames: seq<Framed.Frame>)
    ensures Framed.Others(Framed.Others(frames)) == Framed.Others(frames)
  {
    if frames != [] {
      OthersTwice(frames[1..]);
      Framed.OthersOne(frames[0]);
      Framed.OthersConcat(if Framed.IsResult(frames[0]) then [] else [frames[0]], Framed.Others(frames[1..]));
    }
  }

  lemma {:induction false} BareTagged(frames: seq<Framed.Frame>, clientUp: bool)
    ensures BridgeRx.Bare(BridgeRx.Tagged(frames, clientUp)) == frames
  {
    if frames != [] {
      BareTagged(frames[1..], clientUp);
      var t := [(frames[0], clientUp)] + BridgeRx.Tagged(frames[1..], clientUp);
      assert t[1..] == BridgeRx.Tagged(frames[1..], clientUp) && t[0] == (frames[0], clientUp);
      assert frames == [frames[0]] + frames[1..];
    }
  }

  /** More bytes, and the records of their frames. */
  lemma SyncMore(w0: World, st0: Framed.State, bytes: seq<byte>, st: Framed.State, es: seq<Framed.Event>,
                 more: seq<(Framed.Frame, bool)>, w: World)
    requires InSync(w0.dataIn, w0.rx, st0) && Framed.Run(st0, bytes) == (st, es)
    requires w.dataIn == w0.dataIn + bytes && w.rx == w0.rx + more
    requires Framed.Others(BridgeRx.Bare(more)) == Framed.Others(Framed.FramesOf(es))
    ensures InSync(w.dataIn, w.rx, st)
  {
    Framed.RunConcat(Framed.INIT, w0.dataIn, bytes);
    var es0 := Framed.Run(Framed.INIT, w0.dataIn).1;
    Framed.FramesConcat(es0, es);
    Framed.OthersConcat(Framed.FramesOf(es0), Framed.FramesOf(es));
    BridgeRx.BareConcat(w0.rx, more);
    Framed.OthersConcat(BridgeRx.Bare(w0.rx), BridgeRx.Bare(more));
  }

  /** The wait for a TX_RESULT loses no stream data. */
  lemma SyncAfterWait(w0: World, w: World, clientUp: bool, st0: Framed.State, st: Framed.State,
                      h: TxWait.Heard, f: TxWait.Found)
    requires InSync(w0.dataIn, w0.rx, st0) && TxWait.Hearing(w0, w, clientUp, st0, st, h, f)
    requires w.dataIn == w0.dataIn + h.read
    ensures InSync(w.dataIn, w.rx, st)
  {
    OthersTwice(Framed.FramesOf(h.es));
    SyncMore(w0, st0, h.read, st, h.es, h.d.rx, w);
  }

  /** Neither does the main loop, as far as it decoded the bytes. */
  lemma SyncAfterChunk(w0: World, st0: Framed.State, bytes: seq<byte>, st: Framed.State, clientUp: bool, w: World)
    requires InSync(w0.dataIn, w0.rx, st0) && Framed.Run(st0, bytes).0 == st
    requires w.dataIn == w0.dataIn + bytes
    requires w.rx == w0.rx + BridgeRx.RxOf(Framed.Run(st0, bytes).1, clientUp)
    ensures InSync(w.dataIn, w.rx, st)
  {
    var es := Framed.Run(st0, bytes).1;
    BareTagged(Framed.FramesOf(es), clientUp);
    SyncMore(w0, st0, bytes, st, es, BridgeRx.RxOf(es, clientUp), w);
  }

  /** What a decoder in sync reports of the bytes read since the write is what the rules of a run look at. */
  lemma HeardSince(dataIn: seq<byte>, rx: seq<(Framed.Frame, bool)>, st0: Framed.State, read: seq<byte>)
    requires InSync(dataIn, rx, st0)
    ensures EventsSince(dataIn + read, |dataIn|) == Framed.Run(st0, read).1
  {
    assert (dataIn + read)[..|dataIn|] == dataIn && (dataIn + read)[|dataIn|..] == read;
  }
}
