/** What the daemon's frames mean for the connected client (bridge_rx.c), on values. */
module RxPath {
  import opened Common
  import Ax25
  import Framed
  import Kiss
  import Scanner
  import Tnc2

  const META_LEN: nat := 4

  /** The KISS frame that a scanned text becomes; C code sees the text up to its first NUL. */
  function KissOf(text: seq<byte>): (r: Result<seq<byte>>)
    ensures r.Failure? ==> r.code == ErrLong || r.code == ErrFormat
  {
    var f := Tnc2.Parse(CStr(text));
    if f.Failure? then Failure(f.code) else Success(Kiss.Encode(Ax25.EncodeUi(f.value)))
  }

  /** Once a line is parsed, the AX.25 frame (at most 328 bytes) and the KISS frame (at most 659) always fit
      the buffers they are encoded into: only parsing and the client write can fail. */
  lemma EncodersCannotFail(line: seq<byte>)
    requires NUL !in line && Tnc2.Parse(line).Success?
    ensures var f := Tnc2.Parse(line).value;
            && Ax25.EncodeCode(f, AX25_MAX_FRAME) == Ok
            && |Ax25.EncodeUi(f)| <= 328
            && |Kiss.Encode(Ax25.EncodeUi(f))| <= 659 < KISS_MAX_FRAME
  {
    Tnc2.ParsedGood(line);
  }

  /** The texts are delivered in order, each once, until one cannot be parsed or written; `overflow` tells
      how the list itself ended. */
  ghost predicate Delivered(texts: seq<seq<byte>>, overflow: bool, sent: seq<(seq<byte>, bool)>, code: Code)
    decreases |texts|
  {
    if texts == [] then sent == [] && code == (if overflow then ErrLong else Ok)
    else
      match KissOf(texts[0])
      case Failure(c) => sent == [] && code == c
      case Success(k) =>
        && sent != [] && sent[0].0 == k
        && if sent[0].1 then Delivered(texts[1..], overflow, sent[1..], code)
           else |sent| == 1 && code == ErrClientSocket
  }

  lemma {:induction false} DeliveredJoin(a: seq<seq<byte>>, sa: seq<(seq<byte>, bool)>,
                                         b: seq<seq<byte>>, o: bool, sb: seq<(seq<byte>, bool)>, code: Code)
    requires Delivered(a, false, sa, Ok) && Delivered(b, o, sb, code)
    ensures Delivered(a + b, o, sa + sb, code)
    decreases |a|
  {
    if a == [] {
      assert a + b == b && sa + sb == sb;
    } else {
      DeliveredJoin(a[1..], sa[1..], b, o, sb, code);
      DeliveredCons(a[0], a[1..] + b, o, sa[0], sa[1..] + sb, code);
      Uncons(a, b);
      Uncons(sa, sb);
    }
  }

  lemma DeliveredCons(t: seq<byte>, rest: seq<seq<byte>>, o: bool,
                      x: (seq<byte>, bool), more: seq<(seq<byte>, bool)>, code: Code)
    requires KissOf(t) == Success(x.0) && x.1 && Delivered(rest, o, more, code)
    ensures Delivered([t] + rest, o, [x] + more, code)
  {
    assert ([t] + rest)[1..] == rest && ([x] + more)[1..] == more;
  }

  /** What comes after a failure is never tried. */
  lemma {:induction false} DeliveredStops(a: seq<seq<byte>>, sa: seq<(seq<byte>, bool)>,
                                          b: seq<seq<byte>>, o: bool, code: Code)
    requires Delivered(a, false, sa, code) && code != Ok
    ensures Delivered(a + b, o, sa, code)
    decreases |a|
  {
    if a != [] {
      if KissOf(a[0]).Success? && sa[0].1 {
        DeliveredStops(a[1..], sa[1..], b, o, code);
        DeliveredCons(a[0], a[1..] + b, o, sa[0], sa[1..], code);
        assert sa == [sa[0]] + sa[1..];
      } else {
        FailedHead(a[0], a[1..] + b, o, sa, code);
      }
      Uncons(a, b);
    }
  }

  lemma FailedHead(t: seq<byte>, rest: seq<seq<byte>>, o: bool, sent: seq<(seq<byte>, bool)>, code: Code)
    requires match KissOf(t)
             case Failure(c) => sent == [] && code == c
             case Success(k) => |sent| == 1 && sent[0] == (k, false) && code == ErrClientSocket
    ensures Delivered([t] + rest, o, sent, code)
  {
    assert ([t] + rest)[0] == t;
  }

  /** Every write to the client succeeded. */
  predicate AllSent(sent: seq<(seq<byte>, bool)>) {
    sent == [] || (sent[0].1 && AllSent(sent[1..]))
  }

  /** Writes to the client succeed up to the one that makes it unusable. */
  predicate SentUntil(sent: seq<(seq<byte>, bool)>, failed: bool) {
    if failed then sent != [] && !sent[|sent| - 1].1 && AllSent(sent[..|sent| - 1]) else AllSent(sent)
  }

  lemma {:induction false} AllSentConcat(a: seq<(seq<byte>, bool)>, b: seq<(seq<byte>, bool)>)
    ensures AllSent(a + b) == (AllSent(a) && AllSent(b))
    decreases |a|
  {
    if a == [] {
      assert a + b == b;
    } else {
      assert (a + b)[0] == a[0] && (a + b)[1..] == a[1..] + b;
      AllSentConcat(a[1..], b);
    }
  }

  lemma SentMore(a: seq<(seq<byte>, bool)>, b: seq<(seq<byte>, bool)>, failed: bool)
    requires AllSent(a) && SentUntil(b, failed)
    ensures SentUntil(a + b, failed)
  {
    AllSentConcat(a, b);
    if failed {
      var c := b[..|b| - 1];
      assert (a + b)[..|a + b| - 1] == a + c;
      assert (a + b)[|a + b| - 1] == b[|b| - 1];
      AllSentConcat(a, c);
    }
  }

  lemma SentCons(sent: seq<(seq<byte>, bool)>, failed: bool)
    requires sent != [] && sent[0].1 && SentUntil(sent[1..], failed)
    ensures SentUntil(sent, failed)
  {
    SentMore([sent[0]], sent[1..], failed);
    assert sent == [sent[0]] + sent[1..];
  }

  lemma SentFailed(sent: seq<(seq<byte>, bool)>)
    requires |sent| == 1 && !sent[0].1
    ensures SentUntil(sent, true)
  {
    assert sent[..|sent| - 1] == [];
  }

  /** How a delivery starts. */
  lemma DeliveredParts(texts: seq<seq<byte>>, o: bool, sent: seq<(seq<byte>, bool)>, code: Code)
    requires Delivered(texts, o, sent, code)
    ensures sent == [] ==> code != ErrClientSocket
    ensures sent != [] ==>
              if sent[0].1 then texts != [] && Delivered(texts[1..], o, sent[1..], code)
              else |sent| == 1 && code == ErrClientSocket
  {
    if texts != [] {
      match KissOf(texts[0])
      case Failure(c) =>
        assert sent == [] && code == c;
      case Success(k) =>
        assert sent != [];
    }
  }

  lemma {:induction false} DeliveredSent(texts: seq<seq<byte>>, o: bool, sent: seq<(seq<byte>, bool)>, code: Code)
    requires Delivered(texts, o, sent, code)
    ensures SentUntil(sent, code == ErrClientSocket)
    decreases |texts|
  {
    DeliveredParts(texts, o, sent, code);
    if sent != [] {
      if sent[0].1 {
        DeliveredSent(texts[1..], o, sent[1..], code);
        SentCons(sent, code == ErrClientSocket);
      } else {
        SentFailed(sent);
      }
    }
  }

  lemma FrameSent(f: Framed.Frame, clientUp: bool, sent: seq<(seq<byte>, bool)>, code: Code)
    requires FrameDone(f, clientUp, sent, code)
    ensures SentUntil(sent, code == ErrClientSocket) && (!clientUp ==> sent == [])
  {
    match RfBytes(f, clientUp)
    case None =>
    case Some(packet) =>
      var scan := PacketScan(packet);
      if !(scan.texts == [] && !scan.overflow) {
        DeliveredSent(scan.texts, scan.overflow, sent, code);
      }
  }

  lemma OneDelivered(text: seq<byte>, kiss: seq<byte>)
    requires KissOf(text) == Success(kiss)
    ensures Delivered([text], false, [(kiss, true)], Ok)
    ensures Delivered([text], false, [(kiss, false)], ErrClientSocket)
  {
    assert [text][1..] == [] && [(kiss, true)][1..] == [];
  }

  lemma DeliveredOne(text: seq<byte>, sent: seq<(seq<byte>, bool)>, code: Code)
    requires Delivered([text], false, sent, code) && KissOf(text).Success?
    ensures sent == [(KissOf(text).value, code == Ok)] && (code != Ok ==> code == ErrClientSocket)
  {
    assert [text][1..] == [];
    assert sent == [sent[0]] + sent[1..];
    assert sent[0] == (KissOf(text).value, sent[0].1);
  }

  /** What a whole RF packet amounts to: the texts behind its headers, up to the first over-long one. */
  function PacketScan(packet: seq<byte>): Scanner.Scan {
    Scanner.Fitting(Scanner.Outside(packet))
  }

  /** The result of one RF packet. */
  ghost predicate PacketDone(packet: seq<byte>, sent: seq<(seq<byte>, bool)>, code: Code) {
    var f := PacketScan(packet);
    if f.texts == [] && !f.overflow then sent == [] && code == ErrFormat
    else Delivered(f.texts, f.overflow, sent, code)
  }

  lemma NoOverflowWhenOk(texts: seq<seq<byte>>, overflow: bool, sent: seq<(seq<byte>, bool)>)
    requires Delivered(texts, overflow, sent, Ok)
    ensures !overflow
  {
    if texts != [] {
      NoOverflowWhenOk(texts[1..], overflow, sent[1..]);
    }
  }

  /** The RF bytes of a daemon packet, behind RSSI and SNR, that reach the scanner; None if the frame is
      dropped or counted without looking at them. */
  function RfBytes(frame: Framed.Frame, clientUp: bool): Option<seq<byte>> {
    if frame.kind == Framed.RX_PACKET && clientUp && |frame.payload| >= META_LEN then Some(frame.payload[META_LEN..])
    else None
  }

  /** The result of one daemon frame. */
  ghost predicate FrameDone(frame: Framed.Frame, clientUp: bool, sent: seq<(seq<byte>, bool)>, code: Code) {
    match RfBytes(frame, clientUp)
    case None => sent == [] && code == Ok
    case Some(packet) => PacketDone(packet, sent, code)
  }

  /** Every text can be turned into a KISS frame. */
  predicate AllReadable(texts: seq<seq<byte>>) {
    texts == [] || (KissOf(texts[0]).Success? && AllReadable(texts[1..]))
  }

  lemma {:induction false} DeliveredOk(texts: seq<seq<byte>>, overflow: bool, sent: seq<(seq<byte>, bool)>, code: Code)
    requires Delivered(texts, overflow, sent, code)
    ensures code == Ok <==> !overflow && AllReadable(texts) && AllSent(sent)
    ensures code == ErrClientSocket <==> !AllSent(sent)
    decreases |texts|
  {
    if texts != [] && KissOf(texts[0]).Success? && sent[0].1 {
      DeliveredOk(texts[1..], overflow, sent[1..], code);
    }
  }

  /** An RF packet holds text, and all of it can be turned into KISS frames. */
  predicate Readable(packet: seq<byte>) {
    var f := PacketScan(packet);
    f.texts != [] && !f.overflow && AllReadable(f.texts)
  }

  lemma PacketOk(packet: seq<byte>, sent: seq<(seq<byte>, bool)>, code: Code)
    requires PacketDone(packet, sent, code)
    ensures code == Ok <==> Readable(packet) && AllSent(sent)
    ensures code == ErrClientSocket <==> !AllSent(sent)
  {
    var f := PacketScan(packet);
    if f.texts != [] || f.overflow {
      DeliveredOk(f.texts, f.overflow, sent, code);
    }
  }

  /** When a daemon frame is handled without a complaint. Any complaint but a failed client write makes the
      main loop drop the DATA connection, although the stream itself is intact. */
  lemma FrameOk(frame: Framed.Frame, clientUp: bool, sent: seq<(seq<byte>, bool)>, code: Code)
    requires FrameDone(frame, clientUp, sent, code)
    ensures code == Ok <==>
              AllSent(sent) && (RfBytes(frame, clientUp).Some? ==> Readable(RfBytes(frame, clientUp).value))
    ensures code == ErrClientSocket <==> !AllSent(sent)
  {
    match RfBytes(frame, clientUp)
    case None =>
    case Some(packet) => PacketOk(packet, sent, code);
  }

  /** The bytes of some writes. */
  function Outputs(sent: seq<(seq<byte>, bool)>): seq<seq<byte>> {
    if sent == [] then [] else [sent[0].0] + Outputs(sent[1..])
  }

  lemma {:induction false} OutputsConcat(a: seq<(seq<byte>, bool)>, b: seq<(seq<byte>, bool)>)
    ensures Outputs(a + b) == Outputs(a) + Outputs(b)
    decreases |a|
  {
    if a == [] {
      assert a + b == b;
      assert [] + Outputs(b) == Outputs(b);
    } else {
      assert (a + b)[0] == a[0] && (a + b)[1..] == a[1..] + b;
      OutputsConcat(a[1..], b);
      Assoc([a[0].0], Outputs(a[1..]), Outputs(b));
    }
  }

  /** The KISS frames of the texts up to the first unreadable one. */
  function KissAll(texts: seq<seq<byte>>): seq<seq<byte>> {
    if texts == [] || KissOf(texts[0]).Failure? then [] else [KissOf(texts[0]).value] + KissAll(texts[1..])
  }

  lemma {:induction false} DeliveredBytes(texts: seq<seq<byte>>, o: bool, sent: seq<(seq<byte>, bool)>, code: Code)
    requires Delivered(texts, o, sent, code)
    ensures Outputs(sent) <= KissAll(texts)
    ensures AllSent(sent) ==> Outputs(sent) == KissAll(texts)
    decreases |texts|
  {
    if texts != [] && KissOf(texts[0]).Success? && sent[0].1 {
      DeliveredBytes(texts[1..], o, sent[1..], code);
    }
  }

  function FrameKiss(frame: Framed.Frame, clientUp: bool): seq<seq<byte>> {
    match RfBytes(frame, clientUp)
    case None => []
    case Some(packet) => KissAll(PacketScan(packet).texts)
  }

  lemma FrameBytes(frame: Framed.Frame, clientUp: bool, sent: seq<(seq<byte>, bool)>, code: Code)
    requires FrameDone(frame, clientUp, sent, code)
    ensures Outputs(sent) <= FrameKiss(frame, clientUp)
    ensures AllSent(sent) ==> Outputs(sent) == FrameKiss(frame, clientUp)
  {
    match RfBytes(frame, clientUp)
    case None =>
    case Some(packet) =>
      var f := PacketScan(packet);
      if f.texts != [] || f.overflow {
        DeliveredBytes(f.texts, f.overflow, sent, code);
      }
  }

  /** The KISS frames of some daemon frames. */
  function AllKiss(frames: seq<Framed.Frame>, clientUp: bool): seq<seq<byte>> {
    if frames == [] then [] else FrameKiss(frames[0], clientUp) + AllKiss(frames[1..], clientUp)
  }

  lemma {:induction false} AllKissSnoc(frames: seq<Framed.Frame>, frame: Framed.Frame, clientUp: bool)
    ensures AllKiss(frames + [frame], clientUp) == AllKiss(frames, clientUp) + FrameKiss(frame, clientUp)
    decreases |frames|
  {
    if frames == [] {
      assert frames + [frame] == [frame] && [frame][1..] == [];
      assert FrameKiss(frame, clientUp) + [] == [] + FrameKiss(frame, clientUp);
    } else {
      assert (frames + [frame])[0] == frames[0] && (frames + [frame])[1..] == frames[1..] + [frame];
      AllKissSnoc(frames[1..], frame, clientUp);
      Assoc(FrameKiss(frames[0], clientUp), AllKiss(frames[1..], clientUp), FrameKiss(frame, clientUp));
    }
  }

  /** The client was sent the KISS frames of some daemon frames, in order, up to a write that failed. */
  ghost predicate Passed(frames: seq<Framed.Frame>, clientUp: bool, sent: seq<(seq<byte>, bool)>, failed: bool) {
    && SentUntil(sent, failed) && failed == !AllSent(sent) && Outputs(sent) <= AllKiss(frames, clientUp)
    && (!failed ==> Outputs(sent) == AllKiss(frames, clientUp))
  }

  /** One more frame, and what was sent of it to a client that is still there. */
  lemma PassedMore(frames: seq<Framed.Frame>, clientUp: bool, sent: seq<(seq<byte>, bool)>, failed: bool,
                   frame: Framed.Frame, one: seq<(seq<byte>, bool)>, code: Code)
    requires Passed(frames, clientUp, sent, failed) && FrameDone(frame, clientUp && !failed, one, code)
    ensures Passed(frames + [frame], clientUp, sent + one, failed || code == ErrClientSocket)
  {
    AllKissSnoc(frames, frame, clientUp);
    AllSentConcat(sent, one);
    FrameSent(frame, clientUp && !failed, one, code);
    if failed {
      assert sent + [] == sent;
      assert AllKiss(frames, clientUp) <= AllKiss(frames + [frame], clientUp);
      FrameOk(frame, false, one, code);
    } else {
      SentMore(sent, one, code == ErrClientSocket);
      OutputsConcat(sent, one);
      FrameOk(frame, clientUp, one, code);
      FrameBytes(frame, clientUp, one, code);
    }
  }

  /** What one daemon frame makes the client be sent: its KISS frames in order, up to a write that fails. */
  predicate FrameServed(frame: Framed.Frame, clientUp: bool, sent: seq<(seq<byte>, bool)>) {
    && SentUntil(sent, !AllSent(sent)) && Outputs(sent) <= FrameKiss(frame, clientUp)
    && (AllSent(sent) ==> Outputs(sent) == FrameKiss(frame, clientUp))
  }

  lemma ServedByFrame(frame: Framed.Frame, clientUp: bool, sent: seq<(seq<byte>, bool)>, code: Code)
    requires FrameDone(frame, clientUp, sent, code)
    ensures FrameServed(frame, clientUp, sent) && (code == ErrClientSocket <==> !AllSent(sent))
    ensures !clientUp ==> sent == []
  {
    FrameSent(frame, clientUp, sent, code);
    FrameOk(frame, clientUp, sent, code);
    FrameBytes(frame, clientUp, sent, code);
  }

  /** A frame that is handled without a complaint unless a client write fails. */
  predicate Fine(frame: Framed.Frame, clientUp: bool) {
    RfBytes(frame, clientUp).Some? ==> Readable(RfBytes(frame, clientUp).value)
  }

  predicate AllFine(frames: seq<Framed.Frame>, clientUp: bool) {
    frames == [] || (Fine(frames[0], clientUp) && AllFine(frames[1..], clientUp))
  }

  /** The KISS frames of some daemon frames, up to the first one that is not fine. */
  function Outgoing(frames: seq<Framed.Frame>, clientUp: bool): seq<seq<byte>> {
    if frames == [] then []
    else FrameKiss(frames[0], clientUp) + (if Fine(frames[0], clientUp) then Outgoing(frames[1..], clientUp) else [])
  }

  /** Without a client nothing is sent. */
  lemma {:induction false} NobodyListens(frames: seq<Framed.Frame>)
    ensures Outgoing(frames, false) == []
  {
    if frames != [] {
      NobodyListens(frames[1..]);
    }
  }

  lemma {:induction false} OutgoingConcat(a: seq<Framed.Frame>, b: seq<Framed.Frame>, clientUp: bool)
    ensures AllFine(a + b, clientUp) == (AllFine(a, clientUp) && AllFine(b, clientUp))
    ensures AllFine(a, clientUp) ==> Outgoing(a + b, clientUp) == Outgoing(a, clientUp) + Outgoing(b, clientUp)
    decreases |a|
  {
    if a == [] {
      assert a + b == b;
      assert [] + Outgoing(b, clientUp) == Outgoing(b, clientUp);
    } else {
      assert (a + b)[0] == a[0] && (a + b)[1..] == a[1..] + b;
      OutgoingConcat(a[1..], b, clientUp);
      Assoc(FrameKiss(a[0], clientUp), Outgoing(a[1..], clientUp), Outgoing(b, clientUp));
    }
  }

  /** The frames before the first stream error. */
  function CleanFrames(es: seq<Framed.Event>): seq<Framed.Frame> {
    if es == [] || !es[0].Got? then [] else [es[0].frame] + CleanFrames(es[1..])
  }

  lemma {:induction false} CleanConcat(a: seq<Framed.Event>, b: seq<Framed.Event>)
    requires Framed.Clean(a)
    ensures CleanFrames(a + b) == Framed.FramesOf(a) + CleanFrames(b)
    decreases |a|
  {
    if a == [] {
      assert a + b == b;
      assert [] + CleanFrames(b) == CleanFrames(b);
    } else {
      assert (a + b)[0] == a[0] && (a + b)[1..] == a[1..] + b;
      CleanConcat(a[1..], b);
      Assoc([a[0].frame], Framed.FramesOf(a[1..]), CleanFrames(b));
    }
  }

  /** What one read of the DATA stream, with the decoder events `es`, leads to: the code tells of a failed
      client write; if there is none, it is Ok exactly if the stream is well-formed and every frame is fine;
      and the client was sent the KISS frames of the daemon frames in order, each once, as far as it goes. */
  ghost predicate ChunkTold(es: seq<Framed.Event>, clientUp: bool, sent: seq<(seq<byte>, bool)>, code: Code) {
    && (code == ErrClientSocket <==> !AllSent(sent))
    && (AllSent(sent) ==> (code == Ok <==> Framed.Clean(es) && AllFine(Framed.FramesOf(es), clientUp)))
    && Told(es, clientUp, sent)
  }

  /** The client was sent the KISS frames of the daemon frames, up to the first trouble or a failed write. */
  predicate Told(es: seq<Framed.Event>, clientUp: bool, sent: seq<(seq<byte>, bool)>) {
    && Outputs(sent) <= Outgoing(CleanFrames(es), clientUp)
    && (AllSent(sent) ==> Outputs(sent) == Outgoing(CleanFrames(es), clientUp))
  }

  /** An example: a well-formed daemon frame around an empty RF packet. Read while a client is connected, it is
      neither Ok nor a failed client write, so that the main loop gives up a DATA stream with nothing wrong in
      it. */
  lemma IntactStreamDropped(sent: seq<(seq<byte>, bool)>, code: Code)
    ensures var frame := Framed.Frame(Framed.RX_PACKET, [0, 0, 0, 0]);
            var es := Framed.Run(Framed.INIT, Framed.Encode(frame)).1;
            && es == [Framed.Got(frame)] && Framed.Clean(es) && !AllFine(Framed.FramesOf(es), true)
            && (ChunkTold(es, true, sent, code) ==> code != Ok && code != ErrClientSocket && sent == [])
  {
    var frame := Framed.Frame(Framed.RX_PACKET, [0, 0, 0, 0]);
    Framed.DecoderRefinesSplit(Framed.Encode(frame));
    Framed.SplitEncoded(frame, []);
    assert Framed.Encode(frame) + [] == Framed.Encode(frame);
    assert Framed.Split([]) == ([], []) && [Framed.Got(frame)] + [] == [Framed.Got(frame)];
    EmptyPacketUnreadable(frame);
  }

  lemma EmptyPacketUnreadable(frame: Framed.Frame)
    requires frame == Framed.Frame(Framed.RX_PACKET, [0, 0, 0, 0])
    ensures !Fine(frame, true) && Outgoing(CleanFrames([Framed.Got(frame)]), true) == []
    ensures !AllFine(Framed.FramesOf([Framed.Got(frame)]), true)
  {
    assert frame.payload[META_LEN..] == [];
    assert [Framed.Got(frame)][1..] == [];
    assert CleanFrames([Framed.Got(frame)]) == [frame] + [] && Framed.FramesOf([Framed.Got(frame)]) == [frame] + [];
    assert FrameKiss(frame, true) == [];
  }
}
