/** The two halves of the bridge together: an APRS frame that one station's KISS client sends, is heard as
    an RX packet by another station and handed to its KISS client. */
module EndToEnd {
  import opened Common
  import AddrText
  import Ax25
  import BridgeKiss
  import Framed
  import Kiss
  import RxPath
  import Scanner
  import Tnc2

  /** The header bytes 3C FF 01 occur in a text. */
  predicate HasMarker(s: seq<byte>) {
    s != [] && ([0x3C, 0xFF, 0x01] <= s || HasMarker(s[1..]))
  }

  predicate OneLineText(s: seq<byte>) {
    s == [] || (!IsEol(s[0]) && OneLineText(s[1..]))
  }

  /** A text on one line ends at its end exactly when it holds no marker. */
  lemma {:induction false} EndsAtMarker(s: seq<byte>)
    requires OneLineText(s)
    ensures Scanner.TextEnd(s) == |s| <==> !HasMarker(s)
    decreases |s|
  {
    if s != [] && !(Scanner.HDR <= s) {
      EndsAtMarker(s[1..]);
    }
  }

  lemma {:induction false} PlainIsOneLine(s: seq<byte>)
    requires forall i :: 0 <= i < |s| ==> !IsEol(s[i])
    ensures OneLineText(s)
  {
    if s != [] {
      PlainIsOneLine(s[1..]);
    }
  }

  lemma LineIsOneLine(f: Ax25.Frame)
    requires Ax25.GoodFrame(f)
    ensures OneLineText(Tnc2.LineText(f))
  {
    Tnc2.HeadChars(f);
    PlainIsOneLine(Tnc2.LineText(f));
  }

  /** The head of a line holds no byte that could start a marker. */
  lemma {:induction false} NoMarkerInHead(head: seq<byte>, tail: seq<byte>)
    requires forall i :: 0 <= i < |head| ==> Tnc2.IsHeadChar(head[i])
    ensures Scanner.TextEnd(head + tail) == |head| + Scanner.TextEnd(tail)
    decreases |head|
  {
    if head == [] {
      assert head + tail == tail;
    } else {
      NoMarkerInHead(head[1..], tail);
      Uncons(head, tail);
      assert (head + tail)[0] == head[0];
      Scanner.TextEndCons(head[0], head[1..] + tail);
    }
  }

  /** A frame whose payload was cut off after `k` bytes. */
  function Cut(f: Ax25.Frame, k: nat): Ax25.Frame
    requires k <= |f.payload|
  {
    f.(payload := f.payload[..k])
  }

  /** The first text that the scanner finds in the packet of `f` is the line of `f`, cut off at the first
      marker. */
  lemma FirstText(f: Ax25.Frame)
    requires Ax25.GoodFrame(f) && NUL !in f.payload
    ensures var k := Scanner.TextEnd(Tnc2.OneLine(f.payload));
            var line := Tnc2.LineText(f);
            && k <= |f.payload|
            && Scanner.TextEnd(line) == |Tnc2.HeadText(f)| + k
            && line[..Scanner.TextEnd(line)] == Tnc2.LineText(Cut(f, k)) != []
  {
    Tnc2.HeadChars(f);
    NoMarkerInHead(Tnc2.HeadText(f), Tnc2.OneLine(f.payload));
    CutLine(f, Scanner.TextEnd(Tnc2.OneLine(f.payload)));
  }

  lemma CutLine(f: Ax25.Frame, k: nat)
    requires k <= |f.payload|
    ensures Tnc2.LineText(f)[..|Tnc2.HeadText(f)| + k] == Tnc2.LineText(Cut(f, k)) != []
  {
    assert Tnc2.OneLine(f.payload[..k]) == Tnc2.OneLine(f.payload)[..k];
    assert Tnc2.HeadText(Cut(f, k)) == Tnc2.HeadText(f);
  }

  lemma ScanOfPacket(f: Ax25.Frame)
    requires Ax25.GoodFrame(f) && NUL !in f.payload
    ensures var k := Scanner.TextEnd(Tnc2.OneLine(f.payload));
            var scan := RxPath.PacketScan(Scanner.HDR + Tnc2.LineText(f));
            && k <= |f.payload|
            && scan.texts != [] && scan.texts[0] == Tnc2.LineText(Cut(f, k))
            && (k == |f.payload| ==> scan == Scanner.Scan([Tnc2.LineText(f)], false))
  {
    FirstText(f);
    Tnc2.GoodFits(f.path);
    Tnc2.LineSize(f);
    Scanner.PacketTexts(Tnc2.LineText(f));
  }

  /** The KISS frame that a cut-off line becomes. */
  lemma KissOfLine(f: Ax25.Frame)
    requires Ax25.GoodFrame(f) && NUL !in f.payload
    ensures RxPath.KissOf(Tnc2.LineText(f)) == Success(Kiss.Encode(Ax25.EncodeUi(Tnc2.Norm(f))))
  {
    Tnc2.LineNoNul(f);
    CStrOfText(Tnc2.LineText(f));
    Tnc2.ParseFormat(f);
  }

  lemma {:induction false} UpperPathGood(path: seq<Ax25.Addr>)
    requires Ax25.AllGood(path)
    ensures Ax25.AllGood(Tnc2.UpperPath(path))
  {
    if path != [] {
      AddrText.UpperCanon(path[0]);
      UpperPathGood(path[1..]);
      assert Tnc2.UpperPath(path)[1..] == Tnc2.UpperPath(path[1..]);
    }
  }

  lemma NormGood(f: Ax25.Frame)
    requires Ax25.GoodFrame(f)
    ensures Ax25.GoodFrame(Tnc2.Norm(f)) && Ax25.Unstar(Tnc2.Norm(f)) == Tnc2.Norm(f)
  {
    AddrText.UpperCanon(Tnc2.Plain(f.dst));
    AddrText.UpperCanon(Tnc2.Plain(f.src));
    UpperPathGood(f.path);
  }

  /** Different frames have different KISS encodings. */
  lemma EncodingsDiffer(a: seq<byte>, b: seq<byte>)
    requires a != b && |a| < KISS_MAX_FRAME && |b| < KISS_MAX_FRAME
    ensures Kiss.Encode(a) != Kiss.Encode(b)
  {
    Kiss.SelfSynchronising(Kiss.INIT, a);
    Kiss.SelfSynchronising(Kiss.INIT, b);
    var e := Kiss.AsSeq(Kiss.DecodeStep(Kiss.INIT, Kiss.FEND).1);
    assert (e + [Kiss.Got(Kiss.Frame(0, 0, a))])[|e|] == Kiss.Got(Kiss.Frame(0, 0, a));
    assert (e + [Kiss.Got(Kiss.Frame(0, 0, b))])[|e|] == Kiss.Got(Kiss.Frame(0, 0, b));
  }

  /** What the receiving client decodes from the bytes written to it, whatever its decoder held before. */
  lemma ClientDecodes(f: Ax25.Frame, d: Kiss.Decoder)
    requires Ax25.GoodFrame(f)
    ensures var raw := Ax25.EncodeUi(Tnc2.Norm(f));
            && Kiss.Run(d, Kiss.Encode(raw)).1
               == Kiss.AsSeq(Kiss.DecodeStep(d, Kiss.FEND).1) + [Kiss.Got(Kiss.Frame(0, 0, raw))]
            && Ax25.DecodeUi(raw) == Success(Tnc2.Norm(f))
  {
    NormGood(f);
    Ax25.DecodeEncode(Tnc2.Norm(f));
    Kiss.SelfSynchronising(d, Ax25.EncodeUi(Tnc2.Norm(f)));
  }

  /** The daemon's RX frame for a packet, with its four bytes of RSSI and SNR. */
  function RxFrame(meta: seq<byte>, packet: seq<byte>): Framed.Frame {
    Framed.Frame(Framed.RX_PACKET, meta + packet)
  }

  /** End to end. A frame that the TX path queues arrives as exactly one KISS frame, and decodes to the
      original with callsigns in upper case, no star on destination and source, and its payload on one
      line, if and only if its TNC2 line does not contain the bytes 3C FF 01. Otherwise the first thing the
      client gets is a truncated frame. `sent` is what the RX path wrote to the client, every write
      succeeding. */
  lemma FrameArrives(raw: seq<byte>, meta: seq<byte>, tail: seq<byte>, sent: seq<(seq<byte>, bool)>, code: Code)
    requires BridgeKiss.PacketOf(raw).Success? && |meta| == RxPath.META_LEN
    requires RxPath.FrameDone(RxFrame(meta, BridgeKiss.PacketOf(raw).value), true, sent, code)
    requires forall x :: x in sent ==> x.1
    ensures var f := Ax25.DecodeUi(raw).value;
            var packet := BridgeKiss.PacketOf(raw).value;
            var kiss := Kiss.Encode(Ax25.EncodeUi(Tnc2.Norm(f)));
            && Framed.Split(Framed.Encode(RxFrame(meta, packet)) + tail).0
               == [Framed.Got(RxFrame(meta, packet))] + Framed.Split(tail).0
            && (sent == [(kiss, true)] && code == Ok <==> !HasMarker(Tnc2.LineText(f)))
            && (HasMarker(Tnc2.LineText(f)) ==> sent != [] && sent[0].0 != kiss)
  {
    var f := Ax25.DecodeUi(raw).value;
    var packet := BridgeKiss.PacketOf(raw).value;
    Framed.SplitEncoded(RxFrame(meta, packet), tail);
    Ax25.EncodeDecode(raw);
    assert (meta + packet)[RxPath.META_LEN..] == packet;
    LineIsOneLine(f);
    EndsAtMarker(Tnc2.LineText(f));
    FirstText(f);
    PacketArrives(f, sent, code);
  }

  lemma MarkedPacket(f: Ax25.Frame)
    requires Ax25.GoodFrame(f) && f.path == [] && f.payload == Scanner.HDR
    ensures Tnc2.Format(f) == Success(Tnc2.LineText(f)) && |Tnc2.LineText(f)| <= 40
  {
    assert |Tnc2.HeadText(f)| <= 30;
  }

  lemma MarkedLine(f: Ax25.Frame)
    requires Ax25.GoodFrame(f) && f.payload == Scanner.HDR
    ensures HasMarker(Tnc2.LineText(f))
  {
    assert Tnc2.OneLine(f.payload) == Scanner.HDR && Scanner.TextEnd(Scanner.HDR) == 0;
    assert NUL !in f.payload;
    FirstText(f);
    LineIsOneLine(f);
    EndsAtMarker(Tnc2.LineText(f));
  }

  /** A frame whose payload is the marker is queued, marker and all. */
  lemma MarkedFrame(f: Ax25.Frame)
    requires Ax25.GoodFrame(f) && Ax25.Unstar(f) == f && f.path == [] && f.payload == Scanner.HDR
    ensures var raw := Ax25.EncodeUi(f);
            && Ax25.DecodeUi(raw) == Success(f)
            && BridgeKiss.PacketOf(raw) == Success(Scanner.HDR + Tnc2.LineText(f))
            && HasMarker(Tnc2.LineText(f))
  {
    Ax25.DecodeEncode(f);
    MarkedPacket(f);
    MarkedLine(f);
  }

  /** An example of a queued packet that does not arrive: the frame from "B" to "A" with the payload 3C FF 01.
      Everything is sent, and what reaches the client is another frame. */
  lemma MarkerTruncates(f: Ax25.Frame, meta: seq<byte>, sent: seq<(seq<byte>, bool)>, code: Code)
    requires f == Ax25.Frame(Ax25.Addr([65], 0, false), Ax25.Addr([66], 0, false), [], [0x3C, 0xFF, 0x01])
    requires |meta| == RxPath.META_LEN && forall x :: x in sent ==> x.1
    ensures var packet := BridgeKiss.PacketOf(Ax25.EncodeUi(f));
            && packet.Success?
            && (RxPath.FrameDone(RxFrame(meta, packet.value), true, sent, code) ==>
                  sent != [] && sent[0].0 != Kiss.Encode(Ax25.EncodeUi(Tnc2.Norm(f))))
  {
    MarkedFrame(f);
    var raw := Ax25.EncodeUi(f);
    if RxPath.FrameDone(RxFrame(meta, BridgeKiss.PacketOf(raw).value), true, sent, code) {
      FrameArrives(raw, meta, [], sent, code);
    }
  }

  /** The same, from the scanned packet on; `k` is where the payload's first marker is. */
  lemma PacketArrives(f: Ax25.Frame, sent: seq<(seq<byte>, bool)>, code: Code)
    requires Ax25.GoodFrame(f) && NUL !in f.payload
    requires RxPath.PacketDone(Scanner.HDR + Tnc2.LineText(f), sent, code)
    requires forall x :: x in sent ==> x.1
    ensures var k := Scanner.TextEnd(Tnc2.OneLine(f.payload));
            var kiss := Kiss.Encode(Ax25.EncodeUi(Tnc2.Norm(f)));
            && (k == |f.payload| ==> sent == [(kiss, true)] && code == Ok)
            && (k != |f.payload| ==> sent != [] && sent[0].0 != kiss)
  {
    ScanOfPacket(f);
    var k := Scanner.TextEnd(Tnc2.OneLine(f.payload));
    if k == |f.payload| {
      Whole(f, sent, code);
    } else {
      KissOfLine(Cut(f, k));
      Truncated(f, k);
    }
  }

  lemma Whole(f: Ax25.Frame, sent: seq<(seq<byte>, bool)>, code: Code)
    requires Ax25.GoodFrame(f) && NUL !in f.payload
    requires RxPath.Delivered([Tnc2.LineText(f)], false, sent, code)
    requires forall x :: x in sent ==> x.1
    ensures sent == [(Kiss.Encode(Ax25.EncodeUi(Tnc2.Norm(f))), true)] && code == Ok
  {
    KissOfLine(f);
    RxPath.DeliveredOne(Tnc2.LineText(f), sent, code);
  }

  lemma Truncated(f: Ax25.Frame, k: nat)
    requires Ax25.GoodFrame(f) && k < |f.payload|
    ensures Kiss.Encode(Ax25.EncodeUi(Tnc2.Norm(Cut(f, k)))) != Kiss.Encode(Ax25.EncodeUi(Tnc2.Norm(f)))
  {
    var a, b := Ax25.EncodeUi(Tnc2.Norm(Cut(f, k))), Ax25.EncodeUi(Tnc2.Norm(f));
    assert |a| < |b|;
    EncodingsDiffer(a, b);
  }
}
