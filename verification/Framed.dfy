/** The daemon's framed DATA stream (loraham_sock.c): one type byte, a 16-bit little-endian length, the
    payload. */
module Framed {
  import opened Common

  const MAX_PAYLOAD: nat := 1024
  const HEADER_LEN: nat := 3

  const RX_PACKET: byte := 0x01
  const TX_PACKET: byte := 0x02
  const FRAME_ERROR: byte := 0x03
  const TX_RESULT: byte := 0x04

  const TX_RESULT_LEN: nat := 4
  const STATUS_OK: byte := 0
  const STATUS_MAX: byte := 6

  datatype Frame = Frame(kind: byte, payload: seq<byte>)

  datatype Event = Nothing | Got(frame: Frame) | TooLong

  // ---------- the byte-at-a-time machine ----------

  datatype State = State(header: seq<byte>, payload: seq<byte>)

  const INIT := State([], [])

  /** A 16-bit little-endian number. */
  function Le16(lo: byte, hi: byte): (n: nat)
    ensures n < 0x10000
  {
    var l: int, h: int := lo, hi;
    l + 256 * h
  }

  function Announced(h: seq<byte>): nat
    requires |h| == HEADER_LEN
  {
    Le16(h[1], h[2])
  }

  /** Reachable states: a partial header, or a full one that still waits for payload. */
  ghost predicate Reachable(st: State) {
    if |st.header| < HEADER_LEN then st.payload == []
    else |st.header| == HEADER_LEN && |st.payload| < Announced(st.header) <= MAX_PAYLOAD
  }

  function Step(st: State, b: byte): (State, Event) {
    if |st.header| < HEADER_LEN then
      var h := st.header + [b];
      if |h| < HEADER_LEN then (State(h, []), Nothing)
      else if Announced(h) > MAX_PAYLOAD then (INIT, TooLong)
      else if Announced(h) == 0 then (INIT, Got(Frame(h[0], [])))
      else (State(h, []), Nothing)
    else
      var p := st.payload + [b];
      if |st.header| == HEADER_LEN && |p| < Announced(st.header) then (State(st.header, p), Nothing)
      else (INIT, Got(Frame(st.header[0], p)))
  }

  function AsSeq(e: Event): seq<Event> {
    if e == Nothing then [] else [e]
  }

  function Run(st: State, s: seq<byte>): (State, seq<Event>)
    decreases |s|
  {
    if s == [] then (st, [])
    else
      var (st1, e) := Step(st, s[0]);
      var (st2, es) := Run(st1, s[1..]);
      (st2, AsSeq(e) + es)
  }

  lemma RunCons(st: State, b: byte, rest: seq<byte>)
    ensures Run(st, [b] + rest) == (Run(Step(st, b).0, rest).0, AsSeq(Step(st, b).1) + Run(Step(st, b).0, rest).1)
  {
    assert ([b] + rest)[1..] == rest;
  }

  lemma {:induction false} RunConcat(st: State, a: seq<byte>, b: seq<byte>)
    ensures Run(st, a + b) == (Run(Run(st, a).0, b).0, Run(st, a).1 + Run(Run(st, a).0, b).1)
    decreases |a|
  {
    if a == [] {
      assert a + b == b;
      assert [] + Run(st, b).1 == Run(st, b).1;
    } else {
      var (st1, e) := Step(st, a[0]);
      var rest := a[1..];
      RunConcat(st1, rest, b);
      RunCons(st, a[0], rest + b);
      assert a + b == [a[0]] + (rest + b);
      Assoc(AsSeq(e), Run(st1, rest).1, Run(Run(st1, rest).0, b).1);
    }
  }

  /** A silent first part adds nothing to the events of the rest. */
  lemma RunAfterSilence(st: State, a: seq<byte>, b: seq<byte>)
    requires Run(st, a).1 == []
    ensures Run(st, a + b) == Run(Run(st, a).0, b)
  {
    RunConcat(st, a, b);
    assert [] + Run(Run(st, a).0, b).1 == Run(Run(st, a).0, b).1;
  }

  lemma {:induction false} RunReachable(st: State, s: seq<byte>)
    requires Reachable(st)
    ensures Reachable(Run(st, s).0)
    decreases |s|
  {
    if s != [] {
      StepReachable(st, s[0]);
      RunReachable(Step(st, s[0]).0, s[1..]);
    }
  }

  lemma StepReachable(st: State, b: byte)
    requires Reachable(st)
    ensures Reachable(Step(st, b).0)
  {
  }

  lemma GotFits(st: State, b: byte)
    requires Reachable(st) && Step(st, b).1.Got?
    ensures |Step(st, b).1.frame.payload| <= MAX_PAYLOAD
  {
  }

  lemma RunOne(st: State, b: byte)
    ensures Run(st, [b]) == (Step(st, b).0, AsSeq(Step(st, b).1))
  {
    assert [b] + [] == [b];
    RunCons(st, b, []);
    assert AsSeq(Step(st, b).1) + [] == AsSeq(Step(st, b).1);
  }

  /** loraham_framed_rx_state_t and its decoder. */
  class FramedDecoder {
    const header: array<byte>
    var headerLen: nat
    var kind: byte
    var payloadLen: nat
    var payloadPos: nat
    const payload: array<byte>

    ghost predicate Valid()
      reads this, header
    {
      && header.Length == HEADER_LEN && payload.Length == MAX_PAYLOAD && header != payload
      && headerLen <= HEADER_LEN
      && (headerLen < HEADER_LEN ==> payloadPos == 0)
      && (headerLen == HEADER_LEN ==>
            && kind == header[0] && payloadLen == Announced(header[..])
            && payloadPos < payloadLen <= MAX_PAYLOAD)
    }

    ghost function Abs(): (st: State)
      requires Valid()
      reads this, header, payload
      ensures Reachable(st)
    {
      State(header[..headerLen], payload[..payloadPos])
    }

    constructor ()
      ensures Valid() && fresh(header) && fresh(payload) && Abs() == INIT
    {
      header := new byte[HEADER_LEN];
      payload := new byte[MAX_PAYLOAD];
      headerLen, kind, payloadLen, payloadPos := 0, 0, 0, 0;
    }

    /** loraham_framed_rx_state_init. */
    method Init()
      requires Valid()
      modifies this
      ensures Valid() && Abs() == INIT
    {
      headerLen, kind, payloadLen, payloadPos := 0, 0, 0, 0;
    }

    /** loraham_framed_decode_byte. */
    method DecodeByte(b: byte) returns (e: Event)
      requires Valid()
      modifies this, header, payload
      ensures Valid()
      ensures (Abs(), e) == Step(old(Abs()), b)
    {
      if headerLen < HEADER_LEN {
        e := HeaderByte(b);
      } else {
        e := PayloadByte(b);
      }
    }

    method HeaderByte(b: byte) returns (e: Event)
      requires Valid() && headerLen < HEADER_LEN
      modifies this, header
      ensures Valid()
      ensures (Abs(), e) == Step(old(Abs()), b)
    {
      header[headerLen] := b;
      headerLen := headerLen + 1;
      assert header[..headerLen] == old(header[..headerLen]) + [b];
      if headerLen < HEADER_LEN {
        return Nothing;
      }
      assert header[..] == header[..headerLen];
      kind := header[0];
      payloadLen := Le16(header[1], header[2]);
      payloadPos := 0;
      if payloadLen > MAX_PAYLOAD {
        Reset();
        return TooLong;
      }
      if payloadLen == 0 {
        e := Got(Frame(kind, []));
        Reset();
        return;
      }
      return Nothing;
    }

    method PayloadByte(b: byte) returns (e: Event)
      requires Valid() && headerLen == HEADER_LEN
      modifies this, payload
      ensures Valid()
      ensures (Abs(), e) == Step(old(Abs()), b)
    {
      assert header[..] == header[..headerLen];
      payload[payloadPos] := b;
      payloadPos := payloadPos + 1;
      assert payload[..payloadPos] == old(payload[..payloadPos]) + [b];
      if payloadPos < payloadLen {
        return Nothing;
      }
      e := Got(Frame(kind, payload[..payloadLen]));
      Reset();
    }

    method Reset()
      requires header.Length == HEADER_LEN && payload.Length == MAX_PAYLOAD && header != payload
      modifies this
      ensures Valid() && Abs() == INIT
    {
      headerLen, kind, payloadLen, payloadPos := 0, 0, 0, 0;
    }
  }

  // ---------- what a stream means ----------

  /** Cut a stream at its length prefixes: the frames (an over-long announcement counts as an error and
      only its header is skipped), and the incomplete rest. */
  function Split(s: seq<byte>): (seq<Event>, seq<byte>)
    decreases |s|
  {
    if |s| < HEADER_LEN then ([], s)
    else
      var n := Announced(s[..HEADER_LEN]);
      if n > MAX_PAYLOAD then
        var (es, rest) := Split(s[HEADER_LEN..]);
        ([TooLong] + es, rest)
      else if |s| < HEADER_LEN + n then ([], s)
      else
        var (es, rest) := Split(s[HEADER_LEN + n..]);
        ([Got(Frame(s[0], s[HEADER_LEN..HEADER_LEN + n]))] + es, rest)
  }

  /** The decoder state that an incomplete frame leaves behind. */
  function StateOf(rest: seq<byte>): State {
    if |rest| < HEADER_LEN then State(rest, []) else State(rest[..HEADER_LEN], rest[HEADER_LEN..])
  }

  lemma HeaderStep(h: seq<byte>, b: byte)
    requires |h| < HEADER_LEN && Run(INIT, h) == (State(h, []), [])
    ensures var h1 := h + [b];
              Run(INIT, h1) ==
              if |h1| < HEADER_LEN then (State(h1, []), [])
              else if Announced(h1) > MAX_PAYLOAD then (INIT, [TooLong])
              else if Announced(h1) == 0 then (INIT, [Got(Frame(h1[0], []))])
              else (State(h1, []), [])
  {
    RunOne(State(h, []), b);
    RunAfterSilence(INIT, h, [b]);
  }

  lemma RunHeader(h: seq<byte>)
    requires |h| <= HEADER_LEN
    ensures |h| < HEADER_LEN ==> Run(INIT, h) == (State(h, []), [])
    ensures |h| == HEADER_LEN ==>
              Run(INIT, h) ==
              if Announced(h) > MAX_PAYLOAD then (INIT, [TooLong])
              else if Announced(h) == 0 then (INIT, [Got(Frame(h[0], []))])
              else (State(h, []), [])
  {
    if |h| > 0 {
      RunHeader(h[..|h| - 1]);
      HeaderStep(h[..|h| - 1], h[|h| - 1]);
      assert h == h[..|h| - 1] + [h[|h| - 1]];
    }
  }

  lemma {:induction false} RunPayload(h: seq<byte>, p: seq<byte>, s: seq<byte>)
    requires |h| == HEADER_LEN && |p| < Announced(h)
    requires |p| + |s| <= Announced(h)
    ensures Run(State(h, p), s) ==
            if |p| + |s| < Announced(h) then (State(h, p + s), []) else (INIT, [Got(Frame(h[0], p + s))])
    decreases |s|
  {
    if s == [] {
      assert p + s == p;
    } else {
      assert s == [s[0]] + s[1..];
      RunOne(State(h, p), s[0]);
      if |p| + 1 < Announced(h) {
        RunAfterSilence(State(h, p), [s[0]], s[1..]);
        Assoc(p, [s[0]], s[1..]);
        RunPayload(h, p + [s[0]], s[1..]);
      } else {
        assert s == [s[0]];
      }
    }
  }

  /** One complete frame at the front of a stream. */
  lemma RunFrame(h: seq<byte>, body: seq<byte>)
    requires |h| == HEADER_LEN && Announced(h) <= MAX_PAYLOAD && |body| == Announced(h)
    ensures Run(INIT, h + body) == (INIT, [Got(Frame(h[0], body))])
  {
    RunHeader(h);
    if body == [] {
      assert h + body == h;
    } else {
      RunAfterSilence(INIT, h, body);
      RunPayload(h, [], body);
      assert [] + body == body;
    }
  }

  lemma RunPartial(h: seq<byte>, body: seq<byte>)
    requires |h| == HEADER_LEN && Announced(h) <= MAX_PAYLOAD && |body| < Announced(h)
    ensures Run(INIT, h + body) == (State(h, body), [])
  {
    RunHeader(h);
    RunAfterSilence(INIT, h, body);
    RunPayload(h, [], body);
    assert [] + body == body;
  }

  /** The decoder, fed any byte stream, reports exactly the frames that cutting the stream at its length
      prefixes yields, and holds exactly the incomplete rest. */
  lemma {:induction false} DecoderRefinesSplit(s: seq<byte>)
    ensures Run(INIT, s) == (StateOf(Split(s).1), Split(s).0)
    decreases |s|
  {
    if |s| < HEADER_LEN {
      RunHeader(s);
    } else {
      var h, tail := s[..HEADER_LEN], s[HEADER_LEN..];
      assert s == h + tail;
      var n := Announced(h);
      if n > MAX_PAYLOAD {
        RunHeader(h);
        RunConcat(INIT, h, tail);
        DecoderRefinesSplit(tail);
      } else if |s| < HEADER_LEN + n {
        RunPartial(h, tail);
      } else {
        var body, rest := s[HEADER_LEN..HEADER_LEN + n], s[HEADER_LEN + n..];
        assert s == (h + body) + rest;
        RunFrame(h, body);
        RunConcat(INIT, h + body, rest);
        DecoderRefinesSplit(rest);
      }
    }
  }

  // ---------- encoding ----------

  /** The frame layout that loraham_send_framed_tx_packet writes. */
  function Encode(f: Frame): seq<byte>
    requires |f.payload| <= MAX_PAYLOAD
  {
    [f.kind, |f.payload| % 256, |f.payload| / 256] + f.payload
  }

  /** The layout, octet by octet, and what it stands for in a stream: a kind, the length of the payload with its low
      octet first, and the payload. */
  lemma FrameOctets(kind: byte, lo: byte, hi: byte, payload: seq<byte>, tail: seq<byte>)
    requires |payload| == lo + 256 * hi <= 1024
    ensures Encode(Frame(kind, payload)) == [kind, lo, hi] + payload
    ensures Split([kind, lo, hi] + payload + tail) == ([Got(Frame(kind, payload))] + Split(tail).0, Split(tail).1)
  {
    SplitEncoded(Frame(kind, payload), tail);
  }

  /** An announcement of more than 1024 octets is an error, and only its header is skipped. */
  lemma OverLongOctets(kind: byte, lo: byte, hi: byte, tail: seq<byte>)
    requires lo + 256 * hi > 1024
    ensures Split([kind, lo, hi] + tail) == ([TooLong] + Split(tail).0, Split(tail).1)
  {
    var h: seq<byte> := [kind, lo, hi];
    assert (h + tail)[..HEADER_LEN] == h && (h + tail)[HEADER_LEN..] == tail;
  }

  /** A frame that is not complete reports nothing yet. */
  lemma OpenOctets(kind: byte, lo: byte, hi: byte, part: seq<byte>)
    requires |part| < lo + 256 * hi <= 1024
    ensures Split([]) == ([], []) && Split([kind]) == ([], [kind]) && Split([kind, lo]) == ([], [kind, lo])
    ensures Split([kind, lo, hi] + part) == ([], [kind, lo, hi] + part)
  {
    var h: seq<byte> := [kind, lo, hi];
    assert (h + part)[..HEADER_LEN] == h;
  }

  predicate AllFit(frames: seq<Frame>) {
    frames == [] || (|frames[0].payload| <= MAX_PAYLOAD && AllFit(frames[1..]))
  }

  function EncodeAll(frames: seq<Frame>): seq<byte>
    requires AllFit(frames)
  {
    if frames == [] then [] else Encode(frames[0]) + EncodeAll(frames[1..])
  }

  function GotAll(frames: seq<Frame>): seq<Event> {
    if frames == [] then [] else [Got(frames[0])] + GotAll(frames[1..])
  }

  lemma SplitEncoded(f: Frame, tail: seq<byte>)
    requires |f.payload| <= MAX_PAYLOAD
    ensures Split(Encode(f) + tail) == ([Got(f)] + Split(tail).0, Split(tail).1)
  {
    var h: seq<byte> := [f.kind, |f.payload| % 256, |f.payload| / 256];
    var n := |f.payload|;
    assert Announced(h) == n;
    var s := h + f.payload + tail;
    assert s[..HEADER_LEN] == h;
    assert s[HEADER_LEN..HEADER_LEN + n] == f.payload;
    assert s[HEADER_LEN + n..] == tail;
  }

  /** Concatenated encoded frames decode to themselves, whatever follows them. */
  lemma {:induction false} ListRoundTrip(frames: seq<Frame>, tail: seq<byte>)
    requires AllFit(frames)
    ensures Split(EncodeAll(frames) + tail) == (GotAll(frames) + Split(tail).0, Split(tail).1)
    decreases |frames|
  {
    if frames == [] {
      assert [] + tail == tail;
      assert [] + Split(tail).0 == Split(tail).0;
    } else {
      var more := EncodeAll(frames[1..]) + tail;
      ListRoundTrip(frames[1..], tail);
      SplitEncoded(frames[0], more);
      Assoc(Encode(frames[0]), EncodeAll(frames[1..]), tail);
      Assoc([Got(frames[0])], GotAll(frames[1..]), Split(tail).0);
    }
  }

  // ---------- TX_RESULT ----------

  datatype TxResult = TxResult(status: byte, flags: byte, sequence: nat)

  /** loraham_decode_tx_result. */
  function DecodeTxResult(f: Frame): Result<TxResult> {
    if f.kind != TX_RESULT || |f.payload| != TX_RESULT_LEN || f.payload[0] > STATUS_MAX then Failure(ErrFormat)
    else Success(TxResult(f.payload[0], f.payload[1], Le16(f.payload[2], f.payload[3])))
  }

  /** The fields of a TX_RESULT by their octets: status, flags, and the sequence number with its low octet first;
      no other frame is one, nor is a status above 6. */
  lemma ResultOctets(f: Frame)
    ensures forall s: byte, g: byte, lo: byte, hi: byte ::
              f == Frame(0x04, [s, g, lo, hi]) && s <= 6 ==>
                DecodeTxResult(f) == Success(TxResult(s, g, lo + 256 * hi))
    ensures DecodeTxResult(f).Success? ==>
              exists s: byte, g: byte, lo: byte, hi: byte :: f == Frame(0x04, [s, g, lo, hi]) && s <= 6
  {
    if DecodeTxResult(f).Success? {
      var p := f.payload;
      assert p == [p[0], p[1], p[2], p[3]];
      assert f == Frame(0x04, [p[0], p[1], p[2], p[3]]);
    }
  }

  // ---------- frames among decoder events ----------

  /** The frames among decoder events. */
  function FramesOf(es: seq<Event>): seq<Frame> {
    if es == [] then []
    else (if es[0].Got? then [es[0].frame] else []) + FramesOf(es[1..])
  }

  predicate Clean(es: seq<Event>) {
    es == [] || (es[0].Got? && Clean(es[1..]))
  }

  lemma {:induction false} FramesConcat(a: seq<Event>, b: seq<Event>)
    ensures FramesOf(a + b) == FramesOf(a) + FramesOf(b)
    ensures Clean(a + b) == (Clean(a) && Clean(b))
    decreases |a|
  {
    if a == [] {
      assert a + b == b;
      assert [] + FramesOf(b) == FramesOf(b);
    } else {
      Uncons(a, b);
      FramesConcat(a[1..], b);
      var h := if a[0].Got? then [a[0].frame] else [];
      assert (a + b)[0] == a[0] && (a + b)[1..] == a[1..] + b;
      Assoc(h, FramesOf(a[1..]), FramesOf(b));
    }
  }

  predicate IsResult(f: Frame) { f.kind == TX_RESULT }

  /** The frames that are not TX_RESULTs. */
  function Others(frames: seq<Frame>): seq<Frame> {
    if frames == [] then [] else (if IsResult(frames[0]) then [] else [frames[0]]) + Others(frames[1..])
  }

  /** The first TX_RESULT. */
  function FirstResult(frames: seq<Frame>): Option<Frame> {
    if frames == [] then None else if IsResult(frames[0]) then Some(frames[0]) else FirstResult(frames[1..])
  }

  lemma {:induction false} OthersConcat(a: seq<Frame>, b: seq<Frame>)
    ensures Others(a + b) == Others(a) + Others(b)
    ensures FirstResult(a + b) == if FirstResult(a).Some? then FirstResult(a) else FirstResult(b)
    decreases |a|
  {
    if a == [] {
      assert a + b == b;
      assert [] + Others(b) == Others(b);
    } else {
      Uncons(a, b);
      assert (a + b)[0] == a[0] && (a + b)[1..] == a[1..] + b;
      OthersConcat(a[1..], b);
      Assoc(if IsResult(a[0]) then [] else [a[0]], Others(a[1..]), Others(b));
    }
  }

  lemma OthersOne(frame: Frame)
    ensures Others([frame]) == if IsResult(frame) then [] else [frame]
    ensures FirstResult([frame]) == if IsResult(frame) then Some(frame) else None
  {
    assert [frame][1..] == [];
    assert Others([]) == [] && FirstResult([]) == None;
  }

  /** The first TX_RESULT, decoded. */
  function ResultAmong(frames: seq<Frame>): Option<TxResult> {
    match FirstResult(frames)
    case None => None
    case Some(f) =>
      var r := DecodeTxResult(f);
      if r.Success? then Some(r.value) else None
  }
}
