/** The KISS framing layer (kiss.c): a streaming decoder and a frame encoder. */
module Kiss {
  import opened Common

  const FEND: byte := 0xC0
  const FESC: byte := 0xDB
  const TFEND: byte := 0xDC
  const TFESC: byte := 0xDD

  const CMD_DATA: byte := 0

  datatype Frame = Frame(port: nat, command: nat, data: seq<byte>)

  /** What feeding one byte reports: nothing yet, a complete frame, or a dropped one. */
  datatype Event = Nothing | Got(frame: Frame) | Bad(code: Code)

  // ---------- the byte-at-a-time machine ----------

  datatype Decoder = Decoder(inFrame: bool, escaped: bool, buf: seq<byte>) {
    ghost predicate Valid() {
      |buf| <= KISS_MAX_FRAME
    }
  }

  const INIT := Decoder(false, false, [])
  const OPEN := Decoder(true, false, [])

  /** The frame held in a decoder buffer whose first byte is the KISS command byte. */
  function MakeFrame(buf: seq<byte>): Frame
    requires buf != []
  {
    Frame(buf[0] / 16, buf[0] % 16, buf[1..])
  }

  function DecodeStep(d: Decoder, b: byte): (Decoder, Event) {
    if b == FEND then
      if !d.inFrame then (OPEN, Nothing)
      else if d.escaped then (OPEN, Bad(ErrFormat))
      else if d.buf == [] then (OPEN, Nothing)
      else (OPEN, Got(MakeFrame(d.buf)))
    else if !d.inFrame then (d, Nothing)
    else if d.escaped && b != TFEND && b != TFESC then (INIT, Bad(ErrFormat))
    else if !d.escaped && b == FESC then (d.(escaped := true), Nothing)
    else
      var plain := if !d.escaped then b else if b == TFEND then FEND else FESC;
      if |d.buf| >= KISS_MAX_FRAME then (INIT, Bad(ErrLong))
      else (Decoder(true, false, d.buf + [plain]), Nothing)
  }

  function AsSeq(e: Event): seq<Event> {
    if e == Nothing then [] else [e]
  }

  /** Feed a whole stream. */
  function Run(d: Decoder, s: seq<byte>): (Decoder, seq<Event>)
    decreases |s|
  {
    if s == [] then (d, [])
    else
      var (d1, e) := DecodeStep(d, s[0]);
      var (d2, es) := Run(d1, s[1..]);
      (d2, AsSeq(e) + es)
  }

  lemma {:induction false} RunConcat(d: Decoder, a: seq<byte>, b: seq<byte>)
    ensures Run(d, a + b) ==
            (Run(Run(d, a).0, b).0, Run(d, a).1 + Run(Run(d, a).0, b).1)
    decreases |a|
  {
    if a == [] {
      assert a + b == b;
      assert [] + Run(d, b).1 == Run(d, b).1;
    } else {
      assert (a + b)[1..] == a[1..] + b;
      var (d1, e) := DecodeStep(d, a[0]);
      RunConcat(d1, a[1..], b);
      assert AsSeq(e) + (Run(d1, a[1..]).1 + Run(Run(d1, a[1..]).0, b).1)
          == (AsSeq(e) + Run(d1, a[1..]).1) + Run(Run(d1, a[1..]).0, b).1;
    }
  }

  lemma RunOne(d: Decoder, b: byte)
    ensures Run(d, [b]) == (DecodeStep(d, b).0, AsSeq(DecodeStep(d, b).1))
  {
    var (d1, e) := DecodeStep(d, b);
    assert [b][1..] == [];
    assert Run(d1, []) == (d1, []);
    assert AsSeq(e) + [] == AsSeq(e);
  }

  class KissDecoder {
    var inFrame: bool
    var escaped: bool
    const buf: array<byte>
    var len: nat

    ghost predicate Valid()
      reads this
    {
      buf.Length == KISS_MAX_FRAME && len <= KISS_MAX_FRAME
    }

    ghost function Abs(): (d: Decoder)
      requires Valid()
      reads this, buf
      ensures d.Valid()
    {
      Decoder(inFrame, escaped, buf[..len])
    }

    constructor ()
      ensures Valid() && fresh(buf) && Abs() == INIT
    {
      inFrame, escaped, len := false, false, 0;
      buf := new byte[KISS_MAX_FRAME];
    }

    method Init()
      requires Valid()
      modifies this
      ensures Valid() && Abs() == INIT
    {
      inFrame, escaped, len := false, false, 0;
    }

    /** kiss_decode_byte. */
    method DecodeByte(b: byte) returns (e: Event)
      requires Valid()
      modifies this, buf
      ensures Valid()
      ensures (Abs(), e) == DecodeStep(old(Abs()), b)
    {
      if b == FEND {
        if !inFrame {
          inFrame, escaped, len := true, false, 0;
          return Nothing;
        }
        if escaped {
          inFrame, escaped, len := true, false, 0;
          return Bad(ErrFormat);
        }
        e := if len < 1 then Nothing else Got(MakeFrame(buf[..len]));
        escaped, len := false, 0;
        return;
      }
      if !inFrame {
        return Nothing;
      }
      var plain := b;
      if escaped {
        if b == TFEND {
          plain := FEND;
        } else if b == TFESC {
          plain := FESC;
        } else {
          inFrame, escaped, len := false, false, 0;
          return Bad(ErrFormat);
        }
        escaped := false;
      } else if b == FESC {
        escaped := true;
        return Nothing;
      }
      if len >= buf.Length {
        inFrame, escaped, len := false, false, 0;
        return Bad(ErrLong);
      }
      buf[len] := plain;
      len := len + 1;
      assert buf[..len] == old(buf[..len]) + [plain];
      return Nothing;
    }
  }

  // ---------- what a stream means ----------

  /** How un-escaping a FEND-free segment ends. `data` is what was recovered before that. */
  datatype Unescaped = Clean(data: seq<byte>) | Dangling(data: seq<byte>) | BadEscape(data: seq<byte>)

  function Prepend(b: byte, u: Unescaped): (r: Unescaped)
    ensures r.data == [b] + u.data
    ensures r.Clean? == u.Clean? && r.Dangling? == u.Dangling?
  {
    match u
    case Clean(d) => Clean([b] + d)
    case Dangling(d) => Dangling([b] + d)
    case BadEscape(d) => BadEscape([b] + d)
  }

  /** KISS transparency, read left to right over a whole segment. */
  function Unescape(seg: seq<byte>): (u: Unescaped)
    ensures |u.data| <= |seg|
    ensures u.Clean? && u.data == [] ==> seg == []
  {
    if seg == [] then Clean([])
    else if seg[0] != FESC then Prepend(seg[0], Unescape(seg[1..]))
    else if |seg| == 1 then Dangling([])
    else if seg[1] == TFEND then Prepend(FEND, Unescape(seg[2..]))
    else if seg[1] == TFESC then Prepend(FESC, Unescape(seg[2..]))
    else BadEscape([])
  }

  /** What a segment that is still open has reported: an error as soon as it cannot be repaired. */
  function OpenEvents(seg: seq<byte>): seq<Event> {
    var u := Unescape(seg);
    if |u.data| > KISS_MAX_FRAME then [Bad(ErrLong)]
    else if u.BadEscape? then [Bad(ErrFormat)]
    else []
  }

  /** What a segment between two FENDs yields: nothing if empty, exactly one error if it is
      malformed or too long, otherwise exactly the un-escaped frame. */
  function SegmentEvents(seg: seq<byte>): seq<Event> {
    var u := Unescape(seg);
    if seg == [] then []
    else if |u.data| > KISS_MAX_FRAME then [Bad(ErrLong)]
    else if u.Clean? then [Got(MakeFrame(u.data))]
    else [Bad(ErrFormat)]
  }

  /** The events of a stream that follows a FEND: split at FENDs, then un-escape. */
  function EventsAfterFend(s: seq<byte>): seq<Event>
    decreases |s|
  {
    var j := IndexOf(s, FEND);
    if j == |s| then OpenEvents(s)
    else SegmentEvents(s[..j]) + EventsAfterFend(s[j + 1..])
  }

  /** The events of a whole stream: what precedes the first FEND is discarded. */
  function StreamEvents(s: seq<byte>): seq<Event> {
    var j := IndexOf(s, FEND);
    if j == |s| then [] else EventsAfterFend(s[j + 1..])
  }

  // ---------- the machine refines the meaning ----------

  /** The decoder state that an open segment leaves behind. */
  function TailState(seg: seq<byte>): Decoder {
    var u := Unescape(seg);
    if |u.data| > KISS_MAX_FRAME || u.BadEscape? then INIT
    else Decoder(true, u.Dangling?, u.data)
  }

  /** How one more byte changes an un-escaped segment. */
  function Extend(u: Unescaped, b: byte): Unescaped {
    match u
    case BadEscape(_) => u
    case Clean(d) => if b == FESC then Dangling(d) else Clean(d + [b])
    case Dangling(d) =>
      if b == TFEND then Clean(d + [FEND])
      else if b == TFESC then Clean(d + [FESC])
      else BadEscape(d)
  }

  lemma UnescapeCons(b: byte, seg: seq<byte>)
    requires b != FESC
    ensures Unescape([b] + seg) == Prepend(b, Unescape(seg))
  {
    assert ([b] + seg)[1..] == seg;
  }

  lemma UnescapePair(t: byte, seg: seq<byte>)
    ensures Unescape([FESC, t] + seg) ==
            if t == TFEND then Prepend(FEND, Unescape(seg))
            else if t == TFESC then Prepend(FESC, Unescape(seg))
            else BadEscape([])
  {
    assert ([FESC, t] + seg)[2..] == seg;
  }

  lemma ExtendPrepend(c: byte, u: Unescaped, b: byte)
    ensures Extend(Prepend(c, u), b) == Prepend(c, Extend(u, b))
  {
  }

  lemma {:induction false} UnescapeSnoc(seg: seq<byte>, b: byte)
    ensures Unescape(seg + [b]) == Extend(Unescape(seg), b)
  {
    if seg == [] {
      UnescapeShort(b);
      assert seg + [b] == [b];
    } else if seg[0] != FESC {
      var rest := seg[1..];
      UnescapeSnoc(rest, b);
      UnescapeCons(seg[0], rest + [b]);
      ExtendPrepend(seg[0], Unescape(rest), b);
      assert seg + [b] == [seg[0]] + (rest + [b]);
    } else if |seg| == 1 {
      UnescapePair(b, []);
      assert seg + [b] == [FESC, b] + [];
    } else {
      var rest := seg[2..];
      UnescapeSnoc(rest, b);
      UnescapePair(seg[1], rest + [b]);
      ExtendPrepend(FEND, Unescape(rest), b);
      ExtendPrepend(FESC, Unescape(rest), b);
      assert seg + [b] == [FESC, seg[1]] + (rest + [b]);
    }
  }

  lemma UnescapeShort(b: byte)
    ensures Unescape([b]) == if b == FESC then Dangling([]) else Clean([b])
  {
    assert [b][1..] == [];
    assert [b] + [] == [b];
  }

  lemma TailStep(seg: seq<byte>, b: byte)
    requires b != FEND
    ensures DecodeStep(TailState(seg), b).0 == TailState(seg + [b])
    ensures OpenEvents(seg + [b]) == OpenEvents(seg) + AsSeq(DecodeStep(TailState(seg), b).1)
  {
    UnescapeSnoc(seg, b);
  }

  lemma TailClose(seg: seq<byte>)
    ensures DecodeStep(TailState(seg), FEND).0 == OPEN == TailState([])
    ensures SegmentEvents(seg) == OpenEvents(seg) + AsSeq(DecodeStep(TailState(seg), FEND).1)
  {
    var u := Unescape(seg);
    if seg == [] {
    } else if |u.data| > KISS_MAX_FRAME || u.BadEscape? {
    } else if u.Dangling? {
    } else {
      assert u.data != [];
    }
  }

  lemma EventsSplit(seg: seq<byte>, rest: seq<byte>)
    requires FEND !in seg
    ensures EventsAfterFend(seg + ([FEND] + rest)) == SegmentEvents(seg) + EventsAfterFend(rest)
  {
    var s := seg + ([FEND] + rest);
    assert s[..|seg|] == seg;
    IndexOfUnique(s, FEND, |seg|);
    assert s[|seg| + 1..] == rest;
  }

  lemma {:induction false} RunFromTail(seg: seq<byte>, s: seq<byte>)
    requires FEND !in seg
    ensures OpenEvents(seg) + Run(TailState(seg), s).1 == EventsAfterFend(seg + s)
    decreases |s|
  {
    if s == [] {
      EventsOfTail(seg);
      assert seg + s == seg;
    } else if s[0] == FEND {
      RunFromTail([], s[1..]);
      CloseAndRun(seg, s[1..]);
      assert s == [FEND] + s[1..];
    } else {
      RunFromTail(seg + [s[0]], s[1..]);
      ExtendAndRun(seg, s);
      assert (seg + [s[0]]) + s[1..] == seg + s;
    }
  }

  lemma EventsOfTail(seg: seq<byte>)
    requires FEND !in seg
    ensures OpenEvents(seg) + Run(TailState(seg), []).1 == EventsAfterFend(seg)
  {
    assert seg[..|seg|] == seg;
    IndexOfUnique(seg, FEND, |seg|);
    assert OpenEvents(seg) + [] == OpenEvents(seg);
  }

  lemma CloseAndRun(seg: seq<byte>, rest: seq<byte>)
    requires FEND !in seg
    requires OpenEvents([]) + Run(TailState([]), rest).1 == EventsAfterFend([] + rest)
    ensures OpenEvents(seg) + Run(TailState(seg), [FEND] + rest).1 == EventsAfterFend(seg + ([FEND] + rest))
  {
    TailClose(seg);
    EventsSplit(seg, rest);
    assert [] + rest == rest;
    assert OpenEvents([]) + Run(OPEN, rest).1 == Run(OPEN, rest).1;
    RunCons(TailState(seg), FEND, rest);
    Assoc(OpenEvents(seg), AsSeq(DecodeStep(TailState(seg), FEND).1), Run(OPEN, rest).1);
  }

  lemma ExtendAndRun(seg: seq<byte>, s: seq<byte>)
    requires s != [] && s[0] != FEND
    ensures OpenEvents(seg) + Run(TailState(seg), s).1
         == OpenEvents(seg + [s[0]]) + Run(TailState(seg + [s[0]]), s[1..]).1
  {
    TailStep(seg, s[0]);
    assert s == [s[0]] + s[1..];
    RunCons(TailState(seg), s[0], s[1..]);
    Assoc(OpenEvents(seg), AsSeq(DecodeStep(TailState(seg), s[0]).1), Run(TailState(seg + [s[0]]), s[1..]).1);
  }

  lemma RunCons(d: Decoder, b: byte, rest: seq<byte>)
    ensures Run(d, [b] + rest)
         == (Run(DecodeStep(d, b).0, rest).0, AsSeq(DecodeStep(d, b).1) + Run(DecodeStep(d, b).0, rest).1)
  {
    assert ([b] + rest)[1..] == rest;
  }

  /** The streaming decoder, fed any byte stream, reports exactly what splitting the stream at
      FENDs and un-escaping each segment yields. */
  lemma {:induction false} DecoderRefinesSplit(s: seq<byte>)
    ensures Run(INIT, s).1 == StreamEvents(s)
  {
    if s != [] {
      if s[0] == FEND {
        IndexOfUnique(s, FEND, 0);
        RunFromTail([], s[1..]);
        assert [] + s[1..] == s[1..];
        assert TailState([]) == OPEN;
        assert DecodeStep(INIT, s[0]) == (OPEN, Nothing);
      } else {
        assert DecodeStep(INIT, s[0]) == (INIT, Nothing);
        DecoderRefinesSplit(s[1..]);
        assert IndexOf(s, FEND) == 1 + IndexOf(s[1..], FEND);
        assert s[1..][IndexOf(s[1..], FEND)..] == s[IndexOf(s, FEND)..];
        if IndexOf(s, FEND) < |s| {
          assert s[1..][IndexOf(s[1..], FEND) + 1..] == s[IndexOf(s, FEND) + 1..];
        }
      }
    }
  }

  // ---------- encoding ----------

  function Escape(b: byte): (r: seq<byte>)
    ensures 1 <= |r| <= 2
  {
    if b == FEND then [FESC, TFEND]
    else if b == FESC then [FESC, TFESC]
    else [b]
  }

  function EscapeAll(data: seq<byte>): (r: seq<byte>)
    ensures |data| <= |r| <= 2 * |data|
  {
    if data == [] then [] else Escape(data[0]) + EscapeAll(data[1..])
  }

  /** A data frame on port 0. */
  function Encode(data: seq<byte>): (r: seq<byte>)
    ensures |data| + 3 <= |r| <= 2 * |data| + 3
  {
    [FEND] + EscapeAll([CMD_DATA] + data) + [FEND]
  }

  lemma {:induction false} EscapeAllSnoc(data: seq<byte>, b: byte)
    ensures EscapeAll(data + [b]) == EscapeAll(data) + Escape(b)
  {
    if data == [] {
      assert data + [b] == [b];
      assert EscapeAll([b]) == Escape(b) + EscapeAll([]);
    } else {
      assert (data + [b])[1..] == data[1..] + [b];
      EscapeAllSnoc(data[1..], b);
    }
  }

  /** kiss_put_escaped. */
  method PutEscaped(b: byte, out: array<byte>, pos: nat) returns (code: Code, next: nat)
    requires pos <= out.Length
    modifies out
    ensures code == Ok <==> pos + |Escape(b)| <= out.Length
    ensures code == Ok ==> next == pos + |Escape(b)| && out[..next] == old(out[..pos]) + Escape(b)
    ensures code != Ok ==> code == ErrNoSpace && next == pos && out[..] == old(out[..])
  {
    if b == FEND {
      if pos + 2 > out.Length {
        return ErrNoSpace, pos;
      }
      out[pos], out[pos + 1] := FESC, TFEND;
      return Ok, pos + 2;
    }
    if b == FESC {
      if pos + 2 > out.Length {
        return ErrNoSpace, pos;
      }
      out[pos], out[pos + 1] := FESC, TFESC;
      return Ok, pos + 2;
    }
    if pos + 1 > out.Length {
      return ErrNoSpace, pos;
    }
    out[pos] := b;
    return Ok, pos + 1;
  }

  /** The encoder's loop over the data bytes. */
  method PutAllEscaped(data: seq<byte>, out: array<byte>, start: nat) returns (code: Code, pos: nat)
    requires start <= out.Length
    modifies out
    ensures code == Ok <==> start + |EscapeAll(data)| <= out.Length
    ensures code == Ok ==> pos == start + |EscapeAll(data)| && out[..pos] == old(out[..start]) + EscapeAll(data)
    ensures code != Ok ==> code == ErrNoSpace
  {
    pos := start;
    ghost var before := out[..start];
    ghost var done: seq<byte> := [];
    var i := 0;
    while i < |data|
      invariant 0 <= i <= |data|
      invariant done == EscapeAll(data[..i])
      invariant pos == start + |done| <= out.Length && out[..pos] == before + done
    {
      EscapeAllNext(data, i);
      code, pos := PutEscaped(data[i], out, pos);
      if code != Ok {
        return;
      }
      assert before + done + Escape(data[i]) == before + (done + Escape(data[i]));
      done := done + Escape(data[i]);
      i := i + 1;
    }
    assert data[..i] == data;
    code := Ok;
  }

  lemma EscapeAllNext(data: seq<byte>, i: nat)
    requires i < |data|
    ensures EscapeAll(data[..i + 1]) == EscapeAll(data[..i]) + Escape(data[i])
    ensures |EscapeAll(data[..i + 1])| <= |EscapeAll(data)|
  {
    assert data[..i + 1] == data[..i] + [data[i]];
    EscapeAllSnoc(data[..i], data[i]);
    EscapeAllPrefix(data[..i + 1], data);
  }

  lemma EncodeParts(data: seq<byte>)
    ensures Encode(data) == [FEND] + Escape(CMD_DATA) + EscapeAll(data) + [FEND]
  {
    assert ([CMD_DATA] + data)[1..] == data;
  }

  /** kiss_encode_data_frame: succeeds exactly when the encoded frame fits. */
  method EncodeDataFrame(data: seq<byte>, out: array<byte>) returns (code: Code, len: nat)
    modifies out
    ensures code == Ok <==> |Encode(data)| <= out.Length
    ensures code == Ok ==> len == |Encode(data)| && out[..len] == Encode(data)
    ensures code != Ok ==> code == ErrNoSpace && len == 0
  {
    EncodeParts(data);
    len := 0;
    if out.Length < 3 {
      return ErrNoSpace, 0;
    }
    out[0] := FEND;
    var pos: nat;
    code, pos := PutEscaped(CMD_DATA, out, 1);
    assert code == Ok;  // three bytes were checked for above
    code, pos := PutAllEscaped(data, out, pos);
    if code != Ok {
      return code, 0;
    }
    if pos + 1 > out.Length {
      return ErrNoSpace, 0;
    }
    out[pos] := FEND;
    return Ok, pos + 1;
  }

  lemma {:induction false} EscapeAllPrefix(a: seq<byte>, b: seq<byte>)
    requires a <= b
    ensures |EscapeAll(a)| <= |EscapeAll(b)|
  {
    if a != [] {
      EscapeAllPrefix(a[1..], b[1..]);
    }
  }

  // ---------- round trip and self-synchronisation ----------

  lemma RunEscapedByte(d: Decoder, b: byte)
    requires d.inFrame && !d.escaped && |d.buf| < KISS_MAX_FRAME
    ensures Run(d, Escape(b)) == (d.(buf := d.buf + [b]), [])
  {
    if b == FEND || b == FESC {
      var dm := d.(escaped := true);
      RunOne(dm, Escape(b)[1]);
      RunCons(d, FESC, [Escape(b)[1]]);
    } else {
      RunOne(d, b);
    }
  }

  lemma RunSilently(d: Decoder, a: seq<byte>, d1: Decoder, b: seq<byte>, d2: Decoder)
    requires Run(d, a) == (d1, []) && Run(d1, b) == (d2, [])
    ensures Run(d, a + b) == (d2, [])
  {
    RunConcat(d, a, b);
  }

  lemma RunEscapedThen(d: Decoder, b: byte, d1: Decoder, more: seq<byte>, d2: Decoder)
    requires d.inFrame && !d.escaped && |d.buf| < KISS_MAX_FRAME && d1 == d.(buf := d.buf + [b])
    requires Run(d1, more) == (d2, [])
    ensures Run(d, Escape(b) + more) == (d2, [])
  {
    RunEscapedByte(d, b);
    RunSilently(d, Escape(b), d1, more, d2);
  }

  lemma {:induction false} RunEscaped(d: Decoder, data: seq<byte>)
    requires d.inFrame && !d.escaped && |d.buf| + |data| <= KISS_MAX_FRAME
    ensures Run(d, EscapeAll(data)) == (d.(buf := d.buf + data), [])
    decreases |data|
  {
    if data == [] {
      assert d.buf + data == d.buf;
    } else {
      var d1 := d.(buf := d.buf + [data[0]]);
      RunEscaped(d1, data[1..]);
      assert d1.buf + data[1..] == d.buf + data;
      RunEscapedThen(d, data[0], d1, EscapeAll(data[1..]), d.(buf := d.buf + data));
    }
  }

  /** The escapes, octet by octet. */
  lemma EscapeOctets(b: byte)
    ensures Escape(b) == if b == 0xC0 then [0xDB, 0xDC] else if b == 0xDB then [0xDB, 0xDD] else [b]
  {
  }

  lemma UnescapeByte(b: byte, rest: seq<byte>)
    ensures Unescape(Escape(b) + rest) == Prepend(b, Unescape(rest))
  {
    var e := Escape(b);
    assert (e + rest)[|e|..] == rest && (e + rest)[0] == e[0];
    if |e| == 2 {
      assert (e + rest)[1] == e[1];
    }
  }

  lemma {:induction false} EscapedIsClean(data: seq<byte>)
    ensures Unescape(EscapeAll(data)) == Clean(data)
    decreases |data|
  {
    if data != [] {
      EscapedIsClean(data[1..]);
      UnescapeByte(data[0], EscapeAll(data[1..]));
      assert data == [data[0]] + data[1..];
    }
  }

  lemma {:induction false} CleanIsEscaped(seg: seq<byte>)
    requires FEND !in seg && Unescape(seg).Clean?
    ensures EscapeAll(Unescape(seg).data) == seg
    decreases |seg|
  {
    if seg != [] {
      var n := if seg[0] == FESC then 2 else 1;
      var b := if n == 1 then seg[0] else if seg[1] == TFEND then FEND else FESC;
      CleanIsEscaped(seg[n..]);
      var more := Unescape(seg[n..]).data;
      assert ([b] + more)[1..] == more;
      assert seg == Escape(b) + seg[n..];
    }
  }

  lemma OctetHalves(u: seq<byte>, port: nat, command: nat, data: seq<byte>)
    requires u != [] && port < 16 && command < 16
    ensures MakeFrame(u) == Frame(port, command, data) <==> u == [16 * port + command] + data
  {
    assert u == [u[0]] + u[1..];
    assert ([16 * port + command] + data)[1..] == data;
  }

  lemma EventOfClean(seg: seq<byte>, u: seq<byte>)
    requires Unescape(seg) == Clean(u) && u != []
    ensures SegmentEvents(seg) == if |u| > 1024 then [Bad(ErrLong)] else [Got(MakeFrame(u))]
  {
  }

  lemma EventOfOther(seg: seq<byte>, f: Frame)
    requires !Unescape(seg).Clean? || Unescape(seg).data == []
    ensures SegmentEvents(seg) != [Got(f)]
  {
  }

  /** Between two FENDs exactly the escaped form of a command octet and at most 1023 data octets is a frame. */
  lemma SegmentByOctets(seg: seq<byte>, port: nat, command: nat, data: seq<byte>)
    requires 0xC0 !in seg && port < 16 && command < 16
    ensures SegmentEvents(seg) == [Got(Frame(port, command, data))]
       <==> seg == EscapeAll([16 * port + command] + data) && |data| <= 1023
  {
    var body: seq<byte> := [16 * port + command] + data;
    var u := Unescape(seg);
    EscapedIsClean(body);
    if u.Clean? && u.data != [] {
      CleanIsEscaped(seg);
      EventOfClean(seg, u.data);
      OctetHalves(u.data, port, command, data);
    } else {
      EventOfOther(seg, Frame(port, command, data));
    }
  }

  /** From any decoder state, any frame between two FENDs is reported on the closing one, with the port in the
      high and the command in the low half of its first octet. */
  lemma AnyFrame(d: Decoder, port: nat, command: nat, data: seq<byte>)
    requires port < 16 && command < 16 && |data| <= 1023
    ensures Run(d, [0xC0] + EscapeAll([16 * port + command] + data) + [0xC0]) ==
            (OPEN, AsSeq(DecodeStep(d, 0xC0).1) + [Got(Frame(port, command, data))])
  {
    var body: seq<byte> := [16 * port + command] + data;
    OctetHalves(body, port, command, data);
    RunBody(body);
    RunOne(d, FEND);
    RunConcat(d, [FEND], EscapeAll(body) + [FEND]);
    Assoc([FEND], EscapeAll(body), [FEND]);
  }

  lemma RunOpen(body: seq<byte>)
    requires |body| <= KISS_MAX_FRAME
    ensures Run(OPEN, EscapeAll(body)) == (Decoder(true, false, body), [])
  {
    RunEscaped(OPEN, body);
    assert [] + body == body;
  }

  /** From an open frame to its closing FEND. */
  lemma RunBody(body: seq<byte>)
    requires 1 <= |body| <= KISS_MAX_FRAME
    ensures Run(OPEN, EscapeAll(body) + [FEND]) == (OPEN, [Got(MakeFrame(body))])
  {
    RunOpen(body);
    RunThenFend(EscapeAll(body), body);
  }

  lemma RunThenFend(a: seq<byte>, body: seq<byte>)
    requires body != [] && Run(OPEN, a) == (Decoder(true, false, body), [])
    ensures Run(OPEN, a + [FEND]) == (OPEN, [Got(MakeFrame(body))])
  {
    var full := Decoder(true, false, body);
    RunOne(full, FEND);
    RunConcat(OPEN, a, [FEND]);
    assert [] + AsSeq(DecodeStep(full, FEND).1) == AsSeq(DecodeStep(full, FEND).1);
  }

  /** From any decoder state, after any garbage, an encoded frame of at most 1023 data bytes is
      reported on its closing FEND as port 0, command 0 and the same data; the only other event is
      the one that its opening FEND closes the garbage with. */
  lemma SelfSynchronising(d: Decoder, data: seq<byte>)
    requires |data| < KISS_MAX_FRAME
    ensures Run(d, Encode(data)) ==
            (OPEN, AsSeq(DecodeStep(d, FEND).1) + [Got(Frame(0, 0, data))])
  {
    AnyFrame(d, 0, 0, data);
  }

  function EncodeList(frames: seq<seq<byte>>): seq<byte> {
    if frames == [] then [] else Encode(frames[0]) + EncodeList(frames[1..])
  }

  function GotList(frames: seq<seq<byte>>): seq<Event> {
    if frames == [] then [] else [Got(Frame(0, 0, frames[0]))] + GotList(frames[1..])
  }

  /** Concatenated encodings decode to the same list of frames. */
  lemma {:induction false} ListRoundTrip(d: Decoder, frames: seq<seq<byte>>)
    requires forall f :: f in frames ==> |f| < KISS_MAX_FRAME
    requires DecodeStep(d, FEND).1 == Nothing
    ensures Run(d, EncodeList(frames)).1 == GotList(frames)
    decreases |frames|
  {
    if frames == [] {
      assert EncodeList(frames) == [];
    } else {
      assert frames[0] in frames;
      SelfSynchronising(d, frames[0]);
      RunConcat(d, Encode(frames[0]), EncodeList(frames[1..]));
      ListRoundTrip(OPEN, frames[1..]);
      assert AsSeq(Nothing) + [Got(Frame(0, 0, frames[0]))] == [Got(Frame(0, 0, frames[0]))];
    }
  }
}
