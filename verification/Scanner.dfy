/** The scanner for LoRa-APRS packets in a byte stream (loraham_sock.c): text that follows the header
    3C FF 01, up to CR, LF, the next header or a flush. */
module Scanner {
  import opened Common

  const HDR: seq<byte> := [0x3C, 0xFF, 0x01]
  const HDR0: byte := 0x3C
  const MAX_TEXT: nat := TNC2_MAX_LINE - 1
  const MAX_PENDING: nat := 1024

  /** loraham_build_aprs_packet. */
  function BuildPacket(text: seq<byte>): (r: Result<seq<byte>>)
    ensures r.Success? ==> HDR <= r.value && |r.value| <= LORAHAM_TX_MAX
  {
    if LORAHAM_HDR_LEN + |text| > LORAHAM_TX_MAX then Failure(ErrLong) else Success(HDR + text)
  }

  /** loraham_build_aprs_packet into a caller's buffer. */
  method BuildAprsPacket(text: seq<byte>, out: array<byte>) returns (code: Code, len: nat)
    modifies out
    ensures var r := BuildPacket(text);
            && (code == Ok <==> r.Success? && |r.value| <= out.Length)
            && (code == Ok ==> len <= out.Length && r == Success(out[..len]))
            && (code != Ok ==> len == 0 && code == (if r.Failure? then r.code else ErrNoSpace))
  {
    if LORAHAM_HDR_LEN + |text| > LORAHAM_TX_MAX {
      return ErrLong, 0;
    }
    if out.Length < LORAHAM_HDR_LEN + |text| {
      return ErrNoSpace, 0;
    }
    out[0], out[1], out[2] := HDR[0], HDR[1], HDR[2];
    forall i | 0 <= i < |text| {
      out[LORAHAM_HDR_LEN + i] := text[i];
    }
    assert out[..LORAHAM_HDR_LEN + |text|] == HDR + text;
    return Ok, LORAHAM_HDR_LEN + |text|;
  }

  // ---------- the byte-at-a-time machine ----------

  /** `hdr` counts the header bytes seen so far; while `seen`, `buf` is the open text before them. */
  datatype Core = Core(seen: bool, hdr: nat, buf: seq<byte>)

  const INIT := Core(false, 0, [])

  datatype Out = Nothing | Packet(text: seq<byte>) | Overflow

  ghost predicate CoreValid(c: Core) {
    c.hdr < LORAHAM_HDR_LEN && |c.buf| <= MAX_TEXT && (!c.seen ==> c.buf == [])
  }

  /** loraham_emit_tnc2 for a text that is already complete. */
  function Emit(text: seq<byte>): Out {
    if text == [] then Nothing else Packet(text)
  }

  function SeekStep(hdr: nat, b: byte): Core
    requires hdr < LORAHAM_HDR_LEN
  {
    if b == HDR[hdr] then
      if hdr + 1 == LORAHAM_HDR_LEN then Core(true, 0, []) else Core(false, hdr + 1, [])
    else Core(false, if b == HDR0 then 1 else 0, [])
  }

  /** A byte that does not continue a header, after `text`. */
  function TextStep(text: seq<byte>, b: byte): (Core, Out) {
    if |text| > MAX_TEXT then (INIT, Overflow)
    else if IsEol(b) then (INIT, Emit(text))
    else if b == HDR0 then (Core(true, 1, text), Nothing)
    else if |text| == MAX_TEXT then (INIT, Overflow)
    else (Core(true, 0, text + [b]), Nothing)
  }

  function Step(c: Core, b: byte): (Core, Out)
    requires CoreValid(c)
  {
    if !c.seen then (SeekStep(c.hdr, b), Nothing)
    else if c.hdr > 0 && b == HDR[c.hdr] then
      if c.hdr + 1 == LORAHAM_HDR_LEN then (Core(true, 0, []), Emit(c.buf))
      else (c.(hdr := c.hdr + 1), Nothing)
    else TextStep(c.buf + HDR[..c.hdr], b)
  }

  lemma StepValid(c: Core, b: byte)
    requires CoreValid(c)
    ensures CoreValid(Step(c, b).0)
  {
  }

  /** An idle call: a partial header was text after all. */
  function Flush(c: Core): Out
    requires CoreValid(c)
  {
    if !c.seen then Nothing
    else
      var text := c.buf + HDR[..c.hdr];
      if |text| > MAX_TEXT then Overflow else Emit(text)
  }

  /** Consume queued bytes up to the first result. */
  function Pull(c: Core, p: seq<byte>): (r: (Core, seq<byte>, Out))
    requires CoreValid(c)
    ensures CoreValid(r.0) && |r.1| <= |p|
    ensures r.2 == Nothing ==> r.1 == []
    ensures r.2 != Nothing ==> |r.1| < |p|
    decreases |p|
  {
    if p == [] then (c, [], Nothing)
    else
      StepValid(c, p[0]);
      var (c1, o) := Step(c, p[0]);
      match o
      case Nothing => Pull(c1, p[1..])
      case Overflow => (INIT, [], Overflow)
      case Packet(_) => (c1, p[1..], o)
  }

  /** All packets of a byte string and a final flush; scanning stops at an overflow. */
  datatype Scan = Scan(texts: seq<seq<byte>>, overflow: bool)

  function Cons(o: Out, rest: Scan): Scan {
    match o
    case Nothing => rest
    case Packet(t) => Scan([t] + rest.texts, rest.overflow)
    case Overflow => Scan([], true)
  }

  function ScanFrom(c: Core, s: seq<byte>): Scan
    requires CoreValid(c)
    decreases |s|
  {
    if s == [] then Cons(Flush(c), Scan([], false))
    else
      StepValid(c, s[0]);
      Cons(Step(c, s[0]).1, ScanFrom(Step(c, s[0]).0, s[1..]))
  }

  // ---------- what a stream means ----------

  /** Length of the text at the front: up to CR, LF, the next header or the end. */
  function TextEnd(s: seq<byte>): (e: nat)
    ensures e <= |s|
    ensures e < |s| ==> IsEol(s[e]) || HDR <= s[e..]
    decreases |s|
  {
    if s == [] || IsEol(s[0]) || HDR <= s then 0
    else
      assert s[1..][TextEnd(s[1..])..] == s[1 + TextEnd(s[1..])..];
      1 + TextEnd(s[1..])
  }

  function NonEmpty(t: seq<byte>): seq<seq<byte>> {
    if t == [] then [] else [t]
  }

  /** The packets of a stream: skip to a header, take the text after it, and so on. */
  function Outside(s: seq<byte>): seq<seq<byte>>
    decreases |s|
  {
    if s == [] then []
    else if HDR <= s then Inside(s[LORAHAM_HDR_LEN..])
    else Outside(s[1..])
  }

  function Inside(s: seq<byte>): seq<seq<byte>>
    decreases |s|
  {
    var e := TextEnd(s);
    NonEmpty(s[..e]) + (if e == |s| then []
                        else if IsEol(s[e]) then Outside(s[e + 1..])
                        else Inside(s[e..][LORAHAM_HDR_LEN..]))
  }

  /** The packets before the first one that does not fit the 511-byte text buffer. */
  function Fitting(texts: seq<seq<byte>>): Scan {
    if texts == [] then Scan([], false)
    else if |texts[0]| > 511 then Scan([], true)
    else Scan([texts[0]] + Fitting(texts[1..]).texts, Fitting(texts[1..]).overflow)
  }

  /** `t` holds no CR and no LF, and no 3C FF 01 begins in it, with `after` behind it. */
  predicate Clear(t: seq<byte>, after: seq<byte>)
    decreases |t|
  {
    || t == []
    || (t[0] != 13 && t[0] != 10 && !([0x3C, 0xFF, 0x01] <= t + after) && Clear(t[1..], after))
  }

  lemma ClearStep(t: seq<byte>, after: seq<byte>)
    requires t != [] && Clear(t, after)
    ensures TextEnd(t + after) == 1 + TextEnd(t[1..] + after) && Clear(t[1..], after)
  {
    var s := t + after;
    assert s[1..] == t[1..] + after && s[0] == t[0];
  }

  lemma {:induction false} ClearEnd(t: seq<byte>, after: seq<byte>)
    requires Clear(t, after)
    ensures TextEnd(t + after) == |t| + TextEnd(after)
    decreases |t|
  {
    if t == [] {
      assert t + after == after;
    } else {
      ClearStep(t, after);
      ClearEnd(t[1..], after);
    }
  }

  /** The texts of a stream, octet by octet: after 3C FF 01 a text runs up to CR or LF, which is skipped with it, up to
      the next 3C FF 01, or to the end; an empty one is left out. */
  lemma TextByOctets(t: seq<byte>, after: seq<byte>)
    requires Clear(t, after)
    requires after == [] || after[0] == 13 || after[0] == 10 || [0x3C, 0xFF, 0x01] <= after
    ensures Outside([0x3C, 0xFF, 0x01] + (t + after)) ==
            (if t == [] then [] else [t])
            + (if after == [] then [] else if after[0] == 13 || after[0] == 10 then Outside(after[1..])
               else Outside(after))
  {
    var s := t + after;
    assert (HDR + s)[LORAHAM_HDR_LEN..] == s;
    ClearEnd(t, after);
    assert s[..|t|] == t && s[|t|..] == after;
    if after != [] {
      assert s[|t|] == after[0] && s[|t| + 1..] == after[1..];
    }
  }

  /** And everything else before a 3C FF 01 is skipped. */
  lemma NoiseByOctets(b: byte, s: seq<byte>)
    requires !([0x3C, 0xFF, 0x01] <= [b] + s)
    ensures Outside([b] + s) == Outside(s)
  {
    assert ([b] + s)[1..] == s;
  }

  // ---------- where a text may end ----------

  /** `w` is a header or could still become one. */
  predicate MayBeHeader(w: seq<byte>) {
    HDR <= w || w <= HDR
  }

  /** No terminator starts inside `u`, whatever comes after `u + v`. */
  predicate Free(u: seq<byte>, v: seq<byte>)
    decreases |u|
  {
    u == [] || (!IsEol(u[0]) && !MayBeHeader(u + v) && Free(u[1..], v))
  }

  lemma {:induction false} FreeMore(u: seq<byte>, v: seq<byte>, x: seq<byte>)
    requires Free(u, v)
    ensures Free(u, v + x)
    decreases |u|
  {
    if u != [] {
      assert u + (v + x) == (u + v) + x;
      FreeMore(u[1..], v, x);
    }
  }

  lemma {:induction false} FreeJoin(u: seq<byte>, w: seq<byte>, v: seq<byte>)
    requires Free(u, w + v) && Free(w, v)
    ensures Free(u + w, v)
    decreases |u|
  {
    if u == [] {
      assert u + w == w;
    } else {
      FreeJoin(u[1..], w, v);
      assert (u + w)[1..] == u[1..] + w;
      assert (u + w) + v == u + (w + v);
    }
  }

  lemma TextEndCons(b: byte, s: seq<byte>)
    requires !IsEol(b) && !(HDR <= [b] + s)
    ensures TextEnd([b] + s) == 1 + TextEnd(s)
  {
    assert ([b] + s)[1..] == s;
  }

  /** A free text is not cut short. */
  lemma {:induction false} FreeEnd(u: seq<byte>, v: seq<byte>, t: seq<byte>)
    requires Free(u, v)
    ensures TextEnd(u + v + t) == |u| + TextEnd(v + t)
    decreases |u|
  {
    if u == [] {
      assert u + v + t == v + t;
    } else {
      FreeEnd(u[1..], v, t);
      FreeHead(u, v, t);
    }
  }

  lemma FreeHead(u: seq<byte>, v: seq<byte>, t: seq<byte>)
    requires u != [] && !IsEol(u[0]) && !MayBeHeader(u + v)
    ensures TextEnd(u + v + t) == 1 + TextEnd(u[1..] + v + t)
  {
    NotHeader(u + v, t);
    HeadOf(u, v, t);
    TextEndCons(u[0], u[1..] + v + t);
  }

  lemma HeadOf(u: seq<byte>, v: seq<byte>, t: seq<byte>)
    requires u != []
    ensures u + v + t == [u[0]] + (u[1..] + v + t)
  {
  }

  lemma NotHeader(w: seq<byte>, t: seq<byte>)
    ensures HDR <= w + t ==> MayBeHeader(w)
  {
    if HDR <= w + t {
      if |w| >= LORAHAM_HDR_LEN {
        assert w[..LORAHAM_HDR_LEN] == (w + t)[..LORAHAM_HDR_LEN];
      } else {
        assert w == (w + t)[..|w|] == HDR[..|w|];
      }
    }
  }

  /** A header prefix that the next byte breaks is free. */
  lemma BrokenPrefix(k: nat, b: byte)
    requires k < LORAHAM_HDR_LEN && b != HDR[k]
    ensures Free(HDR[..k], [b])
    ensures !IsEol(b) && b != HDR0 ==> Free([b], [])
  {
    if k == 1 {
      assert HDR[..1] == [HDR0];
      assert [HDR0] + [b] == [HDR0, b];
    } else if k == 2 {
      assert HDR[..2] == [0x3C, 0xFF];
      assert HDR[..2] + [b] == [0x3C, 0xFF, b];
      assert HDR[..2][1..] + [b] == [0xFF, b];
    }
    if !IsEol(b) && b != HDR0 {
      assert [b] + [] == [b];
    }
  }

  /** The text that breaks off a header prefix: what is free before and after byte `b`. */
  lemma BreakOff(u: seq<byte>, k: nat, b: byte)
    requires k < LORAHAM_HDR_LEN && b != HDR[k] && Free(u, HDR[..k])
    ensures Free(u + HDR[..k], [b])
    ensures !IsEol(b) && b != HDR0 ==> Free(u + HDR[..k] + [b], [])
  {
    BrokenPrefix(k, b);
    FreeMore(u, HDR[..k], [b]);
    FreeJoin(u, HDR[..k], [b]);
    if !IsEol(b) && b != HDR0 {
      assert [b] + [] == [b];
      FreeJoin(u + HDR[..k], [b], []);
    }
  }

  // ---------- the machine refines the meaning ----------

  /** A core that the machine can be in: its open text is free up to the header prefix. */
  ghost predicate Reachable(c: Core) {
    CoreValid(c) && (c.seen ==> Free(c.buf, HDR[..c.hdr]))
  }

  /** What the bytes consumed since the last header and the bytes `s` mean together. */
  function Meaning(c: Core, s: seq<byte>): seq<seq<byte>>
    requires CoreValid(c)
  {
    if c.seen then Inside(c.buf + HDR[..c.hdr] + s) else Outside(HDR[..c.hdr] + s)
  }

  lemma HeaderPrefixNext(k: nat)
    requires k < LORAHAM_HDR_LEN
    ensures HDR[..k] + [HDR[k]] == HDR[..k + 1]
    ensures HDR[..0] == [] && HDR[..LORAHAM_HDR_LEN] == HDR
  {
  }

  lemma SkipHead(u: seq<byte>, v: seq<byte>, t: seq<byte>)
    requires u != [] && !MayBeHeader(u + v)
    ensures Outside(u + v + t) == Outside(u[1..] + v + t)
  {
    NotHeader(u + v, t);
    assert u + v + t == [u[0]] + (u[1..] + v + t);
    assert ([u[0]] + (u[1..] + v + t))[1..] == u[1..] + v + t;
  }

  /** Nothing free can start a packet. */
  lemma {:induction false} OutsideSkip(u: seq<byte>, v: seq<byte>, t: seq<byte>)
    requires Free(u, v)
    ensures Outside(u + v + t) == Outside(v + t)
    decreases |u|
  {
    if u == [] {
      assert u + v + t == v + t;
    } else {
      OutsideSkip(u[1..], v, t);
      SkipHead(u, v, t);
    }
  }

  lemma SeekMeaning(hdr: nat, b: byte, s: seq<byte>)
    requires hdr < LORAHAM_HDR_LEN
    ensures Reachable(SeekStep(hdr, b))
    ensures Meaning(SeekStep(hdr, b), s) == Outside(HDR[..hdr] + ([b] + s))
  {
    HeaderPrefixNext(hdr);
    if b == HDR[hdr] {
      Assoc(HDR[..hdr], [b], s);
      if hdr + 1 == LORAHAM_HDR_LEN {
        assert (HDR + s)[LORAHAM_HDR_LEN..] == s;
        assert [] + HDR[..0] + s == s;
      }
    } else {
      BrokenPrefix(hdr, b);
      OutsideSkip(HDR[..hdr], [b], s);
      Assoc(HDR[..hdr], [b], s);
      if b == HDR0 {
        assert HDR[..1] == [b];
      } else {
        assert !(HDR <= [b] + s);
        assert ([b] + s)[1..] == s;
        assert HDR[..0] + s == s;
      }
    }
  }

  lemma InsideText(u: seq<byte>, v: seq<byte>, s: seq<byte>)
    requires Free(u, v)
    requires v + s == [] || IsEol((v + s)[0]) || HDR <= v + s
    ensures Inside(u + v + s) ==
            NonEmpty(u) + (if v + s == [] then []
                           else if IsEol((v + s)[0]) then Outside((v + s)[1..])
                           else Inside((v + s)[LORAHAM_HDR_LEN..]))
  {
    FreeEnd(u, v, s);
    Assoc(u, v, s);
    Behind(u, v + s);
  }

  lemma Behind(u: seq<byte>, w: seq<byte>)
    ensures (u + w)[..|u|] == u && (u + w)[|u|..] == w
    ensures w != [] ==> (u + w)[|u|] == w[0] && (u + w)[|u| + 1..] == w[1..]
  {
  }

  /** A packet with a header and `line` behind it: its first text is `line` up to the first text end. */
  lemma PacketTexts(line: seq<byte>)
    requires |line| <= MAX_TEXT && TextEnd(line) > 0
    ensures var scan := Fitting(Outside(HDR + line));
            && scan.texts != [] && scan.texts[0] == line[..TextEnd(line)]
            && (TextEnd(line) == |line| ==> scan == Scan([line], false))
  {
    AfterHeader(line);
    InsideTexts(line);
  }

  lemma InsideTexts(line: seq<byte>)
    requires |line| <= MAX_TEXT && TextEnd(line) > 0
    ensures var scan := Fitting(Inside(line));
            && scan.texts != [] && scan.texts[0] == line[..TextEnd(line)]
            && (TextEnd(line) == |line| ==> scan == Scan([line], false))
  {
    var rest := InsideParts(line);
    Whole(line, TextEnd(line));
    FirstText(Inside(line), line[..TextEnd(line)], rest);
  }

  lemma Whole(s: seq<byte>, n: nat)
    requires n <= |s|
    ensures n == |s| ==> s[..n] == s
  {
  }

  lemma FirstText(texts: seq<seq<byte>>, t: seq<byte>, rest: seq<seq<byte>>)
    requires 0 < |t| <= MAX_TEXT && texts == NonEmpty(t) + rest
    ensures var scan := Fitting(texts);
            && scan.texts != [] && scan.texts[0] == t
            && (rest == [] ==> scan == Scan([t], false))
  {
    FittingCons(t, rest);
    FirstOf(t, Fitting(rest));
    assert [t] + [] == [t];
  }

  lemma FirstOf(t: seq<byte>, s: Scan)
    requires t != []
    ensures Cons(Emit(t), s).texts != [] && Cons(Emit(t), s).texts[0] == t
  {
  }

  lemma AfterHeader(line: seq<byte>)
    ensures Outside(HDR + line) == Inside(line)
  {
    assert (HDR + line)[LORAHAM_HDR_LEN..] == line;
    assert HDR <= HDR + line;
  }

  lemma InsideParts(s: seq<byte>) returns (rest: seq<seq<byte>>)
    ensures Inside(s) == NonEmpty(s[..TextEnd(s)]) + rest
    ensures TextEnd(s) == |s| ==> rest == []
  {
    var e := TextEnd(s);
    rest := if e == |s| then [] else if IsEol(s[e]) then Outside(s[e + 1..]) else Inside(s[e..][LORAHAM_HDR_LEN..]);
  }

  lemma FittingCons(t: seq<byte>, rest: seq<seq<byte>>)
    requires |t| <= MAX_TEXT
    ensures Fitting(NonEmpty(t) + rest) == Cons(Emit(t), Fitting(rest))
  {
    if t == [] {
      assert [] + rest == rest;
    } else {
      assert ([t] + rest)[1..] == rest;
    }
  }

  /** A text that is already too long overflows, wherever it ends. */
  lemma LongText(u: seq<byte>, v: seq<byte>, s: seq<byte>)
    requires Free(u, v) && |u| > MAX_TEXT
    ensures Fitting(Inside(u + v + s)) == Scan([], true)
  {
    FreeEnd(u, v, s);
    var all := u + v + s;
    assert Inside(all)[0] == all[..TextEnd(all)];
  }

  lemma TextMeaning(c: Core, b: byte, s: seq<byte>)
    requires Reachable(c) && c.seen && b != HDR[c.hdr]
    ensures var (c1, o) := TextStep(c.buf + HDR[..c.hdr], b);
              Reachable(c1) && Fitting(Meaning(c, [b] + s)) == Cons(o, Fitting(Meaning(c1, s)))
  {
    var text := c.buf + HDR[..c.hdr];
    BreakOff(c.buf, c.hdr, b);
    Assoc(text, [b], s);
    if |text| > MAX_TEXT {
      LongText(text, [b], s);
    } else if IsEol(b) {
      InsideText(text, [b], s);
      assert ([b] + s)[1..] == s;
      assert HDR[..0] + s == s;
      FittingCons(text, Outside(s));
    } else if b == HDR0 {
      assert HDR[..1] == [b];
    } else {
      assert text + [b] + HDR[..0] == text + [b];
      assert HDR[..0] == [];
      if |text| == MAX_TEXT {
        LongText(text + [b], [], s);
        assert text + [b] + [] == text + [b];
      }
    }
  }

  lemma HeaderGrows(c: Core, s: seq<byte>)
    requires Reachable(c) && c.seen
    ensures Free(c.buf, HDR[..c.hdr + 1])
    ensures Meaning(c, [HDR[c.hdr]] + s) == Inside(c.buf + HDR[..c.hdr + 1] + s)
  {
    HeaderPrefixNext(c.hdr);
    FreeMore(c.buf, HDR[..c.hdr], [HDR[c.hdr]]);
    PrefixGrows(c.buf, c.hdr, s);
  }

  lemma HeaderMeaning(c: Core, s: seq<byte>)
    requires Reachable(c) && c.seen && c.hdr > 0
    ensures var (c1, o) := Step(c, HDR[c.hdr]);
              Reachable(c1) && Fitting(Meaning(c, [HDR[c.hdr]] + s)) == Cons(o, Fitting(Meaning(c1, s)))
  {
    HeaderGrows(c, s);
    if c.hdr + 1 == LORAHAM_HDR_LEN {
      assert HDR[..c.hdr + 1] == HDR;
      HeaderCloses(c.buf, s);
      FreshTextReachable();
    }
  }

  lemma FreshTextReachable()
    ensures Reachable(Core(true, 0, []))
  {
    assert HDR[..0] == [];
  }

  lemma PrefixGrows(u: seq<byte>, k: nat, s: seq<byte>)
    requires k < LORAHAM_HDR_LEN
    ensures u + HDR[..k] + ([HDR[k]] + s) == u + HDR[..k + 1] + s
  {
    HeaderPrefixNext(k);
  }

  lemma HeaderCloses(u: seq<byte>, s: seq<byte>)
    requires Free(u, HDR) && |u| <= MAX_TEXT
    ensures Fitting(Inside(u + HDR + s)) == Cons(Emit(u), Fitting(Meaning(Core(true, 0, []), s)))
  {
    assert HDR <= HDR + s;
    InsideText(u, HDR, s);
    assert (HDR + s)[LORAHAM_HDR_LEN..] == s;
    assert [] + HDR[..0] + s == s;
    FittingCons(u, Inside(s));
  }

  lemma FlushMeaning(c: Core)
    requires Reachable(c)
    ensures Cons(Flush(c), Scan([], false)) == Fitting(Meaning(c, []))
  {
    var k := HDR[..c.hdr];
    PrefixAlone(c.hdr);
    if c.seen {
      var text := c.buf + k;
      assert text + [] == text;
      FreeEnd(c.buf, k, []);
      assert k + [] == k;
      assert text[..|text|] == text;
      assert Inside(text) == NonEmpty(text) + [];
      if |text| > MAX_TEXT {
        assert (NonEmpty(text) + [])[0] == text;
      } else {
        FittingCons(text, []);
      }
    } else {
      assert k + [] == k;
    }
  }

  lemma PrefixAlone(k: nat)
    requires k < LORAHAM_HDR_LEN
    ensures TextEnd(HDR[..k]) == k && Outside(HDR[..k]) == []
  {
    if k == 1 {
      assert HDR[..1][1..] == [];
    } else if k == 2 {
      var w: seq<byte> := [0xFF];
      assert HDR[..2][1..] == w && w[1..] == [];
      assert TextEnd(w) == 1 && Outside(w) == [];
    }
  }

  /** From any reachable scanner state, scanning the rest of a stream and flushing yields exactly the
      packets of the open text followed by that rest, up to the first text over 511 bytes, where it
      reports an overflow. */
  lemma {:induction false} ScannerRefinesSplit(c: Core, s: seq<byte>)
    requires Reachable(c)
    ensures ScanFrom(c, s) == Fitting(Meaning(c, s))
    decreases |s|
  {
    if s == [] {
      FlushMeaning(c);
    } else {
      var b, rest := s[0], s[1..];
      assert s == [b] + rest;
      var (c1, o) := Step(c, b);
      if !c.seen {
        SeekMeaning(c.hdr, b, rest);
      } else if c.hdr > 0 && b == HDR[c.hdr] {
        HeaderMeaning(c, rest);
      } else if b == HDR[c.hdr] {
        // hdr = 0 and a header starts
        FirstHeaderByte(c, rest);
      } else {
        TextMeaning(c, b, rest);
      }
      ScannerRefinesSplit(c1, rest);
    }
  }

  lemma FirstHeaderByte(c: Core, s: seq<byte>)
    requires Reachable(c) && c.seen && c.hdr == 0
    ensures var (c1, o) := Step(c, HDR0);
              Reachable(c1) && o == Nothing && Meaning(c, [HDR0] + s) == Meaning(c1, s)
  {
    assert HDR[..0] == [] && HDR[..1] == [HDR0];
    assert c.buf + [] == c.buf;
    FreeMore(c.buf, [], [HDR0]);
    assert [] + [HDR0] == [HDR0];
    Assoc(c.buf, [HDR0], s);
  }

  /** The whole of a byte string, from the initial state. */
  lemma WholeScan(s: seq<byte>)
    ensures ScanFrom(INIT, s) == Fitting(Outside(s))
  {
    assert HDR[..0] + s == s;
    ScannerRefinesSplit(INIT, s);
  }

  // ---------- chunks and the drain loop ----------

  /** Scanning without the final flush. */
  datatype Fed = Fed(texts: seq<seq<byte>>, overflow: bool, core: Core)

  function Prepend(o: Out, f: Fed): Fed {
    match o
    case Nothing => f
    case Packet(t) => Fed([t] + f.texts, f.overflow, f.core)
    case Overflow => Fed([], true, INIT)
  }

  function Feed(c: Core, s: seq<byte>): (f: Fed)
    requires CoreValid(c)
    ensures CoreValid(f.core)
    decreases |s|
  {
    if s == [] then Fed([], false, c)
    else
      StepValid(c, s[0]);
      Prepend(Step(c, s[0]).1, Feed(Step(c, s[0]).0, s[1..]))
  }

  /** Draining the queued bytes result by result is feeding them all. */
  lemma {:induction false} PullFeeds(c: Core, p: seq<byte>)
    requires CoreValid(c)
    ensures var (c1, rest, o) := Pull(c, p);
              Feed(c, p) == if o == Nothing then Fed([], false, c1) else Prepend(o, Feed(c1, rest))
    decreases |p|
  {
    if p != [] {
      StepValid(c, p[0]);
      if Step(c, p[0]).1 == Nothing {
        PullFeeds(Step(c, p[0]).0, p[1..]);
      }
    }
  }

  /** What a sequence of chunks yields, each drained before the next arrives, and a final flush. */
  function ScanChunks(c: Core, chunks: seq<seq<byte>>): Scan
    requires CoreValid(c)
    decreases |chunks|
  {
    if chunks == [] then Cons(Flush(c), Scan([], false))
    else
      var f := Feed(c, chunks[0]);
      if f.overflow then Scan(f.texts, true)
      else
        var rest := ScanChunks(f.core, chunks[1..]);
        Scan(f.texts + rest.texts, rest.overflow)
  }

  lemma {:induction false} FeedThenScan(c: Core, a: seq<byte>, b: seq<byte>)
    requires CoreValid(c)
    ensures var f := Feed(c, a);
              ScanFrom(c, a + b) ==
              if f.overflow then Scan(f.texts, true)
              else Scan(f.texts + ScanFrom(f.core, b).texts, ScanFrom(f.core, b).overflow)
    decreases |a|
  {
    if a == [] {
      assert a + b == b;
      assert [] + ScanFrom(c, b).texts == ScanFrom(c, b).texts;
    } else {
      assert a + b == [a[0]] + (a[1..] + b);
      ScanUncons(c, a[0], a[1..] + b);
      StepValid(c, a[0]);
      var (c1, o) := Step(c, a[0]);
      FeedThenScan(c1, a[1..], b);
      var f := Feed(c1, a[1..]);
      if o.Packet? {
        Assoc([o.text], f.texts, ScanFrom(f.core, b).texts);
      }
    }
  }

  lemma ScanUncons(c: Core, b: byte, s: seq<byte>)
    requires CoreValid(c)
    ensures CoreValid(Step(c, b).0)
    ensures ScanFrom(c, [b] + s) == Cons(Step(c, b).1, ScanFrom(Step(c, b).0, s))
  {
    StepValid(c, b);
    assert ([b] + s)[1..] == s;
  }

  /** However a stream is cut into chunks, the packets are those of the whole stream: up to the first
      text over 511 bytes, after which the scanner starts afresh. */
  lemma {:induction false} ChunkIndependence(c: Core, chunks: seq<seq<byte>>)
    requires Reachable(c)
    ensures ScanChunks(c, chunks) == Fitting(Meaning(c, Concat(chunks)))
    decreases |chunks|
  {
    ScannerRefinesSplit(c, Concat(chunks));
    if chunks != [] {
      FeedReachable(c, chunks[0]);
      FeedThenScan(c, chunks[0], Concat(chunks[1..]));
      var f := Feed(c, chunks[0]);
      if !f.overflow {
        ChunkIndependence(f.core, chunks[1..]);
        ScannerRefinesSplit(f.core, Concat(chunks[1..]));
      }
    }
  }

  lemma StepReachable(c: Core, b: byte)
    requires Reachable(c)
    ensures Reachable(Step(c, b).0)
  {
    if !c.seen {
      SeekMeaning(c.hdr, b, []);
    } else if c.hdr > 0 && b == HDR[c.hdr] {
      HeaderMeaning(c, []);
    } else if b == HDR[c.hdr] {
      FirstHeaderByte(c, []);
    } else {
      TextMeaning(c, b, []);
    }
  }

  lemma {:induction false} FeedReachable(c: Core, s: seq<byte>)
    requires Reachable(c)
    ensures Reachable(Feed(c, s).core)
    decreases |s|
  {
    if s != [] {
      StepReachable(c, s[0]);
      FeedReachable(Step(c, s[0]).0, s[1..]);
    }
  }

  // ---------- loraham_rx_state_t ----------

  class RxScanner {
    const buf: array<byte>
    var len: nat
    var seenHeader: bool
    var hdrLen: nat
    const pending: array<byte>
    var pendingLen: nat

    ghost predicate Valid()
      reads this
    {
      && buf.Length == TNC2_MAX_LINE && pending.Length == MAX_PENDING && buf != pending
      && len <= MAX_TEXT && hdrLen < LORAHAM_HDR_LEN && pendingLen <= MAX_PENDING
      && (!seenHeader ==> len == 0)
    }

    ghost function Abs(): (c: Core)
      requires Valid()
      reads this, buf
      ensures CoreValid(c)
    {
      Core(seenHeader, hdrLen, buf[..len])
    }

    ghost function Pending(): seq<byte>
      requires Valid()
      reads this, pending
    {
      pending[..pendingLen]
    }

    constructor ()
      ensures Valid() && fresh(buf) && fresh(pending) && Abs() == INIT && Pending() == []
    {
      buf := new byte[TNC2_MAX_LINE];
      pending := new byte[MAX_PENDING];
      len, seenHeader, hdrLen, pendingLen := 0, false, 0, 0;
    }

    /** loraham_rx_state_init: an overflow wipes the queued bytes too. */
    method Init()
      requires buf.Length == TNC2_MAX_LINE && pending.Length == MAX_PENDING && buf != pending
      modifies this
      ensures Valid() && Abs() == INIT && Pending() == []
    {
      len, seenHeader, hdrLen, pendingLen := 0, false, 0, 0;
    }

    /** loraham_pending_consume of the first byte. */
    method TakeByte() returns (b: byte)
      requires Valid() && pendingLen > 0
      modifies this`pendingLen, pending
      ensures Valid() && [b] + Pending() == old(Pending())
      ensures Abs() == old(Abs())
    {
      b := pending[0];
      forall i | 0 <= i < pendingLen - 1 {
        pending[i] := pending[i + 1];
      }
      pendingLen := pendingLen - 1;
    }

    /** loraham_append_hdr_prefix, then the partial header is forgotten. */
    method AppendPrefix() returns (fits: bool)
      requires Valid() && seenHeader
      modifies this`len, this`hdrLen, buf
      ensures Valid() && seenHeader
      ensures fits == (|old(Abs().buf)| + old(hdrLen) <= MAX_TEXT)
      ensures fits ==> Abs() == Core(true, 0, old(Abs().buf) + HDR[..old(hdrLen)])
      ensures Pending() == old(Pending())
    {
      ghost var text := buf[..len];
      var i := 0;
      while i < hdrLen
        invariant 0 <= i <= hdrLen == old(hdrLen) && len == |text| + i <= MAX_TEXT
        invariant buf[..len] == text + HDR[..i]
        invariant Pending() == old(Pending())
      {
        if len >= buf.Length - 1 {
          return false;
        }
        buf[len] := HDR[i];
        len := len + 1;
        HeaderPrefixNext(i);
        i := i + 1;
      }
      hdrLen := 0;
      return true;
    }

    /** loraham_emit_tnc2 once any partial header has been appended. */
    method TakeText(keepHeader: bool) returns (o: Out)
      requires Valid() && seenHeader
      modifies this`len, this`hdrLen, this`seenHeader
      ensures Valid() && o == Emit(old(Abs().buf)) && Abs() == Core(keepHeader, 0, [])
      ensures Pending() == old(Pending())
    {
      o := if len == 0 then Nothing else Packet(buf[..len]);
      len, hdrLen, seenHeader := 0, 0, keepHeader;
    }

    /** One byte of loraham_extract_tnc2. */
    method Consume(b: byte) returns (o: Out)
      requires Valid()
      modifies this, buf
      ensures Valid()
      ensures (Abs(), o) == Step(old(Abs()), b)
      ensures o != Overflow ==> Pending() == old(Pending())
      ensures o == Overflow ==> Pending() == []
    {
      if !seenHeader {
        if b == HDR[hdrLen] {
          hdrLen := hdrLen + 1;
          if hdrLen == LORAHAM_HDR_LEN {
            seenHeader, len, hdrLen := true, 0, 0;
          }
        } else {
          hdrLen := if b == HDR0 then 1 else 0;
        }
        return Nothing;
      }
      if hdrLen > 0 && b == HDR[hdrLen] {
        if hdrLen + 1 == LORAHAM_HDR_LEN {
          o := TakeText(true);
        } else {
          hdrLen := hdrLen + 1;
          o := Nothing;
        }
        return;
      }
      o := TextByte(b);
    }

    method TextByte(b: byte) returns (o: Out)
      requires Valid() && seenHeader
      modifies this, buf
      ensures Valid()
      ensures (Abs(), o) == TextStep(old(Abs().buf) + HDR[..old(hdrLen)], b)
      ensures o != Overflow ==> Pending() == old(Pending())
      ensures o == Overflow ==> Pending() == []
    {
      var fits := AppendPrefix();
      if !fits {
        Init();
        return Overflow;
      }
      if IsEol(b) {
        o := TakeText(false);
        return;
      }
      if b == HDR0 {
        hdrLen := 1;
        return Nothing;
      }
      if len >= buf.Length - 1 {
        Init();
        return Overflow;
      }
      ghost var text := buf[..len];
      buf[len] := b;
      len := len + 1;
      assert buf[..len] == text + [b];
      return Nothing;
    }

    /** loraham_extract_tnc2: queue `data`, then scan up to the first result; an empty call on an empty
        queue flushes. */
    method Extract(data: seq<byte>) returns (o: Out)
      requires Valid()
      modifies this, buf, pending
      ensures Valid()
      ensures |old(Pending())| + |data| > MAX_PENDING ==> o == Overflow && Abs() == INIT && Pending() == []
      ensures old(Pending()) + data == [] ==> o == Flush(old(Abs())) && Abs() == INIT && Pending() == []
      ensures 0 < |old(Pending())| + |data| <= MAX_PENDING ==>
                (Abs(), Pending(), o) == Pull(old(Abs()), old(Pending()) + data)
    {
      if data == [] && pendingLen == 0 {
        o := FlushIdle();
        return;
      }
      if |data| > pending.Length - pendingLen {
        Init();
        return Overflow;
      }
      Enqueue(data);
      o := PullPending();
    }

    method FlushIdle() returns (o: Out)
      requires Valid() && pendingLen == 0
      modifies this, buf
      ensures Valid() && o == Flush(old(Abs())) && Abs() == INIT && Pending() == []
    {
      if !seenHeader {
        hdrLen := 0;
        return Nothing;
      }
      var fits := AppendPrefix();
      if !fits {
        Init();
        return Overflow;
      }
      o := TakeText(false);
    }

    method Enqueue(data: seq<byte>)
      requires Valid() && pendingLen + |data| <= MAX_PENDING
      modifies this`pendingLen, pending
      ensures Valid() && Abs() == old(Abs()) && Pending() == old(Pending()) + data
    {
      forall i | 0 <= i < |data| {
        pending[pendingLen + i] := data[i];
      }
      pendingLen := pendingLen + |data|;
    }

    method PullPending() returns (o: Out)
      requires Valid()
      modifies this, buf, pending
      ensures Valid() && (Abs(), Pending(), o) == Pull(old(Abs()), old(Pending()))
    {
      ghost var result := Pull(Abs(), Pending());
      while pendingLen > 0
        invariant Valid() && Pull(Abs(), Pending()) == result
        decreases pendingLen
      {
        ghost var c, p := Abs(), Pending();
        var b := TakeByte();
        PullCons(c, b, Pending());
        o := Consume(b);
        if o != Nothing {
          return;
        }
      }
      o := Nothing;
    }
  }

  lemma PullCons(c: Core, b: byte, p: seq<byte>)
    requires CoreValid(c)
    ensures CoreValid(Step(c, b).0)
    ensures var (c1, o) := Step(c, b);
              Pull(c, [b] + p) ==
              match o
              case Nothing => Pull(c1, p)
              case Overflow => (INIT, [], Overflow)
              case Packet(_) => (c1, p, o)
  {
    StepValid(c, b);
    assert ([b] + p)[1..] == p;
  }
}
