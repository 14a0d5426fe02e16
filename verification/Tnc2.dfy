/** TNC2 monitor lines SRC>DST,PATH:PAYLOAD (tnc2.c). */
module Tnc2 {
  import opened Common
  import opened Ax25
  import opened AddrText

  const GT: byte := 62
  const COLON: byte := 58
  const COMMA: byte := 44

  /** The line without its trailing run of CR and LF. */
  function StripEol(s: seq<byte>): (r: seq<byte>)
    ensures r <= s
    ensures r != [] ==> r[|r| - 1] != 13 && r[|r| - 1] != 10
    ensures forall i :: |r| <= i < |s| ==> s[i] == 13 || s[i] == 10
  {
    if s != [] && IsEol(s[|s| - 1]) then StripEol(s[..|s| - 1]) else s
  }

  // ---------- parsing ----------

  /** Path entries, comma separated; nothing after the last comma is accepted. `n` are already parsed. */
  function ParseHops(t: seq<byte>, n: nat): (r: Result<seq<Addr>>)
    requires n <= AX25_MAX_REPEATERS
    ensures r.Success? ==> n + |r.value| <= AX25_MAX_REPEATERS && AllCanon(r.value)
    ensures r.Failure? ==> r.code == ErrLong || r.code == ErrFormat
    decreases |t|
  {
    if t == [] then Success([])
    else if n == AX25_MAX_REPEATERS then Failure(ErrLong)
    else
      var c := IndexOf(t, COMMA);
      if c == 0 then Failure(ErrFormat)
      else
        var a := ParseAddr(t[..c]);
        if a.Failure? then Failure(a.code)
        else if c == |t| then Success([a.value])
        else
          var more := ParseHops(t[c + 1..], n + 1);
          if more.Failure? then more
          else Success([a.value] + more.value)
  }

  /** Something must follow the comma after the destination. */
  function HopsAfterComma(t: seq<byte>): (r: Result<seq<Addr>>)
    ensures r.Success? ==> |r.value| <= AX25_MAX_REPEATERS && AllCanon(r.value)
    ensures r.Failure? ==> r.code == ErrLong || r.code == ErrFormat
  {
    if t == [] then Failure(ErrFormat) else ParseHops(t, 0)
  }

  datatype Dest = Dest(dst: Addr, path: seq<Addr>)

  function ParsePath(t: seq<byte>): (r: Result<Dest>)
    ensures r.Success? ==>
              var d := r.value;
              CanonAddr(d.dst) && AllCanon(d.path) && |d.path| <= AX25_MAX_REPEATERS
    ensures r.Failure? ==> r.code == ErrLong || r.code == ErrFormat
  {
    if t == [] then Failure(ErrFormat)
    else
      var c := IndexOf(t, COMMA);
      var d := ParseAddr(t[..c]);
      if d.Failure? then Failure(d.code)
      else if c == |t| then Success(Dest(d.value, []))
      else
        var hops := HopsAfterComma(t[c + 1..]);
        if hops.Failure? then Failure(hops.code) else Success(Dest(d.value, hops.value))
  }

  datatype Parts = Parts(src: seq<byte>, dest: seq<byte>, payload: seq<byte>)

  /** Source up to the first '>', destination and path up to the next ':', payload after it. */
  function SplitLine(buf: seq<byte>): Result<Parts> {
    var gt := IndexOf(buf, GT);
    if gt == |buf| || gt == 0 then Failure(ErrFormat)
    else
      var tail := buf[gt + 1..];
      var sep := IndexOf(tail, COLON);
      if sep == |tail| then Failure(ErrFormat)
      else if |tail[sep + 1..]| > AX25_MAX_PAYLOAD then Failure(ErrLong)
      else Success(Parts(buf[..gt], tail[..sep], tail[sep + 1..]))
  }

  function ParseParts(p: Parts): Result<Frame> {
    var src := ParseAddr(p.src);
    if src.Failure? then Failure(src.code)
    else
      var dest := ParsePath(p.dest);
      if dest.Failure? then Failure(dest.code)
      else Success(Unstar(Frame(dest.value.dst, src.value, dest.value.path, p.payload)))
  }

  function ParseText(text: seq<byte>): Result<Frame> {
    var parts := SplitLine(text);
    if parts.Failure? then Failure(parts.code) else ParseParts(parts.value)
  }

  /** tnc2_parse_line on a C string. */
  function Parse(line: seq<byte>): (r: Result<Frame>)
    ensures r.Failure? ==> r.code == ErrLong || r.code == ErrFormat
  {
    if |line| >= TNC2_MAX_LINE then Failure(ErrLong) else ParseText(StripEol(line))
  }

  // ---------- formatting ----------

  function UpperPath(path: seq<Addr>): (r: seq<Addr>)
    ensures |r| == |path|
    ensures forall i :: 0 <= i < |path| ==> r[i] == UpperAddr(path[i])
  {
    if path == [] then [] else [UpperAddr(path[0])] + UpperPath(path[1..])
  }

  lemma {:induction false} UpperPathCanon(path: seq<Addr>)
    requires AllCanon(path)
    ensures UpperPath(path) == path
  {
    if path != [] {
      UpperCanon(path[0]);
      UpperPathCanon(path[1..]);
    }
  }

  function HopText(a: Addr): seq<byte> { [COMMA] + FormatAddr(a) }

  function PathText(path: seq<Addr>): (r: seq<byte>) {
    if path == [] then [] else HopText(path[0]) + PathText(path[1..])
  }

  function Plain(a: Addr): Addr { a.(repeated := false) }

  function OneLine(payload: seq<byte>): (r: seq<byte>)
    ensures |r| == |payload|
    ensures forall i :: 0 <= i < |r| ==> r[i] == if payload[i] == 13 || payload[i] == 10 then 32 else payload[i]
  {
    seq(|payload|, i requires 0 <= i < |payload| => if IsEol(payload[i]) then SPACE else payload[i])
  }

  function HeadText(f: Frame): seq<byte> {
    FormatAddr(Plain(f.src)) + [GT] + FormatAddr(Plain(f.dst)) + PathText(f.path) + [COLON]
  }

  function LineText(f: Frame): seq<byte> {
    HeadText(f) + OneLine(f.payload)
  }

  /** tnc2_format_line, apart from the size of the output buffer. */
  function Format(f: Frame): Result<seq<byte>> {
    if |f.path| > AX25_MAX_REPEATERS || |f.payload| > AX25_MAX_PAYLOAD then Failure(ErrLong)
    else if NUL in f.payload || !EncodableFrame(f) then Failure(ErrFormat)
    else Success(LineText(f))
  }

  /** What a frame becomes on its way through a TNC2 line. */
  function Norm(f: Frame): Frame {
    Frame(UpperAddr(Plain(f.dst)), UpperAddr(Plain(f.src)), UpperPath(f.path), OneLine(f.payload))
  }

  // ---------- sizes ----------

  /** Callsigns fit the source's char[7]. */
  predicate FitsStruct(path: seq<Addr>) {
    path == [] || (|path[0].call| <= 6 && FitsStruct(path[1..]))
  }

  lemma {:induction false} GoodFits(path: seq<Addr>)
    requires AllGood(path)
    ensures FitsStruct(path)
  {
    if path != [] {
      GoodFits(path[1..]);
    }
  }

  lemma {:induction false} PathTextSize(path: seq<Addr>)
    requires FitsStruct(path)
    ensures |PathText(path)| <= 11 * |path|
  {
    if path != [] {
      PathTextSize(path[1..]);
    }
  }

  /** Every line that can be formatted fits the callers' 512-byte buffers with room to spare. */
  lemma LineSize(f: Frame)
    requires |f.dst.call| <= 6 && |f.src.call| <= 6 && FitsStruct(f.path)
    requires |f.path| <= AX25_MAX_REPEATERS && |f.payload| <= AX25_MAX_PAYLOAD
    ensures |LineText(f)| <= 364
  {
    PathTextSize(f.path);
  }

  // ---------- the source's parsing loops (its NUL-splitting of a local copy becomes slicing) ----------

  /** tnc2_strip_eol. */
  method StripLine(line: seq<byte>) returns (text: seq<byte>)
    ensures text == StripEol(line)
  {
    text := line;
    while text != [] && IsEol(text[|text| - 1])
      invariant StripEol(line) == StripEol(text)
    {
      text := text[..|text| - 1];
    }
    StripNothing(text);
  }

  /** A path whose first hops are already parsed. */
  function AfterHops(path: seq<Addr>, more: Result<seq<Addr>>): Result<seq<Addr>> {
    if more.Failure? then more else Success(path + more.value)
  }

  lemma AfterHop(path: seq<Addr>, a: Addr, more: Result<seq<Addr>>)
    ensures AfterHops(path, AfterHops([a], more)) == AfterHops(path + [a], more)
    ensures AfterHops([], more) == more
  {
    if more.Success? {
      assert path + ([a] + more.value) == (path + [a]) + more.value;
      assert [] + more.value == more.value;
    }
  }

  /** The next hop of the path, what is behind it, and whether it was the last one. */
  method ReadHop(p: seq<byte>, ghost path: seq<Addr>) returns (a: Result<Addr>, rest: seq<byte>, last: bool)
    requires p != [] && |path| < AX25_MAX_REPEATERS
    ensures |rest| < |p|
    ensures AfterHops(path, ParseHops(p, |path|))
         == if a.Failure? then Failure(a.code) else AfterHops(path + [a.value], HopsLeft(rest, |path| + 1, last))
  {
    HopStep(p, path);
    var c := IndexOf(p, COMMA);
    a := AddrParse(p[..c]);
    last := c == |p|;
    rest := if last then [] else p[c + 1..];
  }

  /** The path loop of tnc2_parse_path; `p` is the text still to be read. */
  method ReadHops(text: seq<byte>) returns (r: Result<seq<Addr>>)
    ensures r == HopsAfterComma(text)
  {
    if text == [] {
      return Failure(ErrFormat);
    }
    var path, p, last := [], text, false;
    ghost var whole := ParseHops(text, 0);
    AfterHop([], Addr([], 0, false), whole);
    while !last && p != []
      invariant |path| <= AX25_MAX_REPEATERS
      invariant whole == AfterHops(path, HopsLeft(p, |path|, last))
      decreases |p|
    {
      if |path| >= AX25_MAX_REPEATERS {
        return Failure(ErrLong);
      }
      var a: Result<Addr>;
      a, p, last := ReadHop(p, path);
      if a.Failure? {
        return Failure(a.code);
      }
      path := path + [a.value];
    }
    assert HopsLeft(p, |path|, last) == Success([]);
    assert path + [] == path;
    return Success(path);
  }

  /** What is still to be parsed: nothing once an entry ended at the end of the text. */
  function HopsLeft(p: seq<byte>, n: nat, last: bool): Result<seq<Addr>>
    requires n <= AX25_MAX_REPEATERS
  {
    if last then Success([]) else ParseHops(p, n)
  }

  lemma HopStep(t: seq<byte>, path: seq<Addr>)
    requires t != [] && |path| < AX25_MAX_REPEATERS
    ensures var c := IndexOf(t, COMMA);
            var a := ParseAddr(t[..c]);
              AfterHops(path, ParseHops(t, |path|)) ==
              if a.Failure? then Failure(a.code)
              else AfterHops(path + [a.value], HopsLeft(if c == |t| then [] else t[c + 1..], |path| + 1, c == |t|))
  {
    var c := IndexOf(t, COMMA);
    assert c > 0 && ParseAddr(t[..c]).Success? ==>
             path + [ParseAddr(t[..c]).value] + [] == path + [ParseAddr(t[..c]).value];
    if c > 0 && c < |t| && ParseAddr(t[..c]).Success? {
      AfterHop(path, ParseAddr(t[..c]).value, ParseHops(t[c + 1..], |path| + 1));
    }
  }

  /** tnc2_parse_path. */
  method ReadPath(text: seq<byte>) returns (r: Result<Dest>)
    ensures r == ParsePath(text)
  {
    if text == [] {
      return Failure(ErrFormat);
    }
    var c := IndexOf(text, COMMA);
    var dst := AddrParse(text[..c]);
    if dst.Failure? {
      return Failure(dst.code);
    }
    if c == |text| {
      return Success(Dest(dst.value, []));
    }
    var hops := ReadHops(text[c + 1..]);
    if hops.Failure? {
      return Failure(hops.code);
    }
    return Success(Dest(dst.value, hops.value));
  }

  /** tnc2_parse_line. */
  method ParseLine(line: seq<byte>) returns (r: Result<Frame>)
    ensures r == Parse(line)
  {
    if |line| >= TNC2_MAX_LINE {
      return Failure(ErrLong);
    }
    var text := StripLine(line);
    var parts := SplitLine(text);
    if parts.Failure? {
      return Failure(parts.code);
    }
    var src := AddrParse(parts.value.src);
    if src.Failure? {
      return Failure(src.code);
    }
    var dest := ReadPath(parts.value.dest);
    if dest.Failure? {
      return Failure(dest.code);
    }
    return Success(Unstar(Frame(dest.value.dst, src.value, dest.value.path, parts.value.payload)));
  }

  // ---------- the source's appending formatter ----------

  /** tnc2_append_mem: room for the data and a NUL, or nothing is written. */
  method Append(out: array<byte>, pos: nat, data: seq<byte>) returns (code: Code, next: nat)
    requires pos < out.Length
    modifies out
    ensures code == if pos + |data| < out.Length then Ok else ErrNoSpace
    ensures code == Ok ==> next == pos + |data| && out[..next] == old(out[..pos]) + data && out[next] == NUL
  {
    if pos + |data| >= out.Length {
      return ErrNoSpace, pos;
    }
    ghost var before := out[..pos];
    var i := 0;
    while i < |data|
      invariant 0 <= i <= |data|
      invariant out[..pos + i] == before + data[..i]
    {
      out[pos + i] := data[i];
      assert data[..i + 1] == data[..i] + [data[i]];
      i := i + 1;
    }
    assert data[..i] == data;
    out[pos + |data|] := NUL;
    return Ok, pos + |data|;
  }

  /** One address, formatted and appended. */
  method AppendAddr(out: array<byte>, pos: nat, a: Addr) returns (code: Code, next: nat)
    requires pos < out.Length && |a.call| <= 6
    modifies out
    ensures code == if !Encodable(a) then ErrFormat else if pos + |FormatAddr(a)| < out.Length then Ok else ErrNoSpace
    ensures code == Ok ==> next == pos + |FormatAddr(a)| && out[..next] == old(out[..pos]) + FormatAddr(a)
  {
    var text := AddrFormat(a);
    if text.Failure? {
      return text.code, pos;
    }
    code, next := Append(out, pos, text.value);
  }

  method AppendHop(out: array<byte>, pos: nat, a: Addr) returns (code: Code, next: nat)
    requires pos < out.Length && |a.call| <= 6
    modifies out
    ensures code == Ok <==> Encodable(a) && pos + |HopText(a)| < out.Length
    ensures code == Ok ==> next == pos + |HopText(a)| && out[..next] == old(out[..pos]) + HopText(a)
    ensures code in {Ok, ErrFormat, ErrNoSpace}
    ensures code == ErrFormat ==> !Encodable(a)
    ensures code == ErrNoSpace ==> pos + |HopText(a)| >= out.Length
  {
    ghost var before := out[..pos];
    code, next := Append(out, pos, [COMMA]);
    if code != Ok {
      return;
    }
    code, next := AppendAddr(out, next, a);
    assert before + [COMMA] + FormatAddr(a) == before + HopText(a);
  }

  /** The path loop of tnc2_format_line. */
  method AppendPath(out: array<byte>, start: nat, path: seq<Addr>) returns (code: Code, pos: nat)
    requires start < out.Length && FitsStruct(path)
    modifies out
    ensures code == Ok <==> AllEncodable(path) && start + |PathText(path)| < out.Length
    ensures code == Ok ==> pos == start + |PathText(path)| && out[..pos] == old(out[..start]) + PathText(path)
    ensures code in {Ok, ErrFormat, ErrNoSpace}
    ensures code == ErrFormat ==> !AllEncodable(path)
    ensures code == ErrNoSpace ==> start + |PathText(path)| >= out.Length
  {
    pos := start;
    ghost var before, done, rest := out[..start], [], path;
    var i := 0;
    while i < |path|
      invariant 0 <= i <= |path| && rest == path[i..] && FitsStruct(rest)
      invariant AllEncodable(path) == AllEncodable(rest)
      invariant done + PathText(rest) == PathText(path)
      invariant pos == start + |done| < out.Length && out[..pos] == before + done
    {
      assert path[i] == rest[0];
      code, pos := AppendHop(out, pos, path[i]);
      if code != Ok {
        return;
      }
      Assoc(done, HopText(rest[0]), PathText(rest[1..]));
      Assoc(before, done, HopText(rest[0]));
      done, rest := done + HopText(rest[0]), rest[1..];
      i := i + 1;
    }
    assert done + [] == done;
    code := Ok;
  }

  predicate FitsFrame(f: Frame) {
    |f.dst.call| <= 6 && |f.src.call| <= 6 && FitsStruct(f.path)
  }

  function StationsText(f: Frame): seq<byte> {
    FormatAddr(Plain(f.src)) + [GT] + FormatAddr(Plain(f.dst))
  }

  /** Source and destination. */
  method AppendStations(out: array<byte>, f: Frame) returns (code: Code, pos: nat)
    requires 0 < out.Length && FitsFrame(f)
    modifies out
    ensures code == Ok <==> Encodable(f.src) && Encodable(f.dst) && |StationsText(f)| < out.Length
    ensures code == Ok ==> pos == |StationsText(f)| && out[..pos] == StationsText(f)
    ensures code in {Ok, ErrFormat, ErrNoSpace}
    ensures code == ErrFormat ==> !(Encodable(f.src) && Encodable(f.dst))
    ensures code == ErrNoSpace ==> |StationsText(f)| >= out.Length
  {
    pos := 0;
    assert out[..0] + FormatAddr(Plain(f.src)) == FormatAddr(Plain(f.src));
    code, pos := AppendAddr(out, 0, Plain(f.src));
    if code != Ok {
      return;
    }
    code, pos := Append(out, pos, [GT]);
    if code != Ok {
      return;
    }
    code, pos := AppendAddr(out, pos, Plain(f.dst));
  }

  /** The address part of tnc2_format_line. */
  method AppendHead(out: array<byte>, f: Frame) returns (code: Code, pos: nat)
    requires 0 < out.Length && FitsFrame(f)
    modifies out
    ensures code == Ok <==> EncodableFrame(f) && |HeadText(f)| < out.Length
    ensures code == Ok ==> pos == |HeadText(f)| && out[..pos] == HeadText(f)
    ensures code in {Ok, ErrFormat, ErrNoSpace}
    ensures code == ErrFormat ==> !EncodableFrame(f)
    ensures code == ErrNoSpace ==> |HeadText(f)| >= out.Length
  {
    assert HeadText(f) == StationsText(f) + PathText(f.path) + [COLON];
    code, pos := AppendStations(out, f);
    if code != Ok {
      return;
    }
    code, pos := AppendPath(out, pos, f.path);
    if code != Ok {
      return;
    }
    code, pos := Append(out, pos, [COLON]);
  }

  method HasNul(s: seq<byte>) returns (b: bool)
    ensures b == (NUL in s)
  {
    var i := 0;
    while i < |s|
      invariant 0 <= i <= |s| && NUL !in s[..i]
    {
      if s[i] == NUL {
        return true;
      }
      assert s[..i + 1] == s[..i] + [s[i]];
      i := i + 1;
    }
    assert s[..i] == s;
    return false;
  }

  /** tnc2_format_line. Into a buffer of TNC2_MAX_LINE bytes or more it fails exactly when Format does,
      and with the same code. */
  method FormatLine(f: Frame, out: array<byte>) returns (code: Code, len: nat)
    requires 0 < out.Length && FitsFrame(f)
    modifies out
    ensures code == Ok <==> Format(f).Success? && |LineText(f)| < out.Length
    ensures code == Ok ==> len == |LineText(f)| && out[..len] == LineText(f) && out[len] == NUL
    ensures code != Ok && out.Length >= TNC2_MAX_LINE ==> Format(f) == Failure(code)
  {
    len := 0;
    out[0] := NUL;
    if |f.path| > AX25_MAX_REPEATERS || |f.payload| > AX25_MAX_PAYLOAD {
      return ErrLong, 0;
    }
    LineSize(f);
    var nul := HasNul(f.payload);
    if nul {
      return ErrFormat, 0;
    }
    var pos: nat;
    code, pos := AppendHead(out, f);
    if code != Ok {
      return code, 0;
    }
    out[pos] := NUL;
    code, pos := Append(out, pos, OneLine(f.payload));
    if code != Ok {
      return code, 0;
    }
    return Ok, pos;
  }

  // ---------- parse inverts format ----------

  predicate AddrChars(s: seq<byte>) {
    forall i :: 0 <= i < |s| ==> IsAddrChar(s[i]) || s[i] == COMMA
  }

  lemma {:induction false} PathChars(path: seq<Addr>)
    requires AllGood(path)
    ensures AddrChars(PathText(path))
  {
    if path != [] {
      FormatAddrChars(path[0]);
      PathChars(path[1..]);
    }
  }

  /** Cutting at the first separator when the left part does not contain it. */
  lemma Cut(left: seq<byte>, sep: byte, right: seq<byte>)
    requires sep !in left
    ensures var t := left + [sep] + right;
            IndexOf(t, sep) == |left| && t[..|left|] == left && t[|left| + 1..] == right
  {
    IndexOfUnique(left + [sep] + right, sep, |left|);
  }

  lemma HopsLast(head: seq<byte>, n: nat)
    requires COMMA !in head && head != [] && n < AX25_MAX_REPEATERS
    requires ParseAddr(head).Success?
    ensures ParseHops(head, n) == Success([ParseAddr(head).value])
  {
    IndexOfUnique(head, COMMA, |head|);
    assert head[..|head|] == head;
  }

  lemma HopsMore(head: seq<byte>, right: seq<byte>, n: nat)
    requires COMMA !in head && head != [] && n < AX25_MAX_REPEATERS
    requires ParseAddr(head).Success? && ParseHops(right, n + 1).Success?
    ensures ParseHops(head + [COMMA] + right, n)
         == Success([ParseAddr(head).value] + ParseHops(right, n + 1).value)
  {
    Cut(head, COMMA, right);
  }

  lemma FormattedHop(a: Addr)
    requires GoodAddr(a)
    ensures COMMA !in FormatAddr(a) && GT !in FormatAddr(a) && FormatAddr(a) != []
    ensures ParseAddr(FormatAddr(a)) == Success(UpperAddr(a))
  {
    FormatAddrChars(a);
    ParseFormatAddr(a);
  }

  lemma Regroup(a: seq<byte>, b: seq<byte>, c: seq<byte>, d: seq<byte>)
    ensures a + (b + c + d) == a + b + (c + d)
  {
  }

  lemma {:induction false} HopsRoundTrip(a: Addr, more: seq<Addr>, n: nat)
    requires GoodAddr(a) && AllGood(more) && n + 1 + |more| <= AX25_MAX_REPEATERS
    ensures ParseHops(FormatAddr(a) + PathText(more), n) == Success([UpperAddr(a)] + UpperPath(more))
    decreases |more|
  {
    if more == [] {
      HopsOne(a, n);
    } else {
      HopsRoundTrip(more[0], more[1..], n + 1);
      HopsPrepend(a, more, n);
    }
  }

  lemma HopsOne(a: Addr, n: nat)
    requires GoodAddr(a) && n < AX25_MAX_REPEATERS
    ensures ParseHops(FormatAddr(a) + PathText([]), n) == Success([UpperAddr(a)] + UpperPath([]))
  {
    FormattedHop(a);
    assert FormatAddr(a) + PathText([]) == FormatAddr(a);
    HopsLast(FormatAddr(a), n);
    assert [UpperAddr(a)] + UpperPath([]) == [UpperAddr(a)];
  }

  lemma HopsPrepend(a: Addr, more: seq<Addr>, n: nat)
    requires GoodAddr(a) && AllGood(more) && more != [] && n < AX25_MAX_REPEATERS
    requires ParseHops(FormatAddr(more[0]) + PathText(more[1..]), n + 1) == Success(UpperPath(more))
    ensures ParseHops(FormatAddr(a) + PathText(more), n) == Success([UpperAddr(a)] + UpperPath(more))
  {
    FormattedHop(a);
    HopsMore(FormatAddr(a), FormatAddr(more[0]) + PathText(more[1..]), n);
    Regroup(FormatAddr(a), [COMMA], FormatAddr(more[0]), PathText(more[1..]));
  }

  lemma DestRoundTrip(f: Frame)
    requires GoodFrame(f)
    ensures ParsePath(FormatAddr(Plain(f.dst)) + PathText(f.path))
         == Success(Dest(UpperAddr(Plain(f.dst)), UpperPath(f.path)))
  {
    var head := FormatAddr(Plain(f.dst));
    FormattedHop(Plain(f.dst));
    if f.path == [] {
      assert head + PathText(f.path) == head;
      IndexOfUnique(head, COMMA, |head|);
      assert head[..|head|] == head;
    } else {
      var right := FormatAddr(f.path[0]) + PathText(f.path[1..]);
      HopsRoundTrip(f.path[0], f.path[1..], 0);
      DestMore(head, right);
      Regroup(head, [COMMA], FormatAddr(f.path[0]), PathText(f.path[1..]));
    }
  }

  lemma DestMore(head: seq<byte>, right: seq<byte>)
    requires COMMA !in head && right != []
    requires ParseAddr(head).Success? && ParseHops(right, 0).Success?
    ensures ParsePath(head + [COMMA] + right)
         == Success(Dest(ParseAddr(head).value, ParseHops(right, 0).value))
  {
    Cut(head, COMMA, right);
  }

  lemma StripNothing(s: seq<byte>)
    requires s != [] ==> !IsEol(s[|s| - 1])
    ensures StripEol(s) == s
  {
  }

  /** A line put together from its three parts is taken apart again. */
  lemma SplitJoined(p: Parts)
    requires GT !in p.src && p.src != [] && COLON !in p.dest
    requires |p.payload| <= AX25_MAX_PAYLOAD
    ensures SplitLine(p.src + [GT] + (p.dest + [COLON] + p.payload)) == Success(p)
  {
    var tail := p.dest + [COLON] + p.payload;
    Cut(p.src, GT, tail);
    Cut(p.dest, COLON, p.payload);
  }

  lemma LineParts(f: Frame)
    requires GoodFrame(f)
    ensures LineText(f) == FormatAddr(Plain(f.src)) + [GT]
                           + (FormatAddr(Plain(f.dst)) + PathText(f.path) + [COLON] + OneLine(f.payload))
    ensures COLON !in FormatAddr(Plain(f.dst)) + PathText(f.path)
  {
    FormatAddrChars(Plain(f.dst));
    PathChars(f.path);
  }

  lemma EndsPlain(f: Frame)
    requires GoodFrame(f)
    ensures var line := LineText(f); line != [] && !IsEol(line[|line| - 1])
  {
    var line := LineText(f);
    if f.payload == [] {
      assert line[|line| - 1] == COLON;
    } else {
      assert line[|line| - 1] == OneLine(f.payload)[|f.payload| - 1];
    }
  }

  /** Every formatted line parses to the normal form of the frame: upper-case callsigns, no star on
      destination and source, the payload on one line. */
  lemma ParseFormat(f: Frame)
    requires GoodFrame(f) && NUL !in f.payload
    ensures Format(f) == Success(LineText(f))
    ensures Parse(LineText(f)) == Success(Norm(f))
  {
    var src := FormatAddr(Plain(f.src));
    var dest := FormatAddr(Plain(f.dst)) + PathText(f.path);
    GoodFits(f.path);
    LineSize(f);
    FormattedHop(Plain(f.src));
    DestRoundTrip(f);
    LineParts(f);
    SplitJoined(Parts(src, dest, OneLine(f.payload)));
    EndsPlain(f);
    StripNothing(LineText(f));
  }

  lemma LineNoNul(f: Frame)
    requires GoodFrame(f) && NUL !in f.payload
    ensures NUL !in LineText(f)
  {
    HeadChars(f);
    assert forall i :: 0 <= i < |f.payload| ==> OneLine(f.payload)[i] != NUL by {
      assert forall i :: 0 <= i < |f.payload| ==> f.payload[i] in f.payload;
    }
  }

  /** The characters before the payload. */
  predicate IsHeadChar(c: byte) {
    IsAddrChar(c) || c == COMMA || c == GT || c == COLON
  }

  lemma HeadChars(f: Frame)
    requires GoodFrame(f)
    ensures forall i :: 0 <= i < |HeadText(f)| ==> IsHeadChar(HeadText(f)[i])
  {
    FormatAddrChars(Plain(f.src));
    FormatAddrChars(Plain(f.dst));
    PathChars(f.path);
  }

  /** A frame that a line can carry unchanged. */
  predicate Canonical(f: Frame) {
    && GoodFrame(f) && Unstar(f) == f
    && CanonAddr(f.dst) && CanonAddr(f.src) && AllCanon(f.path)
    && NUL !in f.payload
    && forall i :: 0 <= i < |f.payload| ==> !IsEol(f.payload[i])
  }

  lemma NormCanonical(f: Frame)
    requires Canonical(f)
    ensures Norm(f) == f
  {
    assert OneLine(f.payload) == f.payload;
    UpperCanon(f.dst);
    UpperCanon(f.src);
    UpperPathCanon(f.path);
  }

  /** Parsing inverts formatting on canonical frames. */
  lemma ParseInvertsFormat(f: Frame)
    requires Canonical(f)
    ensures Format(f).Success? && Parse(Format(f).value) == Success(f)
  {
    ParseFormat(f);
    NormCanonical(f);
  }

  lemma PayloadOfText(text: seq<byte>)
    requires NUL !in text && SplitLine(text).Success?
    ensures NUL !in SplitLine(text).value.payload && |SplitLine(text).value.payload| <= AX25_MAX_PAYLOAD
  {
    var tail := text[IndexOf(text, GT) + 1..];
    assert forall c :: c in tail ==> c in text;
    assert forall c :: c in SplitLine(text).value.payload ==> c in tail;
  }

  lemma ParsedGood(line: seq<byte>)
    requires NUL !in line
    requires Parse(line).Success?
    ensures var f := Parse(line).value;
            && GoodFrame(f) && Unstar(f) == f && NUL !in f.payload
            && CanonAddr(f.dst) && CanonAddr(f.src) && AllCanon(f.path)
  {
    assert forall c :: c in StripEol(line) ==> c in line;
    PayloadOfText(StripEol(line));
  }

  /** A parsed frame reformats to a line that parses to the same frame exactly when its payload has
      no interior CR or LF; the reformatted line is then a fixed point. */
  lemma FormatAfterParse(line: seq<byte>)
    requires NUL !in line
    requires Parse(line).Success?
    ensures var f := Parse(line).value;
            && Format(f).Success?
            && Parse(Format(f).value) == Success(Norm(f))
            && (Norm(f) == f <==> forall i :: 0 <= i < |f.payload| ==> !IsEol(f.payload[i]))
            && Format(Norm(f)) == Format(f)
  {
    var f := Parse(line).value;
    ParsedGood(line);
    ParseFormat(f);
    NormOfParsed(f);
    ParseFormat(Norm(f));
  }

  lemma NormOfParsed(f: Frame)
    requires GoodFrame(f) && Unstar(f) == f && NUL !in f.payload
    requires CanonAddr(f.dst) && CanonAddr(f.src) && AllCanon(f.path)
    ensures Norm(f) == f.(payload := OneLine(f.payload)) && GoodFrame(Norm(f)) && NUL !in Norm(f).payload
    ensures LineText(Norm(f)) == LineText(f)
    ensures Norm(f) == f <==> forall i :: 0 <= i < |f.payload| ==> !IsEol(f.payload[i])
  {
    UpperCanon(f.dst);
    UpperCanon(f.src);
    UpperPathCanon(f.path);
    assert OneLine(OneLine(f.payload)) == OneLine(f.payload);
    if i :| 0 <= i < |f.payload| && IsEol(f.payload[i]) {
      assert Norm(f).payload[i] == SPACE;
    } else {
      assert OneLine(f.payload) == f.payload;
    }
  }

  // ---------- the accepted lines, by their characters ----------

  /** Some texts with commas between them, and possibly one more comma. */
  function Listed(hops: seq<seq<byte>>, comma: bool): seq<byte>
    requires hops != []
  {
    if |hops| == 1 then hops[0] + (if comma then [44] else []) else hops[0] + [44] + Listed(hops[1..], comma)
  }

  /** Each of the texts is that of an address. */
  ghost predicate Spell(hops: seq<seq<byte>>, path: seq<Addr>) {
    |hops| == |path| > 0 && forall k :: 0 <= k < |hops| ==> ParseAddr(hops[k]) == Success(path[k])
  }

  ghost predicate HopsSpelled(t: seq<byte>, hops: seq<seq<byte>>, comma: bool, path: seq<Addr>) {
    Spell(hops, path) && t == Listed(hops, comma)
  }

  /** A destination, and possibly a comma and hops. */
  ghost predicate DestSpelled(t: seq<byte>, dst: seq<byte>, hops: seq<seq<byte>>, comma: bool, d: Dest) {
    && ParseAddr(dst) == Success(d.dst) && |d.path| <= 8
    && if d.path == [] then t == dst
       else exists right :: t == dst + [44] + right && HopsSpelled(right, hops, comma, d.path)
  }

  /** A source, '>', a destination with its hops, ':' and at most 256 characters of payload. */
  ghost predicate LineSpelled(text: seq<byte>, src: seq<byte>, dest: seq<byte>, dst: seq<byte>, hops: seq<seq<byte>>,
                              comma: bool, f: Frame) {
    && text == src + [62] + (dest + [58] + f.payload) && |f.payload| <= 256
    && (exists a :: ParseAddr(src) == Success(a) && f.src == a.(repeated := false))
    && (exists a :: DestSpelled(dest, dst, hops, comma, Dest(a, f.path)) && f.dst == a.(repeated := false))
  }

  ghost predicate IsLine(text: seq<byte>, f: Frame) {
    exists src, dest, dst, hops, comma :: LineSpelled(text, src, dest, dst, hops, comma, f)
  }

  lemma SpelledChars(t: seq<byte>)
    requires ParseAddr(t).Success?
    ensures t != [] && 44 !in t && 58 !in t && 62 !in t
  {
    var body, call, digits := ParsedSpelled(t);
    NamedChars(body, call, digits, ParseAddr(t).value);
  }

  lemma NumberChars(digits: seq<byte>, n: nat)
    requires Number(digits, n)
    ensures 44 !in digits && 58 !in digits && 62 !in digits
  {
    var z: nat :| n <= 15 && ZerosThen(digits, z, n);
    NumberValue(digits, z, n);
  }

  lemma NamedChars(body: seq<byte>, call: seq<byte>, digits: Option<seq<byte>>, a: Addr)
    requires Named(body, call, digits, a)
    ensures body != [] && 44 !in body && 58 !in body && 62 !in body
  {
    if digits.Some? {
      NumberChars(digits.value, a.ssid);
    }
  }

  lemma HopsCons(h: seq<byte>, more: seq<seq<byte>>, comma: bool, a: Addr, path: seq<Addr>)
    requires ParseAddr(h) == Success(a) && Spell(more, path)
    ensures HopsSpelled(h + [44] + Listed(more, comma), [h] + more, comma, [a] + path)
  {
    assert ([h] + more)[1..] == more;
  }

  lemma {:induction false} HopsForward(hops: seq<seq<byte>>, comma: bool, path: seq<Addr>, n: nat)
    requires Spell(hops, path) && n + |path| <= AX25_MAX_REPEATERS
    ensures ParseHops(Listed(hops, comma), n) == Success(path)
    decreases |hops|
  {
    if |hops| == 1 {
      OneHop(Listed(hops, comma), hops[0], comma, path, n);
    } else {
      var t, right := Listed(hops, comma), Listed(hops[1..], comma);
      HopsForward(hops[1..], comma, path[1..], n + 1);
      assert t == hops[0] + [44] + right;
      NextHop(t, hops[0], right, path, n);
    }
  }

  lemma NextHop(t: seq<byte>, h: seq<byte>, right: seq<byte>, path: seq<Addr>, n: nat)
    requires t == h + [44] + right && n < AX25_MAX_REPEATERS && path != []
    requires ParseAddr(h) == Success(path[0]) && ParseHops(right, n + 1) == Success(path[1..])
    ensures ParseHops(t, n) == Success(path)
  {
    SpelledChars(h);
    HopsMore(h, right, n);
    assert path == [path[0]] + path[1..];
  }

  lemma OneHop(t: seq<byte>, h: seq<byte>, comma: bool, path: seq<Addr>, n: nat)
    requires |path| == 1 && ParseAddr(h) == Success(path[0]) && n < AX25_MAX_REPEATERS
    requires t == h + (if comma then [44] else [])
    ensures ParseHops(t, n) == Success(path)
  {
    var a := path[0];
    assert path == [a];
    SpelledChars(h);
    if comma {
      assert t == h + [COMMA] + [];
      HopsMore(h, [], n);
      assert [a] + [] == [a];
    } else {
      assert t == h;
      HopsLast(h, n);
    }
  }

  lemma OneSpelled(h: seq<byte>, comma: bool, a: Addr)
    requires ParseAddr(h) == Success(a)
    ensures HopsSpelled(h + (if comma then [44] else []), [h], comma, [a])
  {
  }

  lemma {:induction false} HopsBackward(t: seq<byte>, n: nat) returns (hops: seq<seq<byte>>, comma: bool)
    requires n <= AX25_MAX_REPEATERS && t != [] && ParseHops(t, n).Success?
    ensures HopsSpelled(t, hops, comma, ParseHops(t, n).value)
    decreases |t|
  {
    var h, right := HopsRead(t, n);
    var a := ParseAddr(h).value;
    hops, comma := [h], h != t;
    if right == [] {
      OneSpelled(h, comma, a);
    } else {
      hops, comma := HopsBackward(right, n + 1);
      HopsCons(h, hops, comma, a, ParseHops(right, n + 1).value);
      hops := [h] + hops;
    }
  }

  /** What the parser does about the next hop. */
  lemma HopsRead(t: seq<byte>, n: nat) returns (h: seq<byte>, right: seq<byte>)
    requires n <= AX25_MAX_REPEATERS && t != [] && ParseHops(t, n).Success?
    ensures ParseAddr(h).Success? && |right| < |t| && n < AX25_MAX_REPEATERS
    ensures if right == [] then
              ParseHops(t, n) == Success([ParseAddr(h).value]) && t == h + (if h != t then [44] else [])
            else
              && t == h + [44] + right && ParseHops(right, n + 1).Success?
              && ParseHops(t, n) == Success([ParseAddr(h).value] + ParseHops(right, n + 1).value)
  {
    var c := IndexOf(t, COMMA);
    h, right := t[..c], [];
    if c < |t| {
      right := t[c + 1..];
      assert t == h + [44] + right;
      if right == [] {
        assert t == h + [44];
        assert [ParseAddr(h).value] + [] == [ParseAddr(h).value];
      }
    } else {
      assert t == h + [];
    }
  }

  lemma DestForward(t: seq<byte>, dst: seq<byte>, hops: seq<seq<byte>>, comma: bool, d: Dest)
    requires DestSpelled(t, dst, hops, comma, d)
    ensures ParsePath(t) == Success(d)
  {
    SpelledChars(dst);
    if d.path == [] {
      IndexOfUnique(dst, COMMA, |dst|);
      assert dst[..|dst|] == dst;
    } else {
      var right :| t == dst + [44] + right && HopsSpelled(right, hops, comma, d.path);
      HopsForward(hops, comma, d.path, 0);
      SpelledChars(hops[0]);
      DestMore(dst, right);
    }
  }

  lemma DestWith(t: seq<byte>, dst: seq<byte>, right: seq<byte>, hops: seq<seq<byte>>, comma: bool, d: Dest)
    requires ParseAddr(dst) == Success(d.dst) && |d.path| <= 8
    requires t == dst + [44] + right && HopsSpelled(right, hops, comma, d.path)
    ensures DestSpelled(t, dst, hops, comma, d)
  {
  }

  /** What the parser does about the destination. */
  lemma DestRead(t: seq<byte>) returns (dst: seq<byte>, right: seq<byte>)
    requires ParsePath(t).Success?
    ensures var d := ParsePath(t).value;
            && ParseAddr(dst) == Success(d.dst) && |d.path| <= 8
            && if right == [] then t == dst && d.path == []
               else t == dst + [44] + right && ParseHops(right, 0) == Success(d.path)
  {
    var c := IndexOf(t, COMMA);
    dst, right := t[..c], [];
    if c == |t| {
      assert t == dst;
    } else {
      right := t[c + 1..];
      assert t == dst + [44] + right;
    }
  }

  lemma DestBackward(t: seq<byte>) returns (dst: seq<byte>, hops: seq<seq<byte>>, comma: bool)
    requires ParsePath(t).Success?
    ensures DestSpelled(t, dst, hops, comma, ParsePath(t).value)
  {
    var right;
    dst, right := DestRead(t);
    hops, comma := [], false;
    if right != [] {
      hops, comma := HopsBackward(right, 0);
      DestWith(t, dst, right, hops, comma, ParsePath(t).value);
    }
  }

  lemma LineForward(text: seq<byte>, src: seq<byte>, dest: seq<byte>, dst: seq<byte>, hops: seq<seq<byte>>,
                    comma: bool, f: Frame)
    requires LineSpelled(text, src, dest, dst, hops, comma, f)
    ensures ParseText(text) == Success(f)
  {
    var a :| DestSpelled(dest, dst, hops, comma, Dest(a, f.path)) && f.dst == a.(repeated := false);
    SpelledChars(src);
    DestForward(dest, dst, hops, comma, Dest(a, f.path));
    DestChars(dest, dst, hops, comma, Dest(a, f.path));
    SplitJoined(Parts(src, dest, f.payload));
  }

  lemma {:induction false} HopsChars(hops: seq<seq<byte>>, comma: bool, path: seq<Addr>)
    requires Spell(hops, path)
    ensures 58 !in Listed(hops, comma)
    decreases |hops|
  {
    SpelledChars(hops[0]);
    if |hops| > 1 {
      HopsChars(hops[1..], comma, path[1..]);
    }
  }

  lemma DestChars(t: seq<byte>, dst: seq<byte>, hops: seq<seq<byte>>, comma: bool, d: Dest)
    requires DestSpelled(t, dst, hops, comma, d)
    ensures 58 !in t
  {
    SpelledChars(dst);
    if d.path != [] {
      var right :| t == dst + [44] + right && HopsSpelled(right, hops, comma, d.path);
      HopsChars(hops, comma, d.path);
    }
  }

  lemma LineBackward(text: seq<byte>)
    requires ParseText(text).Success?
    ensures IsLine(text, ParseText(text).value)
  {
    var p, f := SplitLine(text).value, ParseText(text).value;
    LineJoined(text);
    var dst, hops, comma := DestBackward(p.dest);
    var d := ParsePath(p.dest).value;
    assert DestSpelled(p.dest, dst, hops, comma, Dest(d.dst, f.path));
    assert LineSpelled(text, p.src, p.dest, dst, hops, comma, f);
  }

  lemma LineJoined(text: seq<byte>)
    requires SplitLine(text).Success?
    ensures var p := SplitLine(text).value;
            text == p.src + [62] + (p.dest + [58] + p.payload) && |p.payload| <= 256
  {
    var gt := IndexOf(text, GT);
    var tail := text[gt + 1..];
    assert text == text[..gt] + [62] + tail;
    var sep := IndexOf(tail, COLON);
    assert tail == tail[..sep] + [58] + tail[sep + 1..];
  }

  /** Accepted are exactly the lines of at most 511 characters that are, without their trailing CRs and LFs, a
      source, '>', a destination, at most 8 hops, ':' and a payload of at most 256 characters; stars on source and
      destination are dropped, and one comma may follow the last hop. */
  lemma AcceptedLines(line: seq<byte>, f: Frame)
    ensures Parse(line) == Success(f) <==> |line| <= 511 && IsLine(StripEol(line), f)
  {
    var text := StripEol(line);
    if ParseText(text).Success? {
      LineBackward(text);
    }
    if IsLine(text, f) {
      var src, dest, dst, hops, comma :| LineSpelled(text, src, dest, dst, hops, comma, f);
      LineForward(text, src, dest, dst, hops, comma, f);
    }
  }
}
