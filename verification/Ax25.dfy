/** AX.25 UI frames (ax25.c): callsign text, the shifted address octets of AX.25 v2.2
    section 3.12, and the UI frame codec. */
module Ax25 {
  import opened Common

  const ADDR_LEN: nat := 7
  const CTRL_UI: byte := 0x03
  const PID_NONE: byte := 0xF0
  const STAR: byte := 42
  const DASH: byte := 45

  /** `call` is the C string in the source's char[7]. */
  datatype Addr = Addr(call: seq<byte>, ssid: byte, repeated: bool)

  datatype Frame = Frame(dst: Addr, src: Addr, path: seq<Addr>, payload: seq<byte>)

  predicate IsDigit(c: byte) { 48 <= c <= 57 }
  predicate IsUpper(c: byte) { 65 <= c <= 90 }
  predicate IsLower(c: byte) { 97 <= c <= 122 }
  predicate IsAlnum(c: byte) { IsDigit(c) || IsUpper(c) || IsLower(c) }

  function ToUpper(c: byte): byte {
    if IsLower(c) then c - 32 else c
  }

  /** Characters that survive ToUpper and are legal in a callsign. */
  predicate IsCallChar(c: byte) { IsDigit(c) || IsUpper(c) }

  predicate AllAlnum(s: seq<byte>) {
    forall i :: 0 <= i < |s| ==> IsAlnum(s[i])
  }

  function UpperAll(s: seq<byte>): (r: seq<byte>)
    ensures |r| == |s|
    ensures forall i :: 0 <= i < |s| ==> r[i] == ToUpper(s[i])
  {
    seq(|s|, i requires 0 <= i < |s| => ToUpper(s[i]))
  }

  /** An address as a conforming TNC writes it: digits and capitals only. */
  predicate CanonAddr(a: Addr) {
    GoodAddr(a) && forall i :: 0 <= i < |a.call| ==> IsCallChar(a.call[i])
  }

  predicate AllCanon(path: seq<Addr>)
    ensures AllCanon(path) ==> AllGood(path)
  {
    path == [] || (CanonAddr(path[0]) && AllCanon(path[1..]))
  }

  /** What the encoder insists on. */
  predicate Encodable(a: Addr) { a.call != [] && a.ssid <= 15 }

  predicate AllEncodable(path: seq<Addr>)
  {
    path == [] || (Encodable(path[0]) && AllEncodable(path[1..]))
  }

  predicate AllGood(path: seq<Addr>)
    ensures AllGood(path) ==> AllEncodable(path)
  {
    path == [] || (GoodAddr(path[0]) && AllGood(path[1..]))
  }

  /** An address that both codecs can carry: 1 to 6 alphanumerics and a 4-bit SSID. */
  predicate GoodAddr(a: Addr)
    ensures GoodAddr(a) ==> Encodable(a)
  {
    1 <= |a.call| <= 6 && AllAlnum(a.call) && a.ssid <= 15
  }

  predicate GoodFrame(f: Frame) {
    && GoodAddr(f.dst) && GoodAddr(f.src)
    && |f.path| <= AX25_MAX_REPEATERS
    && AllGood(f.path)
    && |f.payload| <= AX25_MAX_PAYLOAD
  }

  /** dst/src carry no has-been-repeated flag. */
  function Unstar(f: Frame): Frame {
    f.(dst := f.dst.(repeated := false), src := f.src.(repeated := false))
  }

  // ---------- one address: octets ----------

  /** The SSID octet: bit 7, two reserved ones, the SSID, the extension bit. */
  function SsidOctet(bit7: bool, ssid: byte, last: bool): byte {
    (if bit7 then 128 else 0) + 96 + 2 * (ssid % 16) + (if last then 1 else 0)
  }

  /** A callsign character as it is shifted into its octet (8-bit wrap-around included). */
  function CallOctet(call: seq<byte>, i: nat): byte {
    var c := if i < |call| then call[i] else SPACE;
    (2 * c) % 256
  }

  function AddrOctet(a: Addr, last: bool, bit7: bool, i: nat): byte {
    if i < 6 then CallOctet(a.call, i) else SsidOctet(bit7, a.ssid, last)
  }

  function EncodeAddr(a: Addr, last: bool, bit7: bool): (r: seq<byte>)
    ensures |r| == ADDR_LEN
  {
    seq(ADDR_LEN, i requires 0 <= i => AddrOctet(a, last, bit7, i))
  }

  /** How many leading characters are alphanumeric. */
  function AlnumPrefix(s: seq<byte>): (n: nat)
    ensures n <= |s|
    ensures AllAlnum(s[..n])
    ensures n < |s| ==> !IsAlnum(s[n])
  {
    if s == [] || !IsAlnum(s[0]) then 0
    else
      var n := 1 + AlnumPrefix(s[1..]);
      assert forall i :: 1 <= i < n ==> s[i] == s[1..][i - 1];
      n
  }

  predicate AllSpaces(s: seq<byte>) {
    forall i :: 0 <= i < |s| ==> s[i] == SPACE
  }

  /** The six callsign characters of an address, shifted back. */
  function Chars(o: seq<byte>): (r: seq<byte>)
    requires |o| == ADDR_LEN
    ensures |r| == 6
    ensures forall i :: 0 <= i < 6 ==> r[i] == o[i] / 2
  {
    seq(6, i requires 0 <= i < 6 => o[i] / 2)
  }

  /** The callsign field of an address: at least one alphanumeric, then only padding. */
  function DecodeAddr(o: seq<byte>, isPath: bool): Result<Addr>
    requires |o| == ADDR_LEN
  {
    var chars := Chars(o);
    var n := AlnumPrefix(chars);
    if n == 0 || !AllSpaces(chars[n..]) then Failure(ErrFormat)
    else Success(Addr(chars[..n], (o[6] / 2) % 16, isPath && o[6] >= 128))
  }

  predicate IsLast(o: seq<byte>)
    requires |o| == ADDR_LEN
  {
    o[6] % 2 == 1
  }

  // ---------- frames ----------

  function EncodePath(path: seq<Addr>): (r: seq<byte>)
    ensures |r| == ADDR_LEN * |path|
  {
    if path == [] then []
    else EncodeAddr(path[0], |path| == 1, path[0].repeated) + EncodePath(path[1..])
  }

  predicate EncodableFrame(f: Frame) {
    Encodable(f.dst) && Encodable(f.src) && AllEncodable(f.path)
  }

  function AddrOctets(f: Frame): (r: seq<byte>)
    ensures |r| == ADDR_LEN * (2 + |f.path|)
  {
    EncodeAddr(f.dst, false, true) + EncodeAddr(f.src, f.path == [], false) + EncodePath(f.path)
  }

  function EncodedSize(f: Frame): nat {
    ADDR_LEN * (2 + |f.path|) + 2 + |f.payload|
  }

  /** A UI command frame: dst has C=1, src has C=0, path entries carry their repeated bit. */
  function EncodeUi(f: Frame): (r: seq<byte>)
    ensures |r| == EncodedSize(f)
  {
    AddrOctets(f) + [CTRL_UI, PID_NONE] + f.payload
  }

  /** The address list of a frame: addresses up to and including the one marked last. */
  datatype Header = Header(addrs: seq<Addr>, last: bool)

  function DecodeHeader(data: seq<byte>, n: nat): (r: Result<Header>)
    requires n <= AX25_MAX_ADDRS
    ensures r.Success? ==> ADDR_LEN * |r.value.addrs| <= |data| && n + |r.value.addrs| <= AX25_MAX_ADDRS
    ensures r.Failure? ==> r.code == ErrFormat
    decreases AX25_MAX_ADDRS - n
  {
    if |data| < ADDR_LEN || n == AX25_MAX_ADDRS then Success(Header([], false))
    else
      var a := DecodeAddr(data[..ADDR_LEN], n >= 2);
      if a.Failure? then Failure(ErrFormat)
      else if IsLast(data[..ADDR_LEN]) then Success(Header([a.value], true))
      else
        var rest := DecodeHeader(data[ADDR_LEN..], n + 1);
        if rest.Failure? then rest
        else Success(Header([a.value] + rest.value.addrs, rest.value.last))
  }

  function DecodeUi(data: seq<byte>): (r: Result<Frame>) {
    var h := DecodeHeader(data, 0);
    if h.Failure? then Failure(h.code) else DecodeRest(data, h.value)
  }

  /** What follows the address field. */
  function DecodeRest(data: seq<byte>, h: Header): Result<Frame> {
    var n := |h.addrs|;
    var pos := ADDR_LEN * n;
    if !h.last || n < 2 then Failure(ErrFormat)
    else if pos + 2 > |data| then Failure(ErrShort)
    else if data[pos] != CTRL_UI || data[pos + 1] != PID_NONE then Failure(ErrUnsupported)
    else if |data| - (pos + 2) > AX25_MAX_PAYLOAD then Failure(ErrLong)
    else Success(Frame(h.addrs[0], h.addrs[1], h.addrs[2..], data[pos + 2..]))
  }

  // ---------- the source's loops ----------

  /** ax25_encode_addr at position `pos` of the output buffer. */
  method PutAddr(a: Addr, last: bool, bit7: bool, out: array<byte>, pos: nat) returns (code: Code)
    requires pos + ADDR_LEN <= out.Length
    modifies out
    ensures code == if Encodable(a) then Ok else ErrFormat
    ensures code == Ok ==> out[..pos + ADDR_LEN] == old(out[..pos]) + EncodeAddr(a, last, bit7)
  {
    if a.call == [] || a.ssid > 15 {
      return ErrFormat;
    }
    ghost var before := out[..pos];
    ghost var o := EncodeAddr(a, last, bit7);
    var i := 0;
    while i < 6
      invariant 0 <= i <= 6
      invariant out[..pos + i] == before + o[..i]
    {
      out[pos + i] := CallOctet(a.call, i);
      assert o[..i + 1] == o[..i] + [CallOctet(a.call, i)];
      i := i + 1;
    }
    out[pos + 6] := SsidOctet(bit7, a.ssid, last);
    assert o == o[..6] + [SsidOctet(bit7, a.ssid, last)];
    return Ok;
  }

  /** The path loop of ax25_encode_ui. */
  method PutPath(path: seq<Addr>, out: array<byte>, start: nat) returns (code: Code)
    requires start + ADDR_LEN * |path| <= out.Length
    modifies out
    ensures code == if AllEncodable(path) then Ok else ErrFormat
    ensures code == Ok ==> out[..start + ADDR_LEN * |path|] == old(out[..start]) + EncodePath(path)
  {
    ghost var before, done := out[..start], [];
    var i := 0;
    while i < |path|
      invariant 0 <= i <= |path|
      invariant AllEncodable(path) == AllEncodable(path[i..])
      invariant |done| == ADDR_LEN * i && done + EncodePath(path[i..]) == EncodePath(path)
      invariant out[..start + ADDR_LEN * i] == before + done
    {
      PathNext(path, i);
      var last := i + 1 == |path|;
      code := PutAddr(path[i], last, path[i].repeated, out, start + ADDR_LEN * i);
      if code != Ok {
        return;
      }
      ghost var o := EncodeAddr(path[i], last, path[i].repeated);
      assert (done + o) + EncodePath(path[i + 1..]) == done + (o + EncodePath(path[i + 1..]));
      assert (before + done) + o == before + (done + o);
      done := done + o;
      i := i + 1;
    }
    assert done + [] == done;
    code := Ok;
  }

  lemma PathNext(path: seq<Addr>, i: nat)
    requires i < |path|
    ensures AllEncodable(path[i..]) == (Encodable(path[i]) && AllEncodable(path[i + 1..]))
    ensures EncodePath(path[i..])
         == EncodeAddr(path[i], i + 1 == |path|, path[i].repeated) + EncodePath(path[i + 1..])
  {
    assert path[i..][1..] == path[i + 1..];
  }

  /** The result code of ax25_encode_ui for an output buffer of `size` bytes. */
  function EncodeCode(f: Frame, size: nat): Code {
    if |f.path| > AX25_MAX_REPEATERS || |f.payload| > AX25_MAX_PAYLOAD then ErrLong
    else if size < EncodedSize(f) then ErrNoSpace
    else if !EncodableFrame(f) then ErrFormat
    else Ok
  }

  /** ax25_encode_ui. Its own limit of 384 bytes per frame is implied by the other two. */
  method EncodeUiInto(f: Frame, out: array<byte>) returns (code: Code, len: nat)
    modifies out
    ensures code == EncodeCode(f, out.Length)
    ensures code == Ok ==> len == EncodedSize(f) <= AX25_MAX_FRAME && out[..len] == EncodeUi(f)
    ensures code != Ok ==> len == 0
  {
    len := 0;
    if |f.path| > AX25_MAX_REPEATERS || |f.payload| > AX25_MAX_PAYLOAD {
      return ErrLong, 0;
    }
    if out.Length < EncodedSize(f) {
      return ErrNoSpace, 0;
    }
    code := PutAddr(f.dst, false, true, out, 0);
    if code != Ok {
      return code, 0;
    }
    code := PutAddr(f.src, f.path == [], false, out, ADDR_LEN);
    if code != Ok {
      return code, 0;
    }
    code := PutPath(f.path, out, 2 * ADDR_LEN);
    if code != Ok {
      return code, 0;
    }
    var pos := 2 * ADDR_LEN + ADDR_LEN * |f.path|;
    assert out[..pos] == AddrOctets(f);
    PutTail(f.payload, out, pos);
    return Ok, EncodedSize(f);
  }

  method PutTail(payload: seq<byte>, out: array<byte>, pos: nat)
    requires pos + 2 + |payload| <= out.Length
    modifies out
    ensures out[..pos + 2 + |payload|] == old(out[..pos]) + [CTRL_UI, PID_NONE] + payload
  {
    ghost var before := out[..pos];
    out[pos], out[pos + 1] := CTRL_UI, PID_NONE;
    assert out[..pos + 2] == before + [CTRL_UI, PID_NONE];
    var i := 0;
    while i < |payload|
      invariant 0 <= i <= |payload|
      invariant out[..pos + 2 + i] == before + [CTRL_UI, PID_NONE] + payload[..i]
    {
      out[pos + 2 + i] := payload[i];
      assert payload[..i + 1] == payload[..i] + [payload[i]];
      i := i + 1;
    }
    assert payload[..i] == payload;
  }

  /** ax25_decode_addr: shift the characters back, reject anything but alphanumerics and spaces, strip
      the trailing spaces, reject what still contains one. */
  method ReadAddr(o: seq<byte>, isPath: bool) returns (r: Result<Addr>)
    requires |o| == ADDR_LEN
    ensures r == DecodeAddr(o, isPath)
  {
    ghost var chars := Chars(o);
    var call: seq<byte> := [];
    var i := 0;
    while i < 6
      invariant 0 <= i <= 6 && call == chars[..i]
      invariant forall k :: 0 <= k < i ==> chars[k] == SPACE || IsAlnum(chars[k])
    {
      var c := o[i] / 2;
      if c != SPACE && !IsAlnum(c) {
        BadChar(chars, i);
        return Failure(ErrFormat);
      }
      call := call + [c];
      i := i + 1;
    }
    assert call == chars;
    while call != [] && call[|call| - 1] == SPACE
      invariant call <= chars && AllSpaces(chars[|call|..])
    {
      call := call[..|call| - 1];
    }
    assert call == chars[..|call|];
    CallField(chars, |call|);
    if |call| < 1 || SPACE in call {
      return Failure(ErrFormat);
    }
    return Success(Addr(call, (o[6] / 2) % 16, isPath && o[6] >= 128));
  }

  lemma BadChar(chars: seq<byte>, i: nat)
    requires i < |chars| && chars[i] != SPACE && !IsAlnum(chars[i])
    ensures !AllSpaces(chars[AlnumPrefix(chars)..])
  {
    var n := AlnumPrefix(chars);
    assert forall k :: 0 <= k < n ==> chars[k] == chars[..n][k];
    assert chars[n..][i - n] == chars[i];
  }

  /** Stripping trailing spaces finds the callsign exactly when only padding follows the leading
      alphanumerics. */
  lemma CallField(chars: seq<byte>, m: nat)
    requires m <= |chars| && AllSpaces(chars[m..])
    requires m > 0 ==> chars[m - 1] != SPACE
    requires forall k :: 0 <= k < |chars| ==> chars[k] == SPACE || IsAlnum(chars[k])
    ensures var n := AlnumPrefix(chars);
              if m >= 1 && SPACE !in chars[..m] then n == m && AllSpaces(chars[n..])
              else n == 0 || !AllSpaces(chars[n..])
  {
    var n := AlnumPrefix(chars);
    assert forall k :: 0 <= k < n ==> chars[k] == chars[..n][k];
    assert forall k :: m <= k < |chars| ==> chars[k] == chars[m..][k - m];
    assert forall k :: 0 <= k < m ==> chars[k] == chars[..m][k];
    if m >= 1 && SPACE !in chars[..m] {
      assert forall k :: 0 <= k < m ==> chars[k] in chars[..m];
      PrefixUnique(chars, m);
    } else if m >= 1 {
      assert n < |chars| ==> chars[n] == SPACE;
      assert n < m;
      assert chars[n..][m - 1 - n] == chars[m - 1];
    }
  }

  /** One address of the list, and whether it is the last. */
  method ReadNext(rest: seq<byte>, n: nat) returns (a: Result<Addr>, last: bool)
    requires ADDR_LEN <= |rest| && n < AX25_MAX_ADDRS
    ensures DecodeHeader(rest, n) ==
            if a.Failure? then Failure(a.code)
            else After([a.value], Pending(rest[ADDR_LEN..], n + 1, last))
  {
    var o := rest[..ADDR_LEN];
    a := ReadAddr(o, n >= 2);
    last := IsLast(o);
    assert a.Success? ==> [a.value] + [] == [a.value];
  }

  /** The address loop of ax25_decode_ui; `rest` is the source's `data + pos`. */
  method ReadHeader(data: seq<byte>) returns (r: Result<Header>)
    ensures r == DecodeHeader(data, 0)
  {
    var addrs, rest, last := [], data, false;
    ghost var whole := DecodeHeader(data, 0);
    AfterNone(whole);
    while !last && ADDR_LEN <= |rest| && |addrs| < AX25_MAX_ADDRS
      invariant |addrs| <= AX25_MAX_ADDRS
      invariant whole == After(addrs, Pending(rest, |addrs|, last))
      decreases |rest|
    {
      var a: Result<Addr>;
      a, last := ReadNext(rest, |addrs|);
      if a.Failure? {
        return Failure(a.code);
      }
      AfterMore(addrs, a.value, Pending(rest[ADDR_LEN..], |addrs| + 1, last));
      addrs, rest := addrs + [a.value], rest[ADDR_LEN..];
    }
    AfterAll(addrs, rest, last);
    return Success(Header(addrs, last));
  }

  lemma AfterAll(addrs: seq<Addr>, rest: seq<byte>, last: bool)
    requires |addrs| <= AX25_MAX_ADDRS && (last || |rest| < ADDR_LEN || |addrs| == AX25_MAX_ADDRS)
    ensures After(addrs, Pending(rest, |addrs|, last)) == Success(Header(addrs, last))
  {
    assert addrs + [] == addrs;
  }

  /** ax25_decode_ui. */
  method ReadUi(data: seq<byte>) returns (r: Result<Frame>)
    ensures r == DecodeUi(data)
  {
    var h := ReadHeader(data);
    if h.Failure? {
      return Failure(h.code);
    }
    r := ReadRest(data, h.value);
  }

  method ReadRest(data: seq<byte>, h: Header) returns (r: Result<Frame>)
    ensures r == DecodeRest(data, h)
  {
    var addrs := h.addrs;
    var pos := ADDR_LEN * |addrs|;
    if !h.last || |addrs| < 2 {
      return Failure(ErrFormat);
    }
    if pos + 2 > |data| {
      return Failure(ErrShort);
    }
    if data[pos] != CTRL_UI || data[pos + 1] != PID_NONE {
      return Failure(ErrUnsupported);
    }
    var payload := data[pos + 2..];
    if |payload| > AX25_MAX_PAYLOAD {
      return Failure(ErrLong);
    }
    return Success(Frame(addrs[0], addrs[1], addrs[2..], payload));
  }

  /** A header whose first addresses are already decoded. */
  function After(addrs: seq<Addr>, h: Result<Header>): Result<Header> {
    if h.Failure? then h else Success(Header(addrs + h.value.addrs, h.value.last))
  }

  /** What is still to be decoded: nothing after the last address. */
  function Pending(rest: seq<byte>, n: nat, last: bool): Result<Header>
    requires n <= AX25_MAX_ADDRS
  {
    if last then Success(Header([], true)) else DecodeHeader(rest, n)
  }

  lemma AfterNone(h: Result<Header>)
    ensures After([], h) == h
    ensures h.Success? ==> After(h.value.addrs, Success(Header([], h.value.last))) == h
  {
    if h.Success? {
      assert [] + h.value.addrs == h.value.addrs == h.value.addrs + [];
    }
  }

  lemma AfterMore(addrs: seq<Addr>, a: Addr, h: Result<Header>)
    ensures After(addrs, After([a], h)) == After(addrs + [a], h)
  {
    if h.Success? {
      assert addrs + ([a] + h.value.addrs) == (addrs + [a]) + h.value.addrs;
    }
  }

  // ---------- decode inverts encode ----------

  lemma PrefixUnique(s: seq<byte>, n: nat)
    requires n <= |s| && AllAlnum(s[..n])
    requires n < |s| ==> !IsAlnum(s[n])
    ensures AlnumPrefix(s) == n
  {
    var m := AlnumPrefix(s);
    assert forall i :: 0 <= i < n ==> IsAlnum(s[i]) by {
      assert forall i :: 0 <= i < n ==> s[i] == s[..n][i];
    }
    assert forall i :: 0 <= i < m ==> IsAlnum(s[i]) by {
      assert forall i :: 0 <= i < m ==> s[i] == s[..m][i];
    }
  }

  lemma ShiftBack(c: byte)
    requires c < 128
    ensures ((2 * c) % 256) / 2 == c
  {
  }

  lemma SsidFields(bit7: bool, ssid: byte, last: bool)
    requires ssid <= 15
    ensures var o := SsidOctet(bit7, ssid, last);
            (o / 2) % 16 == ssid && (o >= 128) == bit7 && (o % 2 == 1) == last
  {
  }

  lemma CharsOfEncoded(a: Addr, last: bool, bit7: bool)
    requires GoodAddr(a)
    ensures var chars := Chars(EncodeAddr(a, last, bit7));
            && chars[..|a.call|] == a.call
            && AllSpaces(chars[|a.call|..])
            && AlnumPrefix(chars) == |a.call|
  {
    var o := EncodeAddr(a, last, bit7);
    var chars := Chars(o);
    forall i: nat | i < 6
      ensures chars[i] == if i < |a.call| then a.call[i] else SPACE
    {
      assert o[i] == CallOctet(a.call, i);
      ShiftBack(if i < |a.call| then a.call[i] else SPACE);
    }
    PrefixUnique(chars, |a.call|);
  }

  lemma AddrRoundTrip(a: Addr, last: bool, bit7: bool, isPath: bool)
    requires GoodAddr(a)
    ensures DecodeAddr(EncodeAddr(a, last, bit7), isPath) == Success(a.(repeated := isPath && bit7))
    ensures IsLast(EncodeAddr(a, last, bit7)) == last
  {
    CharsOfEncoded(a, last, bit7);
    SsidFields(bit7, a.ssid, last);
  }

  /** How the header of a frame unfolds when its first address is known. */
  lemma HeaderStep(data: seq<byte>, o: seq<byte>, rest: seq<byte>, n: nat)
    requires |o| == ADDR_LEN && data == o + rest && n < AX25_MAX_ADDRS
    requires DecodeAddr(o, n >= 2).Success?
    ensures var a := DecodeAddr(o, n >= 2).value;
            DecodeHeader(data, n) ==
            if IsLast(o) then Success(Header([a], true))
            else var r := DecodeHeader(rest, n + 1);
                 if r.Failure? then r else Success(Header([a] + r.value.addrs, r.value.last))
  {
    assert data[..ADDR_LEN] == o;
    assert data[ADDR_LEN..] == rest;
  }

  lemma {:induction false} PathRoundTrip(path: seq<Addr>, tail: seq<byte>, n: nat)
    requires 2 <= n && n + |path| <= AX25_MAX_ADDRS && path != []
    requires AllGood(path)
    ensures DecodeHeader(EncodePath(path) + tail, n) == Success(Header(path, true))
    decreases |path|
  {
    if |path| == 1 {
      PathLast(path[0], tail, n);
      assert path == [path[0]];
    } else {
      PathRoundTrip(path[1..], tail, n + 1);
      PathPrepend(path[0], path[1..], tail, n);
      assert path == [path[0]] + path[1..];
    }
  }

  lemma PathLast(a: Addr, tail: seq<byte>, n: nat)
    requires 2 <= n < AX25_MAX_ADDRS && GoodAddr(a)
    ensures DecodeHeader(EncodePath([a]) + tail, n) == Success(Header([a], true))
  {
    var o := EncodeAddr(a, true, a.repeated);
    assert EncodePath([a]) == o + [];
    AddrRoundTrip(a, true, a.repeated, true);
    HeaderStep(EncodePath([a]) + tail, o, tail, n);
  }

  lemma PathPrepend(a: Addr, more: seq<Addr>, tail: seq<byte>, n: nat)
    requires 2 <= n < AX25_MAX_ADDRS && GoodAddr(a) && AllGood(more) && more != []
    requires DecodeHeader(EncodePath(more) + tail, n + 1) == Success(Header(more, true))
    ensures AllGood([a] + more)
    ensures DecodeHeader(EncodePath([a] + more) + tail, n) == Success(Header([a] + more, true))
  {
    var o := EncodeAddr(a, false, a.repeated);
    assert ([a] + more)[1..] == more;
    AddrRoundTrip(a, false, a.repeated, true);
    assert EncodePath([a] + more) + tail == o + (EncodePath(more) + tail);
    HeaderStep(EncodePath([a] + more) + tail, o, EncodePath(more) + tail, n);
  }

  lemma PairOnly(d: seq<byte>, s: seq<byte>, rest: seq<byte>)
    requires |d| == ADDR_LEN == |s| && !IsLast(d) && IsLast(s)
    requires DecodeAddr(d, false).Success? && DecodeAddr(s, false).Success?
    ensures DecodeHeader(d + (s + rest), 0)
         == Success(Header([DecodeAddr(d, false).value] + [DecodeAddr(s, false).value], true))
  {
    HeaderStep(s + rest, s, rest, 1);
    HeaderStep(d + (s + rest), d, s + rest, 0);
  }

  lemma PairThenPath(d: seq<byte>, s: seq<byte>, rest: seq<byte>, path: seq<Addr>)
    requires |d| == ADDR_LEN == |s| && !IsLast(d) && !IsLast(s)
    requires DecodeAddr(d, false).Success? && DecodeAddr(s, false).Success?
    requires DecodeHeader(rest, 2) == Success(Header(path, true))
    ensures DecodeHeader(d + (s + rest), 0)
         == Success(Header([DecodeAddr(d, false).value] + ([DecodeAddr(s, false).value] + path), true))
  {
    HeaderStep(s + rest, s, rest, 1);
    HeaderStep(d + (s + rest), d, s + rest, 0);
  }

  lemma HeaderRoundTrip(f: Frame, tail: seq<byte>)
    requires GoodFrame(f)
    ensures DecodeHeader(AddrOctets(f) + tail, 0)
         == Success(Header([Unstar(f).dst, Unstar(f).src] + f.path, true))
  {
    var d, s := EncodeAddr(f.dst, false, true), EncodeAddr(f.src, f.path == [], false);
    AddrRoundTrip(f.dst, false, true, false);
    AddrRoundTrip(f.src, f.path == [], false, false);
    if f.path == [] {
      PairOnly(d, s, EncodePath(f.path) + tail);
    } else {
      PathRoundTrip(f.path, tail, 2);
      PairThenPath(d, s, EncodePath(f.path) + tail, f.path);
    }
    OctetsGrouped(f, tail);
    PairUp(Unstar(f).dst, Unstar(f).src, f.path);
  }

  lemma PairUp(a: Addr, b: Addr, path: seq<Addr>)
    ensures [a] + ([b] + path) == [a, b] + path
    ensures [a] + [b] == [a, b] + []
  {
  }

  lemma OctetsGrouped(f: Frame, tail: seq<byte>)
    ensures AddrOctets(f) + tail
         == EncodeAddr(f.dst, false, true) + (EncodeAddr(f.src, f.path == [], false) + (EncodePath(f.path) + tail))
  {
  }

  /** Encoding then decoding gives the frame back, with the dst/src repeated flags cleared. */
  lemma DecodeEncode(f: Frame)
    requires GoodFrame(f)
    ensures DecodeUi(EncodeUi(f)) == Success(Unstar(f))
  {
    var tail := [CTRL_UI, PID_NONE] + f.payload;
    assert EncodeUi(f) == AddrOctets(f) + tail;
    HeaderRoundTrip(f, tail);
    var addrs := [Unstar(f).dst, Unstar(f).src] + f.path;
    RestRoundTrip(f, AddrOctets(f), Header(addrs, true));
  }

  lemma RestRoundTrip(f: Frame, octets: seq<byte>, h: Header)
    requires h == Header([Unstar(f).dst, Unstar(f).src] + f.path, true) && |octets| == ADDR_LEN * |h.addrs|
    requires |f.payload| <= AX25_MAX_PAYLOAD
    ensures DecodeRest(octets + ([CTRL_UI, PID_NONE] + f.payload), h) == Success(Unstar(f))
  {
    var data := octets + ([CTRL_UI, PID_NONE] + f.payload);
    assert data[|octets| + 2..] == f.payload;
    assert h.addrs[2..] == f.path;
  }

  // ---------- encode canonicalises what decode accepts ----------

  /** Octet `k` of an address field, received as `b`, as a conforming sender writes it: low bits of callsign
      octets cleared, reserved bits set, C=1 on the destination, C=0 on the source;
      everything else as received. */
  function CanonOctet(b: byte, k: nat): byte {
    if k % ADDR_LEN != 6 then b - b % 2
    else if k < ADDR_LEN then 128 + 96 + b % 32
    else if k < 2 * ADDR_LEN then 96 + b % 32
    else (if b >= 128 then 128 else 0) + 96 + b % 32
  }

  /** `r` is `data` with the first `n` octets made canonical. */
  ghost predicate IsCanon(data: seq<byte>, n: nat, r: seq<byte>) {
    && |r| == |data|
    && forall k :: 0 <= k < |data| ==> r[k] == if k < n then CanonOctet(data[k], k) else data[k]
  }

  lemma CharsCanon(o: seq<byte>, k: nat)
    requires |o| == ADDR_LEN && k < 6
    requires DecodeAddr(o, false).Success?
    ensures CallOctet(DecodeAddr(o, false).value.call, k) == o[k] - o[k] % 2
  {
    var chars := Chars(o);
    var n := AlnumPrefix(chars);
    if k >= n {
      assert chars[k] == chars[n..][k - n];
    }
    assert 2 * (o[k] / 2) == o[k] - o[k] % 2;
  }

  lemma SsidCanon(b: byte, bit7: bool)
    ensures SsidOctet(bit7, (b / 2) % 16, b % 2 == 1) == (if bit7 then 128 else 0) + 96 + b % 32
  {
  }

  lemma OctetPlace(at: nat, k: nat)
    requires k < ADDR_LEN
    ensures (ADDR_LEN * at + k) % ADDR_LEN == k
    ensures ADDR_LEN * at + k < ADDR_LEN <==> at == 0
    ensures ADDR_LEN * at + k < 2 * ADDR_LEN <==> at <= 1
  {
  }

  function Bit7(a: Addr, at: nat): bool {
    at == 0 || a.repeated
  }

  /** One decoded address re-encodes to its canonical octets. `at` is its index in the frame. */
  lemma AddrCanon(o: seq<byte>, at: nat)
    requires |o| == ADDR_LEN
    requires DecodeAddr(o, at >= 2).Success?
    ensures var a := DecodeAddr(o, at >= 2).value;
            && GoodAddr(a)
            && (at < 2 ==> !a.repeated)
            && (forall k :: 0 <= k < ADDR_LEN ==>
                  EncodeAddr(a, IsLast(o), Bit7(a, at))[k] == CanonOctet(o[k], ADDR_LEN * at + k))
  {
    var a := DecodeAddr(o, at >= 2).value;
    var e := EncodeAddr(a, IsLast(o), Bit7(a, at));
    forall k: nat | k < ADDR_LEN
      ensures e[k] == CanonOctet(o[k], ADDR_LEN * at + k)
    {
      OctetPlace(at, k);
      if k < 6 {
        CharsCanon(o, k);
        assert e[k] == CallOctet(a.call, k);
      } else {
        SsidCanon(o[6], Bit7(a, at));
      }
    }
  }

  /** What a decoded address list re-encodes to, from its `at`-th address on. */
  function EncodeFrom(addrs: seq<Addr>, at: nat): (r: seq<byte>)
    ensures |r| == ADDR_LEN * |addrs|
  {
    if addrs == [] then []
    else
      EncodeAddr(addrs[0], |addrs| == 1, Bit7(addrs[0], at))
      + EncodeFrom(addrs[1..], at + 1)
  }

  ghost predicate CanonFrom(data: seq<byte>, at: nat, r: seq<byte>) {
    && |r| <= |data|
    && forall k :: 0 <= k < |r| ==> r[k] == CanonOctet(data[k], ADDR_LEN * at + k)
  }

  lemma CanonFromJoin(data: seq<byte>, at: nat, e: seq<byte>, r: seq<byte>)
    requires |e| == ADDR_LEN <= |data|
    requires CanonFrom(data[..ADDR_LEN], at, e) && CanonFrom(data[ADDR_LEN..], at + 1, r)
    ensures CanonFrom(data, at, e + r)
  {
    forall k | 0 <= k < |e + r|
      ensures (e + r)[k] == CanonOctet(data[k], ADDR_LEN * at + k)
    {
      if k >= ADDR_LEN {
        assert ADDR_LEN * (at + 1) + (k - ADDR_LEN) == ADDR_LEN * at + k;
        assert data[k] == data[ADDR_LEN..][k - ADDR_LEN];
      } else {
        assert data[k] == data[..ADDR_LEN][k];
      }
    }
  }

  ghost predicate GoodList(addrs: seq<Addr>, at: nat)
    ensures GoodList(addrs, at) ==> AllEncodable(addrs)
  {
    addrs == [] || (GoodAddr(addrs[0]) && (at < 2 ==> !addrs[0].repeated) && GoodList(addrs[1..], at + 1))
  }

  lemma EncodeFromCons(a: Addr, more: seq<Addr>, at: nat)
    requires GoodAddr(a) && (at < 2 ==> !a.repeated) && GoodList(more, at + 1) && more != []
    ensures GoodList([a] + more, at)
    ensures EncodeFrom([a] + more, at) == EncodeAddr(a, false, Bit7(a, at)) + EncodeFrom(more, at + 1)
  {
    assert ([a] + more)[1..] == more;
  }

  /** What HeaderCanon says of one address list. */
  ghost predicate ListCanon(data: seq<byte>, at: nat, addrs: seq<Addr>) {
    addrs != [] && GoodList(addrs, at) && CanonFrom(data, at, EncodeFrom(addrs, at))
  }

  lemma {:induction false} HeaderCanon(data: seq<byte>, at: nat)
    requires at <= AX25_MAX_ADDRS
    requires DecodeHeader(data, at).Success? && DecodeHeader(data, at).value.last
    ensures ListCanon(data, at, DecodeHeader(data, at).value.addrs)
    decreases AX25_MAX_ADDRS - at
  {
    var o, rest := data[..ADDR_LEN], data[ADDR_LEN..];
    assert data == o + rest;
    HeaderStep(data, o, rest, at);
    if IsLast(o) {
      CanonLast(data, at);
    } else {
      HeaderCanon(rest, at + 1);
      CanonPrepend(data, at, DecodeHeader(rest, at + 1).value.addrs);
    }
  }

  lemma CanonLast(data: seq<byte>, at: nat)
    requires |data| >= ADDR_LEN && IsLast(data[..ADDR_LEN])
    requires DecodeAddr(data[..ADDR_LEN], at >= 2).Success?
    ensures ListCanon(data, at, [DecodeAddr(data[..ADDR_LEN], at >= 2).value])
  {
    var o := data[..ADDR_LEN];
    var a := DecodeAddr(o, at >= 2).value;
    AddrCanon(o, at);
    assert [a][1..] == [];
    var e := EncodeAddr(a, true, Bit7(a, at));
    assert EncodeFrom([a], at) == e + [];
    CanonFromJoin(data, at, e, []);
  }

  lemma CanonPrepend(data: seq<byte>, at: nat, more: seq<Addr>)
    requires |data| >= ADDR_LEN && !IsLast(data[..ADDR_LEN])
    requires DecodeAddr(data[..ADDR_LEN], at >= 2).Success?
    requires ListCanon(data[ADDR_LEN..], at + 1, more)
    ensures ListCanon(data, at, [DecodeAddr(data[..ADDR_LEN], at >= 2).value] + more)
  {
    var o := data[..ADDR_LEN];
    var a := DecodeAddr(o, at >= 2).value;
    AddrCanon(o, at);
    EncodeFromCons(a, more, at);
    CanonFromJoin(data, at, EncodeAddr(a, false, Bit7(a, at)), EncodeFrom(more, at + 1));
  }

  lemma {:induction false} EncodeFromIsPath(path: seq<Addr>, at: nat)
    requires at >= 2
    ensures EncodeFrom(path, at) == EncodePath(path)
  {
    if path != [] {
      EncodeFromIsPath(path[1..], at + 1);
    }
  }

  lemma EncodeFromIsOctets(f: Frame)
    requires !f.src.repeated
    ensures EncodeFrom([f.dst, f.src] + f.path, 0) == AddrOctets(f)
  {
    var addrs := [f.dst, f.src] + f.path;
    assert addrs[1..][1..] == f.path;
    EncodeFromIsPath(f.path, 2);
  }

  /** For every accepted octet string, re-encoding what was decoded changes only the bits that the
      frame model does not carry, and decodes to the same frame again. */
  lemma EncodeDecode(data: seq<byte>)
    requires DecodeUi(data).Success?
    ensures var f := DecodeUi(data).value;
            && GoodFrame(f) && Unstar(f) == f
            && IsCanon(data, ADDR_LEN * (2 + |f.path|), EncodeUi(f))
            && DecodeUi(EncodeUi(f)) == Success(f)
  {
    var f := DecodeUi(data).value;
    AcceptedShape(data);
    EncodeFromIsOctets(f);
    CanonTail(data, f);
    DecodeEncode(f);
  }

  lemma AcceptedShape(data: seq<byte>)
    requires DecodeUi(data).Success?
    ensures var f := DecodeUi(data).value;
            && GoodFrame(f) && Unstar(f) == f
            && CanonFrom(data, 0, EncodeFrom([f.dst, f.src] + f.path, 0))
            && |data| == EncodedSize(f)
            && data[ADDR_LEN * (2 + |f.path|)..] == [CTRL_UI, PID_NONE] + f.payload
  {
    var f := DecodeUi(data).value;
    var addrs := DecodeHeader(data, 0).value.addrs;
    HeaderCanon(data, 0);
    assert addrs == [f.dst, f.src] + f.path;
    GoodListParts(f, addrs);
    AcceptedTail(data);
  }

  lemma GoodListParts(f: Frame, addrs: seq<Addr>)
    requires addrs == [f.dst, f.src] + f.path
    requires GoodList(addrs, 0)
    ensures GoodAddr(f.dst) && GoodAddr(f.src) && AllGood(f.path) && Unstar(f) == f
  {
    assert addrs[1..] == [f.src] + f.path;
    assert ([f.src] + f.path)[1..] == f.path;
    GoodListIsGood(f.path, 2);
  }

  lemma {:induction false} GoodListIsGood(addrs: seq<Addr>, at: nat)
    requires GoodList(addrs, at)
    ensures AllGood(addrs)
  {
    if addrs != [] {
      GoodListIsGood(addrs[1..], at + 1);
    }
  }

  lemma AcceptedTail(data: seq<byte>)
    requires DecodeUi(data).Success?
    ensures var f := DecodeUi(data).value;
            && |data| == EncodedSize(f)
            && data[ADDR_LEN * (2 + |f.path|)..] == [CTRL_UI, PID_NONE] + f.payload
  {
    var n := ADDR_LEN * |DecodeHeader(data, 0).value.addrs|;
    assert data[n..] == [data[n], data[n + 1]] + data[n + 2..];
  }

  lemma CanonTail(data: seq<byte>, f: Frame)
    requires GoodFrame(f)
    requires CanonFrom(data, 0, AddrOctets(f))
    requires |data| == EncodedSize(f)
    requires data[|AddrOctets(f)|..] == [CTRL_UI, PID_NONE] + f.payload
    ensures IsCanon(data, ADDR_LEN * (2 + |f.path|), EncodeUi(f))
  {
    var n := |AddrOctets(f)|;
    forall k | n <= k < |data|
      ensures EncodeUi(f)[k] == data[k]
    {
      assert data[k] == data[n..][k - n];
    }
  }

  // ---------- acceptance depends on the canonical octets only ----------

  /** `c` is what a conforming sender writes for the received octets `o` of the `at`-th address. */
  ghost predicate CanonAddress(o: seq<byte>, at: nat, c: seq<byte>) {
    |o| == |c| == ADDR_LEN && forall k :: 0 <= k < ADDR_LEN ==> c[k] == CanonOctet(o[k], ADDR_LEN * at + k)
  }

  lemma SsidBack(o: byte, c: byte, at: nat)
    requires c == CanonOctet(o, ADDR_LEN * at + 6)
    ensures c % 32 == o % 32 && (at >= 2 ==> (c >= 128 <==> o >= 128))
  {
    OctetPlace(at, 6);
  }

  lemma CharsAsCanon(o: seq<byte>, at: nat, c: seq<byte>)
    requires CanonAddress(o, at, c)
    ensures Chars(o) == Chars(c)
  {
    forall k | 0 <= k < 6
      ensures o[k] / 2 == c[k] / 2
    {
      OctetPlace(at, k);
    }
  }

  lemma LowBits(o: byte, c: byte)
    requires c % 32 == o % 32
    ensures (o / 2) % 16 == (c / 2) % 16 && o % 2 == c % 2
  {
    var q, p := o / 32, c / 32;
    var r := o % 32;
    assert o / 2 == 16 * q + r / 2 && c / 2 == 16 * p + r / 2;
  }

  lemma AddressAsCanon(o: seq<byte>, at: nat, c: seq<byte>)
    requires CanonAddress(o, at, c)
    ensures DecodeAddr(o, at >= 2) == DecodeAddr(c, at >= 2) && IsLast(o) == IsLast(c)
  {
    CharsAsCanon(o, at, c);
    SsidBack(o[6], c[6], at);
    LowBits(o[6], c[6]);
  }

  /** The first `m` addresses of `c` are those of `data` in canonical form, and the rest is the same. */
  ghost predicate SameBehind(data: seq<byte>, at: nat, c: seq<byte>, m: nat) {
    && |data| == |c| && ADDR_LEN * m <= |c|
    && forall k :: 0 <= k < |c| ==> c[k] == if k < ADDR_LEN * m then CanonOctet(data[k], ADDR_LEN * at + k) else data[k]
  }

  lemma NextAddress(data: seq<byte>, at: nat, c: seq<byte>, m: nat)
    requires m > 0 && SameBehind(data, at, c, m)
    ensures |data| >= ADDR_LEN && CanonAddress(data[..ADDR_LEN], at, c[..ADDR_LEN])
    ensures SameBehind(data[ADDR_LEN..], at + 1, c[ADDR_LEN..], m - 1)
  {
    var d1, c1 := data[ADDR_LEN..], c[ADDR_LEN..];
    forall k | 0 <= k < |c1|
      ensures c1[k] == if k < ADDR_LEN * (m - 1) then CanonOctet(d1[k], ADDR_LEN * (at + 1) + k) else d1[k]
    {
      assert c1[k] == c[ADDR_LEN + k] && d1[k] == data[ADDR_LEN + k];
      assert ADDR_LEN * (at + 1) + k == ADDR_LEN * at + (ADDR_LEN + k);
    }
  }

  lemma {:induction false} HeaderAsCanon(data: seq<byte>, at: nat, c: seq<byte>, m: nat)
    requires at <= AX25_MAX_ADDRS && SameBehind(data, at, c, m)
    requires DecodeHeader(c, at).Success? && DecodeHeader(c, at).value.last
    requires |DecodeHeader(c, at).value.addrs| == m
    ensures DecodeHeader(data, at) == DecodeHeader(c, at)
    decreases m
  {
    NextAddress(data, at, c, m);
    AddressAsCanon(data[..ADDR_LEN], at, c[..ADDR_LEN]);
    if !IsLast(c[..ADDR_LEN]) {
      HeaderAsCanon(data[ADDR_LEN..], at + 1, c[ADDR_LEN..], m - 1);
    }
  }

  /** The octets begin with the addresses of a good frame, up to the bits a conforming sender fixes. */
  ghost predicate Addressed(f: Frame, data: seq<byte>) {
    && GoodFrame(f) && 7 * (2 + |f.path|) <= |data|
    && forall k :: 0 <= k < 7 * (2 + |f.path|) ==> AddrOctets(f)[k] == CanonOctet(data[k], k)
  }

  lemma AddressedHeader(f: Frame, data: seq<byte>)
    requires Addressed(f, data)
    ensures DecodeHeader(data, 0) == Success(Header([Unstar(f).dst, Unstar(f).src] + f.path, true))
  {
    var tail := data[7 * (2 + |f.path|)..];
    HeaderRoundTrip(f, tail);
    HeaderAsCanon(data, 0, AddrOctets(f) + tail, 2 + |f.path|);
  }

  lemma RestOf(f: Frame, data: seq<byte>, h: Header)
    requires h == Header([f.dst, f.src] + f.path, true) && 7 * (2 + |f.path|) <= |data|
    ensures var n := 7 * (2 + |f.path|);
            DecodeRest(data, h) ==
            if |data| < n + 2 then Failure(ErrShort)
            else if data[n] != 0x03 || data[n + 1] != 0xF0 then Failure(ErrUnsupported)
            else if |data| > n + 2 + 256 then Failure(ErrLong)
            else Success(f.(payload := data[n + 2..]))
  {
    assert h.addrs[2..] == f.path;
  }

  /** What becomes of octets that begin with addresses. */
  lemma AddressedFrame(f: Frame, data: seq<byte>)
    requires Addressed(f, data)
    ensures var n := 7 * (2 + |f.path|);
            DecodeUi(data) ==
            if |data| < n + 2 then Failure(ErrShort)
            else if data[n] != 0x03 || data[n + 1] != 0xF0 then Failure(ErrUnsupported)
            else if |data| > n + 2 + 256 then Failure(ErrLong)
            else Success(Unstar(f).(payload := data[n + 2..]))
  {
    AddressedHeader(f, data);
    RestOf(Unstar(f), data, Header([Unstar(f).dst, Unstar(f).src] + f.path, true));
  }

  /** Octets that do not are malformed. */
  lemma NotAddressed(data: seq<byte>)
    requires forall f :: !Addressed(f, data)
    ensures DecodeUi(data) == Failure(ErrFormat)
  {
    var h := DecodeHeader(data, 0);
    if h.Success? && h.value.last && |h.value.addrs| >= 2 {
      var addrs := h.value.addrs;
      var f := Frame(addrs[0], addrs[1], addrs[2..], []);
      HeaderCanon(data, 0);
      assert addrs == [f.dst, f.src] + f.path;
      GoodListParts(f, addrs);
      EncodeFromIsOctets(f);
      assert forall k :: 0 <= k < |AddrOctets(f)| ==> AddrOctets(f)[k] == CanonOctet(data[k], ADDR_LEN * 0 + k);
      assert Addressed(f, data);
    }
  }

  lemma TailOf(data: seq<byte>, c: seq<byte>, head: seq<byte>, x: byte, y: byte, payload: seq<byte>)
    requires |data| == |c| && c == head + [x, y] + payload
    requires forall k :: |head| <= k < |c| ==> data[k] == c[k]
    ensures data[|head|] == x && data[|head| + 1] == y && data[|head| + 2..] == payload
  {
    assert data[|head|] == c[|head|] && data[|head| + 1] == c[|head| + 1];
    assert c[|head| + 2..] == payload;
  }

  lemma CanonAddressed(f: Frame, data: seq<byte>)
    requires GoodFrame(f) && IsCanon(data, 7 * (2 + |f.path|), EncodeUi(f))
    ensures Addressed(f, data)
  {
    assert forall k :: 0 <= k < 7 * (2 + |f.path|) ==> AddrOctets(f)[k] == EncodeUi(f)[k];
  }

  /** The converse of EncodeDecode: whatever has the canonical octets of a good frame is accepted, and is that
      frame. */
  lemma CanonDecode(f: Frame, data: seq<byte>)
    requires GoodFrame(f) && IsCanon(data, 7 * (2 + |f.path|), EncodeUi(f))
    ensures DecodeUi(data) == Success(Unstar(f))
  {
    CanonAddressed(f, data);
    TailOf(data, EncodeUi(f), AddrOctets(f), CTRL_UI, PID_NONE, f.payload);
    AddressedFrame(f, data);
  }

  /** Accepted are exactly the octet strings that are a good frame up to the bits a conforming sender fixes. */
  lemma Accepted(data: seq<byte>)
    ensures DecodeUi(data).Success? <==> exists f :: GoodFrame(f) && IsCanon(data, 7 * (2 + |f.path|), EncodeUi(f))
  {
    if DecodeUi(data).Success? {
      EncodeDecode(data);
      var f := DecodeUi(data).value;
      assert GoodFrame(f) && IsCanon(data, 7 * (2 + |f.path|), EncodeUi(f));
    }
    forall f | GoodFrame(f) && IsCanon(data, 7 * (2 + |f.path|), EncodeUi(f))
      ensures DecodeUi(data).Success?
    {
      CanonDecode(f, data);
    }
  }

  /** An example: the UI frame from N7LEM to NJ7P by way of WIDE1-1, which has repeated it, octet by octet. */
  lemma KnownFrame(f: Frame, data: seq<byte>)
    requires f == Frame(Addr([78, 74, 55, 80], 0, false), Addr([78, 55, 76, 69, 77], 0, false),
                        [Addr([87, 73, 68, 69, 49], 1, true)], [62])
    requires data == [0x9C, 0x94, 0x6E, 0xA0, 0x40, 0x40, 0xE0] + [0x9C, 0x6E, 0x98, 0x8A, 0x9A, 0x40, 0x60]
                     + [0xAE, 0x92, 0x88, 0x8A, 0x62, 0x40, 0xE3] + [0x03, 0xF0, 0x3E]
    ensures EncodeUi(f) == data && DecodeUi(data) == Success(f)
  {
    KnownPath(f.path);
    assert EncodeAddr(f.dst, false, true) == [0x9C, 0x94, 0x6E, 0xA0, 0x40, 0x40, 0xE0];
    assert EncodeAddr(f.src, false, false) == [0x9C, 0x6E, 0x98, 0x8A, 0x9A, 0x40, 0x60];
    DecodeEncode(f);
  }

  lemma KnownPath(path: seq<Addr>)
    requires path == [Addr([87, 73, 68, 69, 49], 1, true)]
    ensures EncodePath(path) == [0xAE, 0x92, 0x88, 0x8A, 0x62, 0x40, 0xE3] && AllGood(path)
  {
    assert path[1..] == [];
    assert EncodeAddr(path[0], true, true) == [0xAE, 0x92, 0x88, 0x8A, 0x62, 0x40, 0xE3];
  }
}
