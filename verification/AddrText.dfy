/** Callsign text CALL[-SSID][*] (ax25_addr_parse and ax25_addr_format in ax25.c). */
module AddrText {
  import opened Common
  import opened Ax25

  const TMP_SIZE: nat := 16

  predicate AllDigits(s: seq<byte>) {
    forall i :: 0 <= i < |s| ==> IsDigit(s[i])
  }

  /** The number that a digit string spells. */
  function DecValue(s: seq<byte>): nat
    requires AllDigits(s)
  {
    if s == [] then 0 else 10 * DecValue(s[..|s| - 1]) + (s[|s| - 1] - 48)
  }

  /** A trailing star marks a repeated address; an SSID follows the first dash. */
  function ParseAddr(t: seq<byte>): (r: Result<Addr>)
    ensures r.Success? ==> CanonAddr(r.value)
    ensures r.Failure? ==> r.code == (if |t| < TMP_SIZE then ErrFormat else ErrLong)
  {
    if t == [] then Failure(ErrFormat)
    else if |t| >= TMP_SIZE then Failure(ErrLong)
    else
      var star := t[|t| - 1] == STAR;
      ParseBody(if star then t[..|t| - 1] else t, star)
  }

  /** Callsign and SSID, with or without a star behind them. */
  function ParseBody(body: seq<byte>, star: bool): (r: Result<Addr>)
    ensures r.Success? ==> CanonAddr(r.value)
    ensures r.Failure? ==> r.code == ErrFormat
  {
    var d := IndexOf(body, DASH);
    var call := body[..d];
    if !(1 <= |call| <= 6 && AllAlnum(call)) then Failure(ErrFormat)
    else if d == |body| then Success(Addr(UpperAll(call), 0, star))
    else
      var digits := body[d + 1..];
      if digits == [] || !AllDigits(digits) || DecValue(digits) > 15 then Failure(ErrFormat)
      else Success(Addr(UpperAll(call), DecValue(digits), star))
  }

  /** "-%u" for an SSID of at most 15; nothing for 0. */
  function SsidText(ssid: byte): (r: seq<byte>)
    ensures |r| <= 3
  {
    if ssid == 0 then []
    else if ssid < 10 then [DASH, 48 + ssid]
    else [DASH, 49, 48 + (ssid - 10) % 10]
  }

  function StarText(repeated: bool): seq<byte> {
    if repeated then [STAR] else []
  }

  function FormatAddr(a: Addr): (r: seq<byte>)
    ensures |a.call| <= |r| <= |a.call| + 4
  {
    a.call + SsidText(a.ssid) + StarText(a.repeated)
  }

  function UpperAddr(a: Addr): Addr {
    a.(call := UpperAll(a.call))
  }

  lemma UpperCanon(a: Addr)
    requires GoodAddr(a)
    ensures CanonAddr(UpperAddr(a))
    ensures CanonAddr(a) ==> UpperAddr(a) == a
  {
    if CanonAddr(a) {
      assert UpperAll(a.call) == a.call;
    }
  }

  /** The characters of an address in text form. */
  predicate IsAddrChar(c: byte) {
    IsAlnum(c) || c == DASH || c == STAR
  }

  lemma FormatAddrChars(a: Addr)
    requires GoodAddr(a)
    ensures forall i :: 0 <= i < |FormatAddr(a)| ==> IsAddrChar(FormatAddr(a)[i])
  {
  }

  lemma SsidValue(ssid: byte)
    requires 1 <= ssid <= 15
    ensures var d := SsidText(ssid)[1..]; d != [] && AllDigits(d) && DecValue(d) == ssid
  {
    var d := SsidText(ssid)[1..];
    if ssid < 10 {
      assert d == [48 + ssid];
      assert d[..0] == [];
    } else {
      assert d == [49, 48 + (ssid - 10)];
      assert d[..1] == [49];
      assert [49][..0] == [];
    }
  }

  lemma BodySplit(a: Addr)
    requires GoodAddr(a)
    ensures var body := a.call + SsidText(a.ssid);
            && IndexOf(body, DASH) == |a.call| && body[..|a.call|] == a.call
            && (a.ssid == 0 ==> |body| == |a.call|)
            && (a.ssid != 0 ==> body[|a.call| + 1..] == SsidText(a.ssid)[1..])
            && body[|body| - 1] != STAR
  {
    var body := a.call + SsidText(a.ssid);
    assert body[..|a.call|] == a.call;
    IndexOfUnique(body, DASH, |a.call|);
    if a.ssid != 0 {
      assert body[|a.call| + 1..] == SsidText(a.ssid)[1..];
    }
  }

  lemma StarCut(body: seq<byte>, star: bool)
    requires body != [] && body[|body| - 1] != STAR
    ensures var t := body + StarText(star);
            && (t[|t| - 1] == STAR) == star
            && (if star then t[..|t| - 1] else t) == body
  {
  }

  /** Parsing formatted text gives the address back, in upper case. */
  lemma ParseFormatAddr(a: Addr)
    requires GoodAddr(a)
    ensures ParseAddr(FormatAddr(a)) == Success(UpperAddr(a))
  {
    BodySplit(a);
    StarCut(a.call + SsidText(a.ssid), a.repeated);
    BodyParses(a);
  }

  lemma BodyParses(a: Addr)
    requires GoodAddr(a)
    ensures ParseBody(a.call + SsidText(a.ssid), a.repeated) == Success(UpperAddr(a))
  {
    BodySplit(a);
    if a.ssid != 0 {
      SsidValue(a.ssid);
    }
  }

  // ---------- the accepted texts, by their characters ----------

  /** Any zeros, and then the number in decimal digits; at least one digit in all. */
  ghost predicate Number(digits: seq<byte>, n: nat) {
    n <= 15 && digits != [] && exists z: nat :: ZerosThen(digits, z, n)
  }

  predicate ZerosThen(digits: seq<byte>, z: nat, n: nat)
    requires n <= 15
  {
    && z <= |digits| && (forall i :: 0 <= i < z ==> digits[i] == 48)
    && digits[z..] == if n == 0 then [] else if n < 10 then [48 + n] else [49, 38 + n]
  }

  /** 1 to 6 letters and digits, and the same in capitals. */
  predicate Capitals(call: seq<byte>, up: seq<byte>) {
    && 1 <= |call| <= 6 && |up| == |call|
    && (forall i :: 0 <= i < |call| ==> 48 <= call[i] <= 57 || 65 <= call[i] <= 90 || 97 <= call[i] <= 122)
    && (forall i :: 0 <= i < |call| ==> up[i] == if 97 <= call[i] <= 122 then call[i] - 32 else call[i])
  }

  /** A text CALL or CALL-SSID, and the address it stands for. */
  ghost predicate Named(body: seq<byte>, call: seq<byte>, digits: Option<seq<byte>>, a: Addr) {
    && body == call + (if digits.Some? then [45] + digits.value else []) && Capitals(call, a.call)
    && (if digits.Some? then Number(digits.value, a.ssid) else a.ssid == 0)
  }

  /** The same, with a star behind it or not. */
  ghost predicate Spelled(t: seq<byte>, body: seq<byte>, call: seq<byte>, digits: Option<seq<byte>>, a: Addr) {
    |t| <= 15 && t == body + (if a.repeated then [42] else []) && Named(body, call, digits, a)
  }

  lemma {:induction false} LeadingZero(digits: seq<byte>)
    requires AllDigits(digits) && digits != [] && digits[0] == 48
    ensures DecValue(digits) == DecValue(digits[1..])
    decreases |digits|
  {
    if |digits| == 1 {
      assert digits[..0] == [] && digits[1..] == [];
    } else {
      var front := digits[..|digits| - 1];
      LeadingZero(front);
      assert front[1..] == digits[1..][..|digits| - 2];
    }
  }

  lemma {:induction false} NumberValue(digits: seq<byte>, z: nat, n: nat)
    requires n <= 15 && ZerosThen(digits, z, n)
    ensures AllDigits(digits) && DecValue(digits) == n
    decreases z
  {
    if z > 0 {
      assert digits[1..][z - 1..] == digits[z..];
      NumberValue(digits[1..], z - 1, n);
      assert digits == [digits[0]] + digits[1..];
      LeadingZero(digits);
    } else {
      assert digits == digits[0..];
      if 0 < n < 10 {
        assert digits[..0] == [];
      } else if n >= 10 {
        assert digits[..1] == [49] && [49][..0] == [];
      }
    }
  }

  lemma {:induction false} NotSmall(digits: seq<byte>)
    requires AllDigits(digits) && |digits| >= 2 && digits[0] > 48
    ensures DecValue(digits) >= 10 && (|digits| > 2 ==> DecValue(digits) >= 100)
    decreases |digits|
  {
    var front := digits[..|digits| - 1];
    if |digits| == 2 {
      assert front[..0] == [];
    } else {
      NotSmall(front);
    }
  }

  lemma {:induction false} SmallNumber(digits: seq<byte>) returns (z: nat)
    requires AllDigits(digits) && DecValue(digits) <= 15
    ensures ZerosThen(digits, z, DecValue(digits))
    decreases |digits|
  {
    z := 0;
    if digits != [] && digits[0] == 48 {
      LeadingZero(digits);
      var y := SmallNumber(digits[1..]);
      z := y + 1;
      assert digits[1..][y..] == digits[z..];
    } else if |digits| >= 2 {
      NotSmall(digits);
      assert digits[..1] == [digits[0]] && [digits[0]][..0] == [];
      assert digits[0..] == [digits[0], digits[1]];
    } else if digits != [] {
      assert digits[..0] == [] && digits[0..] == [digits[0]];
    }
  }

  lemma NamedParts(body: seq<byte>, call: seq<byte>, digits: Option<seq<byte>>, a: Addr)
    requires Named(body, call, digits, a)
    ensures IndexOf(body, DASH) == |call| && body[..|call|] == call && body[|body| - 1] != STAR
    ensures if digits.Some? then body[|call| + 1..] == digits.value else |body| == |call|
  {
    assert body[..|call|] == call;
    IndexOfUnique(body, DASH, |call|);
    if digits.Some? {
      assert body[|call| + 1..] == digits.value;
      var z: nat :| ZerosThen(digits.value, z, a.ssid);
      NumberValue(digits.value, z, a.ssid);
      assert body[|body| - 1] == digits.value[|digits.value| - 1];
    }
  }

  lemma NamedParses(body: seq<byte>, call: seq<byte>, digits: Option<seq<byte>>, a: Addr)
    requires Named(body, call, digits, a)
    ensures ParseBody(body, a.repeated) == Success(a)
  {
    NamedParts(body, call, digits, a);
    assert UpperAll(call) == a.call;
    if digits.Some? {
      var z: nat :| ZerosThen(digits.value, z, a.ssid);
      NumberValue(digits.value, z, a.ssid);
    }
  }

  lemma SpelledParses(t: seq<byte>, body: seq<byte>, call: seq<byte>, digits: Option<seq<byte>>, a: Addr)
    requires Spelled(t, body, call, digits, a)
    ensures ParseAddr(t) == Success(a)
  {
    NamedParts(body, call, digits, a);
    StarCut(body, a.repeated);
    NamedParses(body, call, digits, a);
  }

  lemma DigitsNumber(digits: seq<byte>)
    requires AllDigits(digits) && DecValue(digits) <= 15 && digits != []
    ensures Number(digits, DecValue(digits))
  {
    var z := SmallNumber(digits);
  }

  lemma CallCapitals(call: seq<byte>)
    requires 1 <= |call| <= 6 && AllAlnum(call)
    ensures Capitals(call, UpperAll(call))
  {
  }

  lemma AtDash(body: seq<byte>, d: nat)
    requires d < |body| && body[d] == DASH
    ensures body == body[..d] + ([45] + body[d + 1..])
  {
  }

  lemma ParsedNamed(body: seq<byte>, star: bool) returns (call: seq<byte>, digits: Option<seq<byte>>)
    requires ParseBody(body, star).Success?
    ensures Named(body, call, digits, ParseBody(body, star).value) && ParseBody(body, star).value.repeated == star
  {
    var d := IndexOf(body, DASH);
    call, digits := body[..d], None;
    CallCapitals(call);
    if d < |body| {
      digits := Some(body[d + 1..]);
      DigitsNumber(digits.value);
      AtDash(body, d);
    } else {
      assert body == call + [];
    }
  }

  lemma BehindStar(t: seq<byte>) returns (body: seq<byte>, star: bool)
    requires ParseAddr(t).Success?
    ensures |t| <= 15 && t == body + (if star then [42] else []) && ParseAddr(t) == ParseBody(body, star)
  {
    star := t[|t| - 1] == STAR;
    if star {
      body := t[..|t| - 1];
      assert t == body + [42];
    } else {
      body := t;
      assert t == body + [];
    }
  }

  lemma ParsedSpelled(t: seq<byte>) returns (body: seq<byte>, call: seq<byte>, digits: Option<seq<byte>>)
    requires ParseAddr(t).Success?
    ensures Spelled(t, body, call, digits, ParseAddr(t).value)
  {
    var star;
    body, star := BehindStar(t);
    call, digits := ParsedNamed(body, star);
  }

  /** Accepted are exactly the texts of at most 15 characters that are a callsign of 1 to 6 letters and digits, then
      possibly a dash and a number of at most 15, and then possibly a star. */
  lemma AcceptedTexts(t: seq<byte>, a: Addr)
    ensures ParseAddr(t) == Success(a) <==> exists body, call, digits :: Spelled(t, body, call, digits, a)
  {
    if ParseAddr(t) == Success(a) {
      var body, call, digits := ParsedSpelled(t);
      assert Spelled(t, body, call, digits, a);
    }
    forall body, call, digits | Spelled(t, body, call, digits, a)
      ensures ParseAddr(t) == Success(a)
    {
      SpelledParses(t, body, call, digits, a);
    }
  }

  // ---------- the source's loops ----------

  method IsAllDigits(s: seq<byte>) returns (ok: bool)
    ensures ok == AllDigits(s)
  {
    var i := 0;
    while i < |s|
      invariant 0 <= i <= |s|
      invariant forall k :: 0 <= k < i ==> IsDigit(s[k])
    {
      if !IsDigit(s[i]) {
        return false;
      }
      i := i + 1;
    }
    return true;
  }

  /** strtol on a checked digit string. */
  method DigitsToNumber(s: seq<byte>) returns (n: nat)
    requires AllDigits(s)
    ensures n == DecValue(s)
  {
    n := 0;
    var i := 0;
    while i < |s|
      invariant 0 <= i <= |s|
      invariant n == DecValue(s[..i])
    {
      assert s[..i + 1][..i] == s[..i];
      n := 10 * n + (s[i] - 48);
      i := i + 1;
    }
    assert s[..i] == s;
  }

  /** Check and upper-case the callsign characters. */
  method CopyCall(text: seq<byte>) returns (ok: bool, call: seq<byte>)
    ensures ok == AllAlnum(text)
    ensures ok ==> call == UpperAll(text)
  {
    call := [];
    var i := 0;
    while i < |text|
      invariant 0 <= i <= |text|
      invariant AllAlnum(text[..i]) && call == UpperAll(text[..i])
    {
      if !IsAlnum(text[i]) {
        return false, call;
      }
      call := call + [ToUpper(text[i])];
      i := i + 1;
    }
    assert text[..i] == text;
    return true, call;
  }

  /** ax25_addr_parse on a C string. */
  method AddrParse(text: seq<byte>) returns (r: Result<Addr>)
    ensures r == ParseAddr(text)
  {
    if text == [] {
      return Failure(ErrFormat);
    }
    if |text| >= TMP_SIZE {
      return Failure(ErrLong);
    }
    var tmp, repeated := text, false;
    if tmp[|tmp| - 1] == STAR {
      repeated := true;
      tmp := tmp[..|tmp| - 1];
    }
    r := ReadBody(tmp, repeated);
  }

  /** The rest of it, behind the star. */
  method ReadBody(body: seq<byte>, repeated: bool) returns (r: Result<Addr>)
    ensures r == ParseBody(body, repeated)
  {
    var tmp, ssid := body, 0;
    var dash := IndexOf(tmp, DASH);
    if dash < |tmp| {
      var digits := tmp[dash + 1..];
      if digits == [] {
        return Failure(ErrFormat);
      }
      var digitsOk := IsAllDigits(digits);
      if !digitsOk {
        return Failure(ErrFormat);
      }
      var n := DigitsToNumber(digits);
      if n > 15 {
        return Failure(ErrFormat);
      }
      ssid := n;
      tmp := tmp[..dash];
    }
    assert tmp == body[..dash];
    if |tmp| < 1 || |tmp| > 6 {
      return Failure(ErrFormat);
    }
    var callOk, call := CopyCall(tmp);
    if !callOk {
      return Failure(ErrFormat);
    }
    return Success(Addr(call, ssid, repeated));
  }

  /** ax25_addr_format into the callers' 32-byte buffer, which the source's 6-character callsigns
      cannot overflow. */
  method AddrFormat(a: Addr) returns (r: Result<seq<byte>>)
    requires |a.call| <= 6
    ensures r == if Encodable(a) then Success(FormatAddr(a)) else Failure(ErrFormat)
    ensures r.Success? ==> |r.value| < 32
  {
    if a.call == [] || a.ssid > 15 {
      return Failure(ErrFormat);
    }
    var star := if a.repeated then [STAR] else [];
    if a.ssid == 0 {
      assert a.call + [] + star == a.call + star;
      return Success(a.call + star);
    }
    var digits := if a.ssid < 10 then [48 + a.ssid] else [49, 48 + (a.ssid - 10)];
    assert [DASH] + digits == SsidText(a.ssid);
    return Success(a.call + ([DASH] + digits) + star);
  }
}
