/** Limits, result codes and byte-string helpers shared by every module
    (loraham_kiss_tnc.h). */
module Common {

  type byte = x: int | 0 <= x < 256

  const AX25_MAX_REPEATERS: nat := 8
  const AX25_MAX_ADDRS: nat := 10
  const AX25_MAX_PAYLOAD: nat := 256
  const AX25_MAX_FRAME: nat := 384
  const TNC2_MAX_LINE: nat := 512
  const KISS_MAX_FRAME: nat := 1024
  const LORAHAM_TX_MAX: nat := 255
  const LORAHAM_HDR_LEN: nat := 3

  const NUL: byte := 0
  const LF: byte := 10
  const CR: byte := 13
  const SPACE: byte := 32

  /** The result codes. `Ok` is the source's 0; every other code is negative there. */
  datatype Code =
    | Ok
    | Err
    | ErrShort
    | ErrLong
    | ErrFormat
    | ErrUnsupported
    | ErrNoSpace
    | ErrTxSocket
    | ErrClientSocket
    | ErrConfSocket
    | ErrTxResult

  datatype Option<+T> = None | Some(value: T)

  datatype Result<+T> = Success(value: T) | Failure(code: Code)

  /** The least index of `b` in `s`, or |s|: what strchr finds. */
  function IndexOf(s: seq<byte>, b: byte): (i: nat)
    ensures i <= |s|
    ensures i < |s| ==> s[i] == b
  {
    if s == [] || s[0] == b then 0 else 1 + IndexOf(s[1..], b)
  }

  /** The text a C function sees in a buffer: everything before the first NUL. */
  function CStr(s: seq<byte>): (r: seq<byte>)
    ensures r <= s
    ensures |r| < |s| ==> s[|r|] == NUL
  {
    s[..IndexOf(s, NUL)]
  }

  lemma {:induction false} IndexOfFirst(s: seq<byte>, b: byte)
    ensures b !in s[..IndexOf(s, b)]
  {
    if s != [] && s[0] != b {
      IndexOfFirst(s[1..], b);
      assert s[..IndexOf(s, b)] == [s[0]] + s[1..][..IndexOf(s[1..], b)];
    }
  }

  /** The index with the defining property of IndexOf is the one it returns. */
  lemma IndexOfUnique(s: seq<byte>, b: byte, i: nat)
    requires i <= |s|
    requires i < |s| ==> s[i] == b
    requires b !in s[..i]
    ensures IndexOf(s, b) == i
  {
    var j := IndexOf(s, b);
    IndexOfFirst(s, b);
    assert forall k :: 0 <= k < |s[..i]| ==> s[..i][k] == s[k];
    assert forall k :: 0 <= k < |s[..j]| ==> s[..j][k] == s[k];
  }

  lemma CStrNoNul(s: seq<byte>)
    ensures NUL !in CStr(s)
  {
    IndexOfFirst(s, NUL);
  }

  lemma CStrOfText(s: seq<byte>)
    requires NUL !in s
    ensures CStr(s) == s
  {
    IndexOfUnique(s, NUL, |s|);
  }

  predicate IsEol(b: byte) { b == CR || b == LF }

  function One(b: bool): nat { if b then 1 else 0 }

  lemma Assoc<T>(a: seq<T>, b: seq<T>, c: seq<T>)
    ensures a + (b + c) == (a + b) + c
  {
  }

  lemma Uncons<T>(a: seq<T>, b: seq<T>)
    requires a != []
    ensures a + b == [a[0]] + (a[1..] + b)
  {
  }

  function Concat<T>(parts: seq<seq<T>>): seq<T> {
    if parts == [] then [] else parts[0] + Concat(parts[1..])
  }
}
