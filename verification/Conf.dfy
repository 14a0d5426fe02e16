/** The CONF socket's line protocol (bridge_conf.c): line assembly over a fixed buffer, STATUS lines and
    TX/CAD events. */
module Conf {
  import opened Common

  const LINE_MAX: nat := 512
  const MAX_LINE: nat := LINE_MAX - 1

  const ZERO: byte := 48
  const ONE: byte := 49
  const TX_KEY: seq<byte> := [84, 88, 61]                                        // TX=
  const CAD_KEY: seq<byte> := [67, 65, 68, 61]                                   // CAD=
  const TXRESULT_KEY: seq<byte> := [84, 88, 82, 69, 83, 85, 76, 84, 61]          // TXRESULT=
  const STATUS_KEY: seq<byte> := [83, 84, 65, 84, 85, 83, 32]                    // "STATUS "
  const READY: seq<byte> := [82, 65, 68, 73, 79, 61, 82, 69, 65, 68, 89]         // RADIO=READY
  const FAILED: seq<byte> := [82, 65, 68, 73, 79, 61, 70, 65, 73, 76, 69, 68]    // RADIO=FAILED
  const UNINITIALIZED: seq<byte> :=
    [82, 65, 68, 73, 79, 61, 85, 78, 73, 78, 73, 84, 73, 65, 76, 73, 90, 69, 68] // RADIO=UNINITIALIZED

  // ---------- line assembly ----------

  /** The open line; `discard` while the tail of an over-long one is skipped. */
  datatype Asm = Asm(line: seq<byte>, discard: bool)

  const FRESH := Asm([], false)

  ghost predicate AsmValid(a: Asm) {
    |a.line| <= MAX_LINE && (a.discard ==> a.line == [])
  }

  function LineStep(a: Asm, b: byte): (Asm, seq<seq<byte>>) {
    if b == CR then (a, [])
    else if b == LF then (FRESH, if a.discard then [] else [a.line])
    else if a.discard then (a, [])
    else if |a.line| >= MAX_LINE then (Asm([], true), [])
    else (Asm(a.line + [b], false), [])
  }

  function Run(a: Asm, s: seq<byte>): (Asm, seq<seq<byte>>)
    decreases |s|
  {
    if s == [] then (a, [])
    else
      var (a1, ls) := LineStep(a, s[0]);
      var (a2, more) := Run(a1, s[1..]);
      (a2, ls + more)
  }

  lemma {:induction false} RunConcat(a: Asm, s: seq<byte>, t: seq<byte>)
    ensures Run(a, s + t) == (Run(Run(a, s).0, t).0, Run(a, s).1 + Run(Run(a, s).0, t).1)
    decreases |s|
  {
    if s == [] {
      assert s + t == t;
      assert [] + Run(a, t).1 == Run(a, t).1;
    } else {
      var (a1, ls) := LineStep(a, s[0]);
      RunConcat(a1, s[1..], t);
      assert (s + t)[1..] == s[1..] + t;
      Assoc(ls, Run(a1, s[1..]).1, Run(Run(a1, s[1..]).0, t).1);
    }
  }

  lemma RunCons(a: Asm, b: byte, rest: seq<byte>)
    ensures Run(a, [b] + rest) == (Run(LineStep(a, b).0, rest).0, LineStep(a, b).1 + Run(LineStep(a, b).0, rest).1)
  {
    assert ([b] + rest)[1..] == rest;
  }

  // ---------- what a stream means ----------

  function StripCr(s: seq<byte>): seq<byte> {
    if s == [] then [] else (if s[0] == CR then [] else [s[0]]) + StripCr(s[1..])
  }

  /** The LF-terminated lines of a text, and what follows the last LF. */
  function Lines(s: seq<byte>): (seq<seq<byte>>, seq<byte>)
    decreases |s|
  {
    var j := IndexOf(s, LF);
    if j == |s| then ([], s)
    else
      var (ls, tail) := Lines(s[j + 1..]);
      ([s[..j]] + ls, tail)
  }

  /** Lines of at most 511 bytes; longer ones vanish whole. */
  function Short(ls: seq<seq<byte>>): seq<seq<byte>> {
    if ls == [] then [] else (if |ls[0]| <= 511 then [ls[0]] else []) + Short(ls[1..])
  }

  function Open(tail: seq<byte>): Asm {
    if |tail| <= MAX_LINE then Asm(tail, false) else Asm([], true)
  }

  lemma LinesSplit(t: seq<byte>, rest: seq<byte>)
    requires LF !in t
    ensures Lines(t + ([LF] + rest)) == ([t] + Lines(rest).0, Lines(rest).1)
  {
    var s := t + ([LF] + rest);
    assert s[..|t|] == t;
    IndexOfUnique(s, LF, |t|);
    assert s[|t| + 1..] == rest;
  }

  lemma ShortCons(t: seq<byte>, ls: seq<seq<byte>>)
    ensures Short([t] + ls) == (if |t| <= MAX_LINE then [t] else []) + Short(ls)
  {
    assert ([t] + ls)[1..] == ls;
  }

  lemma StripCrCons(b: byte, rest: seq<byte>)
    ensures StripCr([b] + rest) == (if b == CR then [] else [b]) + StripCr(rest)
  {
    assert ([b] + rest)[1..] == rest;
  }

  /** What an open line `t` and the stream `s` give together. */
  ghost predicate Refines(t: seq<byte>, s: seq<byte>) {
    Run(Open(t), s) == (Open(Lines(t + StripCr(s)).1), Short(Lines(t + StripCr(s)).0))
  }

  lemma AtEnd(t: seq<byte>)
    requires LF !in t
    ensures Refines(t, [])
  {
    assert t + [] == t;
    assert t[..|t|] == t;
    IndexOfUnique(t, LF, |t|);
  }

  lemma AtLf(t: seq<byte>, rest: seq<byte>)
    requires LF !in t && Refines([], rest)
    ensures Refines(t, [LF] + rest)
  {
    StripCrCons(LF, rest);
    RunCons(Open(t), LF, rest);
    LinesSplit(t, StripCr(rest));
    assert [] + StripCr(rest) == StripCr(rest);
    ShortCons(t, Lines(StripCr(rest)).0);
  }

  lemma AtText(t: seq<byte>, b: byte, rest: seq<byte>)
    requires b != LF && Refines(if b == CR then t else t + [b], rest)
    ensures Refines(t, [b] + rest)
  {
    var t1 := if b == CR then t else t + [b];
    StripCrCons(b, rest);
    RunCons(Open(t), b, rest);
    OpenStep(t, b);
    Assoc(t, [b], StripCr(rest));
    assert [] + StripCr(rest) == StripCr(rest);
    assert [] + Run(Open(t1), rest).1 == Run(Open(t1), rest).1;
  }

  /** Assembling from an open line `t` continues the line that `t` starts. */
  lemma {:induction false} RunFromOpen(t: seq<byte>, s: seq<byte>)
    requires LF !in t
    ensures Refines(t, s)
    decreases |s|
  {
    if s == [] {
      AtEnd(t);
    } else {
      assert s == [s[0]] + s[1..];
      if s[0] == LF {
        RunFromOpen([], s[1..]);
        AtLf(t, s[1..]);
      } else {
        RunFromOpen(if s[0] == CR then t else t + [s[0]], s[1..]);
        AtText(t, s[0], s[1..]);
      }
    }
  }

  lemma OpenStep(t: seq<byte>, b: byte)
    requires b != LF
    ensures LineStep(Open(t), b) == (Open(if b == CR then t else t + [b]), [])
  {
  }

  /** The lines handled are exactly the LF-separated, CR-stripped lines of at most 511 bytes, however the
      stream was cut into reads. */
  lemma AssemblerRefinesLines(s: seq<byte>)
    ensures var (ls, tail) := Lines(StripCr(s));
              Run(FRESH, s) == (Open(tail), Short(ls))
  {
    RunFromOpen([], s);
    assert [] + StripCr(s) == StripCr(s);
  }

  // ---------- what a line says ----------

  datatype Flags = Flags(
    txBusy: bool, cadBusy: bool, radioReady: bool, haveStatus: bool,
    txresultKnown: bool, txresultEnabled: bool,
    txSeq: nat, txBusySeq: nat, txIdleSeq: nat,
    cadSeq: nat, cadBusySeq: nat, cadIdleSeq: nat)

  const ZEROED := Flags(false, false, false, false, false, false, 0, 0, 0, 0, 0, 0)

  /** bridge_parse_flag_line: the whole line is the key and one binary digit. */
  function FlagLine(line: seq<byte>, key: seq<byte>): Option<bool> {
    if line == key + [ONE] then Some(true)
    else if line == key + [ZERO] then Some(false)
    else None
  }

  /** strstr. */
  function Find(line: seq<byte>, key: seq<byte>): (r: Option<nat>)
    ensures r.Some? ==> r.value <= |line| && key <= line[r.value..]
  {
    if key <= line then Some(0)
    else if line == [] then None
    else
      var r := Find(line[1..], key);
      if r.None? then None
      else
        assert line[1..][r.value..] == line[1 + r.value..];
        Some(1 + r.value)
  }

  /** bridge_status_flag_token: the digit after the first occurrence of the key. */
  function FlagToken(line: seq<byte>, key: seq<byte>): Option<bool> {
    var p := Find(line, key);
    if p.None? || p.value + |key| >= |line| then None
    else if line[p.value + |key|] == ONE then Some(true)
    else if line[p.value + |key|] == ZERO then Some(false)
    else None
  }

  predicate IsTx(line: seq<byte>, busy: bool) { FlagLine(CStr(line), TX_KEY) == Some(busy) }
  predicate IsCad(line: seq<byte>, busy: bool) { FlagLine(CStr(line), CAD_KEY) == Some(busy) }
  predicate IsStatus(line: seq<byte>) { STATUS_KEY <= CStr(line) }

  function ApplyStatus(f: Flags, line: seq<byte>): Flags {
    var ready := if Find(line, READY).Some? then true
                 else if Find(line, FAILED).Some? || Find(line, UNINITIALIZED).Some? then false
                 else f.radioReady;
    var tx, cad, result := FlagToken(line, TX_KEY), FlagToken(line, CAD_KEY), FlagToken(line, TXRESULT_KEY);
    f.(haveStatus := true,
       radioReady := ready,
       txBusy := if tx.Some? then tx.value else f.txBusy,
       cadBusy := if cad.Some? then cad.value else f.cadBusy,
       txresultKnown := result.Some? || f.txresultKnown,
       txresultEnabled := if result.Some? then result.value else f.txresultEnabled)
  }

  /** bridge_conf_handle_line on the NUL-terminated line buffer. */
  function ApplyLine(f: Flags, buffer: seq<byte>): Flags {
    var line := CStr(buffer);
    var tx, cad := FlagLine(line, TX_KEY), FlagLine(line, CAD_KEY);
    if tx == Some(true) then f.(txBusy := true, txSeq := f.txSeq + 1, txBusySeq := f.txBusySeq + 1)
    else if tx == Some(false) then f.(txBusy := false, txSeq := f.txSeq + 1, txIdleSeq := f.txIdleSeq + 1)
    else if cad == Some(true) then f.(cadBusy := true, cadSeq := f.cadSeq + 1, cadBusySeq := f.cadBusySeq + 1)
    else if cad == Some(false) then f.(cadBusy := false, cadSeq := f.cadSeq + 1, cadIdleSeq := f.cadIdleSeq + 1)
    else if STATUS_KEY <= line then ApplyStatus(f, line)
    else f
  }

  function ApplyLines(f: Flags, ls: seq<seq<byte>>): Flags
    decreases |ls|
  {
    if ls == [] then f else ApplyLines(ApplyLine(f, ls[0]), ls[1..])
  }

  lemma {:induction false} ApplyConcat(f: Flags, a: seq<seq<byte>>, b: seq<seq<byte>>)
    ensures ApplyLines(f, a + b) == ApplyLines(ApplyLines(f, a), b)
    decreases |a|
  {
    if a == [] {
      assert a + b == b;
    } else {
      assert (a + b)[1..] == a[1..] + b;
      ApplyConcat(ApplyLine(f, a[0]), a[1..], b);
    }
  }

  /** How many of the lines are the TX (or CAD) event with the given value. */
  function CountTx(ls: seq<seq<byte>>, busy: bool): nat {
    if ls == [] then 0 else One(IsTx(ls[0], busy)) + CountTx(ls[1..], busy)
  }

  function CountCad(ls: seq<seq<byte>>, busy: bool): nat {
    if ls == [] then 0 else One(IsCad(ls[0], busy)) + CountCad(ls[1..], busy)
  }

  lemma KeysDiffer(line: seq<byte>)
    ensures FlagLine(line, TX_KEY).Some? ==> FlagLine(line, CAD_KEY).None?
  {
    if FlagLine(line, TX_KEY).Some? {
      assert line[0] == TX_KEY[0];
    }
  }

  /** Counter increments of `g` over `f`: TX busy, TX idle, CAD busy, CAD idle. */
  predicate Counted(f: Flags, g: Flags, txBusy: nat, txIdle: nat, cadBusy: nat, cadIdle: nat) {
    && g.txBusySeq == f.txBusySeq + txBusy && g.txIdleSeq == f.txIdleSeq + txIdle
    && g.txSeq == f.txSeq + txBusy + txIdle
    && g.cadBusySeq == f.cadBusySeq + cadBusy && g.cadIdleSeq == f.cadIdleSeq + cadIdle
    && g.cadSeq == f.cadSeq + cadBusy + cadIdle
  }

  lemma CountStep(f: Flags, line: seq<byte>)
    ensures Counted(f, ApplyLine(f, line), One(IsTx(line, true)), One(IsTx(line, false)),
                    One(IsCad(line, true)), One(IsCad(line, false)))
  {
    KeysDiffer(CStr(line));
  }

  /** Each sequence counter counts exactly its event lines, and each total is the sum of its two. */
  lemma {:induction false} CountersCount(f: Flags, ls: seq<seq<byte>>)
    ensures Counted(f, ApplyLines(f, ls), CountTx(ls, true), CountTx(ls, false),
                    CountCad(ls, true), CountCad(ls, false))
    decreases |ls|
  {
    if ls != [] {
      CountStep(f, ls[0]);
      CountersCount(ApplyLine(f, ls[0]), ls[1..]);
    }
  }

  /** A STATUS line is needed for have_status, and nothing clears it. */
  lemma {:induction false} StatusSeen(f: Flags, ls: seq<seq<byte>>)
    ensures ApplyLines(f, ls).haveStatus <==> f.haveStatus || exists l :: l in ls && IsStatus(l)
    decreases |ls|
  {
    if ls != [] {
      StatusStep(f, ls[0]);
      StatusSeen(ApplyLine(f, ls[0]), ls[1..]);
      assert ls == [ls[0]] + ls[1..];
    }
  }

  lemma StatusStep(f: Flags, line: seq<byte>)
    ensures ApplyLine(f, line).haveStatus <==> f.haveStatus || IsStatus(line)
  {
    var c := CStr(line);
    if STATUS_KEY <= c {
      assert c[0] == STATUS_KEY[0] && c[1] == STATUS_KEY[1];
    }
  }

  // ---------- what lines report, by their characters ----------

  /** What a line can report: TX=, CAD= and TXRESULT= followed by a digit, and RADIO= in a STATUS line. */
  datatype Topic = Tx | Cad | TxResult | Radio

  predicate StandsAt(line: seq<byte>, key: seq<byte>, p: nat) {
    p + |key| <= |line| && line[p..p + |key|] == key
  }

  ghost predicate Has(line: seq<byte>, key: seq<byte>) {
    exists p: nat :: StandsAt(line, key, p)
  }

  /** The key first stands at place `p`, and the digit behind it. */
  ghost predicate FirstAt(line: seq<byte>, key: seq<byte>, p: nat, digit: byte) {
    && StandsAt(line, key, p) && (forall q: nat :: q < p ==> !StandsAt(line, key, q))
    && p + |key| < |line| && line[p + |key|] == digit
  }

  ghost predicate FirstSays(line: seq<byte>, key: seq<byte>, digit: byte) {
    exists p: nat :: FirstAt(line, key, p, digit)
  }

  /** "STATUS " and anything. */
  predicate StatusText(line: seq<byte>) {
    |line| >= 7 && line[..7] == [83, 84, 65, 84, 85, 83, 32]
  }

  /** The line reports `yes` (1 or READY) or not (0, or FAILED or UNINITIALIZED) about the topic. */
  ghost predicate Reports(t: Topic, buffer: seq<byte>, yes: bool) {
    var line, digit := CStr(buffer), if yes then 49 else 48;
    match t
    case Tx => line == [84, 88, 61, digit] || (StatusText(line) && FirstSays(line, [84, 88, 61], digit))
    case Cad => line == [67, 65, 68, 61, digit] || (StatusText(line) && FirstSays(line, [67, 65, 68, 61], digit))
    case TxResult => StatusText(line) && FirstSays(line, [84, 88, 82, 69, 83, 85, 76, 84, 61], digit)
    case Radio =>
      var ready := Has(line, [82, 65, 68, 73, 79, 61, 82, 69, 65, 68, 89]);
      && StatusText(line)
      && if yes then ready
         else !ready && (Has(line, [82, 65, 68, 73, 79, 61, 70, 65, 73, 76, 69, 68])
                         || Has(line, [82, 65, 68, 73, 79, 61,
                                       85, 78, 73, 78, 73, 84, 73, 65, 76, 73, 90, 69, 68]))
  }

  ghost predicate Silent(t: Topic, ls: seq<seq<byte>>) {
    forall l :: l in ls ==> !Reports(t, l, true) && !Reports(t, l, false)
  }

  /** What the state says about the topic. */
  function Word(t: Topic, f: Flags): bool {
    match t
    case Tx => f.txBusy
    case Cad => f.cadBusy
    case TxResult => f.txresultEnabled
    case Radio => f.radioReady
  }

  /** `after` is what the last of the lines that report anything about the topic says, and `before` if none does. */
  ghost predicate Told(t: Topic, before: bool, ls: seq<seq<byte>>, after: bool) {
    || (Silent(t, ls) && after == before)
    || exists k: nat :: LastReport(t, ls, k, after)
  }

  ghost predicate LastReport(t: Topic, ls: seq<seq<byte>>, k: nat, yes: bool) {
    k < |ls| && Reports(t, ls[k], yes) && Silent(t, ls[k + 1..])
  }

  lemma {:induction false} FindIsFirst(line: seq<byte>, key: seq<byte>)
    ensures Find(line, key).None? <==> !Has(line, key)
    ensures Find(line, key).Some? ==>
              && StandsAt(line, key, Find(line, key).value)
              && forall q: nat :: q < Find(line, key).value ==> !StandsAt(line, key, q)
  {
    assert StandsAt(line, key, 0) <==> key <= line;
    if !(key <= line) && line != [] {
      FindIsFirst(line[1..], key);
      forall p: nat | p < |line|
        ensures StandsAt(line, key, p + 1) <==> StandsAt(line[1..], key, p)
      {
        Shifted(line, key, p);
      }
      assert forall q: nat :: 0 < q && StandsAt(line, key, q) ==> StandsAt(line[1..], key, q - 1);
    }
  }

  lemma Shifted(line: seq<byte>, key: seq<byte>, p: nat)
    requires p < |line|
    ensures StandsAt(line, key, p + 1) <==> StandsAt(line[1..], key, p)
  {
    if p + 1 + |key| <= |line| {
      assert line[p + 1..p + 1 + |key|] == line[1..][p..p + |key|];
    }
  }

  lemma TokenIsFirst(line: seq<byte>, key: seq<byte>)
    ensures FlagToken(line, key) == Some(true) <==> FirstSays(line, key, 49)
    ensures FlagToken(line, key) == Some(false) <==> FirstSays(line, key, 48)
  {
    FindIsFirst(line, key);
    var p := Find(line, key);
    if p.Some? && p.value + |key| < |line| {
      var d := line[p.value + |key|];
      assert FirstAt(line, key, p.value, d);
      forall q: nat, e: byte | FirstAt(line, key, q, e)
        ensures q == p.value && e == d
      {
        assert !(q < p.value) && !(p.value < q);
      }
    }
  }

  /** No line reports both. */
  lemma OneReport(t: Topic, line: seq<byte>)
    ensures !(Reports(t, line, true) && Reports(t, line, false))
  {
    var c := CStr(line);
    TokenIsFirst(c, [84, 88, 61]);
    TokenIsFirst(c, [67, 65, 68, 61]);
    TokenIsFirst(c, [84, 88, 82, 69, 83, 85, 76, 84, 61]);
  }

  /** The event and STATUS lines that the counters are about, by their characters. */
  lemma EventLines(line: seq<byte>)
    ensures IsTx(line, true) <==> CStr(line) == [84, 88, 61, 49]
    ensures IsTx(line, false) <==> CStr(line) == [84, 88, 61, 48]
    ensures IsCad(line, true) <==> CStr(line) == [67, 65, 68, 61, 49]
    ensures IsCad(line, false) <==> CStr(line) == [67, 65, 68, 61, 48]
    ensures IsStatus(line) <==> StatusText(CStr(line))
  {
    var c := CStr(line);
    assert STATUS_KEY <= c <==> |c| >= 7 && c[..7] == STATUS_KEY;
  }

  /** One line. */
  lemma ReportStep(t: Topic, f: Flags, line: seq<byte>)
    ensures Reports(t, line, true) ==> Word(t, ApplyLine(f, line))
    ensures Reports(t, line, false) ==> !Word(t, ApplyLine(f, line))
    ensures Silent(t, [line]) ==> Word(t, ApplyLine(f, line)) == Word(t, f)
  {
    var c := CStr(line);
    EventLines(line);
    OneReport(t, line);
    assert line in [line];
    match t {
      case Tx => TokenIsFirst(c, TX_KEY);
      case Cad => TokenIsFirst(c, CAD_KEY);
      case TxResult => TokenIsFirst(c, TXRESULT_KEY);
      case Radio =>
        FindIsFirst(c, READY);
        FindIsFirst(c, FAILED);
        FindIsFirst(c, UNINITIALIZED);
    }
  }

  lemma ToldStep(t: Topic, f: Flags, line: seq<byte>)
    ensures Told(t, Word(t, f), [line], Word(t, ApplyLine(f, line)))
  {
    ReportStep(t, f, line);
    if !Silent(t, [line]) {
      assert [line][1..] == [];
      assert LastReport(t, [line], 0, Word(t, ApplyLine(f, line)));
    }
  }

  /** What some lines report, and then some more. */
  lemma ToldTwice(t: Topic, before: bool, a: seq<seq<byte>>, mid: bool, b: seq<seq<byte>>, after: bool)
    requires Told(t, before, a, mid) && Told(t, mid, b, after)
    ensures Told(t, before, a + b, after)
  {
    if Silent(t, b) {
      if !Silent(t, a) {
        var k: nat :| LastReport(t, a, k, mid);
        assert (a + b)[k + 1..] == a[k + 1..] + b;
        assert LastReport(t, a + b, k, after);
      }
    } else {
      var k: nat :| LastReport(t, b, k, after);
      assert (a + b)[|a| + k + 1..] == b[k + 1..];
      assert LastReport(t, a + b, |a| + k, after);
    }
  }

  /** After any lines the state says about TX, CAD, TXRESULT and the radio what the last line that reports
      anything about it says. */
  lemma {:induction false} LastWord(t: Topic, f: Flags, ls: seq<seq<byte>>)
    ensures Told(t, Word(t, f), ls, Word(t, ApplyLines(f, ls)))
    decreases |ls|
  {
    if ls != [] {
      ToldStep(t, f, ls[0]);
      LastWord(t, ApplyLine(f, ls[0]), ls[1..]);
      ToldTwice(t, Word(t, f), [ls[0]], Word(t, ApplyLine(f, ls[0])), ls[1..], Word(t, ApplyLines(f, ls)));
      assert [ls[0]] + ls[1..] == ls;
    }
  }

  /** TXRESULT is known exactly if it was before or a line reports it. */
  lemma {:induction false} ResultKnown(f: Flags, ls: seq<seq<byte>>)
    ensures ApplyLines(f, ls).txresultKnown <==> f.txresultKnown || !Silent(TxResult, ls)
    decreases |ls|
  {
    if ls != [] {
      KnownStep(f, ls[0]);
      ResultKnown(ApplyLine(f, ls[0]), ls[1..]);
      SilentBoth(TxResult, [ls[0]], ls[1..]);
      assert [ls[0]] + ls[1..] == ls;
    }
  }

  lemma KnownStep(f: Flags, line: seq<byte>)
    ensures ApplyLine(f, line).txresultKnown <==> f.txresultKnown || !Silent(TxResult, [line])
  {
    TokenIsFirst(CStr(line), TXRESULT_KEY);
    EventLines(line);
    assert line in [line];
  }

  lemma SilentBoth(t: Topic, a: seq<seq<byte>>, b: seq<seq<byte>>)
    ensures Silent(t, a + b) <==> Silent(t, a) && Silent(t, b)
  {
    assert forall l :: l in a + b <==> l in a || l in b;
    if !Silent(t, a) {
      var l :| l in a && (Reports(t, l, true) || Reports(t, l, false));
      assert l in a + b;
    }
  }

  // ---------- bridge_conf_state_t ----------

  class ConfState {
    var flags: Flags
    const line: array<byte>
    var lineLen: nat
    var discard: bool

    ghost predicate Valid()
      reads this
    {
      line.Length == LINE_MAX && lineLen <= MAX_LINE && (discard ==> lineLen == 0)
    }

    ghost function Assembly(): (a: Asm)
      requires Valid()
      reads this, line
      ensures AsmValid(a)
    {
      Asm(line[..lineLen], discard)
    }

    constructor ()
      ensures Valid() && fresh(line) && flags == ZEROED && Assembly() == FRESH
    {
      line := new byte[LINE_MAX];
      flags, lineLen, discard := ZEROED, 0, false;
    }

    /** bridge_conf_state_init. */
    method Init()
      requires Valid()
      modifies this
      ensures Valid() && flags == ZEROED && Assembly() == FRESH
    {
      flags, lineLen, discard := ZEROED, 0, false;
    }

    /** One byte of bridge_conf_feed; `ghost handled` is the line it completed, if any. */
    method FeedByte(b: byte) returns (ghost handled: seq<seq<byte>>)
      requires Valid()
      modifies this, line
      ensures Valid()
      ensures (Assembly(), handled) == LineStep(old(Assembly()), b)
      ensures flags == ApplyLines(old(flags), handled)
    {
      handled := [];
      if b == CR {
        return;
      }
      if b == LF {
        if discard {
          discard, lineLen := false, 0;
          return;
        }
        handled := [line[..lineLen]];
        assert handled[1..] == [];
        flags := ApplyLine(flags, line[..lineLen]);
        lineLen := 0;
        return;
      }
      if discard {
        return;
      }
      if lineLen + 1 >= line.Length {
        discard, lineLen := true, 0;
        return;
      }
      ghost var before := line[..lineLen];
      line[lineLen] := b;
      lineLen := lineLen + 1;
      assert line[..lineLen] == before + [b];
    }

    /** bridge_conf_feed. */
    method Feed(bytes: seq<byte>) returns (ghost handled: seq<seq<byte>>)
      requires Valid()
      modifies this, line
      ensures Valid()
      ensures (Assembly(), handled) == Run(old(Assembly()), bytes)
      ensures flags == ApplyLines(old(flags), handled)
    {
      handled := [];
      ghost var result := Run(Assembly(), bytes);
      ghost var rest := bytes;
      var i := 0;
      assert [] + result.1 == result.1;
      while i < |bytes|
        invariant 0 <= i <= |bytes| && rest == bytes[i..] && Valid()
        invariant result == (Run(Assembly(), rest).0, handled + Run(Assembly(), rest).1)
        invariant flags == ApplyLines(old(flags), handled)
      {
        assert rest[0] == bytes[i];
        ghost var a := Assembly();
        ghost var one := FeedByte(bytes[i]);
        Assoc(handled, one, Run(Assembly(), rest[1..]).1);
        ApplyConcat(old(flags), handled, one);
        handled := handled + one;
        rest := rest[1..];
        i := i + 1;
      }
      assert handled + [] == handled;
    }
  }

  // ---------- CAD statistics ----------

  /** bridge_conf_collect_cad_stats for one of the two counters: the new mark and the increment. */
  function Collect(counter: nat, mark: nat): (r: (nat, nat))
    ensures r.0 == counter
  {
    var m := if counter < mark then counter else mark;
    (counter, counter - m)
  }
}
