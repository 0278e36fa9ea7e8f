/** The DEFLATE format of RFC 1951 as a machine: each step reads a field, decodes a symbol or emits a byte.
    It knows nothing of buffers, table look-ups or calls; the decompressor is proved against it. */
module Deflate {
  import opened Canonical
  import opened BitStream
  import opened Huffman

  // Section 3.2.5: lengths and distances.
  const LENGTH_BASE: seq<nat> := [
    3, 4, 5, 6, 7, 8, 9, 10, 11, 13, 15, 17, 19, 23, 27, 31, 35, 43, 51, 59, 67, 83, 99, 115, 131, 163, 195, 227, 258,
    0, 0]
  const LENGTH_EXTRA: seq<nat> := [
    0, 0, 0, 0, 0, 0, 0, 0, 1, 1, 1, 1, 2, 2, 2, 2, 3, 3, 3, 3, 4, 4, 4, 4, 5, 5, 5, 5, 0, 0, 0]
  const DIST_BASE: seq<nat> := [
    1, 2, 3, 4, 5, 7, 9, 13, 17, 25, 33, 49, 65, 97, 129, 193, 257, 385, 513, 769, 1025, 1537, 2049, 3073, 4097, 6145,
    8193, 12289, 16385, 24577, 0, 0]
  const DIST_EXTRA: seq<nat> := [
    0, 0, 0, 0, 1, 1, 2, 2, 3, 3, 4, 4, 5, 5, 6, 6, 7, 7, 8, 8, 9, 9, 10, 10, 11, 11, 12, 12, 13, 13, 0, 0]
  // Section 3.2.7: the order of the code lengths for code lengths.
  const ORDER: seq<nat> := [16, 17, 18, 0, 8, 7, 9, 6, 10, 5, 11, 4, 12, 3, 13, 2, 14, 1, 15]

  function MinTableSize(k: nat): nat {
    if k == 0 then 257 else if k == 1 then 1 else 4
  }

  function SizeBits(k: nat): nat {
    if k == 2 then 4 else 5
  }

  /** Section 3.2.6: the fixed code. */
  function FixedLengths(): Lengths {
    seq(288, i => if i < 144 then 8 else if i < 256 then 9 else if i < 280 then 7 else 8)
  }

  function FixedDistances(): Lengths {
    seq(32, i => 5)
  }

  datatype Phase =
    | Header
    | Align
    | RawHead(head: Bytes)
    | RawRead(left: nat)
    | RawEmit(left: nat, byte: nat)
    | TableSizes(sizes: Bytes)
    | CodeLens(sizes: Bytes, k: nat, lens: Lengths)
    | Codes(sizes: Bytes, lens: Lengths, codes: Lengths)
    | Repeat(sizes: Bytes, lens: Lengths, codes: Lengths, sym: nat)
    | Symbol(lit: Lengths, dst: Lengths)
    | Emit(lit: Lengths, dst: Lengths, byte: nat)
    | LengthBits(lit: Lengths, dst: Lengths, sym: nat)
    | Distance(lit: Lengths, dst: Lengths, len: nat)
    | DistanceBits(lit: Lengths, dst: Lengths, len: nat, sym: nat)
    | Copy(lit: Lengths, dst: Lengths, len: nat, d: nat)
    | Done
    | Failed
    | Beyond  // codes that no valid stream contains

  /** Bits consumed, bytes produced, whether this is the last block, and what comes next. */
  datatype Machine = Machine(pos: nat, out: Bytes, last: bool, phase: Phase)

  const START := Machine(0, [], false, Header)

  predicate Halted(a: Machine) {
    a.phase.Done? || a.phase.Failed? || a.phase.Beyond?
  }

  /** The next l bits as a number. */
  function Bits(all: Bytes, pos: nat, l: nat): nat {
    From(all, pos) % Pow(l)
  }

  /** The symbol whose code comes next, or -1. */
  ghost function NextSymbol(ls: Lengths, v: nat): int {
    if exists s: nat :: Matches(ls, v, s) then var s: nat :| Matches(ls, v, s); s else -1
  }

  ghost predicate Usable(ls: Lengths) {
    Complete(ls) || UsedTo(ls, |ls|) <= 1
  }

  function EndOfBlock(a: Machine): Machine {
    a.(phase := if a.last then Done else Header)
  }

  function NextHeader(all: Bytes, a: Machine): Machine {
    var v := Bits(all, a.pos, 3);
    var t := v / 2;
    a.(pos := a.pos + 3, last := v % 2 == 1,
       phase := if t == 0 then Align else if t == 1 then Symbol(FixedLengths(), FixedDistances())
         else if t == 2 then TableSizes([]) else Failed)
  }

  function NextRawHead(all: Bytes, a: Machine, h: Bytes): Machine {
    if |h| < 4 then a.(pos := a.pos + 8, phase := RawHead(h + [Bits(all, a.pos, 8)]))
    else if h[0] + 0x100 * h[1] + (h[2] + 0x100 * h[3]) != 0xFFFF then a.(phase := Failed)
    else a.(phase := RawRead(h[0] + 0x100 * h[1]))
  }

  function NextRawRead(all: Bytes, a: Machine, left: nat): Machine {
    if left == 0 then EndOfBlock(a)
    else if a.pos >= 8 * |all| then a.(phase := Failed)
    else a.(pos := a.pos + 8, phase := RawEmit(left, Bits(all, a.pos, 8)))
  }

  function NextTableSizes(all: Bytes, a: Machine, sizes: Bytes): Machine {
    if |sizes| < 3 then
      var n := SizeBits(|sizes|);
      a.(pos := a.pos + n, phase := TableSizes(sizes + [Bits(all, a.pos, n) + MinTableSize(|sizes|)]))
    else a.(phase := CodeLens(sizes, 0, seq(19, i => 0)))
  }

  ghost function NextCodeLens(all: Bytes, a: Machine, sizes: Bytes, k: nat, lens: Lengths): Machine {
    if |sizes| == 3 && k < sizes[2] && k < 19 && |lens| == 19 then
      a.(pos := a.pos + 3, phase := CodeLens(sizes, k + 1, lens[ORDER[k] := Bits(all, a.pos, 3)]))
    else a.(phase := if Usable(lens) then Codes(sizes, lens, []) else Failed)
  }

  ghost function NextCodes(all: Bytes, a: Machine, sizes: Bytes, lens: Lengths, codes: Lengths): Machine
    requires |sizes| == 3
  {
    if |codes| < sizes[0] + sizes[1] then
      var s := NextSymbol(lens, From(all, a.pos));
      if s < 0 || s >= |lens| then a.(phase := Beyond)
      else
        var b := a.(pos := a.pos + lens[s]);
        if s < 16 then b.(phase := Codes(sizes, lens, codes + [s]))
        else if s == 16 && |codes| == 0 then b.(phase := Failed)
        else b.(phase := Repeat(sizes, lens, codes, s))
    else if |codes| != sizes[0] + sizes[1] || !Usable(codes[sizes[0]..]) || !Usable(codes[..sizes[0]]) then
      a.(phase := Failed)
    else a.(phase := Symbol(codes[..sizes[0]], codes[sizes[0]..]))
  }

  function RepeatBits(sym: nat): nat {
    if sym == 16 then 2 else if sym == 17 then 3 else 7
  }

  function RepeatBase(sym: nat): nat {
    if sym == 18 then 11 else 3
  }

  /** The code lengths with a run of n equal ones: copies of the last one, or zeros. */
  function WithRun(codes: Lengths, sym: nat, n: nat): Lengths {
    codes + seq(n, i => if sym == 16 && |codes| > 0 then codes[|codes| - 1] else 0)
  }

  function NextRepeat(all: Bytes, a: Machine, sizes: Bytes, lens: Lengths, codes: Lengths, sym: nat): Machine {
    var n := RepeatBits(sym);
    a.(pos := a.pos + n, phase := Codes(sizes, lens, WithRun(codes, sym, Bits(all, a.pos, n) + RepeatBase(sym))))
  }

  ghost function NextLiteral(all: Bytes, a: Machine, lit: Lengths, dst: Lengths): Machine {
    var s := NextSymbol(lit, From(all, a.pos));
    if s < 0 || s >= |lit| || s >= 286 then a.(phase := Beyond)
    else
      var b := a.(pos := a.pos + lit[s]);
      if s < 256 then b.(phase := Emit(lit, dst, s))
      else if s == 256 then EndOfBlock(b)
      else b.(phase := LengthBits(lit, dst, s))
  }

  function NextLength(all: Bytes, a: Machine, lit: Lengths, dst: Lengths, sym: nat): Machine
    requires 257 <= sym < 286
  {
    var n := LENGTH_EXTRA[sym - 257];
    a.(pos := a.pos + n, phase := Distance(lit, dst, LENGTH_BASE[sym - 257] + Bits(all, a.pos, n)))
  }

  ghost function NextDistance(all: Bytes, a: Machine, lit: Lengths, dst: Lengths, len: nat): Machine {
    var s := NextSymbol(dst, From(all, a.pos));
    if s < 0 || s >= |dst| || s >= 30 then a.(phase := Beyond)
    else a.(pos := a.pos + dst[s], phase := DistanceBits(lit, dst, len, s))
  }

  function NextDistanceBits(all: Bytes, a: Machine, lit: Lengths, dst: Lengths, len: nat, sym: nat): Machine
    requires sym < 30
  {
    var n := DIST_EXTRA[sym];
    var d := DIST_BASE[sym] + Bits(all, a.pos, n);
    a.(pos := a.pos + n, phase := if d > |a.out| then Failed else Copy(lit, dst, len, d))
  }

  /** Section 3.2.3: the copied string may overlap what is being written. */
  function NextCopy(a: Machine, lit: Lengths, dst: Lengths, len: nat, d: nat): Machine
    requires 0 < d <= |a.out|
  {
    if len == 0 then a.(phase := Symbol(lit, dst))
    else a.(out := a.out + [a.out[|a.out| - d]], phase := Copy(lit, dst, len - 1, d))
  }

  /** What holds of the machine's registers in every run. */
  ghost predicate Sane(a: Machine) {
    match a.phase
    case RawHead(h) => |h| <= 4 && a.pos % 8 == 0 && forall i :: 0 <= i < |h| ==> h[i] < 0x100
    case RawRead(left) => a.pos % 8 == 0
    case RawEmit(left, byte) => left > 0 && a.pos % 8 == 0 && byte < 0x100
    case TableSizes(sizes) => SizesOk(sizes)
    case CodeLens(sizes, k, lens) => SizesOk(sizes) && |sizes| == 3 && k <= sizes[2] && |lens| == 19 && Sizes(lens)
    case Codes(sizes, lens, codes) => SizesOk(sizes) && |sizes| == 3 && |lens| == 19 && Sizes(lens) && Usable(lens)
      && Sizes(codes) && |codes| < sizes[0] + sizes[1] + 138
    case Repeat(sizes, lens, codes, sym) =>
      && SizesOk(sizes) && |sizes| == 3 && |lens| == 19 && Sizes(lens) && Usable(lens) && Sizes(codes)
        && |codes| < sizes[0] + sizes[1]
      && 16 <= sym <= 18 && (sym == 16 ==> |codes| > 0)
    case Symbol(lit, dst) => TablesOk(lit, dst)
    case Emit(lit, dst, byte) => TablesOk(lit, dst) && byte < 256
    case LengthBits(lit, dst, sym) => TablesOk(lit, dst) && 257 <= sym < 286
    case Distance(lit, dst, len) => TablesOk(lit, dst) && 3 <= len <= 258
    case DistanceBits(lit, dst, len, sym) => TablesOk(lit, dst) && 3 <= len <= 258 && sym < 30
    case Copy(lit, dst, len, d) => TablesOk(lit, dst) && 0 < d <= |a.out| && len <= 258
    case _ => true
  }

  ghost predicate SizesOk(sizes: Bytes) {
    && |sizes| <= 3 && (|sizes| > 0 ==> 257 <= sizes[0] <= 288) && (|sizes| > 1 ==> 1 <= sizes[1] <= 32)
    && (|sizes| > 2 ==> 4 <= sizes[2] <= 19)
  }

  ghost predicate TablesOk(lit: Lengths, dst: Lengths) {
    |lit| <= 288 && |dst| <= 32 && Sizes(lit) && Sizes(dst) && Usable(lit) && Usable(dst)
  }

  ghost function Next(all: Bytes, a: Machine): Machine
    requires Sane(a)
  {
    match a.phase
    case Header => NextHeader(all, a)
    case Align => a.(pos := (a.pos + 7) / 8 * 8, phase := RawHead([]))
    case RawHead(h) => NextRawHead(all, a, h)
    case RawRead(left) => NextRawRead(all, a, left)
    case RawEmit(left, byte) => a.(out := a.out + [byte], phase := RawRead(left - 1))
    case TableSizes(sizes) => NextTableSizes(all, a, sizes)
    case CodeLens(sizes, k, lens) => NextCodeLens(all, a, sizes, k, lens)
    case Codes(sizes, lens, codes) => NextCodes(all, a, sizes, lens, codes)
    case Repeat(sizes, lens, codes, sym) => NextRepeat(all, a, sizes, lens, codes, sym)
    case Symbol(lit, dst) => NextLiteral(all, a, lit, dst)
    case Emit(lit, dst, byte) => a.(out := a.out + [byte], phase := Symbol(lit, dst))
    case LengthBits(lit, dst, sym) => NextLength(all, a, lit, dst, sym)
    case Distance(lit, dst, len) => NextDistance(all, a, lit, dst, len)
    case DistanceBits(lit, dst, len, sym) => NextDistanceBits(all, a, lit, dst, len, sym)
    case Copy(lit, dst, len, d) => NextCopy(a, lit, dst, len, d)
    case _ => a
  }

  // ----- the fixed codes are complete -----

  lemma {:induction false} CountRun(ls: Lengths, m: nat, n: nat, l: nat, v: nat)
    requires m <= n <= |ls| && forall i :: m <= i < n ==> ls[i] == v
    ensures CountTo(ls, n, l) == CountTo(ls, m, l) + if l == v then n - m else 0
    decreases n - m
  {
    if m < n { CountRun(ls, m, n - 1, l, v); }
  }

  lemma FixedCounts(l: nat)
    ensures Count(FixedLengths(), l) == if l == 7 then 24 else if l == 8 then 152 else if l == 9 then 112 else 0
    ensures Count(FixedDistances(), l) == if l == 5 then 32 else 0
  {
    var ls, ds := FixedLengths(), FixedDistances();
    CountRun(ls, 0, 144, l, 8);
    CountRun(ls, 144, 256, l, 9);
    CountRun(ls, 256, 280, l, 7);
    CountRun(ls, 280, 288, l, 8);
    CountRun(ds, 0, 32, l, 5);
  }

  function FixedFirst(l: nat): nat {
    if l <= 1 then 0 else 2 * (FixedFirst(l - 1) + if l == 8 then 24 else if l == 9 then 152 else if l == 10 then 112
      else 0)
  }

  function FixedDistanceFirst(l: nat): nat {
    if l <= 1 then 0 else 2 * (FixedDistanceFirst(l - 1) + if l == 6 then 32 else 0)
  }

  lemma {:induction false} FixedFirsts(l: nat)
    ensures First(FixedLengths(), l) == FixedFirst(l) && First(FixedDistances(), l) == FixedDistanceFirst(l)
  {
    hide FixedLengths, FixedDistances, Count;
    if l > 1 {
      FixedFirsts(l - 1);
      FixedCounts(l - 1);
    }
  }

  lemma FixedComplete()
    ensures Complete(FixedLengths()) && Complete(FixedDistances())
  {
    assert Sizes(FixedLengths()) && Sizes(FixedDistances());
    hide First, FixedLengths, FixedDistances, Sizes, FixedFirst, FixedDistanceFirst;
    FixedFirsts(16);
    FixedNumbers();
  }

  lemma FixedNumbers()
    ensures FixedFirst(16) == 0x1_0000 && FixedDistanceFirst(16) == 0x1_0000
  {
    assert FixedFirst(5) == 0 && FixedDistanceFirst(5) == 0;
    assert FixedFirst(8) == 48 && FixedDistanceFirst(8) == 256;
    assert FixedFirst(10) == 1024 && FixedDistanceFirst(10) == 1024;
    assert FixedFirst(13) == 8192 && FixedDistanceFirst(13) == 8192;
  }

  // ----- runs -----

  lemma SymbolBound(ls: Lengths, v: nat)
    ensures NextSymbol(ls, v) < |ls|
    ensures NextSymbol(ls, v) >= 0 ==> Matches(ls, v, NextSymbol(ls, v))
  {
  }

  lemma BitsBound(all: Bytes, pos: nat, l: nat)
    ensures Bits(all, pos, l) < Pow(l)
    ensures Pow(3) == 8 && Pow(4) == 16 && Pow(5) == 32 && Pow(7) == 128 && Pow(8) == 256
  {
  }

  lemma SaneCodeLens(all: Bytes, a: Machine, sizes: Bytes, k: nat, lens: Lengths)
    requires SizesOk(sizes) && |sizes| == 3 && k <= sizes[2] && |lens| == 19 && Sizes(lens)
    ensures Sane(NextCodeLens(all, a, sizes, k, lens))
  {
    hide Usable, Bits;
    BitsBound(all, a.pos, 3);
  }

  lemma SaneCodes(all: Bytes, a: Machine, sizes: Bytes, lens: Lengths, codes: Lengths)
    requires SizesOk(sizes) && |sizes| == 3 && |lens| == 19 && Sizes(lens) && Usable(lens) && Sizes(codes)
      && |codes| < sizes[0] + sizes[1] + 138
    ensures Sane(NextCodes(all, a, sizes, lens, codes))
  {
    hide NextSymbol, Usable, From;
    SymbolBound(lens, From(all, a.pos));
  }

  lemma SaneRepeat(all: Bytes, a: Machine, sizes: Bytes, lens: Lengths, codes: Lengths, sym: nat)
    requires SizesOk(sizes) && |sizes| == 3 && |lens| == 19 && Sizes(lens) && Usable(lens) && Sizes(codes)
      && |codes| < sizes[0] + sizes[1]
    requires 16 <= sym <= 18 && (sym == 16 ==> |codes| > 0)
    ensures Sane(NextRepeat(all, a, sizes, lens, codes, sym))
  {
    hide Usable, Bits;
    var n := RepeatBits(sym);
    BitsBound(all, a.pos, n);
    assert Pow(2) == 4;
    hide Pow;
    assert Bits(all, a.pos, n) + RepeatBase(sym) <= 138;
  }

  lemma SaneLiteral(all: Bytes, a: Machine, lit: Lengths, dst: Lengths)
    requires TablesOk(lit, dst)
    ensures Sane(NextLiteral(all, a, lit, dst))
  {
    hide NextSymbol, TablesOk, From;
  }

  lemma SaneDistance(all: Bytes, a: Machine, lit: Lengths, dst: Lengths, len: nat)
    requires TablesOk(lit, dst) && 3 <= len <= 258
    ensures Sane(NextDistance(all, a, lit, dst, len))
  {
    hide NextSymbol, TablesOk, From;
  }

  lemma SaneRaw(all: Bytes, a: Machine)
    requires Sane(a) && (a.phase.Header? || a.phase.Align? || a.phase.RawHead? || a.phase.RawRead? || a.phase.RawEmit?)
    ensures Sane(Next(all, a))
  {
    hide TablesOk, Bits, FixedLengths, FixedDistances, Usable, Sizes, From;
    FixedUsable();
    ByteBits(all, a.pos);
  }

  lemma SaneLength(all: Bytes, a: Machine)
    requires Sane(a) && a.phase.LengthBits?
    ensures Sane(Next(all, a))
  {
    LengthRange(all, a.pos, a.phase.sym);
    hide TablesOk, Bits, Usable, Sizes, From, LENGTH_BASE, LENGTH_EXTRA, DIST_BASE, DIST_EXTRA;
  }

  lemma SaneCopy(all: Bytes, a: Machine)
    requires Sane(a) && (a.phase.Emit? || a.phase.Copy?)
    ensures Sane(Next(all, a))
  {
    hide TablesOk, Bits, Usable, Sizes, From, LENGTH_BASE, LENGTH_EXTRA, DIST_BASE, DIST_EXTRA;
  }

  lemma SaneDistanceBits(all: Bytes, a: Machine)
    requires Sane(a) && a.phase.DistanceBits?
    ensures Sane(Next(all, a))
  {
    DistancesPositive();
    hide TablesOk, Bits, Usable, Sizes, From, LENGTH_BASE, LENGTH_EXTRA, DIST_BASE, DIST_EXTRA;
  }

  lemma DistancesPositive()
    ensures |DIST_BASE| == |DIST_EXTRA| == 32 && forall i :: 0 <= i < 30 ==> DIST_BASE[i] > 0
  {
  }

  /** Every step keeps the registers sane. */
  lemma SaneNext(all: Bytes, a: Machine)
    requires Sane(a)
    ensures Sane(Next(all, a))
  {
    hide TablesOk, Bits, NextHeader, NextRawHead, NextRawRead, NextTableSizes, NextCodeLens, NextCodes, NextRepeat,
      NextLiteral, NextLength, NextDistance, NextDistanceBits, NextCopy, Usable, Sizes, SizesOk, From;
    match a.phase
    case TableSizes(sizes) =>
      SaneTableSizes(all, a, sizes);
    case CodeLens(sizes, k, lens) =>
      SaneCodeLens(all, a, sizes, k, lens);
    case Codes(sizes, lens, codes) =>
      SaneCodes(all, a, sizes, lens, codes);
    case Repeat(sizes, lens, codes, sym) =>
      SaneRepeat(all, a, sizes, lens, codes, sym);
    case Symbol(lit, dst) =>
      SaneLiteral(all, a, lit, dst);
    case Distance(lit, dst, len) =>
      SaneDistance(all, a, lit, dst, len);
    case Done =>
    case Failed =>
    case Beyond =>
    case _ =>
      if a.phase.LengthBits? {
        SaneLength(all, a);
      } else if a.phase.DistanceBits? {
        SaneDistanceBits(all, a);
      } else if a.phase.Emit? || a.phase.Copy? {
        SaneCopy(all, a);
      } else {
        SaneRaw(all, a);
      }
  }

  lemma ByteBits(all: Bytes, pos: nat)
    ensures Bits(all, pos, 8) < 0x100
  {
    BitsBound(all, pos, 8);
  }

  lemma SaneTableSizes(all: Bytes, a: Machine, sizes: Bytes)
    requires SizesOk(sizes)
    ensures Sane(NextTableSizes(all, a, sizes))
  {
    hide Bits;
    BitsBound(all, a.pos, SizeBits(|sizes|));
  }

  lemma FixedUsable()
    ensures TablesOk(FixedLengths(), FixedDistances())
  {
    FixedComplete();
    assert |FixedLengths()| == 288 && |FixedDistances()| == 32;
  }

  /** Lengths are between 3 and 258. */
  lemma LengthRange(all: Bytes, pos: nat, sym: nat)
    requires 257 <= sym < 286
    ensures 3 <= LENGTH_BASE[sym - 257] + Bits(all, pos, LENGTH_EXTRA[sym - 257]) <= 258
  {
    var k := sym - 257;
    var n := LENGTH_EXTRA[k];
    BitsBound(all, pos, n);
    assert Pow(0) == 1 && Pow(1) == 2 && Pow(2) == 4 && Pow(3) == 8 && Pow(4) == 16 && Pow(5) == 32;
    hide Bits, Pow;
    if k < 8 { assert n == 0; } else if k < 12 { assert n == 1; } else if k < 16 { assert n == 2; }
    else if k < 20 { assert n == 3; } else if k < 24 { assert n == 4; } else if k < 28 { assert n == 5; }
  }

  /** The machine after n steps. */
  ghost function After(all: Bytes, n: nat): (a: Machine)
    ensures Sane(a)
  {
    if n == 0 then START else
      var a := After(all, n - 1);
      SaneNext(all, a);
      Next(all, a)
  }

  /** A machine that has halted stays as it is. */
  lemma {:induction false} Halts(all: Bytes, m: nat, n: nat)
    requires m <= n && Halted(After(all, m))
    ensures After(all, n) == After(all, m)
  {
    hide Next, Sane, Halted;
    if m < n {
      Halts(all, m, n - 1);
      HaltedNext(all, After(all, n - 1));
      AfterNext(all, n - 1);
    }
  }

  lemma HaltedNext(all: Bytes, a: Machine)
    requires Sane(a) && Halted(a)
    ensures Next(all, a) == a
  {
  }

  lemma AfterNext(all: Bytes, n: nat)
    ensures After(all, n + 1) == Next(all, After(all, n))
  {
    hide Next, Sane;
  }

  /** So there is at most one outcome. */
  lemma OneOutcome(all: Bytes, m: nat, n: nat)
    requires Halted(After(all, m)) && Halted(After(all, n))
    ensures After(all, m) == After(all, n)
  {
    if m <= n { Halts(all, m, n); } else { Halts(all, n, m); }
  }

  /** Output is never taken back. */
  lemma NextGrows(all: Bytes, a: Machine)
    requires Sane(a)
    ensures |Next(all, a).out| >= |a.out|
  {
    hide Bits, TablesOk, FixedLengths, FixedDistances, DIST_BASE, DIST_EXTRA, LENGTH_BASE, LENGTH_EXTRA, Usable, Sizes,
      NextSymbol, From;
  }

  lemma {:induction false} OutputGrows(all: Bytes, k: nat, n: nat)
    requires k <= n
    ensures |After(all, k).out| <= |After(all, n).out|
  {
    hide Next, Sane;
    if k < n {
      OutputGrows(all, k, n - 1);
      AfterNext(all, n - 1);
      NextGrows(all, After(all, n - 1));
    }
  }

  /** A halted machine has all the output there will be. */
  lemma MostOutput(all: Bytes, k: nat, n: nat)
    requires Halted(After(all, n))
    ensures |After(all, k).out| <= |After(all, n).out|
  {
    if k <= n { OutputGrows(all, k, n); } else { Halts(all, n, k); }
  }
}
