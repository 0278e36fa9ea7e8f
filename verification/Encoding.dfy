/** An encoder for the DEFLATE format, written from RFC 1951 with formulas of its own, and the proof that what it writes
    is decoded: stored blocks, blocks with the fixed codes, and blocks that bring their own. */
module Encoding {
  import opened Canonical
  import opened BitStream
  import opened BitLists
  import opened Huffman
  import opened Deflate

  // ----- section 3.2.5: lengths and distances -----

  /** The k-th range of lengths, that of symbol 257 + k, starts here; it has 2^LengthBits(k) lengths. */
  function LengthBits(k: nat): nat {
    if k < 8 || k == 28 then 0 else (k - 4) / 4
  }

  function LengthStart(k: nat): nat {
    if k < 8 then 3 + k else if k == 28 then 258 else 3 + (4 + k % 4) * Pow(LengthBits(k))
  }

  function DistanceBits(k: nat): nat {
    if k < 4 then 0 else k / 2 - 1
  }

  function DistanceStart(k: nat): nat {
    if k < 4 then 1 + k else 1 + (2 + k % 2) * Pow(DistanceBits(k))
  }

  lemma SmallPowers()
    ensures Pow(0) == 1 && Pow(1) == 2 && Pow(2) == 4 && Pow(3) == 8 && Pow(4) == 16 && Pow(5) == 32 && Pow(6) == 64
    ensures Pow(7) == 128 && Pow(8) == 256 && Pow(9) == 512 && Pow(10) == 1024 && Pow(11) == 2048 && Pow(12) == 4096
    ensures Pow(13) == 8192 && Pow(16) == 0x1_0000
  {
    assert Pow(4) == 16;
    assert Pow(8) == 256;
    assert Pow(12) == 4096;
  }

  /** The tables of the decompressor are these formulas. */
  lemma LengthTable(k: nat)
    requires k < 29
    ensures LENGTH_BASE[k] == LengthStart(k) && LENGTH_EXTRA[k] == LengthBits(k)
  {
    SmallPowers();
    hide Pow;
    if k < 8 {
    } else if k < 12 { assert LengthBits(k) == 1; }
    else if k < 16 { assert LengthBits(k) == 2; }
    else if k < 20 { assert LengthBits(k) == 3; }
    else if k < 24 { assert LengthBits(k) == 4; }
    else if k < 28 { assert LengthBits(k) == 5; }
  }

  lemma DistanceTable(k: nat)
    requires k < 30
    ensures DIST_BASE[k] == DistanceStart(k) && DIST_EXTRA[k] == DistanceBits(k)
  {
    SmallPowers();
    hide Pow;
    if k < 4 {
    } else if k < 10 { assert DistanceBits(k) == k / 2 - 1; }
    else if k < 20 { assert DistanceBits(k) == k / 2 - 1; }
    else { assert DistanceBits(k) == k / 2 - 1; }
  }

  lemma LengthNext(k: nat)
    requires k < 27
    ensures LengthStart(k + 1) == LengthStart(k) + Pow(LengthBits(k))
  {
    hide Pow;
    SmallPowers();
    if k >= 8 { Doubling(4 + k % 4, LengthBits(k)); }
  }

  lemma DistanceNext(k: nat)
    requires k < 29
    ensures DistanceStart(k + 1) == DistanceStart(k) + Pow(DistanceBits(k))
  {
    hide Pow;
    SmallPowers();
    if k >= 4 { Doubling(2 + k % 2, DistanceBits(k)); }
  }

  lemma Doubling(c: nat, e: nat)
    ensures (c + 1) * Pow(e) == c * Pow(e) + Pow(e)
    ensures c % 2 == 1 ==> (c + 1) / 2 * Pow(e + 1) == (c + 1) * Pow(e)
  {
    var p := Pow(e);
    assert Pow(e + 1) == 2 * p;
    hide Pow;
    if c % 2 == 1 {
      var h := (c + 1) / 2;
      Twice2(h, p);
      Twice(h, p);
      assert c + 1 == 2 * h;
    }
  }

  /** Each range starts where the one before it ends; the lengths from 3 to 258 end with the 28th range, whose last
      length has a symbol of its own, and the distances from 1 to 32768 with the 30th. */
  lemma RangesAdjoin(k: nat)
    ensures k < 27 ==> LENGTH_BASE[k + 1] == LENGTH_BASE[k] + Pow(LENGTH_EXTRA[k])
    ensures k < 29 ==> DIST_BASE[k + 1] == DIST_BASE[k] + Pow(DIST_EXTRA[k])
    ensures LENGTH_BASE[0] == 3 && LENGTH_BASE[27] + Pow(LENGTH_EXTRA[27]) == 259 && LENGTH_BASE[28] == 258
    ensures DIST_BASE[0] == 1 && DIST_BASE[29] + Pow(DIST_EXTRA[29]) == 32769
  {
    RangeEnds();
    hide LENGTH_BASE, LENGTH_EXTRA, DIST_BASE, DIST_EXTRA, Pow;
    if k < 27 {
      LengthTable(k);
      LengthTable(k + 1);
      LengthNext(k);
    }
    if k < 29 {
      DistanceTable(k);
      DistanceTable(k + 1);
      DistanceNext(k);
    }
  }

  lemma RangeEnds()
    ensures |LENGTH_BASE| == |LENGTH_EXTRA| == 31 && |DIST_BASE| == |DIST_EXTRA| == 32
    ensures LENGTH_BASE[0] == 3 && LENGTH_BASE[27] + Pow(LENGTH_EXTRA[27]) == 259 && LENGTH_BASE[28] == 258
    ensures DIST_BASE[0] == 1 && DIST_BASE[29] + Pow(DIST_EXTRA[29]) == 32769
  {
    SmallPowers();
    hide Pow;
  }

  /** The range that a length is in. */
  function LengthSlot(len: nat, k: nat): (r: nat)
    requires len >= 3
    ensures r <= k && LengthStart(r) <= len && (r < k ==> len < LengthStart(r + 1))
  {
    if k == 0 || LengthStart(k) <= len then k else LengthSlot(len, k - 1)
  }

  function DistanceSlot(d: nat, k: nat): (r: nat)
    requires d >= 1
    ensures r <= k && DistanceStart(r) <= d && (r < k ==> d < DistanceStart(r + 1))
  {
    if k == 0 || DistanceStart(k) <= d then k else DistanceSlot(d, k - 1)
  }

  lemma LengthIn(len: nat, top: nat)
    requires 3 <= len <= 258 && (top == 28 || top == 27)
    ensures var k := LengthSlot(len, top);
      k < 29 && len - LENGTH_BASE[k] == len - LengthStart(k) >= 0 && len - LengthStart(k) < Pow(LengthBits(k))
  {
    var k := LengthSlot(len, top);
    LengthTable(k);
    if k < 28 {
      LengthTable(k + 1);
      if k < 27 { RangesAdjoin(k); } else { RangesAdjoin(27); }
    } else {
      SmallPowers();
    }
    hide LENGTH_BASE, LENGTH_EXTRA, Pow, LengthSlot;
  }

  lemma DistanceIn(d: nat)
    requires 1 <= d <= 32768
    ensures var k := DistanceSlot(d, 29);
      k < 30 && d - DistanceStart(k) >= 0 && d - DistanceStart(k) < Pow(DistanceBits(k))
  {
    var k := DistanceSlot(d, 29);
    DistanceTable(k);
    if k < 29 { DistanceTable(k + 1); }
    RangesAdjoin(k);
    hide DIST_BASE, DIST_EXTRA, Pow, DistanceSlot;
  }

  // ----- section 3.2.6: the fixed codes -----

  /** The fixed code of symbol s, and its length, as the table of that section gives them. */
  function FixedCode(s: nat): (nat, nat)
    requires s < 288
  {
    if s < 144 then (48 + s, 8) else if s < 256 then (400 + (s - 144), 9)
    else if s < 280 then (s - 256, 7) else (192 + (s - 280), 8)
  }

  lemma FixedTable(s: nat)
    requires s < 288
    ensures (Code(FixedLengths(), s), FixedLengths()[s]) == FixedCode(s)
  {
    hide First, FixedFirst, FixedDistanceFirst, CountTo;
    FixedStarts();
    FixedFirsts(7);
    FixedFirsts(8);
    FixedFirsts(9);
    FixedPlace(s);
  }

  /** How many symbols with the same length come before. */
  lemma FixedPlace(s: nat)
    requires s < 288
    ensures CountTo(FixedLengths(), s, FixedLengths()[s]) ==
      if s < 144 then s else if s < 256 then s - 144 else if s < 280 then s - 256 else 144 + (s - 280)
  {
    var ls := FixedLengths();
    CountNone(ls, ls[s]);
    hide CountTo;
    if s < 144 {
      CountRun(ls, 0, s, 8, 8);
    } else if s < 256 {
      CountRun(ls, 0, 144, 9, 8);
      CountRun(ls, 144, s, 9, 9);
    } else if s < 280 {
      CountRun(ls, 0, 144, 7, 8);
      CountRun(ls, 144, 256, 7, 9);
      CountRun(ls, 256, s, 7, 7);
    } else {
      CountRun(ls, 0, 144, 8, 8);
      CountRun(ls, 144, 256, 8, 9);
      CountRun(ls, 256, 280, 8, 7);
      CountRun(ls, 280, s, 8, 8);
    }
  }

  lemma CountNone(ls: Lengths, l: nat)
    ensures CountTo(ls, 0, l) == 0
  {
  }

  lemma FixedStarts()
    ensures FixedFirst(7) == 0 && FixedFirst(8) == 48 && FixedFirst(9) == 400 && FixedDistanceFirst(5) == 0
  {
    assert FixedFirst(4) == 0;
    assert FixedFirst(7) == 0;
  }

  lemma FixedDistanceTable(s: nat)
    requires s < 32
    ensures Code(FixedDistances(), s) == s && FixedDistances()[s] == 5
  {
    FixedFirsts(5);
    FixedStarts();
    CountRun(FixedDistances(), 0, s, 5, 5);
  }

  // ----- section 3.2.7: the codes of a block -----

  /** The symbol whose code length comes k-th. */
  function OrderAt(k: nat): (s: nat)
    requires k < 19
    ensures s < 19
  {
    if k < 3 then 16 + k else if k == 3 then 0 else if k % 2 == 0 then 8 + (k - 4) / 2 else 7 - (k - 5) / 2
  }

  function PlaceOf(s: nat): (k: nat)
    requires s < 19
    ensures k < 19
  {
    if s >= 16 then s - 16 else if s == 0 then 3 else if s >= 8 then 4 + 2 * (s - 8) else 5 + 2 * (7 - s)
  }

  /** The decompressor's order is this one, and every symbol has its place in it. */
  lemma OrderTable(k: nat)
    requires k < 19
    ensures ORDER[k] == OrderAt(k) < 19 && PlaceOf(OrderAt(k)) == k && PlaceOf(k) < 19 && OrderAt(PlaceOf(k)) == k
  {
  }

  /** A code length, a run of copies of the last one, or a run of zeros. */
  datatype Item = Size(l: nat) | Again(n: nat) | Zeros(n: nat)

  /** Code lengths for literals and lengths, for distances, and for the symbols that these are written with, of which
      the first `count` in the order are sent; and how the others are written. */
  datatype Tables = Tables(lit: Lengths, dst: Lengths, clen: Lengths, count: nat, items: seq<Item>)

  ghost predicate HasCode(ls: Lengths, s: nat) {
    s < |ls| && ls[s] > 0
  }

  function SymbolBits(ls: Lengths, s: nat): Digits {
    if s < |ls| then High(Code(ls, s), ls[s]) else []
  }

  function ItemSymbol(it: Item): nat {
    match it
    case Size(l) => l
    case Again(_) => 16
    case Zeros(n) => if n <= 10 then 17 else 18
  }

  /** The bits behind the symbol: how long the run is. */
  function RunBits(it: Item): Digits {
    match it
    case Size(_) => []
    case Again(n) => Low(if n >= 3 then n - 3 else 0, 2)
    case Zeros(n) => if n <= 10 then Low(if n >= 3 then n - 3 else 0, 3) else Low(n - 11, 7)
  }

  ghost predicate ItemOk(clen: Lengths, codes: Lengths, it: Item) {
    && HasCode(clen, ItemSymbol(it))
    && match it
    case Size(l) => l <= 15
    case Again(n) => 3 <= n <= 6 && codes != []
    case Zeros(n) => 3 <= n <= 138
  }

  /** The code lengths that follow those there are. */
  function Spelled(codes: Lengths, it: Item): Lengths {
    codes +
    match it
    case Size(l) => [l]
    case Again(n) => seq(n, i => if codes == [] then 0 else codes[|codes| - 1])
    case Zeros(n) => seq(n, i => 0)
  }

  function ItemsBits(clen: Lengths, items: seq<Item>): Digits {
    if items == [] then []
    else SymbolBits(clen, ItemSymbol(items[0])) + (RunBits(items[0]) + ItemsBits(clen, items[1..]))
  }

  function SpelledAll(codes: Lengths, items: seq<Item>): Lengths
    decreases items
  {
    if items == [] then codes else SpelledAll(Spelled(codes, items[0]), items[1..])
  }

  ghost predicate ItemsOk(clen: Lengths, codes: Lengths, items: seq<Item>)
    decreases items
  {
    items != [] ==> ItemOk(clen, codes, items[0]) && ItemsOk(clen, Spelled(codes, items[0]), items[1..])
  }

  function LensBits(clen: Lengths, k: nat, count: nat): Digits
    decreases count - k
  {
    if k >= count || k >= 19 then []
    else Low(if OrderAt(k) < |clen| then clen[OrderAt(k)] else 0, 3) + LensBits(clen, k + 1, count)
  }

  ghost predicate TablesFit(t: Tables) {
    && 257 <= |t.lit| <= 288 && 1 <= |t.dst| <= 32 && |t.clen| == 19 && 4 <= t.count <= 19
    && Sizes(t.lit) && Sizes(t.dst) && Sizes(t.clen) && Usable(t.lit) && Usable(t.dst) && Usable(t.clen)
    && (forall s :: 0 <= s < 19 ==> t.clen[s] < 8)
    && (forall k :: t.count <= k < 19 ==> t.clen[OrderAt(k)] == 0)
    && ItemsOk(t.clen, [], t.items) && SpelledAll([], t.items) == t.lit + t.dst
  }

  function TablesBits(t: Tables): Digits {
    Low(if |t.lit| >= 257 then |t.lit| - 257 else 0, 5) + (Low(if |t.dst| >= 1 then |t.dst| - 1 else 0, 5)
      + (Low(if t.count >= 4 then t.count - 4 else 0, 4)
        + (LensBits(t.clen, 0, t.count) + ItemsBits(t.clen, t.items))))
  }

  // ----- section 3.2.3: what a block says -----

  /** A byte, or a copy of so many bytes from so far back; a copy of 258 is written plainly, or not. */
  datatype Token = Literal(b: nat) | Match(len: nat, d: nat, plain: bool)

  ghost predicate TokenOk(lit: Lengths, dst: Lengths, out: Bytes, t: Token) {
    match t
    case Literal(b) => b < 256 && HasCode(lit, b)
    case Match(len, d, p) =>
      && 3 <= len <= 258 && 1 <= d <= 32768 && d <= |out| && (p || len == 258)
      && HasCode(lit, LengthSymbol(len, p)) && HasCode(dst, DistanceSlot(d, 29))
  }

  /** The range a length is written in: 258 has one of its own, and can be written at the end of the range before. */
  function LengthPart(len: nat, plain: bool): nat
    requires len >= 3
  {
    LengthSlot(len, if plain then 28 else 27)
  }

  /** The symbol of a length, and the bits behind it; the bits behind the symbol of a distance. */
  function LengthSymbol(len: nat, plain: bool): nat
    requires len >= 3
  {
    257 + LengthPart(len, plain)
  }

  function LengthRest(len: nat, plain: bool): (bs: Digits)
    requires len >= 3
    ensures |bs| == LengthBits(LengthPart(len, plain))
  {
    var k := LengthPart(len, plain);
    Low(len - LengthStart(k), LengthBits(k))
  }

  function DistanceRest(d: nat): (bs: Digits)
    requires d >= 1
    ensures |bs| == DistanceBits(DistanceSlot(d, 29))
  {
    var k := DistanceSlot(d, 29);
    Low(d - DistanceStart(k), DistanceBits(k))
  }

  function TokenBits(lit: Lengths, dst: Lengths, t: Token): Digits {
    match t
    case Literal(b) => SymbolBits(lit, b)
    case Match(len, d, p) =>
      if len < 3 || d < 1 then []
      else SymbolBits(lit, LengthSymbol(len, p)) +
           (LengthRest(len, p) + (SymbolBits(dst, DistanceSlot(d, 29)) + DistanceRest(d)))
  }

  /** The text with n bytes more, each the one d before it. */
  function Copied(out: Bytes, n: nat, d: nat): Bytes
    requires 0 < d <= |out|
    decreases n
  {
    if n == 0 then out else Copied(out + [out[|out| - d]], n - 1, d)
  }

  function Grown(out: Bytes, t: Token): Bytes {
    match t
    case Literal(b) => out + [b]
    case Match(len, d, _) => if 0 < d <= |out| then Copied(out, len, d) else out
  }

  /** However long it is and however near it starts. */
  lemma {:induction false} CopiedLaw(out: Bytes, n: nat, d: nat)
    requires 0 < d <= |out|
    ensures var r := Copied(out, n, d);
      |r| == |out| + n && r[..|out|] == out && forall i :: |out| <= i < |r| ==> r[i] == r[i - d]
    decreases n
  {
    if n > 0 {
      var more := out + [out[|out| - d]];
      CopiedLaw(more, n - 1, d);
      var r := Copied(out, n, d);
      assert r[..|more|] == more;
      assert r[|out|] == more[|out|] && r[|out| - d] == more[|out| - d];
    }
  }

  ghost predicate TokensOk(lit: Lengths, dst: Lengths, out: Bytes, ts: seq<Token>)
    decreases ts
  {
    ts != [] ==> TokenOk(lit, dst, out, ts[0]) && TokensOk(lit, dst, Grown(out, ts[0]), ts[1..])
  }

  function Text(out: Bytes, ts: seq<Token>): Bytes
    decreases ts
  {
    if ts == [] then out else Text(Grown(out, ts[0]), ts[1..])
  }

  /** The tokens, and the end of the block. */
  function TokensBits(lit: Lengths, dst: Lengths, ts: seq<Token>): Digits {
    if ts == [] then SymbolBits(lit, 256) else TokenBits(lit, dst, ts[0]) + TokensBits(lit, dst, ts[1..])
  }

  // ----- sections 3.2.3 and 3.2.4: blocks -----

  /** The bits that fill up the byte before the data of a stored block may be anything. */
  datatype Block = Stored(pad: nat, data: Bytes) | Fixed(tokens: seq<Token>) | Dynamic(tables: Tables,
    tokens: seq<Token>)

  ghost predicate BytesOk(data: Bytes) {
    forall i :: 0 <= i < |data| ==> data[i] < 0x100
  }

  ghost predicate BlockOk(out: Bytes, b: Block) {
    match b
    case Stored(_, data) => |data| < 0x1_0000 && BytesOk(data)
    case Fixed(ts) => TokensOk(FixedLengths(), FixedDistances(), out, ts)
    case Dynamic(t, ts) => TablesFit(t) && HasCode(t.lit, 256) && TokensOk(t.lit, t.dst, out, ts)
  }

  function BlockText(out: Bytes, b: Block): Bytes {
    match b
    case Stored(_, data) => out + data
    case Fixed(ts) => Text(out, ts)
    case Dynamic(_, ts) => Text(out, ts)
  }

  function DataBits(data: Bytes): Digits {
    if data == [] then [] else Low(data[0], 8) + DataBits(data[1..])
  }

  /** What a block is after its three bits of header, from bit position pos on. */
  function BodyBits(b: Block, pos: nat): Digits {
    match b
    case Stored(pad, data) =>
      var n := |data| % 0x1_0000;
      Low(pad, (8 - pos % 8) % 8) + (Low(n % 0x100, 8) + (Low(n / 0x100, 8)
        + (Low(0xFF - n % 0x100, 8) + (Low(0xFF - n / 0x100, 8) + DataBits(data)))))
    case Fixed(ts) => TokensBits(FixedLengths(), FixedDistances(), ts)
    case Dynamic(t, ts) => TablesBits(t) + TokensBits(t.lit, t.dst, ts)
  }

  function BlockKind(b: Block): nat {
    match b
    case Stored(_, _) => 0
    case Fixed(_) => 1
    case Dynamic(_, _) => 2
  }

  function BlockBits(b: Block, last: bool, pos: nat): Digits {
    Low(if last then 1 else 0, 1) + Low(BlockKind(b), 2) + BodyBits(b, pos + 3)
  }

  ghost predicate BlocksOk(out: Bytes, bs: seq<Block>)
    decreases bs
  {
    bs != [] ==> BlockOk(out, bs[0]) && BlocksOk(BlockText(out, bs[0]), bs[1..])
  }

  function BlocksText(out: Bytes, bs: seq<Block>): Bytes
    decreases bs
  {
    if bs == [] then out else BlocksText(BlockText(out, bs[0]), bs[1..])
  }

  /** The blocks one after the other from bit position pos on, the last one marked. */
  function BlocksBits(bs: seq<Block>, pos: nat): Digits {
    if bs == [] then []
    else
      var x := BlockBits(bs[0], |bs| == 1, pos);
      x + BlocksBits(bs[1..], pos + |x|)
  }

  function Encoded(bs: seq<Block>): Bytes {
    Pack(BlocksBits(bs, 0))
  }
}
