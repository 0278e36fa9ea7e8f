/** The round trip: what the encoder writes for a list of blocks the machine decodes to their text. */
module RoundTrip {
  import opened Canonical
  import opened BitStream
  import opened BitLists
  import opened Huffman
  import opened Deflate
  import opened Encoding

  /** After k steps the machine is m, and the stream goes on with these bits. */
  ghost predicate Stands(all: Bytes, k: nat, m: Machine, bs: Digits) {
    After(all, k) == m && Shows(all, m.pos, bs)
  }

  lemma FieldNext(all: Bytes, pos: nat, v: nat, n: nat, rest: Digits)
    requires Shows(all, pos, Low(v, n) + rest) && v < Pow(n)
    ensures Shows(all, pos + n, rest) && Bits(all, pos, n) == v
  {
    hide Shows, From, Low, Pow;
    NumberReads(all, pos, v, n, rest);
  }

  /** The code of a symbol fits into its length. */
  lemma CodeFits(ls: Lengths, s: nat)
    requires HasCode(ls, s) && Sizes(ls) && Usable(ls)
    ensures Code(ls, s) < Pow(ls[s])
  {
    FewFit(ls, |ls|);
    CodeRange(ls, s);
    Room(ls, ls[s]);
    hide Code, Pow, First, End;
  }

  lemma SymbolNext(all: Bytes, pos: nat, ls: Lengths, s: nat, rest: Digits)
    requires Shows(all, pos, SymbolBits(ls, s) + rest) && HasCode(ls, s) && Sizes(ls) && Usable(ls)
    ensures NextSymbol(ls, From(all, pos)) == s && Shows(all, pos + ls[s], rest)
  {
    CodeFits(ls, s);
    hide Shows, From, High, Pow, Prefix, Code, Usable, Sizes;
    CodeReads(all, pos, Code(ls, s), ls[s], rest);
    var v := From(all, pos);
    assert Matches(ls, v, s);
    SymbolBound(ls, v);
    OneMatch(ls, v, s, NextSymbol(ls, v));
  }

  lemma TablesAt(all: Bytes, k: nat)
    ensures var p := After(all, k).phase;
      && (p.Symbol? ==> TablesOk(p.lit, p.dst)) && (p.Distance? ==> TablesOk(p.lit, p.dst))
  {
    hide After;
  }

  // ----- tokens -----

  lemma LiteralSteps(all: Bytes, k: nat, m: Machine, l: Lengths, d: Lengths, b: nat, rest: Digits) returns (k': nat)
    requires Stands(all, k, m, SymbolBits(l, b) + rest) && m.phase == Symbol(l, d) && b < 256 && HasCode(l, b)
    ensures Stands(all, k', m.(pos := m.pos + l[b], out := m.out + [b]), rest)
  {
    hide After, Sane, Shows, NextSymbol, From, SymbolBits, Usable, Sizes;
    TablesAt(all, k);
    SymbolNext(all, m.pos, l, b, rest);
    AfterNext(all, k);
    AfterNext(all, k + 1);
    k' := k + 2;
  }

  lemma EndSteps(all: Bytes, k: nat, m: Machine, l: Lengths, d: Lengths, rest: Digits)
    requires Stands(all, k, m, SymbolBits(l, 256) + rest) && m.phase == Symbol(l, d) && HasCode(l, 256)
    ensures Stands(all, k + 1, m.(pos := m.pos + l[256], phase := if m.last then Done else Header), rest)
  {
    hide After, Sane, Shows, NextSymbol, From, SymbolBits, Usable, Sizes;
    TablesAt(all, k);
    SymbolNext(all, m.pos, l, 256, rest);
    AfterNext(all, k);
  }

  lemma {:induction false} CopySteps(all: Bytes, k: nat, m: Machine, l: Lengths, d: Lengths, n: nat, back: nat)
    returns (k': nat)
    requires After(all, k) == m && m.phase == Copy(l, d, n, back) && 0 < back <= |m.out|
    ensures k' > k && After(all, k') == m.(out := Copied(m.out, n, back), phase := Symbol(l, d))
    decreases n
  {
    hide After, Sane;
    AfterNext(all, k);
    if n == 0 {
      k' := k + 1;
    } else {
      var m' := m.(out := m.out + [m.out[|m.out| - back]], phase := Copy(l, d, n - 1, back));
      k' := CopySteps(all, k + 1, m', l, d, n - 1, back);
    }
  }

  /** What the machine makes of the extra bits. */
  lemma LengthBits(all: Bytes, m: Machine, l: Lengths, d: Lengths, s: nat)
    requires Sane(m) && s < 29 && m.phase == Phase.LengthBits(l, d, 257 + s)
    ensures var n := LENGTH_EXTRA[s];
      Next(all, m) == m.(pos := m.pos + n, phase := Distance(l, d, LENGTH_BASE[s] + Bits(all, m.pos, n)))
  {
    hide LENGTH_BASE, LENGTH_EXTRA, Bits;
    assert Next(all, m) == NextLength(all, m, l, d, 257 + s);
  }

  lemma DistanceBits(all: Bytes, m: Machine, l: Lengths, d: Lengths, len: nat, s: nat)
    requires Sane(m) && s < 30 && m.phase == Phase.DistanceBits(l, d, len, s)
    requires DIST_BASE[s] + Bits(all, m.pos, DIST_EXTRA[s]) <= |m.out|
    ensures var n := DIST_EXTRA[s];
      Next(all, m) == m.(pos := m.pos + n, phase := Copy(l, d, len, DIST_BASE[s] + Bits(all, m.pos, n)))
  {
    hide DIST_BASE, DIST_EXTRA, Bits;
    assert Next(all, m) == NextDistanceBits(all, m, l, d, len, s);
  }

  lemma LengthField(all: Bytes, pos: nat, len: nat, p: bool, rest: Digits) returns (s: nat)
    requires 3 <= len <= 258 && Shows(all, pos, LengthRest(len, p) + rest)
    ensures s == LengthPart(len, p) && s < 29 && LENGTH_EXTRA[s] == |LengthRest(len, p)|
    ensures LENGTH_BASE[s] + Bits(all, pos, LENGTH_EXTRA[s]) == len
    ensures Shows(all, pos + |LengthRest(len, p)|, rest)
  {
    hide Shows, LENGTH_BASE, LENGTH_EXTRA, Pow, Low, LengthSlot, LengthStart, Encoding.LengthBits, Bits;
    s := LengthPart(len, p);
    Encoding.LengthIn(len, if p then 28 else 27);
    LengthTable(s);
    FieldNext(all, pos, len - LengthStart(s), Encoding.LengthBits(s), rest);
  }

  lemma DistanceField(all: Bytes, pos: nat, d: nat, rest: Digits) returns (s: nat)
    requires 1 <= d <= 32768 && Shows(all, pos, DistanceRest(d) + rest)
    ensures s == DistanceSlot(d, 29) && s < 30 && DIST_EXTRA[s] == |DistanceRest(d)|
    ensures DIST_BASE[s] + Bits(all, pos, DIST_EXTRA[s]) == d
    ensures Shows(all, pos + |DistanceRest(d)|, rest)
  {
    hide Shows, DIST_BASE, DIST_EXTRA, Pow, Low, DistanceSlot, DistanceStart, Encoding.DistanceBits, Bits;
    s := DistanceSlot(d, 29);
    Encoding.DistanceIn(d);
    DistanceTable(s);
    FieldNext(all, pos, d - DistanceStart(s), Encoding.DistanceBits(s), rest);
  }

  lemma LengthStep(all: Bytes, k: nat, m: Machine, l: Lengths, d: Lengths, len: nat, p: bool, rest: Digits)
    requires 3 <= len <= 258 && m.phase == Phase.LengthBits(l, d, LengthSymbol(len, p))
    requires Stands(all, k, m, LengthRest(len, p) + rest)
    ensures Stands(all, k + 1, m.(pos := m.pos + |LengthRest(len, p)|, phase := Distance(l, d, len)), rest)
  {
    hide After, Sane, Shows, LENGTH_BASE, LENGTH_EXTRA, LengthRest, LengthSlot, Encoding.LengthBits, Bits, Next;
    var s := LengthField(all, m.pos, len, p, rest);
    AfterNext(all, k);
    LengthBits(all, m, l, d, s);
  }

  lemma DistanceStep(all: Bytes, k: nat, m: Machine, l: Lengths, d: Lengths, len: nat, back: nat, rest: Digits)
    requires 1 <= back <= 32768 && back <= |m.out| && m.phase == Phase.DistanceBits(l, d, len, DistanceSlot(back, 29))
    requires Stands(all, k, m, DistanceRest(back) + rest)
    ensures Stands(all, k + 1, m.(pos := m.pos + |DistanceRest(back)|, phase := Copy(l, d, len, back)), rest)
  {
    hide After, Sane, Shows, DIST_BASE, DIST_EXTRA, DistanceRest, DistanceSlot, Encoding.DistanceBits, Bits, Next;
    var s := DistanceField(all, m.pos, back, rest);
    AfterNext(all, k);
    DistanceBits(all, m, l, d, len, s);
  }

  lemma LengthSymbolNext(all: Bytes, m: Machine, l: Lengths, d: Lengths, s: nat)
    requires Sane(m) && m.phase == Symbol(l, d) && 257 <= s < 286 && s < |l| && NextSymbol(l, From(all, m.pos)) == s
    ensures Next(all, m) == m.(pos := m.pos + l[s], phase := Phase.LengthBits(l, d, s))
  {
    hide NextSymbol, From;
  }

  lemma DistanceSymbolNext(all: Bytes, m: Machine, l: Lengths, d: Lengths, len: nat, s: nat)
    requires Sane(m) && m.phase == Distance(l, d, len) && s < 30 && s < |d| && NextSymbol(d, From(all, m.pos)) == s
    ensures Next(all, m) == m.(pos := m.pos + d[s], phase := Phase.DistanceBits(l, d, len, s))
  {
    hide NextSymbol, From;
  }

  /** The symbol of a length, and its extra bits. */
  lemma LengthSteps(all: Bytes, k: nat, m: Machine, l: Lengths, d: Lengths, len: nat, p: bool, rest: Digits)
    returns (m': Machine)
    requires 3 <= len <= 258 && HasCode(l, LengthSymbol(len, p)) && m.phase == Symbol(l, d)
    requires Stands(all, k, m, SymbolBits(l, LengthSymbol(len, p)) + (LengthRest(len, p) + rest))
    ensures m' == m.(pos := m.pos + l[LengthSymbol(len, p)] + |LengthRest(len, p)|, phase := Distance(l, d, len))
    ensures Stands(all, k + 2, m', rest)
  {
    hide After, Sane, Shows, From, NextSymbol, SymbolBits, Usable, Sizes, LengthRest, Next, LengthSlot;
    var s := LengthSymbol(len, p);
    TablesAt(all, k);
    SymbolNext(all, m.pos, l, s, LengthRest(len, p) + rest);
    AfterNext(all, k);
    LengthSymbolNext(all, m, l, d, s);
    var m1 := m.(pos := m.pos + l[s], phase := Phase.LengthBits(l, d, s));
    LengthStep(all, k + 1, m1, l, d, len, p, rest);
    m' := m1.(pos := m1.pos + |LengthRest(len, p)|, phase := Distance(l, d, len));
  }

  lemma DistanceSteps(all: Bytes, k: nat, m: Machine, l: Lengths, d: Lengths, len: nat, back: nat, rest: Digits)
    returns (m': Machine)
    requires 1 <= back <= 32768 && back <= |m.out| && HasCode(d, DistanceSlot(back, 29))
      && m.phase == Distance(l, d, len)
    requires Stands(all, k, m, SymbolBits(d, DistanceSlot(back, 29)) + (DistanceRest(back) + rest))
    ensures m' == m.(pos := m.pos + d[DistanceSlot(back, 29)] + |DistanceRest(back)|, phase := Copy(l, d, len, back))
    ensures Stands(all, k + 2, m', rest)
  {
    hide After, Sane, Shows, From, NextSymbol, SymbolBits, Usable, Sizes, DistanceRest, Next, DistanceSlot;
    var s := DistanceSlot(back, 29);
    TablesAt(all, k);
    SymbolNext(all, m.pos, d, s, DistanceRest(back) + rest);
    AfterNext(all, k);
    DistanceSymbolNext(all, m, l, d, len, s);
    var m1 := m.(pos := m.pos + d[s], phase := Phase.DistanceBits(l, d, len, s));
    DistanceStep(all, k + 1, m1, l, d, len, back, rest);
    m' := m1.(pos := m1.pos + |DistanceRest(back)|, phase := Copy(l, d, len, back));
  }

  lemma MatchSteps(all: Bytes, k: nat, m: Machine, l: Lengths, d: Lengths, t: Token, rest: Digits) returns (k': nat)
    requires t.Match? && TokenOk(l, d, m.out, t)
    requires Stands(all, k, m, TokenBits(l, d, t) + rest) && m.phase == Symbol(l, d)
    ensures Stands(all, k', m.(pos := m.pos + |TokenBits(l, d, t)|, out := Grown(m.out, t)), rest)
  {
    hide After, Sane, Shows, SymbolBits, LengthSlot, DistanceSlot, LengthRest, DistanceRest, Copied, TokenBits;
    var x1, x2, x3 := LengthRest(t.len, t.plain), SymbolBits(d, DistanceSlot(t.d, 29)), DistanceRest(t.d);
    MatchBits(l, d, t, rest);
    var m1 := LengthSteps(all, k, m, l, d, t.len, t.plain, x2 + (x3 + rest));
    var m2 := DistanceSteps(all, k + 2, m1, l, d, t.len, t.d, rest);
    k' := CopySteps(all, k + 4, m2, l, d, t.len, t.d);
  }

  lemma MatchBits(l: Lengths, d: Lengths, t: Token, rest: Digits)
    requires t.Match? && t.len >= 3 && t.d >= 1 && LengthSymbol(t.len, t.plain) < |l| && DistanceSlot(t.d, 29) < |d|
    ensures var x0, x2 := SymbolBits(l, LengthSymbol(t.len, t.plain)), SymbolBits(d, DistanceSlot(t.d, 29));
      TokenBits(l, d, t) + rest == x0 + (LengthRest(t.len, t.plain) + (x2 + (DistanceRest(t.d) + rest)))
    ensures |TokenBits(l, d, t)| ==
      l[LengthSymbol(t.len, t.plain)] + |LengthRest(t.len, t.plain)| + d[DistanceSlot(t.d, 29)] + |DistanceRest(t.d)|
  {
    hide High, Code, Low, LengthSlot, LengthRest, DistanceSlot, DistanceRest;
    Four(SymbolBits(l, LengthSymbol(t.len, t.plain)), LengthRest(t.len, t.plain),
      SymbolBits(d, DistanceSlot(t.d, 29)), DistanceRest(t.d),
      rest);
  }

  lemma Four(a: Digits, b: Digits, c: Digits, d: Digits, rest: Digits)
    ensures a + (b + (c + d)) + rest == a + (b + (c + (d + rest)))
    ensures |a + (b + (c + d))| == |a| + |b| + |c| + |d|
  {
  }

  lemma SymbolLength(ls: Lengths, s: nat)
    requires s < |ls|
    ensures |SymbolBits(ls, s)| == ls[s]
  {
  }

  lemma {:induction false} TokensSteps(all: Bytes, k: nat, m: Machine, l: Lengths, d: Lengths, ts: seq<Token>,
      rest: Digits) returns (k': nat)
    requires TokensOk(l, d, m.out, ts) && HasCode(l, 256) && m.phase == Symbol(l, d)
    requires Stands(all, k, m, TokensBits(l, d, ts) + rest)
    ensures var end := if m.last then Done else Header;
      Stands(all, k', m.(pos := m.pos + |TokensBits(l, d, ts)|, out := Text(m.out, ts), phase := end), rest)
    decreases ts
  {
    hide After, Sane, Shows, SymbolBits, TokenBits, TokenOk, Grown;
    if ts == [] {
      EndSteps(all, k, m, l, d, rest);
      SymbolLength(l, 256);
      k' := k + 1;
    } else {
      var x, more := TokenBits(l, d, ts[0]), TokensBits(l, d, ts[1..]);
      assert TokensBits(l, d, ts) + rest == x + (more + rest);
      var k1 := TokenSteps(all, k, m, l, d, ts[0], more + rest);
      var m1 := m.(pos := m.pos + |x|, out := Grown(m.out, ts[0]));
      k' := TokensSteps(all, k1, m1, l, d, ts[1..], rest);
    }
  }

  lemma TokenSteps(all: Bytes, k: nat, m: Machine, l: Lengths, d: Lengths, t: Token, rest: Digits) returns (k': nat)
    requires TokenOk(l, d, m.out, t) && m.phase == Symbol(l, d) && Stands(all, k, m, TokenBits(l, d, t) + rest)
    ensures Stands(all, k', m.(pos := m.pos + |TokenBits(l, d, t)|, out := Grown(m.out, t)), rest)
  {
    hide After, Sane, Shows, SymbolBits, LengthSlot, DistanceSlot, Copied;
    if t.Match? {
      k' := MatchSteps(all, k, m, l, d, t, rest);
    } else {
      k' := LiteralSteps(all, k, m, l, d, t.b, rest);
      SymbolLength(l, t.b);
    }
  }

  // ----- the header of a block -----

  lemma HeaderBits(last: bool, kind: nat)
    ensures Low(if last then 1 else 0, 1) + Low(kind, 2) == Low((if last then 1 else 0) + 2 * kind, 3)
  {
    var a := if last then 1 else 0;
    assert Low(a, 1) == [a];
    assert Low(a + 2 * kind, 3) == [a] + Low(kind, 2);
  }

  lemma HeaderStep(all: Bytes, k: nat, m: Machine, last: bool, b: Block, rest: Digits)
    requires m.phase == Header && Stands(all, k, m, Low(if last then 1 else 0, 1) + Low(BlockKind(b), 2) + rest)
    ensures var next := match b
        case Stored(_, _) => Align
        case Fixed(_) => Symbol(FixedLengths(), FixedDistances())
        case Dynamic(_, _) => TableSizes([]);
      Stands(all, k + 1, m.(pos := m.pos + 3, last := last, phase := next), rest)
  {
    hide After, Sane, Shows, Low, Bits, FixedLengths, FixedDistances, Pow;
    HeaderBits(last, BlockKind(b));
    var v := (if last then 1 else 0) + 2 * BlockKind(b);
    SmallPowers();
    FieldNext(all, m.pos, v, 3, rest);
    AfterNext(all, k);
  }

  // ----- stored blocks -----

  lemma ToByte(pos: nat)
    ensures (pos + 7) / 8 * 8 == pos + (8 - pos % 8) % 8
  {
  }

  lemma AlignStep(all: Bytes, k: nat, m: Machine, pad: nat, rest: Digits)
    requires m.phase == Align && Stands(all, k, m, Low(pad, (8 - m.pos % 8) % 8) + rest)
    ensures Stands(all, k + 1, m.(pos := m.pos + (8 - m.pos % 8) % 8, phase := RawHead([])), rest)
  {
    hide After, Sane, Shows, Low, From, Prefix, Pow;
    Reads(all, m.pos, Low(pad, (8 - m.pos % 8) % 8), rest);
    AfterNext(all, k);
    ToByte(m.pos);
  }

  lemma RawHeadStep(all: Bytes, k: nat, m: Machine, h: Bytes, v: nat, rest: Digits)
    requires m.phase == RawHead(h) && |h| < 4 && v < 0x100 && Stands(all, k, m, Low(v, 8) + rest)
    ensures Stands(all, k + 1, m.(pos := m.pos + 8, phase := RawHead(h + [v])), rest)
  {
    hide After, Sane, Shows, Low, Bits, Pow;
    SmallPowers();
    FieldNext(all, m.pos, v, 8, rest);
    AfterNext(all, k);
  }

  lemma RawSize(all: Bytes, k: nat, m: Machine, n: nat)
    requires n < 0x1_0000 && After(all, k) == m
    requires m.phase == RawHead([n % 0x100, n / 0x100, 0xFF - n % 0x100, 0xFF - n / 0x100])
    ensures After(all, k + 1) == m.(phase := RawRead(n))
  {
    hide After, Sane;
    AfterNext(all, k);
  }

  lemma {:induction false} DataSteps(all: Bytes, k: nat, m: Machine, data: Bytes, rest: Digits) returns (k': nat)
    requires m.phase == RawRead(|data|) && forall i :: 0 <= i < |data| ==> data[i] < 0x100
    requires Stands(all, k, m, DataBits(data) + rest)
    ensures var end := if m.last then Done else Header;
      Stands(all, k', m.(pos := m.pos + |DataBits(data)|, out := m.out + data, phase := end), rest)
    decreases data
  {
    hide After, Sane, Low, Bits, Pow, From, Number;
    AfterNext(all, k);
    if data == [] {
      k' := k + 1;
      assert DataBits(data) + rest == rest;
      assert m.out + data == m.out;
    } else {
      var more := DataBits(data[1..]);
      assert DataBits(data) + rest == Low(data[0], 8) + (more + rest);
      SmallPowers();
      FieldNext(all, m.pos, data[0], 8, more + rest);
      AfterNext(all, k + 1);
      var m1 := m.(pos := m.pos + 8, out := m.out + [data[0]], phase := RawRead(|data| - 1));
      k' := DataSteps(all, k + 2, m1, data[1..], rest);
      assert m.out + data == m1.out + data[1..];
    }
  }

  // ----- the tables of a block -----

  lemma SizeStep(all: Bytes, k: nat, m: Machine, sizes: Bytes, v: nat, rest: Digits)
    requires m.phase == TableSizes(sizes) && |sizes| < 3 && v < Pow(SizeBits(|sizes|))
    requires Stands(all, k, m, Low(v, SizeBits(|sizes|)) + rest)
    ensures var n := SizeBits(|sizes|);
      Stands(all, k + 1, m.(pos := m.pos + n, phase := TableSizes(sizes + [v + MinTableSize(|sizes|)])), rest)
  {
    hide After, Sane, Shows, Low, Bits, Pow, SizeBits, MinTableSize;
    FieldNext(all, m.pos, v, SizeBits(|sizes|), rest);
    AfterNext(all, k);
  }

  function SizesOf(t: Tables): Bytes {
    [|t.lit|, |t.dst|, t.count]
  }

  lemma SizesSteps(all: Bytes, k: nat, m: Machine, t: Tables, rest: Digits)
    requires 257 <= |t.lit| <= 288 && 1 <= |t.dst| <= 32 && 4 <= t.count <= 19 && m.phase == TableSizes([])
    requires Stands(all, k, m, Low(|t.lit| - 257, 5) + (Low(|t.dst| - 1, 5) + (Low(t.count - 4, 4) + rest)))
    ensures Stands(all, k + 4, m.(pos := m.pos + 14, phase := CodeLens(SizesOf(t), 0, seq(19, i => 0))), rest)
  {
    hide After, Sane, Shows, Low, Pow;
    SmallPowers();
    var r2 := Low(t.count - 4, 4) + rest;
    SizeStep(all, k, m, [], |t.lit| - 257, Low(|t.dst| - 1, 5) + r2);
    var m1 := m.(pos := m.pos + 5, phase := TableSizes([] + [|t.lit|]));
    SizeStep(all, k + 1, m1, [] + [|t.lit|], |t.dst| - 1, r2);
    var m2 := m1.(pos := m1.pos + 5, phase := TableSizes([|t.lit|] + [|t.dst|]));
    SizeStep(all, k + 2, m2, [|t.lit|] + [|t.dst|], t.count - 4, rest);
    AfterNext(all, k + 3);
    assert [|t.lit|] + [|t.dst|] + [t.count] == SizesOf(t);
  }

  /** The code lengths that have come when i have. */
  function Sent(clen: Lengths, i: nat): (r: Lengths)
    requires |clen| == 19
    ensures |r| == 19
  {
    seq(19, s requires 0 <= s < 19 => if PlaceOf(s) < i then clen[s] else 0)
  }

  lemma SentNext(clen: Lengths, i: nat)
    requires |clen| == 19 && i < 19
    ensures OrderAt(i) < 19 && ORDER[i] == OrderAt(i)
    ensures Sent(clen, i)[ORDER[i] := clen[OrderAt(i)]] == Sent(clen, i + 1)
  {
    OrderTable(i);
    forall s | 0 <= s < 19 ensures PlaceOf(s) == i ==> s == OrderAt(i) { OrderTable(s); }
    hide ORDER, OrderAt, PlaceOf;
  }

  lemma SentAll(clen: Lengths, n: nat)
    requires |clen| == 19 && n <= 19 && forall k :: n <= k < 19 ==> clen[OrderAt(k)] == 0
    ensures Sent(clen, n) == clen
  {
    forall s | 0 <= s < 19 ensures PlaceOf(s) >= n ==> clen[s] == 0 { OrderTable(s); }
    hide OrderAt, PlaceOf;
  }

  lemma LensNext(all: Bytes, m: Machine, sizes: Bytes, lens: Lengths, i: nat, v: nat)
    requires Sane(m) && |lens| == 19 && |sizes| == 3 && i < sizes[2] <= 19 && m.phase == CodeLens(sizes, i, lens)
    requires Bits(all, m.pos, 3) == v && ORDER[i] < 19
    ensures Next(all, m) == m.(pos := m.pos + 3, phase := CodeLens(sizes, i + 1, lens[ORDER[i] := v]))
  {
    hide Bits, ORDER, Usable;
  }

  lemma LensStep(all: Bytes, k: nat, m: Machine, sizes: Bytes, clen: Lengths, i: nat, rest: Digits)
    requires |clen| == 19 && |sizes| == 3 && i < sizes[2] <= 19 && m.phase == CodeLens(sizes, i, Sent(clen, i))
    requires clen[OrderAt(i)] < 8 && Stands(all, k, m, Low(clen[OrderAt(i)], 3) + rest)
    ensures Stands(all, k + 1, m.(pos := m.pos + 3, phase := CodeLens(sizes, i + 1, Sent(clen, i + 1))), rest)
  {
    hide After, Sane, Shows, Low, Bits, Pow, ORDER, OrderAt, Sent, Next;
    SentNext(clen, i);
    SmallPowers();
    FieldNext(all, m.pos, clen[OrderAt(i)], 3, rest);
    AfterNext(all, k);
    LensNext(all, m, sizes, Sent(clen, i), i, clen[OrderAt(i)]);
  }

  lemma LensDone(all: Bytes, m: Machine, sizes: Bytes, lens: Lengths)
    requires Sane(m) && |lens| == 19 && |sizes| == 3 && m.phase == CodeLens(sizes, sizes[2], lens) && Usable(lens)
    ensures Next(all, m) == m.(phase := Codes(sizes, lens, []))
  {
    hide Bits, ORDER, Usable;
  }

  lemma {:induction false} LensSteps(all: Bytes, k: nat, m: Machine, t: Tables, i: nat, rest: Digits) returns (k': nat)
    requires TablesFit(t) && i <= t.count && m.phase == CodeLens(SizesOf(t), i, Sent(t.clen, i))
    requires Stands(all, k, m, LensBits(t.clen, i, t.count) + rest)
    ensures var n := |LensBits(t.clen, i, t.count)|;
      Stands(all, k', m.(pos := m.pos + n, phase := Codes(SizesOf(t), t.clen, [])), rest)
    decreases t.count - i
  {
    hide After, Sane, Shows, Low, Bits, OrderAt, PlaceOf, Usable, Sizes, ItemsOk, SpelledAll, Sent, Next;
    if i == t.count {
      assert LensBits(t.clen, i, t.count) + rest == rest;
      SentAll(t.clen, t.count);
      AfterNext(all, k);
      LensDone(all, m, SizesOf(t), t.clen);
      k' := k + 1;
    } else {
      var more := LensBits(t.clen, i + 1, t.count);
      assert LensBits(t.clen, i, t.count) + rest == Low(t.clen[OrderAt(i)], 3) + (more + rest);
      LensStep(all, k, m, SizesOf(t), t.clen, i, more + rest);
      var m1 := m.(pos := m.pos + 3, phase := CodeLens(SizesOf(t), i + 1, Sent(t.clen, i + 1)));
      k' := LensSteps(all, k + 1, m1, t, i + 1, rest);
    }
  }

  // ----- the code lengths of a block -----

  lemma ItemSymbolStep(all: Bytes, k: nat, m: Machine, sizes: Bytes, clen: Lengths, codes: Lengths, it: Item,
      rest: Digits)
    requires |sizes| == 3 && |codes| < sizes[0] + sizes[1] && m.phase == Codes(sizes, clen, codes)
    requires ItemOk(clen, codes, it) && Stands(all, k, m, SymbolBits(clen, ItemSymbol(it)) + rest)
    ensures var s := ItemSymbol(it);
      var next := if it.Size? then Codes(sizes, clen, codes + [s]) else Repeat(sizes, clen, codes, s);
      Stands(all, k + 1, m.(pos := m.pos + clen[s], phase := next), rest)
  {
    hide After, Shows, NextSymbol, From, SymbolBits, Usable, Sizes, SizesOk;
    var s := ItemSymbol(it);
    assert Sizes(clen) && Usable(clen) && |clen| == 19;
    SymbolNext(all, m.pos, clen, s, rest);
    AfterNext(all, k);
  }

  lemma RunValue(it: Item) returns (v: nat)
    requires !it.Size? && (it.Again? ==> 3 <= it.n <= 6) && (it.Zeros? ==> 3 <= it.n <= 138)
    ensures var s := ItemSymbol(it);
      v < Pow(RepeatBits(s)) && RunBits(it) == Low(v, RepeatBits(s)) && v + RepeatBase(s) == it.n
  {
    SmallPowers();
    hide Pow, Low;
    v := it.n - RepeatBase(ItemSymbol(it));
  }

  lemma RunStep(all: Bytes, k: nat, m: Machine, sizes: Bytes, clen: Lengths, codes: Lengths, it: Item, rest: Digits)
    requires !it.Size? && ItemOk(clen, codes, it) && m.phase == Repeat(sizes, clen, codes, ItemSymbol(it))
    requires Stands(all, k, m, RunBits(it) + rest)
    ensures Stands(all, k + 1, m.(pos := m.pos + |RunBits(it)|, phase := Codes(sizes, clen, Spelled(codes, it))), rest)
  {
    hide After, Sane, Shows, Bits, Low, Pow, RunBits, RepeatBits, RepeatBase;
    var v := RunValue(it);
    FieldNext(all, m.pos, v, RepeatBits(ItemSymbol(it)), rest);
    AfterNext(all, k);
    assert WithRun(codes, ItemSymbol(it), it.n) == Spelled(codes, it);
  }

  lemma ItemSteps(all: Bytes, k: nat, m: Machine, sizes: Bytes, clen: Lengths, codes: Lengths, it: Item, rest: Digits)
    returns (k': nat)
    requires |sizes| == 3 && |codes| < sizes[0] + sizes[1] && m.phase == Codes(sizes, clen, codes)
    requires ItemOk(clen, codes, it) && Stands(all, k, m, SymbolBits(clen, ItemSymbol(it)) + (RunBits(it) + rest))
    ensures var n := clen[ItemSymbol(it)] + |RunBits(it)|;
      Stands(all, k', m.(pos := m.pos + n, phase := Codes(sizes, clen, Spelled(codes, it))), rest)
  {
    hide After, Sane, Shows, SymbolBits;
    ItemSymbolStep(all, k, m, sizes, clen, codes, it, RunBits(it) + rest);
    k' := k + 1;
    if it.Size? {
      assert RunBits(it) + rest == rest;
    } else {
      hide RunBits;
      var s := ItemSymbol(it);
      var m1 := m.(pos := m.pos + clen[s], phase := Repeat(sizes, clen, codes, s));
      RunStep(all, k + 1, m1, sizes, clen, codes, it, rest);
      k' := k + 2;
    }
  }

  lemma {:induction false} SpelledGrows(codes: Lengths, items: seq<Item>)
    ensures |SpelledAll(codes, items)| >= |codes|
    decreases items
  {
    if items != [] { SpelledGrows(Spelled(codes, items[0]), items[1..]); }
  }

  lemma {:induction false} ItemsSteps(all: Bytes, k: nat, m: Machine, sizes: Bytes, clen: Lengths, codes: Lengths,
      items: seq<Item>, rest: Digits) returns (k': nat)
    requires |sizes| == 3 && |SpelledAll(codes, items)| <= sizes[0] + sizes[1] && m.phase == Codes(sizes, clen, codes)
    requires ItemsOk(clen, codes, items) && Stands(all, k, m, ItemsBits(clen, items) + rest)
    ensures var n := |ItemsBits(clen, items)|;
      Stands(all, k', m.(pos := m.pos + n, phase := Codes(sizes, clen, SpelledAll(codes, items))), rest)
    decreases items
  {
    hide After, Sane, Shows, SymbolBits, RunBits, ItemSymbol;
    if items == [] {
      assert ItemsBits(clen, items) + rest == rest;
      k' := k;
    } else {
      var it, more := items[0], ItemsBits(clen, items[1..]);
      var x, y := SymbolBits(clen, ItemSymbol(it)), RunBits(it);
      assert ItemsBits(clen, items) + rest == x + (y + (more + rest));
      SpelledGrows(Spelled(codes, it), items[1..]);
      var k1 := ItemSteps(all, k, m, sizes, clen, codes, it, more + rest);
      SymbolLength(clen, ItemSymbol(it));
      var m1 := m.(pos := m.pos + |x| + |y|, phase := Codes(sizes, clen, Spelled(codes, it)));
      k' := ItemsSteps(all, k1, m1, sizes, clen, Spelled(codes, it), items[1..], rest);
    }
  }

  lemma TablesDone(all: Bytes, k: nat, m: Machine, t: Tables)
    requires TablesFit(t) && After(all, k) == m && m.phase == Codes(SizesOf(t), t.clen, t.lit + t.dst)
    ensures After(all, k + 1) == m.(phase := Symbol(t.lit, t.dst))
  {
    hide After, Sane, Usable, Sizes, ItemsOk, SpelledAll, OrderAt;
    AfterNext(all, k);
    assert (t.lit + t.dst)[..|t.lit|] == t.lit && (t.lit + t.dst)[|t.lit|..] == t.dst;
  }

  lemma TablesSteps(all: Bytes, k: nat, m: Machine, t: Tables, rest: Digits) returns (k': nat)
    requires TablesFit(t) && m.phase == TableSizes([]) && Stands(all, k, m, TablesBits(t) + rest)
    ensures Stands(all, k', m.(pos := m.pos + |TablesBits(t)|, phase := Symbol(t.lit, t.dst)), rest)
  {
    hide After, Sane, Shows, Low, Usable, Sizes, ItemsOk, SpelledAll, OrderAt, LensBits, ItemsBits;
    var a, b, c := Low(|t.lit| - 257, 5), Low(|t.dst| - 1, 5), Low(t.count - 4, 4);
    var x, y := LensBits(t.clen, 0, t.count), ItemsBits(t.clen, t.items);
    Five(a, b, c, x, y, rest);
    SizesSteps(all, k, m, t, x + (y + rest));
    var m1 := m.(pos := m.pos + 14, phase := CodeLens(SizesOf(t), 0, seq(19, i => 0)));
    assert Sent(t.clen, 0) == seq(19, i => 0);
    var k2 := LensSteps(all, k + 4, m1, t, 0, y + rest);
    var m2 := m1.(pos := m1.pos + |x|, phase := Codes(SizesOf(t), t.clen, []));
    var k3 := ItemsSteps(all, k2, m2, SizesOf(t), t.clen, [], t.items, rest);
    TablesDone(all, k3, m2.(pos := m2.pos + |y|, phase := Codes(SizesOf(t), t.clen, t.lit + t.dst)), t);
    k' := k3 + 1;
  }

  lemma Five(a: Digits, b: Digits, c: Digits, d: Digits, e: Digits, rest: Digits)
    ensures a + (b + (c + (d + e))) + rest == a + (b + (c + (d + (e + rest))))
    ensures |a + (b + (c + (d + e)))| == |a| + |b| + |c| + |d| + |e|
  {
  }

  // ----- blocks -----

  /** The four bytes in front of the data: its length, and the complement of it. */
  lemma RawHeadSteps(all: Bytes, k: nat, m: Machine, n: nat, rest: Digits)
    requires n < 0x1_0000 && m.phase == RawHead([])
    requires Stands(all, k, m, Low(n % 0x100, 8)
      + (Low(n / 0x100, 8) + (Low(0xFF - n % 0x100, 8) + (Low(0xFF - n / 0x100, 8) + rest))))
    ensures Stands(all, k + 5, m.(pos := m.pos + 32, phase := RawRead(n)), rest)
  {
    hide After, Sane, Shows, Low;
    var a, b, c, d := n % 0x100, n / 0x100, 0xFF - n % 0x100, 0xFF - n / 0x100;
    var x, y, z := Low(b, 8), Low(c, 8), Low(d, 8);
    RawHeadStep(all, k, m, [], a, x + (y + (z + rest)));
    var m1 := m.(pos := m.pos + 8, phase := RawHead([] + [a]));
    RawHeadStep(all, k + 1, m1, [] + [a], b, y + (z + rest));
    var m2 := m1.(pos := m1.pos + 8, phase := RawHead([a] + [b]));
    RawHeadStep(all, k + 2, m2, [a] + [b], c, z + rest);
    var m3 := m2.(pos := m2.pos + 8, phase := RawHead([a] + [b] + [c]));
    RawHeadStep(all, k + 3, m3, [a] + [b] + [c], d, rest);
    assert [a] + [b] + [c] + [d] == [a, b, c, d];
    RawSize(all, k + 4, m3.(pos := m3.pos + 8, phase := RawHead([a, b, c, d])), n);
  }

  lemma StoredSteps(all: Bytes, k: nat, m: Machine, pad: nat, data: Bytes, rest: Digits) returns (k': nat)
    requires |data| < 0x1_0000 && (forall i :: 0 <= i < |data| ==> data[i] < 0x100) && m.phase == Align
    requires Stands(all, k, m, BodyBits(Stored(pad, data), m.pos) + rest)
    ensures var n := |BodyBits(Stored(pad, data), m.pos)|;
      var end := if m.last then Done else Header;
      Stands(all, k', m.(pos := m.pos + n, out := m.out + data, phase := end), rest)
  {
    hide After, Sane, Shows, Low, DataBits;
    var n, p := |data|, (8 - m.pos % 8) % 8;
    var a, b, c, d := Low(n % 0x100, 8), Low(n / 0x100, 8), Low(0xFF - n % 0x100, 8), Low(0xFF - n / 0x100, 8);
    var x := DataBits(data);
    Six(Low(pad, p), a, b, c, d, x, rest);
    AlignStep(all, k, m, pad, a + (b + (c + (d + (x + rest)))));
    var m1 := m.(pos := m.pos + p, phase := RawHead([]));
    RawHeadSteps(all, k + 1, m1, n, x + rest);
    k' := DataSteps(all, k + 6, m1.(pos := m1.pos + 32, phase := RawRead(n)), data, rest);
  }

  lemma Six(a: Digits, b: Digits, c: Digits, d: Digits, e: Digits, f: Digits, rest: Digits)
    ensures a + (b + (c + (d + (e + f)))) + rest == a + (b + (c + (d + (e + (f + rest)))))
    ensures |a + (b + (c + (d + (e + f))))| == |a| + |b| + |c| + |d| + |e| + |f|
  {
    Five(b, c, d, e, f, rest);
  }

  lemma BlockSteps(all: Bytes, k: nat, m: Machine, b: Block, last: bool, rest: Digits) returns (k': nat)
    requires BlockOk(m.out, b) && m.phase == Header && Stands(all, k, m, BlockBits(b, last, m.pos) + rest)
    ensures var n := |BlockBits(b, last, m.pos)|;
      var end := if last then Done else Header;
      Stands(all, k', Machine(m.pos + n, BlockText(m.out, b), last, end), rest)
  {
    hide After, Sane, Shows, Low, TablesBits, TokensBits, TablesFit, TokensOk, FixedLengths, FixedDistances;
    var x, y := Low(if last then 1 else 0, 1) + Low(BlockKind(b), 2), BodyBits(b, m.pos + 3);
    assert BlockBits(b, last, m.pos) + rest == x + (y + rest);
    HeaderStep(all, k, m, last, b, y + rest);
    match b
    case Stored(pad, data) =>
      k' := StoredSteps(all, k + 1, m.(pos := m.pos + 3, last := last, phase := Align), pad, data, rest);
    case Fixed(ts) =>
      var l, d := FixedLengths(), FixedDistances();
      FixedHasEnd();
      k' := TokensSteps(all, k + 1, m.(pos := m.pos + 3, last := last, phase := Symbol(l, d)), l, d, ts, rest);
    case Dynamic(t, ts) =>
      var x1, x2 := TablesBits(t), TokensBits(t.lit, t.dst, ts);
      assert y + rest == x1 + (x2 + rest);
      var m1 := m.(pos := m.pos + 3, last := last, phase := TableSizes([]));
      var k1 := TablesSteps(all, k + 1, m1, t, x2 + rest);
      var m2 := m1.(pos := m1.pos + |x1|, phase := Symbol(t.lit, t.dst));
      k' := TokensSteps(all, k1, m2, t.lit, t.dst, ts, rest);
  }

  lemma FixedHasEnd()
    ensures HasCode(FixedLengths(), 256)
  {
  }

  lemma {:induction false} BlocksSteps(all: Bytes, k: nat, m: Machine, bs: seq<Block>, rest: Digits) returns (k': nat)
    requires bs != [] && BlocksOk(m.out, bs) && m.phase == Header && Stands(all, k, m, BlocksBits(bs, m.pos) + rest)
    ensures After(all, k') == Machine(m.pos + |BlocksBits(bs, m.pos)|, BlocksText(m.out, bs), true, Done)
    decreases bs
  {
    hide After, Sane, Shows, BlockBits, BlockText, BlockOk;
    var x := BlockBits(bs[0], |bs| == 1, m.pos);
    var more := BlocksBits(bs[1..], m.pos + |x|);
    assert BlocksBits(bs, m.pos) + rest == x + (more + rest);
    k' := BlockSteps(all, k, m, bs[0], |bs| == 1, more + rest);
    if |bs| > 1 {
      var m1 := Machine(m.pos + |x|, BlockText(m.out, bs[0]), false, Header);
      k' := BlocksSteps(all, k', m1, bs[1..], rest);
    }
  }

  // ----- whole streams -----

  lemma {:induction false} DataNumber(data: Bytes)
    requires BytesOk(data)
    ensures Number(DataBits(data)) == Value(data) && |DataBits(data)| == 8 * |data|
  {
    if data != [] {
      var x := Low(data[0], 8);
      DataNumber(data[1..]);
      SmallPowers();
      NumberLow(data[0], 8);
      NumberJoin(x, DataBits(data[1..]));
      hide Number, Low, Pow;
    }
  }

  lemma DataShows(all: Bytes)
    requires BytesOk(all)
    ensures Shows(all, 0, DataBits(all))
  {
    DataNumber(all);
    assert Pow(0) == 1;
  }

  lemma StartIs(all: Bytes)
    ensures After(all, 0) == START
  {
    hide Next, Sane;
  }

  /** A stream that starts with an encoding of some blocks is decoded to their text, whatever follows it. */
  lemma Decodes(all: Bytes, bs: seq<Block>) returns (n: nat)
    requires BytesOk(all) && bs != [] && BlocksOk([], bs) && BlocksBits(bs, 0) <= DataBits(all)
    ensures After(all, n) == Machine(|BlocksBits(bs, 0)|, BlocksText([], bs), true, Done)
  {
    hide After, Sane, Shows, BlocksBits, BlocksText, BlocksOk, DataBits;
    var x := BlocksBits(bs, 0);
    var rest := DataBits(all)[|x|..];
    assert DataBits(all) == x + rest;
    DataShows(all);
    StartIs(all);
    n := BlocksSteps(all, 0, START, bs, rest);
  }

  lemma {:induction false} LowNumber(x: Digits, n: nat)
    requires |x| <= n
    ensures x <= Low(Number(x), n)
  {
    if x != [] {
      LowNumber(x[1..], n - 1);
      assert x == [x[0]] + x[1..];
    }
  }

  /** The bits of the bytes are those that were packed. */
  lemma {:induction false} PackData(x: Digits)
    ensures x <= DataBits(Pack(x))
    decreases |x|
  {
    var r := Pack(x);
    if |x| > 8 {
      PackData(x[8..]);
      LowNumber(x[..8], 8);
      assert r[1..] == Pack(x[8..]);
      assert DataBits(r) == x[..8] + DataBits(Pack(x[8..]));
      assert x == x[..8] + x[8..];
    } else if x != [] {
      LowNumber(x, 8);
      assert DataBits(r) == Low(Number(x), 8) + DataBits(r[1..]);
    }
  }

  /** What the encoder writes the machine decodes, to its end: every list of blocks, of every kind, with every code. */
  lemma RoundTrip(bs: seq<Block>) returns (n: nat)
    requires bs != [] && BlocksOk([], bs)
    ensures After(Encoded(bs), n) == Machine(|BlocksBits(bs, 0)|, BlocksText([], bs), true, Done)
  {
    PackData(BlocksBits(bs, 0));
    PackBytes(BlocksBits(bs, 0));
    hide After, BlocksBits, BlocksText, BlocksOk, DataBits, Pack;
    n := Decodes(Encoded(bs), bs);
  }
}
