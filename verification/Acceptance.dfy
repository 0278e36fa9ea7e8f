/** The other direction of the round trip: a stream that the machine decodes to its end is an encoding of some list of
    blocks, and the output is their text.  So exactly the encodings are accepted. */
module Acceptance {
  import opened Canonical
  import opened BitStream
  import opened BitLists
  import opened Huffman
  import opened Deflate
  import opened Encoding
  import opened RoundTrip

  /** The stream, zeros behind its end, goes on at pos with these bits. */
  ghost predicate Begins(all: Bytes, pos: nat, x: Digits) {
    From(all, pos) % Pow(|x|) == Number(x)
  }

  /** The machine gets to the end of the stream in step n. */
  ghost predicate Ends(all: Bytes, k: nat, n: nat) {
    k <= n && After(all, n).phase == Done
  }

  // ----- bits -----

  lemma Nested(f: nat, p: nat, q: nat, x: nat, y: nat)
    requires p >= 1 && q >= 1 && f % p == x && f / p % q == y && x + p * y < p * q
    ensures f % (p * q) == x + p * y
  {
    Euclid(f, p);
    Euclid(f / p, q);
    var h := f / p / q;
    assert f / p * p == (h * q + y) * p;
    Spread(h * q, y, p);
    assert h * q * p == h * (p * q);
    assert y * p == p * y;
    DivIs(f, p * q, h, x + p * y);
  }

  lemma BeginsJoin(all: Bytes, pos: nat, x: Digits, y: Digits)
    requires Begins(all, pos, x) && Begins(all, pos + |x|, y)
    ensures Begins(all, pos, x + y)
  {
    FromNext(all, pos, |x|);
    NumberJoin(x, y);
    NumberBound(x + y);
    PowAdd(|x|, |y|);
    hide From, Pow, Number;
    Nested(From(all, pos), Pow(|x|), Pow(|y|), Number(x), Number(y));
  }

  lemma NothingBegins(all: Bytes, pos: nat)
    ensures Begins(all, pos, [])
  {
    assert Pow(0) == 1;
  }

  lemma FieldBegins(all: Bytes, pos: nat, n: nat)
    ensures Begins(all, pos, Low(Bits(all, pos, n), n)) && Bits(all, pos, n) < Pow(n)
  {
    BitsBound(all, pos, n);
    NumberLow(Bits(all, pos, n), n);
  }

  lemma SymbolBegins(all: Bytes, pos: nat, ls: Lengths)
    requires NextSymbol(ls, From(all, pos)) >= 0
    ensures var s := NextSymbol(ls, From(all, pos));
      HasCode(ls, s) && Begins(all, pos, SymbolBits(ls, s)) && |SymbolBits(ls, s)| == ls[s]
  {
    var v := From(all, pos);
    SymbolBound(ls, v);
    var s := NextSymbol(ls, v);
    var l, x := ls[s], SymbolBits(ls, s);
    assert Prefix(v, l) == Code(ls, s);
    hide From, Code, NextSymbol, Prefix, Pow;
    PrefixReads(x, l);
    ReadingHigh(Code(ls, s), l);
    assert x[..l] == x;
    PrefixInjective(v, Number(x), l);
    NumberBound(x);
    Remains(Number(x), Pow(l));
  }

  lemma Remains(x: nat, p: nat)
    requires x < p
    ensures x % p == x
  {
  }

  // ----- runs that end -----

  lemma Alive(all: Bytes, k: nat, n: nat)
    requires Ends(all, k, n)
    ensures var p := After(all, k).phase;
      !p.Failed? && !p.Beyond? && (p.Done? ==> After(all, n) == After(all, k)) && (!p.Done? ==> Ends(all, k + 1, n))
    ensures Sane(After(all, k)) && After(all, k + 1) == Next(all, After(all, k))
  {
    hide After, Next, Sane;
    AfterNext(all, k);
    if Halted(After(all, k)) { Halts(all, k, n); }
  }

  lemma Sooner(all: Bytes, k: nat, n: nat)
    requires After(all, n).phase == Done && After(all, k).phase != Done
    ensures Ends(all, k, n)
  {
    hide After;
    if n < k { Halts(all, n, k); }
  }

  // ----- tokens -----

  lemma {:induction false} LengthsGrow(i: nat, j: nat)
    requires i < j <= 28
    ensures LengthStart(i) < LengthStart(j)
  {
    if j == 28 {
      LengthTable(27);
      SmallPowers();
      hide LENGTH_BASE, LENGTH_EXTRA, Pow;
      if i < 27 { LengthsGrow(i, 27); }
    } else {
      LengthNext(j - 1);
      hide Pow;
      if i < j - 1 { LengthsGrow(i, j - 1); }
    }
  }

  lemma {:induction false} DistancesGrow(i: nat, j: nat)
    requires i < j <= 29
    ensures DistanceStart(i) < DistanceStart(j)
  {
    DistanceNext(j - 1);
    hide Pow;
    if i < j - 1 { DistancesGrow(i, j - 1); }
  }

  lemma {:induction false} LengthIsIn(len: nat, k: nat, top: nat)
    requires k <= top <= 28 && len >= 3 && LengthStart(k) <= len && (k < top ==> len < LengthStart(k + 1))
    ensures LengthSlot(len, top) == k
  {
    hide LengthStart;
    if k < top {
      if k + 1 < top { LengthsGrow(k + 1, top); }
      LengthIsIn(len, k, top - 1);
    }
  }

  lemma {:induction false} DistanceIsIn(d: nat, k: nat, top: nat)
    requires k <= top <= 29 && d >= 1 && DistanceStart(k) <= d && (k < top ==> d < DistanceStart(k + 1))
    ensures DistanceSlot(d, top) == k
  {
    hide DistanceStart;
    if k < top {
      if k + 1 < top { DistancesGrow(k + 1, top); }
      DistanceIsIn(d, k, top - 1);
    }
  }

  lemma LastLength(v: nat)
    requires v < Pow(LENGTH_EXTRA[28])
    ensures v == 0
  {
    assert Pow(0) == 1;
  }

  /** The length that a symbol and its extra bits stand for is written with them. */
  lemma LengthWritten(k: nat, v: nat) returns (plain: bool)
    requires k < 29 && v < Pow(LENGTH_EXTRA[k])
    ensures var len := LENGTH_BASE[k] + v;
      && 3 <= len <= 258 && LengthSymbol(len, plain) == 257 + k && LengthRest(len, plain) == Low(v, LENGTH_EXTRA[k])
      && (plain || len == 258)
  {
    hide LENGTH_BASE, LENGTH_EXTRA, DIST_BASE, DIST_EXTRA, Pow, LengthSlot, LengthStart, Encoding.LengthBits, Low;
    LengthTable(k);
    RangesAdjoin(k);
    if k == 28 { LastLength(v); }
    var len := LengthStart(k) + v;
    plain := k != 27 || len != 258;
    if k > 0 { LengthsGrow(0, k); }
    LengthTable(0);
    LengthTable(28);
    LengthTable(27);
    if k < 27 {
      LengthTable(k + 1);
      LengthsGrow(k + 1, 28);
    }
    LengthIsIn(len, k, if plain then 28 else 27);
  }

  lemma DistanceWritten(k: nat, v: nat)
    requires k < 30 && v < Pow(DIST_EXTRA[k])
    ensures var d := DIST_BASE[k] + v;
      1 <= d <= 32768 && DistanceSlot(d, 29) == k && DistanceRest(d) == Low(v, DIST_EXTRA[k])
  {
    hide LENGTH_BASE, LENGTH_EXTRA, DIST_BASE, DIST_EXTRA, Pow, DistanceSlot, DistanceStart, Encoding.DistanceBits, Low;
    DistanceTable(k);
    RangesAdjoin(k);
    var d := DistanceStart(k) + v;
    if k > 0 { DistancesGrow(0, k); }
    DistanceTable(0);
    DistanceTable(29);
    if k < 29 {
      DistanceTable(k + 1);
      if k + 1 < 29 { DistancesGrow(k + 1, 29); }
    }
    DistanceIsIn(d, k, 29);
  }

  lemma ParseLength(all: Bytes, k: nat, n: nat, l: Lengths, d: Lengths, s: nat) returns (len: nat, plain: bool)
    requires Ends(all, k, n) && After(all, k).phase == Phase.LengthBits(l, d, s)
    ensures var m := After(all, k);
      && 3 <= len <= 258 && (plain || len == 258) && LengthSymbol(len, plain) == s
      && Begins(all, m.pos, LengthRest(len, plain))
      && After(all, k + 1) == m.(pos := m.pos + |LengthRest(len, plain)|, phase := Distance(l, d, len))
    ensures Ends(all, k + 1, n)
  {
    hide After, Next, LENGTH_BASE, LENGTH_EXTRA, Bits, LengthPart, Encoding.LengthBits, Low, Begins, Pow, TablesOk;
    var m := After(all, k);
    Alive(all, k, n);
    RangeEnds();
    var i := LENGTH_EXTRA[s - 257];
    FieldBegins(all, m.pos, i);
    plain := LengthWritten(s - 257, Bits(all, m.pos, i));
    len := LENGTH_BASE[s - 257] + Bits(all, m.pos, i);
    RoundTrip.LengthBits(all, m, l, d, s - 257);
  }

  lemma ParseDistance(all: Bytes, k: nat, n: nat, l: Lengths, d: Lengths, len: nat, s: nat) returns (back: nat)
    requires Ends(all, k, n) && After(all, k).phase == Phase.DistanceBits(l, d, len, s)
    ensures var m := After(all, k);
      && 1 <= back <= 32768 && back <= |m.out| && DistanceSlot(back, 29) == s
      && Begins(all, m.pos, DistanceRest(back))
      && After(all, k + 1) == m.(pos := m.pos + |DistanceRest(back)|, phase := Copy(l, d, len, back))
    ensures Ends(all, k + 1, n)
  {
    hide After, Next, DIST_BASE, DIST_EXTRA, Bits, DistanceSlot, Encoding.DistanceBits, Low, Begins, Pow, TablesOk;
    var m := After(all, k);
    Alive(all, k, n);
    RangeEnds();
    var i := DIST_EXTRA[s];
    FieldBegins(all, m.pos, i);
    DistanceWritten(s, Bits(all, m.pos, i));
    back := DIST_BASE[s] + Bits(all, m.pos, i);
    Alive(all, k + 1, n);
    NotFar(all, m, l, d, len, s);
    RoundTrip.DistanceBits(all, m, l, d, len, s);
  }

  lemma NotFar(all: Bytes, m: Machine, l: Lengths, d: Lengths, len: nat, s: nat)
    requires Sane(m) && s < 30 && m.phase == Phase.DistanceBits(l, d, len, s) && !Next(all, m).phase.Failed?
    ensures DIST_BASE[s] + Bits(all, m.pos, DIST_EXTRA[s]) <= |m.out|
  {
    hide DIST_BASE, DIST_EXTRA, Bits;
    assert Next(all, m) == NextDistanceBits(all, m, l, d, len, s);
  }

  lemma DistanceSymbolIs(all: Bytes, m: Machine, l: Lengths, d: Lengths, len: nat)
    requires Sane(m) && m.phase == Distance(l, d, len) && !Next(all, m).phase.Beyond?
    ensures 0 <= NextSymbol(d, From(all, m.pos)) < |d| && NextSymbol(d, From(all, m.pos)) < 30
  {
    hide NextSymbol, From;
  }

  lemma LiteralSymbolIs(all: Bytes, m: Machine, l: Lengths, d: Lengths)
    requires Sane(m) && m.phase == Symbol(l, d) && !Next(all, m).phase.Beyond?
    ensures var s := NextSymbol(l, From(all, m.pos));
      && 0 <= s < |l| && s < 286
      && Next(all, m) ==
      if s == 256 then m.(pos := m.pos + l[s], phase := if m.last then Done else Header)
      else m.(pos := m.pos + l[s], phase := if s < 256 then Emit(l, d, s) else Phase.LengthBits(l, d, s))
  {
    hide NextSymbol, From;
  }

  /** A match, behind the symbol of its length. */
  lemma ParseMatch(all: Bytes, k: nat, n: nat, l: Lengths, d: Lengths, s: nat) returns (t: Token, x: Digits, k': nat)
    requires Ends(all, k, n) && After(all, k).phase == Phase.LengthBits(l, d, s) && HasCode(l, s)
    ensures var m := After(all, k);
      && t.Match? && TokenOk(l, d, m.out, t) && TokenBits(l, d, t) == SymbolBits(l, s) + x && Begins(all, m.pos, x)
      && k < k' && Ends(all, k', n)
      && After(all, k') == m.(pos := m.pos + |x|, out := Grown(m.out, t), phase := Symbol(l, d))
  {
    hide After, Begins, Bits, Copied, DIST_BASE, DIST_EXTRA, DistanceRest, DistanceSlot, DistanceStart, From,
      HasCode, LENGTH_BASE, LENGTH_EXTRA, LengthPart, LengthRest, LengthSymbol, Next, NextSymbol, Sane, SymbolBits;
    var m := After(all, k);
    var len, plain := ParseLength(all, k, n, l, d, s);
    var m1 := After(all, k + 1);
    Alive(all, k + 1, n);
    Alive(all, k + 2, n);
    DistanceSymbolIs(all, m1, l, d, len);
    SymbolBegins(all, m1.pos, d);
    var j := NextSymbol(d, From(all, m1.pos));
    DistanceSymbolNext(all, m1, l, d, len, j);
    var back := ParseDistance(all, k + 2, n, l, d, len, j);
    var m3 := After(all, k + 3);
    k' := CopySteps(all, k + 3, m3, l, d, len, back);
    Sooner(all, k', n);
    t := Match(len, back, plain);
    var a, b, c := LengthRest(len, plain), SymbolBits(d, j), DistanceRest(back);
    x := a + (b + c);
    BeginsJoin(all, m1.pos, b, c);
    BeginsJoin(all, m.pos, a, b + c);
  }

  lemma {:induction false} ParseTokens(all: Bytes, k: nat, n: nat, l: Lengths, d: Lengths)
    returns (ts: seq<Token>, k': nat)
    requires Ends(all, k, n) && After(all, k).phase == Symbol(l, d)
    ensures var m := After(all, k);
      var end := if m.last then Done else Header;
      && TokensOk(l, d, m.out, ts) && HasCode(l, 256) && Begins(all, m.pos, TokensBits(l, d, ts))
      && k < k' && Ends(all, k', n)
      && After(all, k') == m.(pos := m.pos + |TokensBits(l, d, ts)|, out := Text(m.out, ts), phase := end)
    decreases n - k
  {
    hide After, Next, Sane, SymbolBits, TokenBits, TokenOk, Grown, Begins, NextSymbol, From;
    var m := After(all, k);
    Alive(all, k, n);
    Alive(all, k + 1, n);
    LiteralSymbolIs(all, m, l, d);
    SymbolBegins(all, m.pos, l);
    var s := NextSymbol(l, From(all, m.pos));
    if s == 256 {
      ts, k' := [], k + 1;
    } else {
      var t, k1 := ParseToken(all, k, n, l, d, s);
      var more;
      more, k' := ParseTokens(all, k1, n, l, d);
      ts := [t] + more;
      assert ts[1..] == more;
      BeginsJoin(all, m.pos, TokenBits(l, d, t), TokensBits(l, d, more));
    }
  }

  lemma ParseToken(all: Bytes, k: nat, n: nat, l: Lengths, d: Lengths, s: nat) returns (t: Token, k': nat)
    requires Ends(all, k, n) && After(all, k).phase == Symbol(l, d)
      && NextSymbol(l, From(all, After(all, k).pos)) == s != 256
    ensures var m := After(all, k);
      && TokenOk(l, d, m.out, t) && Begins(all, m.pos, TokenBits(l, d, t)) && k < k' && Ends(all, k', n)
      && After(all, k') == m.(pos := m.pos + |TokenBits(l, d, t)|, out := Grown(m.out, t))
  {
    hide After, Begins, Bits, Copied, DIST_BASE, DIST_EXTRA, DistanceRest, DistanceSlot, DistanceStart, Ends, From,
      HasCode, LENGTH_BASE, LENGTH_EXTRA, LengthPart, LengthRest, Next, NextSymbol, Sane, SymbolBits;
    var m := After(all, k);
    Alive(all, k, n);
    Alive(all, k + 1, n);
    LiteralSymbolIs(all, m, l, d);
    SymbolBegins(all, m.pos, l);
    if s < 256 {
      t, k' := Literal(s), k + 2;
      EmitStep(all, After(all, k + 1), l, d, s);
    } else {
      hide TokenOk, TokenBits, Grown;
      var x;
      t, x, k' := ParseMatch(all, k + 1, n, l, d, s);
      BeginsJoin(all, m.pos, SymbolBits(l, s), x);
    }
  }

  lemma EmitStep(all: Bytes, m: Machine, l: Lengths, d: Lengths, s: nat)
    requires Sane(m) && m.phase == Emit(l, d, s)
    ensures Next(all, m) == m.(out := m.out + [s], phase := Symbol(l, d))
  {
  }

  // ----- stored blocks -----

  lemma RawByte(all: Bytes, m: Machine, h: Bytes)
    requires Sane(m) && m.phase == RawHead(h) && |h| < 4
    ensures Next(all, m) == m.(pos := m.pos + 8, phase := RawHead(h + [Bits(all, m.pos, 8)]))
  {
    hide Bits;
  }

  /** One of the four bytes in front of the data. */
  lemma ParseRawByte(all: Bytes, k: nat, n: nat, h: Bytes) returns (v: nat)
    requires Ends(all, k, n) && After(all, k).phase == RawHead(h) && |h| < 4
    ensures var m := After(all, k);
      && v < 0x100 && Begins(all, m.pos, Low(v, 8))
      && After(all, k + 1) == m.(pos := m.pos + 8, phase := RawHead(h + [v]))
    ensures Ends(all, k + 1, n)
  {
    hide After, Next, Sane, Bits, Low, Begins, Pow;
    var m := After(all, k);
    Alive(all, k, n);
    RawByte(all, m, h);
    FieldBegins(all, m.pos, 8);
    ByteBits(all, m.pos);
    v := Bits(all, m.pos, 8);
  }

  lemma ParseRawHead(all: Bytes, k: nat, n: nat) returns (len: nat)
    requires Ends(all, k, n) && After(all, k).phase == RawHead([])
    ensures len < 0x1_0000
    ensures var m := After(all, k);
      var x := Low(len % 0x100, 8) + (Low(len / 0x100, 8) + (Low(0xFF - len % 0x100, 8) + Low(0xFF - len / 0x100, 8)));
      && Begins(all, m.pos, x)
      && After(all, k + 5) == m.(pos := m.pos + 32, phase := RawRead(len))
    ensures Ends(all, k + 5, n)
  {
    hide After, Next, Sane, Bits, Low, Begins, Pow;
    var m := After(all, k);
    var a := ParseRawByte(all, k, n, []);
    var b := ParseRawByte(all, k + 1, n, [] + [a]);
    var c := ParseRawByte(all, k + 2, n, [] + [a] + [b]);
    var d := ParseRawByte(all, k + 3, n, [] + [a] + [b] + [c]);
    assert [] + [a] + [b] + [c] + [d] == [a, b, c, d];
    Alive(all, k + 4, n);
    Alive(all, k + 5, n);
    len := RawComplement(all, After(all, k + 4), a, b, c, d);
    BeginsJoin(all, m.pos + 16, Low(c, 8), Low(d, 8));
    BeginsJoin(all, m.pos + 8, Low(b, 8), Low(c, 8) + Low(d, 8));
    BeginsJoin(all, m.pos, Low(a, 8), Low(b, 8) + (Low(c, 8) + Low(d, 8)));
  }

  lemma RawComplement(all: Bytes, m: Machine, a: nat, b: nat, c: nat, d: nat) returns (len: nat)
    requires Sane(m) && a < 0x100 && b < 0x100 && c < 0x100 && d < 0x100
    requires m.phase == RawHead([a, b, c, d]) && !Next(all, m).phase.Failed?
    ensures a == len % 0x100 && b == len / 0x100 < 0x100 && c == 0xFF - a && d == 0xFF - b
    ensures Next(all, m) == m.(phase := RawRead(len))
  {
    hide Bits;
    len := a + 0x100 * b;
    assert a + 0x100 * b + (c + 0x100 * d) == 0xFFFF;
  }

  lemma RawReadIs(all: Bytes, m: Machine, left: nat)
    requires Sane(m) && m.phase == RawRead(left) && left > 0 && !Next(all, m).phase.Failed?
    ensures Next(all, m) == m.(pos := m.pos + 8, phase := RawEmit(left, Bits(all, m.pos, 8)))
  {
    hide Bits;
  }

  lemma RawEmitIs(all: Bytes, m: Machine, left: nat, v: nat)
    requires Sane(m) && m.phase == RawEmit(left, v)
    ensures left > 0 && Next(all, m) == m.(out := m.out + [v], phase := RawRead(left - 1))
  {
  }

  lemma {:induction false} ParseData(all: Bytes, k: nat, n: nat, left: nat) returns (data: Bytes, k': nat)
    requires Ends(all, k, n) && After(all, k).phase == RawRead(left)
    ensures var m := After(all, k);
      var end := if m.last then Done else Header;
      && |data| == left && (forall i :: 0 <= i < left ==> data[i] < 0x100) && Begins(all, m.pos, DataBits(data))
      && k < k' && Ends(all, k', n)
      && After(all, k') == m.(pos := m.pos + |DataBits(data)|, out := m.out + data, phase := end)
    decreases left
  {
    hide After, Sane, Bits, Low, Begins, Pow;
    var m := After(all, k);
    Alive(all, k, n);
    Alive(all, k + 1, n);
    if left == 0 {
      data, k' := [], k + 1;
      NothingBegins(all, m.pos);
      assert m.out + data == m.out;
    } else {
      hide Next;
      RawReadIs(all, m, left);
      Alive(all, k + 2, n);
      FieldBegins(all, m.pos, 8);
      ByteBits(all, m.pos);
      var v := Bits(all, m.pos, 8);
      RawEmitIs(all, After(all, k + 1), left, v);
      var more;
      more, k' := ParseData(all, k + 2, n, left - 1);
      data := [v] + more;
      assert data[1..] == more;
      BeginsJoin(all, m.pos, Low(v, 8), DataBits(more));
      assert m.out + data == m.out + [v] + more;
    }
  }

  lemma ParseStored(all: Bytes, k: nat, n: nat) returns (pad: nat, data: Bytes, k': nat)
    requires Ends(all, k, n) && After(all, k).phase == Align
    ensures var m := After(all, k);
      var b := Stored(pad, data);
      var end := if m.last then Done else Header;
      && BlockOk(m.out, b) && Begins(all, m.pos, BodyBits(b, m.pos)) && k < k' && Ends(all, k', n)
      && After(all, k') == m.(pos := m.pos + |BodyBits(b, m.pos)|, out := m.out + data, phase := end)
  {
    hide After, Sane, Bits, Low, Begins, Pow, DataBits;
    var m := After(all, k);
    var w := (8 - m.pos % 8) % 8;
    Alive(all, k, n);
    ToByte(m.pos);
    FieldBegins(all, m.pos, w);
    pad := Bits(all, m.pos, w);
    var len := ParseRawHead(all, k + 1, n);
    data, k' := ParseData(all, k + 6, n, len);
    var h0, h1, h2, h3 := Low(len % 0x100, 8), Low(len / 0x100, 8), Low(0xFF - len % 0x100, 8),
      Low(0xFF - len / 0x100, 8);
    var x := h0 + (h1 + (h2 + h3));
    BeginsJoin(all, m.pos + w, x, DataBits(data));
    BeginsJoin(all, m.pos, Low(pad, w), x + DataBits(data));
    Four(h0, h1, h2, h3, DataBits(data));
  }

  // ----- tables -----

  lemma ParseSize(all: Bytes, k: nat, n: nat, sizes: Bytes) returns (v: nat)
    requires Ends(all, k, n) && After(all, k).phase == TableSizes(sizes) && |sizes| < 3
    ensures var m := After(all, k);
      var w := SizeBits(|sizes|);
      && v < Pow(w) && Begins(all, m.pos, Low(v, w))
      && After(all, k + 1) == m.(pos := m.pos + w, phase := TableSizes(sizes + [v + MinTableSize(|sizes|)]))
    ensures Ends(all, k + 1, n)
  {
    hide After, Sane, Bits, Low, Begins, Pow, SizeBits, MinTableSize;
    var m := After(all, k);
    Alive(all, k, n);
    FieldBegins(all, m.pos, SizeBits(|sizes|));
    v := Bits(all, m.pos, SizeBits(|sizes|));
  }

  lemma ParseSizes(all: Bytes, k: nat, n: nat) returns (a: nat, b: nat, c: nat)
    requires Ends(all, k, n) && After(all, k).phase == TableSizes([])
    ensures var m := After(all, k);
      && 257 <= a <= 288 && 1 <= b <= 32 && 4 <= c <= 19
      && Begins(all, m.pos, Low(a - 257, 5) + (Low(b - 1, 5) + Low(c - 4, 4)))
      && After(all, k + 4) == m.(pos := m.pos + 14, phase := CodeLens([a, b, c], 0, seq(19, i => 0)))
    ensures Ends(all, k + 4, n)
  {
    hide After, Sane, Low, Begins, Pow;
    var m := After(all, k);
    SmallPowers();
    var u := ParseSize(all, k, n, []);
    a := u + 257;
    var v := ParseSize(all, k + 1, n, [] + [a]);
    b := v + 1;
    var w := ParseSize(all, k + 2, n, [] + [a] + [b]);
    c := w + 4;
    assert [] + [a] + [b] + [c] == [a, b, c];
    Alive(all, k + 3, n);
    BeginsJoin(all, m.pos + 5, Low(b - 1, 5), Low(c - 4, 4));
    BeginsJoin(all, m.pos, Low(a - 257, 5), Low(b - 1, 5) + Low(c - 4, 4));
  }

  /** The lengths sent so far: three bits each, and none for the symbols whose turn has not come. */
  ghost predicate SentSoFar(lens: Lengths, i: nat) {
    && |lens| == 19 && i <= 19 && (forall s :: 0 <= s < 19 ==> lens[s] < 8)
    && forall j :: i <= j < 19 ==> lens[OrderAt(j)] == 0
  }

  lemma SendOne(lens: Lengths, i: nat, v: nat)
    requires SentSoFar(lens, i) && i < 19 && v < 8
    ensures ORDER[i] == OrderAt(i) && SentSoFar(lens[OrderAt(i) := v], i + 1)
  {
    OrderTable(i);
    forall j | i < j < 19 ensures OrderAt(j) != OrderAt(i) { OrderTable(j); }
    hide OrderAt, PlaceOf, ORDER;
  }

  lemma {:induction false} ParseLens(all: Bytes, k: nat, n: nat, sizes: Bytes, i: nat, lens: Lengths)
    returns (clen: Lengths, k': nat)
    requires Ends(all, k, n) && After(all, k).phase == CodeLens(sizes, i, lens) && SentSoFar(lens, i)
    requires |sizes| == 3 && i <= sizes[2] <= 19
    ensures var m := After(all, k);
      var x := LensBits(clen, i, sizes[2]);
      && SentSoFar(clen, sizes[2]) && Usable(clen) && Begins(all, m.pos, x) && k < k' && Ends(all, k', n)
      && After(all, k') == m.(pos := m.pos + |x|, phase := Codes(sizes, clen, []))
    ensures forall j :: 0 <= j < i ==> clen[OrderAt(j)] == lens[OrderAt(j)]
    decreases sizes[2] - i
  {
    hide After, Sane, Bits, Low, Begins, Pow, SentSoFar, OrderAt, PlaceOf, Usable, Next;
    var m := After(all, k);
    Alive(all, k, n);
    assert |lens| == 19 by { SentSize(lens, i); }
    if i == sizes[2] {
      Alive(all, k + 1, n);
      LensUsable(all, m, sizes, lens);
      clen, k' := lens, k + 1;
      NothingBegins(all, m.pos);
    } else {
      FieldBegins(all, m.pos, 3);
      SmallPowers();
      var v := Bits(all, m.pos, 3);
      SendOne(lens, i, v);
      LensNext(all, m, sizes, lens, i, v);
      clen, k' := ParseLens(all, k + 1, n, sizes, i + 1, lens[OrderAt(i) := v]);
      SentSize(clen, sizes[2]);
      forall j | 0 <= j < i ensures clen[OrderAt(j)] == lens[OrderAt(j)] { Apart(j, i); }
      BeginsJoin(all, m.pos, Low(v, 3), LensBits(clen, i + 1, sizes[2]));
    }
  }

  lemma Apart(i: nat, j: nat)
    requires i < j < 19
    ensures OrderAt(i) != OrderAt(j)
  {
    OrderTable(i);
    OrderTable(j);
    hide OrderAt, PlaceOf;
  }

  lemma SentSize(lens: Lengths, i: nat)
    requires SentSoFar(lens, i)
    ensures |lens| == 19 && i <= 19
  {
  }

  lemma LensUsable(all: Bytes, m: Machine, sizes: Bytes, lens: Lengths)
    requires Sane(m) && |lens| == 19 && |sizes| == 3 && m.phase == CodeLens(sizes, sizes[2], lens)
    requires !Next(all, m).phase.Failed?
    ensures Usable(lens) && Next(all, m) == m.(phase := Codes(sizes, lens, []))
  {
    hide Bits, ORDER, Usable;
  }

  // ----- code lengths -----

  lemma CodesIs(all: Bytes, m: Machine, sizes: Bytes, clen: Lengths, codes: Lengths)
    requires Sane(m) && m.phase == Codes(sizes, clen, codes) && |sizes| == 3 && |codes| < sizes[0] + sizes[1]
    requires !Next(all, m).phase.Failed? && !Next(all, m).phase.Beyond?
    ensures var s := NextSymbol(clen, From(all, m.pos));
      && 0 <= s < |clen| == 19 && (s == 16 ==> codes != [])
      && Next(all, m) == m.(pos := m.pos + clen[s],
                            phase := if s < 16 then Codes(sizes, clen, codes + [s]) else Repeat(sizes, clen, codes, s))
  {
    hide NextSymbol, From, Usable, Sizes, SizesOk;
  }

  lemma CodesEnd(all: Bytes, m: Machine, sizes: Bytes, clen: Lengths, codes: Lengths)
    requires Sane(m) && m.phase == Codes(sizes, clen, codes) && |sizes| == 3 && |codes| >= sizes[0] + sizes[1]
    requires !Next(all, m).phase.Failed?
    ensures |codes| == sizes[0] + sizes[1] && Sizes(codes)
    ensures Usable(codes[..sizes[0]]) && Usable(codes[sizes[0]..])
    ensures Next(all, m) == m.(phase := Symbol(codes[..sizes[0]], codes[sizes[0]..]))
  {
    hide NextSymbol, From, Usable, Sizes, SizesOk;
  }

  /** The item that a symbol and the bits behind it stand for. */
  lemma RunWritten(s: nat, v: nat, clen: Lengths, codes: Lengths) returns (it: Item)
    requires 16 <= s <= 18 && v < Pow(RepeatBits(s)) && HasCode(clen, s) && (s == 16 ==> codes != [])
    ensures ItemOk(clen, codes, it) && ItemSymbol(it) == s && RunBits(it) == Low(v, RepeatBits(s))
    ensures Spelled(codes, it) == WithRun(codes, s, v + RepeatBase(s))
  {
    SmallPowers();
    hide Pow, Low;
    var n := v + RepeatBase(s);
    it := if s == 16 then Again(n) else Zeros(n);
  }

  lemma ParseItem(all: Bytes, k: nat, n: nat, sizes: Bytes, clen: Lengths, codes: Lengths) returns (it: Item, k': nat)
    requires Ends(all, k, n) && After(all, k).phase == Codes(sizes, clen, codes)
    requires |sizes| == 3 && |codes| < sizes[0] + sizes[1]
    ensures var m := After(all, k);
      var x := SymbolBits(clen, ItemSymbol(it)) + RunBits(it);
      && ItemOk(clen, codes, it) && Begins(all, m.pos, x) && k < k' && Ends(all, k', n)
      && After(all, k') == m.(pos := m.pos + |x|, phase := Codes(sizes, clen, Spelled(codes, it)))
  {
    hide After, Next, Sane, Bits, Low, Begins, Pow, SymbolBits, NextSymbol, From, WithRun, RepeatBits, RepeatBase;
    var m := After(all, k);
    Alive(all, k, n);
    Alive(all, k + 1, n);
    CodesIs(all, m, sizes, clen, codes);
    SymbolBegins(all, m.pos, clen);
    var s := NextSymbol(clen, From(all, m.pos));
    if s < 16 {
      it, k' := Size(s), k + 1;
      assert SymbolBits(clen, s) + [] == SymbolBits(clen, s);
    } else {
      var m1 := After(all, k + 1);
      var w := RepeatBits(s);
      FieldBegins(all, m1.pos, w);
      it := RunWritten(s, Bits(all, m1.pos, w), clen, codes);
      hide RunBits, ItemOk, Spelled;
      RepeatIs(all, m1, sizes, clen, codes, s);
      BeginsJoin(all, m.pos, SymbolBits(clen, s), RunBits(it));
      k' := k + 2;
      Sooner(all, k', n);
    }
  }

  lemma RepeatIs(all: Bytes, m: Machine, sizes: Bytes, clen: Lengths, codes: Lengths, s: nat)
    requires Sane(m) && m.phase == Repeat(sizes, clen, codes, s)
    ensures var w := RepeatBits(s);
      Next(all, m)
      == m.(pos := m.pos + w, phase := Codes(sizes, clen, WithRun(codes, s, Bits(all, m.pos, w) + RepeatBase(s))))
  {
    hide Bits, WithRun, RepeatBase, RepeatBits;
  }

  lemma {:induction false} ParseItems(all: Bytes, k: nat, n: nat, sizes: Bytes, clen: Lengths, codes: Lengths)
    returns (items: seq<Item>, k': nat)
    requires Ends(all, k, n) && After(all, k).phase == Codes(sizes, clen, codes) && |sizes| == 3
    ensures var m := After(all, k);
      var x := ItemsBits(clen, items);
      var r := SpelledAll(codes, items);
      && ItemsOk(clen, codes, items) && Begins(all, m.pos, x) && k < k' && Ends(all, k', n)
      && |r| == sizes[0] + sizes[1] && Sizes(r) && Usable(r[..sizes[0]]) && Usable(r[sizes[0]..])
      && After(all, k') == m.(pos := m.pos + |x|, phase := Symbol(r[..sizes[0]], r[sizes[0]..]))
    decreases n - k
  {
    hide After, Next, Sane, Begins, SymbolBits, RunBits, ItemOk, Spelled, ItemSymbol, Usable, Sizes;
    var m := After(all, k);
    if |codes| >= sizes[0] + sizes[1] {
      Alive(all, k, n);
      Alive(all, k + 1, n);
      CodesEnd(all, m, sizes, clen, codes);
      items, k' := [], k + 1;
      NothingBegins(all, m.pos);
    } else {
      var it, k1 := ParseItem(all, k, n, sizes, clen, codes);
      var more;
      more, k' := ParseItems(all, k1, n, sizes, clen, Spelled(codes, it));
      items := [it] + more;
      assert items[1..] == more;
      var a, b, c := SymbolBits(clen, ItemSymbol(it)), RunBits(it), ItemsBits(clen, more);
      BeginsJoin(all, m.pos, a + b, c);
      assert a + b + c == a + (b + c);
    }
  }

  lemma SizesApart(r: Lengths, i: nat)
    requires Sizes(r) && i <= |r|
    ensures Sizes(r[..i]) && Sizes(r[i..]) && r[..i] + r[i..] == r
  {
  }

  lemma ParseTables(all: Bytes, k: nat, n: nat) returns (t: Tables, k': nat)
    requires Ends(all, k, n) && After(all, k).phase == TableSizes([])
    ensures var m := After(all, k);
      && TablesFit(t) && Begins(all, m.pos, TablesBits(t)) && k < k' && Ends(all, k', n)
      && After(all, k') == m.(pos := m.pos + |TablesBits(t)|, phase := Symbol(t.lit, t.dst))
  {
    hide After, Next, Sane, Begins, Low, LensBits, ItemsBits, ItemsOk, SpelledAll, Usable, Sizes, OrderAt;
    var m := After(all, k);
    var a, b, c := ParseSizes(all, k, n);
    var zeros: Lengths := seq(19, i => 0);
    var clen, k1 := ParseLens(all, k + 4, n, [a, b, c], 0, zeros);
    var items, k2 := ParseItems(all, k1, n, [a, b, c], clen, []);
    k' := k2;
    var r := SpelledAll([], items);
    SizesApart(r, a);
    t := Tables(r[..a], r[a..], clen, c, items);
    assert Sizes(clen) by { SmallLengths(clen, c); }
    var x, y := LensBits(clen, 0, c), ItemsBits(clen, items);
    var u, v, w := Low(a - 257, 5), Low(b - 1, 5), Low(c - 4, 4);
    BeginsJoin(all, m.pos + 14, x, y);
    BeginsJoin(all, m.pos, u + (v + w), x + y);
    Three(u, v, w, x + y);
  }

  lemma Three(a: Digits, b: Digits, c: Digits, rest: Digits)
    ensures a + (b + c) + rest == a + (b + (c + rest))
  {
  }

  lemma SmallLengths(clen: Lengths, c: nat)
    requires SentSoFar(clen, c)
    ensures Sizes(clen)
  {
  }

  // ----- blocks -----

  lemma ParseHeader(all: Bytes, k: nat, n: nat) returns (last: bool, kind: nat)
    requires Ends(all, k, n) && After(all, k).phase == Header
    ensures var m := After(all, k);
      var next := if kind == 0 then Align else if kind == 1 then Symbol(FixedLengths(), FixedDistances())
        else TableSizes([]);
      && kind < 3 && Begins(all, m.pos, Low(if last then 1 else 0, 1) + Low(kind, 2))
      && After(all, k + 1) == m.(pos := m.pos + 3, last := last, phase := next)
    ensures Ends(all, k + 1, n)
  {
    hide After, Sane, Bits, Low, Begins, Pow, FixedLengths, FixedDistances;
    var m := After(all, k);
    Alive(all, k, n);
    Alive(all, k + 1, n);
    FieldBegins(all, m.pos, 3);
    var v := Bits(all, m.pos, 3);
    SmallPowers();
    last, kind := v % 2 == 1, v / 2;
    HeaderBits(last, kind);
  }

  lemma ParseBlock(all: Bytes, k: nat, n: nat) returns (b: Block, last: bool, k': nat)
    requires Ends(all, k, n) && After(all, k).phase == Header
    ensures var m := After(all, k);
      var x := BlockBits(b, last, m.pos);
      && BlockOk(m.out, b) && Begins(all, m.pos, x) && k < k' && Ends(all, k', n)
      && After(all, k') == Machine(m.pos + |x|, BlockText(m.out, b), last, if last then Done else Header)
  {
    hide After, Sane, Low, Begins, TablesBits, TokensBits, TablesFit, TokensOk, FixedLengths, FixedDistances;
    var m := After(all, k);
    var kind;
    last, kind := ParseHeader(all, k, n);
    var m1 := After(all, k + 1);
    if kind == 0 {
      var pad, data;
      pad, data, k' := ParseStored(all, k + 1, n);
      b := Stored(pad, data);
    } else if kind == 1 {
      var ts;
      ts, k' := ParseTokens(all, k + 1, n, FixedLengths(), FixedDistances());
      b := Fixed(ts);
    } else {
      var t, k1 := ParseTables(all, k + 1, n);
      var ts;
      ts, k' := ParseTokens(all, k1, n, t.lit, t.dst);
      b := Dynamic(t, ts);
      BeginsJoin(all, m1.pos, TablesBits(t), TokensBits(t.lit, t.dst, ts));
    }
    hide BodyBits;
    BeginsJoin(all, m.pos, Low(if last then 1 else 0, 1) + Low(BlockKind(b), 2), BodyBits(b, m1.pos));
  }

  lemma {:induction false} ParseBlocks(all: Bytes, k: nat, n: nat) returns (bs: seq<Block>)
    requires Ends(all, k, n) && After(all, k).phase == Header
    ensures var m := After(all, k);
      var x := BlocksBits(bs, m.pos);
      && bs != [] && BlocksOk(m.out, bs) && Begins(all, m.pos, x)
      && After(all, n) == Machine(m.pos + |x|, BlocksText(m.out, bs), true, Done)
    decreases n - k
  {
    hide After, Sane, Begins, BlockBits, BlockOk, BlockText;
    var m := After(all, k);
    var b, last, k1 := ParseBlock(all, k, n);
    var x := BlockBits(b, last, m.pos);
    if last {
      bs := [b];
      Halts(all, k1, n);
      assert BlocksBits(bs, m.pos) == x;
    } else {
      var more := ParseBlocks(all, k1, n);
      bs := [b] + more;
      assert bs[1..] == more;
      BeginsJoin(all, m.pos, x, BlocksBits(more, m.pos + |x|));
    }
  }

  // ----- exactly the encodings -----

  lemma NumberRest(a: Digits, n: nat)
    requires n <= |a|
    ensures Number(a) % Pow(n) == Number(a[..n])
  {
    assert a == a[..n] + a[n..];
    NumberJoin(a[..n], a[n..]);
    NumberBound(a[..n]);
    hide Number, Pow, Quotient;
    Sum(Number(a[..n]), Number(a[n..]), Pow(n), Number(a));
  }

  lemma {:induction false} SameNumber(a: Digits, b: Digits)
    requires |a| == |b| && Number(a) == Number(b)
    ensures a == b
  {
    if a != [] {
      FirstDigit(a);
      FirstDigit(b);
      SameNumber(a[1..], b[1..]);
      assert a == [a[0]] + a[1..] && b == [b[0]] + b[1..];
    }
  }

  /** Whatever the machine decodes to its end is an encoding: bit by bit, as far as the stream goes. */
  lemma OnlyEncodings(all: Bytes, n: nat) returns (bs: seq<Block>)
    requires BytesOk(all) && After(all, n).phase == Done
    ensures bs != [] && BlocksOk([], bs) && After(all, n).out == BlocksText([], bs)
    ensures var x := BlocksBits(bs, 0);
      After(all, n).pos == |x| && Begins(all, 0, x) && (|x| <= 8 * |all| ==> x <= DataBits(all))
  {
    hide After, Sane, BlocksBits, BlocksText, BlocksOk, Begins;
    StartIs(all);
    bs := ParseBlocks(all, 0, n);
    var x := BlocksBits(bs, 0);
    if |x| <= 8 * |all| { Prefixes(all, x); }
  }

  lemma FromStart(all: Bytes)
    ensures From(all, 0) == Value(all)
  {
    assert Pow(0) == 1;
  }

  lemma Prefixes(all: Bytes, x: Digits)
    requires BytesOk(all) && Begins(all, 0, x) && |x| <= 8 * |all|
    ensures x <= DataBits(all)
  {
    hide From, Pow, DataBits, Number, Value;
    var all' := DataBits(all);
    DataNumber(all);
    NumberRest(all', |x|);
    FromStart(all);
    SameNumber(x, all'[..|x|]);
  }

  ghost predicate DecodesTo(all: Bytes, text: Bytes) {
    exists n :: After(all, n).phase == Done && After(all, n).out == text && After(all, n).pos <= 8 * |all|
  }

  ghost predicate Encodes(all: Bytes, text: Bytes) {
    exists bs :: bs != [] && BlocksOk([], bs) && BlocksBits(bs, 0) <= DataBits(all) && BlocksText([], bs) == text
  }

  /** The streams that are decoded without a bit from behind their end are those that start with an encoding, and each
      is decoded to its one text. */
  lemma Exactly(all: Bytes, text: Bytes)
    requires BytesOk(all)
    ensures DecodesTo(all, text) <==> Encodes(all, text)
    ensures forall other :: Encodes(all, text) && Encodes(all, other) ==> text == other
  {
    hide After, Sane, BlocksBits, BlocksText, BlocksOk, Begins, DataBits;
    ExactlyOne(all, text);
    forall other | Encodes(all, text) && Encodes(all, other) ensures text == other {
      ExactlyOne(all, other);
      var m :| After(all, m).phase == Done && After(all, m).out == text && After(all, m).pos <= 8 * |all|;
      var n :| After(all, n).phase == Done && After(all, n).out == other && After(all, n).pos <= 8 * |all|;
      OneOutcome(all, m, n);
    }
  }

  lemma ExactlyOne(all: Bytes, text: Bytes)
    requires BytesOk(all)
    ensures DecodesTo(all, text) <==> Encodes(all, text)
  {
    hide After, Sane, BlocksBits, BlocksText, BlocksOk, Begins, DataBits;
    DataNumber(all);
    if DecodesTo(all, text) {
      var n :| After(all, n).phase == Done && After(all, n).out == text && After(all, n).pos <= 8 * |all|;
      var bs := OnlyEncodings(all, n);
      assert BlocksText([], bs) == text;
    }
    if Encodes(all, text) {
      var bs :| bs != [] && BlocksOk([], bs) && BlocksBits(bs, 0) <= DataBits(all) && BlocksText([], bs) == text;
      var n := Decodes(all, bs);
      assert After(all, n).out == text;
    }
  }
}
