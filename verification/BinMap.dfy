/** The two bin maps: one 32-bit word each, bit i set when bin i has chunks.  The allocator never
    scans bins; it isolates bits with two's-complement tricks.  Facts about words come first, stated
    for arbitrary words and then carried over to bin indices. */
module BinMap {

  // ----- words -----

  predicate Hit(m: bv32, b: bv32) {
    m & b != 0
  }

  predicate OneBit(b: bv32) {
    b != 0 && b & (b - 1) == 0
  }

  predicate Below(b: bv32, c: bv32) {
    b < c
  }

  const TOP: bv32 := 0x8000_0000

  function Or(m: bv32, b: bv32): bv32 {
    m | b
  }

  function AndNot(m: bv32, b: bv32): bv32 {
    m & !b
  }

  function And(m: bv32, b: bv32): bv32 {
    m & b
  }

  function Double(m: bv32): bv32 {
    m << 1
  }

  function Half(m: bv32): bv32 {
    m >> 1
  }

  /** Isolate the least set bit. */
  function LeastBit(x: bv32): bv32 {
    x & (0 - x)
  }

  /** All bits to the left of the least set bit of x. */
  function LeftBits(x: bv32): bv32 {
    (x << 1) | (0 - (x << 1))
  }

  /** The index of a word's only set bit, by halving. */
  function Bit2Idx(x: bv32): bv32 {
    var y := x - 1;
    var k1 := (y >> 12) & 16;
    var y1 := y >> k1;
    var k2 := (y1 >> 5) & 8;
    var y2 := y1 >> k2;
    var k3 := (y2 >> 2) & 4;
    var y3 := y2 >> k3;
    var k4 := (y3 >> 1) & 2;
    var y4 := y3 >> k4;
    var k5 := y4 & 1;
    var y5 := y4 >> k5;
    k1 + k2 + k3 + k4 + k5 + y5
  }

  /** No bit below the single bit b is set in x. */
  predicate NoneBelow(x: bv32, b: bv32) {
    x & (b - 1) == 0
  }

  lemma DoubleOneBit(b: bv32)
    requires OneBit(b) && Below(b, TOP)
    ensures OneBit(Double(b)) && Below(b, Double(b)) && Bit2Idx(Double(b)) == Bit2Idx(b) + 1 && Bit2Idx(b) < 31
  {
  }

  lemma NextIndex(x: bv32)
    requires x < 31
    ensures (x + 1) as int == x as int + 1
  {
  }

  lemma NextIdx(b: bv32)
    requires OneBit(b) && Below(b, TOP)
    ensures Bit2Idx(Double(b)) as int == Bit2Idx(b) as int + 1
  {
    DoubleOneBit(b);
    hide Bit2Idx, Double;
    NextIndex(Bit2Idx(b));
  }

  lemma IdxOne()
    ensures Bit2Idx(1) as int == 0 && OneBit(1)
  {
  }

  lemma TopBit(b: bv32)
    requires OneBit(b)
    ensures Below(b, TOP) || (b == TOP && Bit2Idx(b) as int == 31)
  {
  }

  lemma BelowTransitive(a: bv32, b: bv32, c: bv32)
    requires Below(a, b) && Below(b, c)
    ensures Below(a, c)
  {
  }

  lemma BelowIrreflexive(a: bv32, b: bv32)
    requires Below(a, b)
    ensures a != b && !Below(b, a)
  {
  }

  lemma DifferentBits(b: bv32, c: bv32)
    requires OneBit(b) && OneBit(c) && b != c
    ensures !Hit(b, c)
  {
  }

  lemma OrSame(m: bv32, b: bv32)
    requires OneBit(b)
    ensures Hit(Or(m, b), b)
  {
  }

  lemma OrOther(m: bv32, b: bv32, c: bv32)
    requires !Hit(b, c)
    ensures Hit(Or(m, b), c) == Hit(m, c)
  {
  }

  lemma AndNotSame(m: bv32, b: bv32)
    ensures !Hit(AndNot(m, b), b)
  {
  }

  lemma AndNotOther(m: bv32, b: bv32, c: bv32)
    requires !Hit(b, c)
    ensures Hit(AndNot(m, b), c) == Hit(m, c)
  {
  }

  lemma LeftHit(b: bv32, c: bv32)
    requires OneBit(b) && OneBit(c)
    ensures Hit(LeftBits(b), c) <==> Below(b, c)
  {
  }

  lemma AndHitYes(x: bv32, y: bv32, c: bv32)
    requires OneBit(c) && Hit(x, c)
    ensures And(x, y) & c == y & c
  {
  }

  lemma AndHitNo(x: bv32, y: bv32, c: bv32)
    requires !Hit(x, c)
    ensures And(x, y) & c == 0
  {
  }

  lemma AndHit(x: bv32, y: bv32, c: bv32)
    requires OneBit(c)
    ensures Hit(And(x, y), c) <==> Hit(x, c) && Hit(y, c)
  {
    hide And;
    if Hit(x, c) {
      AndHitYes(x, y, c);
    } else {
      AndHitNo(x, y, c);
    }
  }

  lemma NoneBelowOne(x: bv32)
    ensures NoneBelow(x, 1)
  {
  }

  lemma NoneBelowNext(x: bv32, b: bv32)
    requires OneBit(b) && NoneBelow(x, b) && !Hit(x, b)
    ensures Below(b, TOP) ==> NoneBelow(x, Double(b))
    ensures b == TOP ==> x == 0
  {
  }

  lemma LeastIs(x: bv32, b: bv32)
    requires OneBit(b) && NoneBelow(x, b) && Hit(x, b)
    ensures LeastBit(x) == b
  {
  }

  lemma HitZero(b: bv32)
    ensures !Hit(0, b)
  {
  }

  lemma HalfHit(m: bv32, b: bv32)
    requires OneBit(b) && Below(b, TOP)
    ensures Hit(Half(m), b) == Hit(m, Double(b))
  {
  }

  lemma DoubleHit(m: bv32, b: bv32)
    requires OneBit(b) && Below(b, TOP)
    ensures Hit(Double(m), Double(b)) == Hit(m, b)
  {
  }

  lemma DoubleLow(m: bv32)
    ensures !Hit(Double(m), 1)
  {
  }

  // ----- bins -----

  /** `1 << i`. */
  function Bit(i: nat): bv32 {
    if i == 0 then 1 else Double(Bit(i - 1))
  }

  predicate Marked(m: bv32, i: nat) {
    Hit(m, Bit(i))
  }

  function Mark(m: bv32, i: nat): bv32 {
    Or(m, Bit(i))
  }

  function Clear(m: bv32, i: nat): bv32 {
    AndNot(m, Bit(i))
  }

  /** Shifts by a bin index. */
  function ShiftRight(m: bv32, k: nat): bv32 {
    if k == 0 then m else Half(ShiftRight(m, k - 1))
  }

  function ShiftLeft(m: bv32, k: nat): bv32 {
    if k == 0 then m else Double(ShiftLeft(m, k - 1))
  }

  /** The halving finds the index of every bin's bit. */
  lemma {:induction false} Bit2IdxCorrect(i: nat)
    requires i < 32
    ensures OneBit(Bit(i)) && Bit2Idx(Bit(i)) as int == i
    ensures if i < 31 then Below(Bit(i), TOP) else Bit(i) == TOP
  {
    hide OneBit, Below, Double, Bit2Idx;
    if i == 0 {
      IdxOne();
      TopBit(1);
    } else {
      Bit2IdxCorrect(i - 1);
      DoubleOneBit(Bit(i - 1));
      NextIdx(Bit(i - 1));
      TopBit(Bit(i));
      if i == 31 { TopIdx(Bit(31)); }
    }
  }

  lemma TopIdx(b: bv32)
    requires OneBit(b) && Bit2Idx(b) as int == 31
    ensures b == TOP
  {
    TopBit(b);
    if Below(b, TOP) { DoubleOneBit(b); SmallIdx(Bit2Idx(b)); }
  }

  lemma SmallIdx(x: bv32)
    requires x < 31
    ensures x as int < 31
  {
  }

  /** Bins' bits are ordered like the bins. */
  lemma {:induction false} BitsOrdered(i: nat, j: nat)
    requires i < j < 32
    ensures Below(Bit(i), Bit(j))
  {
    hide OneBit, Below, Double, Bit2Idx;
    Bit2IdxCorrect(j - 1);
    DoubleOneBit(Bit(j - 1));
    if i < j - 1 {
      BitsOrdered(i, j - 1);
      BelowTransitive(Bit(i), Bit(j - 1), Bit(j));
    }
  }

  lemma BitsDiffer(i: nat, j: nat)
    requires i < 32 && j < 32
    ensures i != j ==> !Hit(Bit(i), Bit(j))
    ensures Below(Bit(i), Bit(j)) <==> i < j
  {
    hide OneBit, Below, Bit, Hit, Bit2Idx;
    Bit2IdxCorrect(i);
    Bit2IdxCorrect(j);
    if i < j {
      BitsOrdered(i, j);
      BelowIrreflexive(Bit(i), Bit(j));
      DifferentBits(Bit(i), Bit(j));
    } else if j < i {
      BitsOrdered(j, i);
      BelowIrreflexive(Bit(j), Bit(i));
      DifferentBits(Bit(i), Bit(j));
    } else if Below(Bit(i), Bit(j)) {
      BelowIrreflexive(Bit(i), Bit(i));
    }
  }

  /** Marking and clearing change one bin. */
  lemma MarkMeaning(m: bv32, i: nat, j: nat)
    requires i < 32 && j < 32
    ensures Marked(Mark(m, i), j) <==> j == i || Marked(m, j)
    ensures Marked(Clear(m, i), j) <==> j != i && Marked(m, j)
  {
    hide Hit, OneBit, Below, Bit, Or, AndNot, Bit2Idx;
    Bit2IdxCorrect(i);
    BitsDiffer(i, j);
    if i == j {
      OrSame(m, Bit(i));
      AndNotSame(m, Bit(i));
    } else {
      OrOther(m, Bit(i), Bit(j));
      AndNotOther(m, Bit(i), Bit(j));
    }
  }

  lemma OrHas(m: bv32, b: bv32)
    requires OneBit(b) && Hit(m, b)
    ensures Or(m, b) == m
  {
  }

  /** Marking a marked bin changes nothing. */
  lemma MarkAgain(m: bv32, i: nat)
    requires i < 32 && Marked(m, i)
    ensures Mark(m, i) == m
  {
    hide Hit, OneBit, Below, Bit, Or, Bit2Idx;
    Bit2IdxCorrect(i);
    OrHas(m, Bit(i));
  }

  /** The marked bins to the left of bin i. */
  lemma LeftBitsMeaning(m: bv32, i: nat, j: nat)
    requires i < 32 && j < 32
    ensures Marked(And(LeftBits(Bit(i)), m), j) <==> i < j && Marked(m, j)
  {
    hide Hit, OneBit, Below, Bit, And, LeftBits, Bit2Idx;
    Bit2IdxCorrect(i);
    Bit2IdxCorrect(j);
    BitsDiffer(i, j);
    LeftHit(Bit(i), Bit(j));
    AndHit(LeftBits(Bit(i)), m, Bit(j));
  }

  /** The least marked bin at or above k, when none below k is marked. */
  lemma {:induction false} LeastFrom(x: bv32, k: nat) returns (i: nat)
    requires k < 32 && NoneBelow(x, Bit(k)) && x != 0
    requires forall j :: 0 <= j < k ==> !Marked(x, j)
    ensures i < 32 && Marked(x, i) && LeastBit(x) == Bit(i)
    ensures forall j :: 0 <= j < i ==> !Marked(x, j)
    decreases 32 - k
  {
    hide Hit, OneBit, Below, NoneBelow, LeastBit, Double, Bit2Idx;
    Bit2IdxCorrect(k);
    if Marked(x, k) {
      i := k;
      LeastIs(x, Bit(k));
    } else {
      NoneBelowNext(x, Bit(k));
      i := LeastFrom(x, k + 1);
    }
  }

  /** Isolating the least set bit and halving it down gives the least marked bin. */
  lemma LeastBitMeaning(x: bv32) returns (i: nat)
    requires x != 0
    ensures i < 32 && Marked(x, i) && Bit2Idx(LeastBit(x)) as int == i
    ensures forall j :: 0 <= j < i ==> !Marked(x, j)
  {
    hide Marked, LeastBit, Bit2Idx, NoneBelow, OneBit;
    NoneBelowOne(x);
    i := LeastFrom(x, 0);
    Bit2IdxCorrect(i);
  }

  lemma ZeroMap(j: nat)
    ensures !Marked(0, j)
  {
    hide Hit, Bit;
    HitZero(Bit(j));
  }

  lemma {:induction false} ShiftRightMeaning(m: bv32, k: nat, j: nat)
    requires j + k < 32
    ensures Marked(ShiftRight(m, k), j) <==> Marked(m, j + k)
  {
    hide Hit, OneBit, Below, Half, Double, Bit2Idx;
    if k > 0 {
      ShiftRightMeaning(m, k - 1, j + 1);
      Bit2IdxCorrect(j);
      HalfHit(ShiftRight(m, k - 1), Bit(j));
    }
  }

  /** Shifting left moves every bin up. */
  lemma {:induction false} ShiftLeftMeaning(m: bv32, k: nat, j: nat)
    requires j < 32
    ensures Marked(ShiftLeft(m, k), j) <==> j >= k && Marked(m, j - k)
  {
    hide Hit, OneBit, Below, Double, Bit2Idx;
    if k > 0 {
      if j == 0 {
        DoubleLow(ShiftLeft(m, k - 1));
      } else {
        ShiftLeftMeaning(m, k - 1, j - 1);
        Bit2IdxCorrect(j - 1);
        DoubleHit(ShiftLeft(m, k - 1), Bit(j - 1));
      }
    }
  }

  lemma TwoBits(x: bv32)
    ensures x & 3 == 0 <==> !Hit(x, 1) && !Hit(x, 2)
    ensures Hit(x, 1) ==> !x & 1 == 0
    ensures !Hit(x, 1) ==> !x & 1 == 1
  {
  }

  /** The two-bin test of a small request and the index correction that follows it. */
  lemma LowTwo(x: bv32)
    ensures x & 3 != 0 <==> Marked(x, 0) || Marked(x, 1)
    ensures Marked(x, 0) ==> !x & 1 == 0
    ensures !Marked(x, 0) ==> !x & 1 == 1
  {
    assert Bit(1) == 2;
    hide Hit;
    TwoBits(x);
  }

  lemma HalfTop(m: bv32)
    ensures !Hit(Half(m), 0x8000_0000)
  {
  }

  lemma {:induction false} ShiftRightHigh(m: bv32, k: nat, j: nat)
    requires k < 32 && j < 32 && j + k >= 32
    ensures !Marked(ShiftRight(m, k), j)
  {
    hide Hit, OneBit, Below, Half, Double, Bit2Idx;
    if j == 31 {
      TopBitIs();
      HalfTop(ShiftRight(m, k - 1));
    } else {
      ShiftRightHigh(m, k - 1, j + 1);
      Bit2IdxCorrect(j);
      HalfHit(ShiftRight(m, k - 1), Bit(j));
    }
  }

  lemma TopBitIs()
    ensures Bit(31) == 0x8000_0000
  {
    assert Bit(4) == 16;
    assert Bit(8) == 256;
    assert Bit(12) == 4096;
    assert Bit(16) == 65536;
    assert Bit(20) == 1048576;
    assert Bit(24) == 16777216;
    assert Bit(28) == 268435456;
  }

  /** What the shifted small map says about the bins for a small request: the bin of its own size or the
      next one when the low two bits are not both clear, and otherwise the next bin that has chunks. */
  lemma SmallPick(m: bv32, idx: nat) returns (i: nat)
    requires idx < 32
    ensures var x := ShiftRight(m, idx);
      && (x & 3 != 0 ==> i == idx + (!x & 1) as int && i < 32 && Marked(m, i) && (i == idx + 1 ==> !Marked(m, idx)))
      && (x & 3 == 0 && x != 0 ==>
            var left := And(LeftBits(Bit(idx)), ShiftLeft(x, idx));
            left != 0 && i == Bit2Idx(LeastBit(left)) as int && idx + 2 <= i < 32 && Marked(m, i))
      && (x & 3 == 0 ==> forall j :: idx <= j < i ==> !Marked(m, j))
      && (x == 0 ==> i == 32)
  {
    hide Marked, ShiftRight, ShiftLeft, Bit, And, LeftBits, LeastBit, Bit2Idx;
    var x := ShiftRight(m, idx);
    LowTwo(x);
    forall j: nat | j + idx < 32 ensures Marked(x, j) <==> Marked(m, j + idx) { ShiftRightMeaning(m, idx, j); }
    if idx == 31 { ShiftRightHigh(m, 31, 1); }
    if x & 3 != 0 {
      i := if Marked(x, 0) then idx else idx + 1;
      assert Marked(x, 0) ==> !x & 1 == 0;
    } else if x == 0 {
      i := 32;
      forall j: nat | idx <= j < 32 ensures !Marked(m, j) {
        ZeroMap(j - idx);
        assert Marked(x, j - idx) <==> Marked(m, j - idx + idx);
      }
    } else {
      i := LeftPick(m, x, idx);
    }
  }

  lemma LeftPick(m: bv32, x: bv32, idx: nat) returns (i: nat)
    requires idx < 32 && x == ShiftRight(m, idx) && x != 0 && !Marked(x, 0) && !Marked(x, 1)
    ensures var left := And(LeftBits(Bit(idx)), ShiftLeft(x, idx));
      left != 0 && i == Bit2Idx(LeastBit(left)) as int && idx + 2 <= i < 32 && Marked(m, i)
    ensures forall j :: idx <= j < i ==> !Marked(m, j)
  {
    hide Marked, ShiftRight, ShiftLeft, Bit, And, LeftBits, LeastBit, Bit2Idx;
    var left := And(LeftBits(Bit(idx)), ShiftLeft(x, idx));
    var k := LeastBitMeaning(x);
    if k + idx >= 32 { ShiftRightHigh(m, idx, k); assert false; }
    forall j: nat | j < 32 ensures Marked(left, j) <==> idx < j && Marked(m, j) {
      LeftBitsMeaning(ShiftLeft(x, idx), idx, j);
      ShiftLeftMeaning(x, idx, j);
      if idx <= j { ShiftRightMeaning(m, idx, j - idx); }
    }
    ShiftRightMeaning(m, idx, k);
    ZeroMap(k + idx);
    i := LeastBitMeaning(left);
    ShiftRightMeaning(m, idx, 0);
    if idx < 31 { ShiftRightMeaning(m, idx, 1); }
  }
}
