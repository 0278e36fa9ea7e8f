/** The pair bitmaps: one bit for every two twin blocks of an order, eight to a byte, all orders in one
    stretch of memory. */
module PairBits {
  import opened Pages

  type Byte = x: nat | x < 0x100

  /** `b ^ (1 << k)` on bytes. */
  function Turned(b: Byte, k: nat): Byte
    requires k < 8
  {
    StaysByte(b, k);
    FlipBit(b, k)
  }

  lemma StaysByte(b: Byte, k: nat)
    requires k < 8
    ensures FlipBit(b, k) < 0x100
  {
    TurnedBelow(b, k, 8);
    Powers();
  }

  lemma {:induction false} TurnedBelow(b: nat, k: nat, n: nat)
    requires k < n && b < Pow(n)
    ensures FlipBit(b, k) < Pow(n)
  {
    var w := Pow(n - 1);
    assert Pow(n) == 2 * w;
    hide Pow;
    if k > 0 {
      TurnedBelow(b / 2, k - 1, n - 1);
    }
  }

  /** `b & (1 << k)` */
  predicate IsSet(b: Byte, k: nat) {
    At(b, k) % 2 == 1
  }

  /** Bytes in the bitmap of one order. */
  function Bytes(usable: nat, o: nat): nat
    requires o < ORDERS
  {
    (usable * Pow(TOP - o) + 15) / 16
  }

  /** Where the bitmap of an order starts. */
  function Offset(usable: nat, o: nat): nat
    requires o <= ORDERS
  {
    if o == 0 then 0 else Offset(usable, o - 1) + Bytes(usable, o - 1)
  }

  lemma {:induction false} OffsetsRise(usable: nat, o: nat, h: nat)
    requires o < h <= ORDERS
    ensures Offset(usable, o) + Bytes(usable, o) <= Offset(usable, h)
  {
    if o + 1 < h {
      OffsetsRise(usable, o, h - 1);
    }
  }

  /** The byte that holds the bit of a page's pair, and the bit in it. */
  function ByteAt(usable: nat, o: nat, q: nat): nat
    requires o < ORDERS
  {
    Offset(usable, o) + At(q, o + 1) / 8
  }

  lemma InBitmap(usable: nat, o: nat, q: nat)
    requires o < ORDERS && q < usable * 256
    ensures At(q, o + 1) / 8 < Bytes(usable, o) && ByteAt(usable, o, q) < Offset(usable, ORDERS)
  {
    var x, w := usable * Pow(TOP - o), Pow(o);
    PowSum(o);
    AtRange(q, o);
    Regroup(usable, Pow(TOP - o), w);
    Below(At(q, o), x, w, q);
    OffsetsRise(usable, o, ORDERS);
  }

  lemma Regroup(a: nat, b: nat, c: nat)
    requires b * c == 256
    ensures a * 256 == (a * b) * c
  {
    assert a * (b * c) == (a * b) * c;
  }

  lemma PowSum(o: nat)
    requires o <= TOP
    ensures Pow(TOP - o) * Pow(o) == 256
  {
    Powers();
    if o == 0 { } else if o == 1 { } else if o == 2 { } else if o == 3 { } else if o == 4 { }
    else if o == 5 { } else if o == 6 { } else if o == 7 { } else { }
  }

  lemma Powers()
    ensures Pow(0) == 1 && Pow(1) == 2 && Pow(2) == 4 && Pow(3) == 8 && Pow(4) == 16
    ensures Pow(5) == 32 && Pow(6) == 64 && Pow(7) == 128 && Pow(8) == 256
  {
  }

  lemma Below(i: nat, x: nat, w: nat, q: nat)
    requires i * w <= q < x * w
    ensures i < x
  {
    Ordered(x, i, w);
  }

  /** The bit of a page's pair of order o. */
  predicate PairBit(mem: seq<Byte>, usable: nat, o: nat, q: nat)
    requires o < ORDERS && |mem| == Offset(usable, ORDERS) && q < usable * 256
  {
    InBitmap(usable, o, q);
    IsSet(mem[ByteAt(usable, o, q)], At(q, o + 1) % 8)
  }

  function Toggled(mem: seq<Byte>, usable: nat, o: nat, q: nat): (r: seq<Byte>)
    requires o < ORDERS && |mem| == Offset(usable, ORDERS) && q < usable * 256
    ensures |r| == |mem|
  {
    InBitmap(usable, o, q);
    var k := ByteAt(usable, o, q);
    mem[k := Turned(mem[k], At(q, o + 1) % 8)]
  }

  lemma SameByte(usable: nat, o: nat, q: nat, o': nat, q': nat)
    requires o < ORDERS && q < usable * 256 && o' < ORDERS && q' < usable * 256
    ensures ByteAt(usable, o, q) == ByteAt(usable, o', q') ==> o == o' && At(q, o + 1) / 8 == At(q', o' + 1) / 8
  {
    InBitmap(usable, o, q);
    InBitmap(usable, o', q');
    if o < o' {
      OffsetsRise(usable, o, o');
    } else if o' < o {
      OffsetsRise(usable, o', o);
    }
  }

  /** Toggling turns one pair's bit around, and no other. */
  lemma ToggledBit(mem: seq<Byte>, usable: nat, o: nat, q: nat, o': nat, q': nat)
    requires o < ORDERS && |mem| == Offset(usable, ORDERS) && q < usable * 256
    requires o' < ORDERS && q' < usable * 256
    ensures PairBit(Toggled(mem, usable, o, q), usable, o', q')
        == if o == o' && At(q, o + 1) == At(q', o' + 1) then !PairBit(mem, usable, o', q')
          else PairBit(mem, usable, o', q')
  {
    InBitmap(usable, o, q);
    InBitmap(usable, o', q');
    SameByte(usable, o, q, o', q');
    FlipBitAt(mem[ByteAt(usable, o, q)], At(q, o + 1) % 8, At(q', o' + 1) % 8);
    hide At, FlipBit, Offset, Bytes;
  }

  lemma ToggledBits(mem: seq<Byte>, usable: nat, o: nat, q: nat)
    requires o < ORDERS && |mem| == Offset(usable, ORDERS) && q < usable * 256
    ensures |Toggled(mem, usable, o, q)| == |mem|
    ensures forall o': nat, q': nat :: o' < ORDERS && q' < usable * 256 ==>
      (PairBit(Toggled(mem, usable, o, q), usable, o', q') <==>
        (PairBit(mem, usable, o', q') != (o' == o && At(q', o' + 1) == At(q, o + 1))))
  {
    forall o': nat, q': nat | o' < ORDERS && q' < usable * 256
      ensures PairBit(Toggled(mem, usable, o, q), usable, o', q') <==>
        (PairBit(mem, usable, o', q') != (o' == o && At(q', o' + 1) == At(q, o + 1)))
    {
      hide At, Offset, PairBit, Toggled;
      ToggledBit(mem, usable, o, q, o', q');
    }
  }
}
