/** What the bit buffer of the decompressor stands for, and how decoding from it relates to the stream. */
module BitBuffer {
  import opened Canonical
  import opened HuffSteps
  import opened BitStream
  import opened Huffman

  /** The n bits in b, followed by the bytes not yet read, are the stream from position pos on.  When the
      stream is over, pad zero bytes have been read behind it. */
  ghost predicate Buffered(all: Bytes, pos: nat, b: nat, n: nat, rest: Bytes, pad: nat) {
    && b < Pow(n) && Ahead(b, n, rest) == From(all, pos)
    && n + 8 * |rest| + pos == 8 * |all| + 8 * pad && (pad > 0 ==> rest == [])
  }

  lemma TakeByte(all: Bytes, pos: nat, b: nat, n: nat, rest: Bytes, pad: nat)
    requires Buffered(all, pos, b, n, rest, pad) && rest != [] && rest[0] < 0x100
    ensures Buffered(all, pos, b + rest[0] * Pow(n), n + 8, rest[1..], pad)
  {
    hide Ahead, From, Pow;
    Refill(b, n, rest);
    ByteInto(b, n, rest[0]);
  }

  lemma TakeZero(all: Bytes, pos: nat, b: nat, n: nat, pad: nat)
    requires Buffered(all, pos, b, n, [], pad)
    ensures Buffered(all, pos, b, n + 8, [], pad + 1)
  {
    hide From;
    RefillZero(b, n);
    ByteInto(b, n, 0);
  }

  lemma DropBits(all: Bytes, pos: nat, b: nat, n: nat, rest: Bytes, pad: nat, l: nat)
    requires Buffered(all, pos, b, n, rest, pad) && l <= n
    ensures Buffered(all, pos + l, Shift(b, l), n - l, rest, pad)
    ensures b % Pow(l) == From(all, pos) % Pow(l)
  {
    hide Ahead, From, Pow, Shift;
    Consume(b, n, rest, l);
    ConsumeRange(b, n, l);
    FromNext(all, pos, l);
  }

  /** The first bits of the stream, as far as they are in the buffer. */
  lemma Shows(all: Bytes, pos: nat, b: nat, n: nat, rest: Bytes, pad: nat, l: nat)
    requires Buffered(all, pos, b, n, rest, pad) && l <= n
    ensures Prefix(b, l) == Prefix(From(all, pos), l)
  {
    hide From, Prefix, Pow;
    BufferShows(b, n, rest, l);
  }

  lemma ShowsBit(all: Bytes, pos: nat, b: nat, n: nat, rest: Bytes, pad: nat, k: nat)
    requires Buffered(all, pos, b, n, rest, pad) && k < n
    ensures Bit(b, k) == Bit(From(all, pos), k)
  {
    hide From, Bit, Pow;
    BitShows(b, n, rest, k);
  }

  /** A code that is wholly in the buffer is the one the stream starts with. */
  lemma BufferMatches(all: Bytes, pos: nat, b: nat, n: nat, rest: Bytes, pad: nat, ls: Lengths, s: nat)
    requires Buffered(all, pos, b, n, rest, pad) && s < |ls| && ls[s] <= n
    ensures Matches(ls, b, s) <==> Matches(ls, From(all, pos), s)
  {
    hide From, Prefix, Pow, Buffered, Code;
    Shows(all, pos, b, n, rest, pad, ls[s]);
  }

  // ----- the first table -----

  /** The entry for the buffer's low ten bits, when the stream starts with the code of symbol s. */
  lemma EntryFor(all: Bytes, pos: nat, b: nat, n: nat, rest: Bytes, pad: nat, ls: Lengths, names: Names,
      look: seq<int>, tree: seq<int>, s: nat) returns (k: nat)
    requires Buffered(all, pos, b, n, rest, pad) && Holds(ls, |ls|, names, look, tree) && Matches(ls, From(all, pos), s)
    ensures |look| == LOOKUP && s < |ls| && 0 < ls[s] <= 15 && s < 512
    ensures var e := look[b % LOOKUP];
      && (e >= 0 ==> (ls[s] <= n <==> e / 512 != 0 && e / 512 <= n)) && (e >= 0 && ls[s] <= n ==> e == ls[s] * 512 + s)
      && (e < 0 && n >= 10 ==> ls[s] > 10 && k < |names| && names[k] == (10, Prefix(From(all, pos), 10)) && e == Ptr(k))
      && (e < 0 && n < 10 ==> ls[s] > n)
  {
    hide Buffered, Holds, Prefix, Code, Pow, From, Named;
    var v, r := From(all, pos), b % LOOKUP;
    HoldsSizes(ls, |ls|, names, look, tree, s);
    HoldsEntry(ls, |ls|, names, look, tree, r);
    var e := look[r];
    if ls[s] <= n {
      BufferMatches(all, pos, b, n, rest, pad, ls, s);
      LowTen(b, ls[s]);
    }
    if ls[s] <= 10 && ls[s] <= n {
      assert Short(ls, |ls|, r, s);
      EntryParts(ls[s], s);
    }
    if n >= 10 && ls[s] > 10 {
      LowTen(b, 10);
      Shows(all, pos, b, n, rest, pad, 10);
      HoldsPath(ls, |ls|, names, look, tree, s);
      k := OnPath(ls, names, v, s, 10);
    } else {
      k := 0;
    }
    if e > 0 {
      var t: nat :| Short(ls, |ls|, r, t);
      HoldsSizes(ls, |ls|, names, look, tree, t);
      EntryParts(ls[t], t);
      LowTen(b, ls[t]);
      if ls[t] <= n {
        BufferMatches(all, pos, b, n, rest, pad, ls, t);
        OneMatch(ls, v, s, t);
      }
    }
    if e < 0 && ls[s] <= 10 { NoShort(ls, names, r, e, b, s); }
  }

  lemma NoShort(ls: Lengths, names: Names, r: nat, e: int, b: nat, s: nat)
    requires EntryOk(ls, |ls|, names, r, e) && e < 0 && r == b % LOOKUP && s < |ls| && 0 < ls[s] <= 10
    ensures !Matches(ls, b, s)
  {
    hide Prefix, Code, Named;
    ShortIs(ls, b, s);
  }

  lemma ShortIs(ls: Lengths, b: nat, s: nat)
    requires s < |ls| && 0 < ls[s] <= 10
    ensures Matches(ls, b, s) <==> Short(ls, |ls|, b % LOOKUP, s)
  {
    hide Prefix, Code;
    LowTen(b, ls[s]);
  }

  /** One step of the walk, as seen from the stream. */
  lemma StepFor(all: Bytes, pos: nat, b: nat, n: nat, rest: Bytes, pad: nat, ls: Lengths, names: Names,
      look: seq<int>, tree: seq<int>, s: nat, d: nat, k: nat) returns (j: nat)
    requires Buffered(all, pos, b, n, rest, pad) && Holds(ls, |ls|, names, look, tree)
      && Matches(ls, From(all, pos), s) && s < |ls|
    requires 10 <= d < ls[s] && d < n && k < |names| && names[k] == (d, Prefix(From(all, pos), d))
    ensures var i := -Ptr(k) - 1 + Bit(b, d); 0 <= i < |tree|
    ensures var c := tree[-Ptr(k) - 1 + Bit(b, d)];
      if d + 1 == ls[s] then c == s
        else j < |names| && names[j] == (d + 1, Prefix(From(all, pos), d + 1)) && c == Ptr(j)
  {
    hide Buffered, Holds, Prefix, Pow, From, Matches, Bit;
    ShowsBit(all, pos, b, n, rest, pad, d);
    j := ChildCell(ls, names, look, tree, From(all, pos), s, d, k);
  }
}
