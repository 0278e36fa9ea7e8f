/** The decompressor: a coroutine that takes its input and gives its output in pieces of any size.  The
    fields saved between calls are those of the source's record; `state` is the place to resume at. */
module Inflate {
  import opened Canonical
  import opened HuffSteps
  import opened BitStream
  import opened Huffman
  import opened Deflate
  import opened BitBuffer

  datatype Status = StatusDone | StatusFailed | NeedsMoreInput | HasMoreOutput

  /** Where a call starts or resumes, with the numbers the source gives these places. */
  datatype Place =
    | AtHeader       // 0, 3
    | AtRawHeader    // 6, 7
    | AtRawBits      // 51
    | AtRawOut       // 52
    | AtRawCopy      // 9, 38
    | AtSizes        // 11
    | AtCodeLens     // 14
    | AtCodes        // 16
    | AtRepeat       // 18
    | AtSymbol       // 23
    | AtLiteral      // 24
    | AtLength       // 25
    | AtDistance     // 26
    | AtDistanceBits // 27
    | AtCopy         // 53
    | AtDone         // 34
    | AtFailed       // 10, 17, 21, 35, 37, 39, 40

  class Decompressor {
    // Saved between calls.
    var state: Place
    var waiting: bool  // a code is to be completed by the next byte
    var numBits: nat
    var bitBuf: nat
    var dist: nat
    var counter: nat
    var numExtra: nat
    var final: bool
    var rawHeader: Bytes
    var tableSizes: Bytes
    var lenCodes: Lengths
    const lit: HuffTable
    const dst: HuffTable
    const clen: HuffTable

    // One call.
    var inBuf: Bytes
    var inCur: nat
    var hasMore: bool
    const out: array<nat>
    var outCur: nat
    var outEnd: nat

    // The whole stream, what of it is still to be passed in, and how far the machine has come.
    ghost var all: Bytes
    ghost var future: Bytes
    ghost var pad: nat
    ghost var steps: nat

    constructor (out: array<nat>, more: bool, ghost all: Bytes)
      requires more <==> all != []
      ensures Ready() && this.out == out && this.all == all && Rest() == all && outCur == 0 && fresh(Repr() - {out})
    {
      hide After, Input, Pow, Registers, Sane, Value;
      state, waiting, numBits, bitBuf, dist, counter, numExtra, final := AtHeader, false, 0, 0, 0, 0, 0, false;
      rawHeader, tableSizes, lenCodes := [], [], [];
      inBuf, inCur, hasMore, outCur, outEnd := [], 0, more, 0, 0;
      this.out, this.all, future, pad, steps := out, all, all, 0, 0;
      lit := new HuffTable();
      dst := new HuffTable();
      clen := new HuffTable();
      new;
      Started();
    }

    lemma Started()
      requires Apart() && state == AtHeader && !waiting && numBits == bitBuf == pad == steps == 0 && !final
      requires inCur == outCur == outEnd == 0 && inBuf == [] && future == all && (hasMore <==> all != [])
      ensures Ready() && Rest() == all
    {
      BufferedStart(all);
      assert Now() == START;
      assert Rest() == all;
    }

    ghost predicate Input()
      reads `inCur, `inBuf, `hasMore, `future
    {
      && inCur <= |inBuf| && (forall i :: 0 <= i < |inBuf| ==> inBuf[i] < 0x100) && (hasMore <==> future != [])
    }

    ghost function Rest(): Bytes
      requires inCur <= |inBuf|
      reads `inCur, `inBuf, `future
    {
      inBuf[inCur..] + future
    }

    /** The buffer and the unread input are the stream from bit position pos on, and the bits at hand fit into a
        word. */
    ghost predicate Ahead(pos: nat)
      reads `all, `inCur, `inBuf, `hasMore, `future, `bitBuf, `numBits, `pad
    {
      Input() && Buffered(all, pos, bitBuf, numBits, Rest(), pad) && numBits <= 32
    }

    /** The next byte, or zero when the stream is over; none when more is still to be passed in. */
    method GetByte() returns (ok: bool, c: nat)
      requires Input()
      modifies `inCur
      ensures Input() && (ok <==> old(inCur) < |inBuf| || !hasMore)
      ensures !ok ==> inCur == old(inCur) == |inBuf|
      ensures ok ==> if old(inCur) < |inBuf| then inCur == old(inCur) + 1 && c == inBuf[old(inCur)]
        else inCur == old(inCur) && c == 0
    {
      ok, c := true, 0;
      if inCur >= |inBuf| {
        if hasMore {
          ok := false;
        }
      } else {
        c := inBuf[inCur];
        inCur := inCur + 1;
      }
    }

    /** A byte into the bit buffer. */
    method Fetch(ghost pos: nat) returns (ok: bool)
      requires Ahead(pos) && numBits <= 24
      modifies `inCur, `pad, `bitBuf, `numBits
      ensures Ahead(pos)
      ensures ok ==> numBits == old(numBits) + 8
      ensures !ok ==>
        hasMore && inCur == |inBuf| && numBits == old(numBits) && bitBuf == old(bitBuf) && inCur == old(inCur)
      ensures pad >= old(pad) && (hasMore ==> pad == 0)
    {
      hide Buffered, Pow, Shl;
      ghost var rest := Rest();
      MoreMeansRest(all, pos, bitBuf, numBits, rest, pad);
      var c: nat;
      ok, c := GetByte();
      if ok {
        if rest != [] {
          TakeByte(all, pos, bitBuf, numBits, rest, pad);
          assert rest[1..] == Rest();
        } else {
          TakeZero(all, pos, bitBuf, numBits, pad);
          pad := pad + 1;
        }
        ShlFits(c, numBits);
        bitBuf := bitBuf + Shl(c, numBits);
        numBits := numBits + 8;
      }
    }

    /** At least n bits into the bit buffer, byte by byte. */
    method NeedBits(n: nat, ghost pos: nat) returns (ok: bool)
      requires Ahead(pos) && n <= 16
      modifies `inCur, `pad, `bitBuf, `numBits
      ensures Ahead(pos)
      ensures old(numBits) >= n ==> ok
      ensures ok ==> numBits >= n && (numBits == old(numBits) || numBits < n + 8)
      ensures !ok ==> hasMore && inCur == |inBuf| && numBits < n
      ensures (pad > old(pad) ==> ok && numBits < n + 8) && (hasMore ==> pad == 0) && pad >= old(pad)
    {
      hide Buffered, Pow, Shl;
      ghost var rest := Rest();
      MoreMeansRest(all, pos, bitBuf, numBits, rest, pad);
      while numBits < n
        invariant Ahead(pos) && (numBits == old(numBits) || numBits < n + 8) && (hasMore ==> pad == 0)
          && pad >= old(pad)
        invariant pad > old(pad) ==> numBits < n + 8
        decreases n - numBits
      {
        ok := Fetch(pos);
        if !ok {
          return;
        }
      }
      ok := true;
    }

    /** n bits out of the bit buffer. */
    method SkipBits(n: nat, ghost pos: nat)
      requires Ahead(pos) && n <= numBits
      modifies `bitBuf, `numBits
      ensures Ahead(pos + n) && numBits == old(numBits) - n
    {
      hide Buffered, Pow, Shift, From;
      DropBits(all, pos, bitBuf, numBits, Rest(), pad, n);
      bitBuf := Shift(bitBuf, n);
      numBits := numBits - n;
    }

    /** The next n bits. */
    method GetBits(n: nat, ghost pos: nat) returns (ok: bool, b: nat)
      requires Ahead(pos) && n <= 16 && (pad > 0 ==> numBits < 8)
      modifies `inCur, `pad, `bitBuf, `numBits
      ensures old(numBits) >= n ==> ok
      ensures ok ==> Ahead(pos + n) && b == Bits(all, pos, n)
      ensures !ok ==> Ahead(pos) && hasMore && inCur == |inBuf| && numBits < n
      ensures pad > 0 ==> numBits < 8
    {
      hide Buffered, Pow, Shift, From;
      b := 0;
      ok := NeedBits(n, pos);
      if ok {
        DropBits(all, pos, bitBuf, numBits, Rest(), pad, n);
        b := bitBuf % Pow(n);
        bitBuf := Shift(bitBuf, n);
        numBits := numBits - n;
      }
    }

    // ----- decoding a symbol -----

    /** The stream goes on at pos with the code of symbol s, and t holds the code. */
    ghost predicate Coming(t: HuffTable, ls: Lengths, pos: nat, s: nat)
      reads `all, `inCur, `inBuf, `hasMore, `future, `bitBuf, `numBits, `pad, t, t.lookUp, t.tree
    {
      Ahead(pos) && t.Valid() && t.Built(ls) && Matches(ls, From(all, pos), s)
    }

    /** Whether the bits at hand hold the whole code: as many bits of it are looked at as there are. */
    method Completes(t: HuffTable, ghost ls: Lengths, ghost pos: nat, ghost s: nat) returns (yes: bool)
      requires Coming(t, ls, pos, s)
      ensures s < |ls| && (yes <==> ls[s] <= numBits)
    {
      hide Buffered, Pow, Holds, Matches, From, Prefix, Bit;
      ghost var k: nat := EntryFor(all, pos, bitBuf, numBits, Rest(), pad, ls, t.names, t.lookUp[..], t.tree[..], s);
      var temp := t.lookUp[bitBuf % LOOKUP];
      yes := false;
      if temp >= 0 {
        var codeLen := temp / 512;
        yes := codeLen != 0 && numBits >= codeLen;
      } else if numBits > FAST_LOOKUP_BITS {
        var codeLen: nat := FAST_LOOKUP_BITS;
        k := StepFor(all, pos, bitBuf, numBits, Rest(), pad, ls, t.names, t.lookUp[..], t.tree[..], s, codeLen, k);
        temp := t.tree[-temp - 1 + Bit(bitBuf, codeLen)];
        codeLen := codeLen + 1;
        while temp < 0 && numBits >= codeLen + 1
          invariant FAST_LOOKUP_BITS < codeLen <= ls[s] && codeLen <= numBits && (temp < 0 <==> codeLen < ls[s])
          invariant temp < 0 ==>
            k < |t.names| && t.names[k] == (codeLen, Prefix(From(all, pos), codeLen)) && temp == Ptr(k)
          decreases numBits - codeLen
        {
          k := StepFor(all, pos, bitBuf, numBits, Rest(), pad, ls, t.names, t.lookUp[..], t.tree[..], s, codeLen, k);
          temp := t.tree[-temp - 1 + Bit(bitBuf, codeLen)];
          codeLen := codeLen + 1;
        }
        yes := temp >= 0;
      }
    }

    /** Decode by the tables.  The bits at hand hold the whole code.  For a short code the result carries
        the length of the code above the nine bits of the symbol. */
    method TakeSymbol(t: HuffTable, ghost ls: Lengths, ghost pos: nat, ghost s: nat) returns (sym: nat)
      requires Coming(t, ls, pos, s) && s < |ls| && ls[s] <= numBits
      modifies `bitBuf, `numBits
      ensures sym % 512 == s && (sym / 256 % 2 == 1 <==> s >= 256) && sym % 256 == s % 256
      ensures Ahead(pos + ls[s]) && numBits == old(numBits) - ls[s]
    {
      hide Buffered, Pow, Holds, Matches, From, Prefix, Bit, Shift;
      ghost var k: nat := EntryFor(all, pos, bitBuf, numBits, Rest(), pad, ls, t.names, t.lookUp[..], t.tree[..], s);
      var temp := t.lookUp[bitBuf % LOOKUP];
      var codeLen: nat;
      if temp >= 0 {
        codeLen := temp / 512;
        EntryParts(ls[s], s);
      } else {
        codeLen := FAST_LOOKUP_BITS;
        while temp < 0
          invariant bitBuf == old(bitBuf) && numBits == old(numBits) && Ahead(pos)
          invariant FAST_LOOKUP_BITS <= codeLen <= ls[s] && (temp < 0 <==> codeLen < ls[s])
          invariant if temp < 0 then k < |t.names| && t.names[k] == (codeLen, Prefix(From(all, pos), codeLen))
            && temp == Ptr(k) else temp == s
          decreases ls[s] - codeLen
        {
          k := StepFor(all, pos, bitBuf, numBits, Rest(), pad, ls, t.names, t.lookUp[..], t.tree[..], s, codeLen, k);
          temp := t.tree[-temp - 1 + Bit(bitBuf, codeLen)];
          codeLen := codeLen + 1;
        }
      }
      sym := temp;
      NineBits(ls[s], s);
      NineBits(0, s);
      DropBits(all, pos, bitBuf, numBits, Rest(), pad, codeLen);
      bitBuf := Shift(bitBuf, codeLen);
      numBits := numBits - codeLen;
    }

    /** Two bytes into the bit buffer at once. */
    method FetchTwo(ghost pos: nat)
      requires Ahead(pos) && numBits <= 16 && inCur + 2 <= |inBuf|
      modifies `inCur, `bitBuf, `numBits
      ensures Ahead(pos) && numBits == old(numBits) + 16 && inCur == old(inCur) + 2
      ensures pad == 0
    {
      hide Buffered, Pow, Shl;
      ghost var rest := Rest();
      MoreMeansRest(all, pos, bitBuf, numBits, rest, pad);
      TwoBytes(inBuf, inCur, future);
      TakeByte(all, pos, bitBuf, numBits, rest, pad);
      TakeByte(all, pos, bitBuf + rest[0] * Pow(numBits), numBits + 8, rest[1..], pad);
      ShlFits(inBuf[inCur], numBits);
      ShlFits(inBuf[inCur + 1], numBits + 8);
      bitBuf := bitBuf + Shl(inBuf[inCur], numBits) + Shl(inBuf[inCur + 1], numBits + 8);
      inCur := inCur + 2;
      numBits := numBits + 16;
    }

    /** Byte by byte, no more than the next code needs: another byte is taken only when the bits at hand do
        not hold the whole code.  Entered again in the middle when a byte was missing. */
    method Fill(t: HuffTable, again: bool, ghost ls: Lengths, ghost pos: nat, ghost s: nat) returns (ok: bool)
      requires Coming(t, ls, pos, s) && s < |ls| && ls[s] <= 15 && numBits < 15 && (pad > 0 ==> numBits < 8)
      requires again ==> numBits < ls[s]
      modifies `inCur, `pad, `bitBuf, `numBits, `waiting
      ensures Ahead(pos) && waiting == !ok && (ok <==> ls[s] <= numBits)
      ensures !ok ==> hasMore && inCur == |inBuf|
      ensures numBits == old(numBits) || numBits < ls[s] + 8
      ensures pad > 0 ==> numBits < ls[s] + 8
    {
      hide Buffered, Matches, From, HuffTable.Built;
      SymbolFacts(ls, From(all, pos), s);
      var check := !again;
      while true
        invariant Coming(t, ls, pos, s) && numBits < 15 && (!check ==> numBits < ls[s])
        invariant (numBits == old(numBits) && pad == old(pad)) || numBits < ls[s] + 8
        decreases 15 - numBits
      {
        if check {
          var yes := Completes(t, ls, pos, s);
          if yes {
            waiting := false;
            return true;
          }
        }
        check := true;
        ok := Fetch(pos);
        if !ok {
          waiting := true;
          return;
        }
        if numBits >= 15 {
          waiting := false;
          return true;
        }
      }
    }

    /** The next symbol of a code, or nothing when a byte is missing. */
    method HuffDecode(t: HuffTable, ghost ls: Lengths, ghost pos: nat, ghost s: nat) returns (ok: bool, sym: nat)
      requires Coming(t, ls, pos, s) && s < |ls| && (waiting ==> numBits < ls[s]) && (pad > 0 ==> numBits < 8)
      modifies `inCur, `pad, `bitBuf, `numBits, `waiting
      ensures ok ==> sym == s && Ahead(pos + ls[s]) && !waiting
      ensures !ok ==> Ahead(pos) && waiting && numBits < ls[s] && hasMore && inCur == |inBuf|
      ensures pad > 0 ==> numBits < 8
    {
      hide Buffered, Matches, From, HuffTable.Built;
      CodeNotLonger(t, ls, s);
      MoreMeansRest(all, pos, bitBuf, numBits, Rest(), pad);
      ok, sym := true, 0;
      if waiting {
        ok := Fill(t, true, ls, pos, s);
      } else if numBits < 15 {
        if |inBuf| - inCur < 2 {
          ok := Fill(t, false, ls, pos, s);
        } else {
          FetchTwo(pos);
        }
      }
      if ok {
        sym := TakeSymbol(t, ls, pos, s);
        sym := sym % 512;
      } else {
        MoreMeansRest(all, pos, bitBuf, numBits, Rest(), pad);
      }
    }

    // ----- the coroutine against the machine -----

    ghost function Now(): Machine
      reads `all, `steps
    {
      After(all, steps)
    }

    ghost predicate Apart() {
      && lit.Valid() && dst.Valid() && clen.Valid() && lit != dst && lit != clen && dst != clen
      && lit.codeSize != dst.codeSize && lit.codeSize != clen.codeSize && dst.codeSize != clen.codeSize
      && out != lit.codeSize && out != dst.codeSize && out != clen.codeSize
      && lit.lookUp != dst.lookUp && lit.lookUp != clen.lookUp && dst.lookUp != clen.lookUp
      && lit.tree != dst.tree && lit.tree != clen.tree && dst.tree != clen.tree
      && lit.lookUp != dst.tree && lit.lookUp != clen.tree && dst.lookUp != lit.tree && dst.lookUp != clen.tree
      && clen.lookUp != lit.tree && clen.lookUp != dst.tree
    }

    ghost function Repr(): set<object> {
      {this, out, lit, lit.codeSize, lit.lookUp, lit.tree, dst, dst.codeSize, dst.lookUp, dst.tree, clen,
        clen.codeSize, clen.lookUp, clen.tree}
    }

    ghost predicate Coded(l: Lengths, d: Lengths)
      requires Apart()
      reads lit, lit.lookUp, lit.tree, dst, dst.lookUp, dst.tree
    {
      lit.Built(l) && dst.Built(d)
    }

    /** A code that is being waited for is not wholly in the buffer. */
    ghost predicate Waits(ls: Lengths)
      reads `all, `steps, `waiting, `numBits
    {
      waiting ==> var s := NextSymbol(ls, From(all, Now().pos)); 0 <= s < |ls| && numBits < ls[s]
    }

    /** The registers at each place are those of the machine. */
    ghost predicate Registers()
      requires Apart()
      reads `all, `steps, `state, `waiting, `numBits, `counter, `numExtra, `dist, `rawHeader, `tableSizes, `lenCodes
      reads lit, lit.lookUp, lit.tree, dst, dst.lookUp, dst.tree, clen, clen.codeSize, clen.lookUp, clen.tree
    {
      var p := Now().phase;
      match state
      case AtHeader => p == Header && !waiting
      case AtRawHeader => p == RawHead(rawHeader) && |rawHeader| == counter < 4 && !waiting
      case AtRawBits => p == RawRead(counter) && numBits > 0 && counter > 0 && !waiting
      case AtRawOut => p == RawEmit(counter, dist) && !waiting
      case AtRawCopy => p == RawRead(counter) && numBits == 0 && counter > 0 && !waiting
      case AtSizes => p == TableSizes(tableSizes) && |tableSizes| == counter < 3 && !waiting
      case AtCodeLens => p == CodeLens(tableSizes, counter, clen.codeSize[..19]) && !waiting
      case AtCodes =>
        && p.Codes? && p.sizes == tableSizes && p.codes == lenCodes && counter == |lenCodes| && clen.Built(p.lens)
          && Waits(p.lens)
        && |tableSizes| == 3 && counter < tableSizes[0] + tableSizes[1]
      case AtRepeat =>
        && p.Repeat? && p.sizes == tableSizes && p.codes == lenCodes && counter == |lenCodes| && p.sym == dist
          && clen.Built(p.lens)
        && numExtra == RepeatBits(dist) && !waiting
      case AtSymbol => p.Symbol? && Coded(p.lit, p.dst) && Waits(p.lit)
      case AtLiteral => p.Emit? && Coded(p.lit, p.dst) && counter == p.byte && !waiting
      case AtLength =>
        && p.LengthBits? && Coded(p.lit, p.dst) && 257 <= p.sym < 286 && counter == LENGTH_BASE[p.sym - 257]
          && numExtra == LENGTH_EXTRA[p.sym - 257]
        && !waiting
      case AtDistance => p.Distance? && Coded(p.lit, p.dst) && counter == p.len && Waits(p.dst)
      case AtDistanceBits =>
        && p.DistanceBits? && Coded(p.lit, p.dst) && counter == p.len && p.sym < 30 && dist == DIST_BASE[p.sym]
          && numExtra == DIST_EXTRA[p.sym]
        && !waiting
      case AtCopy => p.Copy? && Coded(p.lit, p.dst) && counter + 1 == p.len && dist == p.d && !waiting
      case AtDone => p == Done
      case AtFailed => p == Failed
    }

    ghost predicate Output()
      reads `all, `steps, `outCur, `outEnd, out
    {
      outCur <= outEnd <= out.Length && out[..outCur] == Now().out
    }

    /** What holds at every place. */
    ghost predicate Core()
      reads `all, `steps, `inCur, `inBuf, `hasMore, `future, `bitBuf, `numBits, `pad, `outCur, `outEnd, `final, out
    {
      Apart() && Ahead(Now().pos) && (pad > 0 ==> numBits < 8) && Output() && final == Now().last
    }

    /** Between two steps. */
    ghost predicate Ready()
      reads Repr()
    {
      Core() && Registers()
    }

    /** The machine's next step takes n bits of the stream and does no more to it than move on. */
    ghost predicate Moves(n: nat)
      reads `all, `steps
    {
      var a := Now();
      var c := Next(all, a);
      c.pos == a.pos + n && c.out == a.out && c.last == a.last
    }

    /** The next n bits, and the machine's step that takes them. */
    method BitsStep(n: nat) returns (ok: bool, b: nat)
      requires Core() && Moves(n) && n <= 16
      modifies `inCur, `pad, `bitBuf, `numBits, `steps
      ensures Core()
      ensures if ok then steps == old(steps) + 1 && Now() == old(Next(all, Now())) && b == Bits(all, old(Now()).pos, n)
        else Starved() && steps == old(steps)
      ensures old(numBits) >= n ==> ok
    {
      hide After, Ahead, Apart, Bits, Next, Sane;
      ok, b := GetBits(n, Now().pos);
      if ok {
        Advance();
      }
    }

    /** The extra bits of a length or a distance, and the machine's step that takes them. */
    method ExtraStep() returns (ok: bool, extra: nat)
      requires Core() && Moves(numExtra) && numExtra <= 16
      modifies `inCur, `pad, `bitBuf, `numBits, `steps
      ensures Core()
      ensures if ok then steps == old(steps) + 1 && Now() == old(Next(all, Now()))
        && extra == Bits(all, old(Now()).pos, numExtra)
        else Starved() && steps == old(steps)
    {
      hide After, Ahead, Apart, Bits, Next, Sane;
      ok, extra := true, 0;
      if numExtra != 0 {
        ok, extra := BitsStep(numExtra);
      } else {
        NoBits(all, Now().pos);
        Advance();
      }
    }

    /** The next symbol of a code, and the machine's step that takes it. */
    method CodeStep(t: HuffTable, ghost ls: Lengths, ghost s: nat) returns (ok: bool, sym: nat)
      requires Core() && t.Valid() && t.Built(ls) && Matches(ls, From(all, Now().pos), s) && s < |ls|
      requires (waiting ==> numBits < ls[s]) && Moves(ls[s])
      modifies `inCur, `pad, `bitBuf, `numBits, `waiting, `steps
      ensures Core()
      ensures if ok then steps == old(steps) + 1 && Now() == old(Next(all, Now())) && sym == s && !waiting
        else Starved() && steps == old(steps) && waiting && numBits < ls[s]
    {
      hide After, Ahead, Apart, HuffTable.Built, HuffTable.Valid, Matches, From, Next, Sane;
      ok, sym := HuffDecode(t, ls, Now().pos, s);
      if ok {
        Advance();
      }
    }

    lemma Open()
      requires Ready()
      ensures Core() && Registers()
    {
    }

    lemma Close()
      requires Core() && Registers()
      ensures Ready()
    {
    }

    /** The registers of some of the places. */
    lemma RepeatRegisters()
      requires Apart() && state == AtRepeat
      ensures var p := Now().phase; Registers() <==>
        p.Repeat? && p.sizes == tableSizes && p.codes == lenCodes && counter == |lenCodes| && p.sym == dist
          && clen.Built(p.lens)
        && numExtra == RepeatBits(dist) && !waiting
    {
      hide HuffTable.Built, After;
    }

    lemma SymbolRegisters()
      requires Apart() && state == AtSymbol
      ensures var p := Now().phase; Registers() <==> p.Symbol? && Coded(p.lit, p.dst) && Waits(p.lit)
    {
      hide Coded, Waits, After;
    }

    lemma LiteralRegisters()
      requires Apart() && state == AtLiteral
      ensures var p := Now().phase; Registers() <==> p.Emit? && Coded(p.lit, p.dst) && counter == p.byte && !waiting
    {
      hide Coded, After;
    }

    lemma CodesRegisters()
      requires Apart() && state == AtCodes
      ensures var p := Now().phase; Registers() <==>
        p.Codes? && p.sizes == tableSizes && p.codes == lenCodes && counter == |lenCodes| && clen.Built(p.lens)
          && Waits(p.lens)
        && |tableSizes| == 3 && counter < tableSizes[0] + tableSizes[1]
    {
      hide HuffTable.Built, Waits, After;
    }

    lemma DistanceRegisters()
      requires Apart() && state == AtDistance
      ensures var p := Now().phase; Registers() <==>
        p.Distance? && Coded(p.lit, p.dst) && counter == p.len && Waits(p.dst)
    {
      hide Coded, Waits, After;
    }

    lemma DistanceBitsRegisters()
      requires Apart() && state == AtDistanceBits && |DIST_BASE| == |DIST_EXTRA| == 32
      ensures var p := Now().phase; Registers() <==>
        p.DistanceBits? && Coded(p.lit, p.dst) && counter == p.len && p.sym < 30 && dist == DIST_BASE[p.sym]
          && numExtra == DIST_EXTRA[p.sym]
        && !waiting
    {
      hide Coded, After, DIST_BASE, DIST_EXTRA;
    }

    lemma HeaderRegisters()
      requires Apart() && state == AtHeader
      ensures Registers() <==> Now().phase == Header && !waiting
    {
      hide After;
    }

    lemma RawHeaderRegisters()
      requires Apart() && state == AtRawHeader
      ensures Registers() <==> Now().phase == RawHead(rawHeader) && |rawHeader| == counter < 4 && !waiting
    {
      hide After;
    }

    lemma SizesRegisters()
      requires Apart() && state == AtSizes
      ensures Registers() <==> Now().phase == TableSizes(tableSizes) && |tableSizes| == counter < 3 && !waiting
    {
      hide After;
    }

    lemma CopyRegisters()
      requires Apart() && state == AtCopy
      ensures var p := Now().phase; Registers() <==>
        p.Copy? && Coded(p.lit, p.dst) && counter + 1 == p.len && dist == p.d && !waiting
    {
      hide Coded, After;
    }

    lemma CoreApart()
      requires Core()
      ensures Apart()
    {
    }

    lemma OutApart()
      requires Apart()
      ensures out != clen.codeSize && out != lit.codeSize && out != dst.codeSize
    {
    }

    lemma CodeLensRegisters()
      requires Apart() && state == AtCodeLens
      ensures clen.codeSize.Length == 288
      ensures Registers() <==> Now().phase == CodeLens(tableSizes, counter, clen.codeSize[..19]) && !waiting
    {
      hide After;
    }

    lemma RawBitsRegisters()
      requires Apart() && state == AtRawBits
      ensures Registers() <==> Now().phase == RawRead(counter) && numBits > 0 && counter > 0 && !waiting
    {
      hide After;
    }

    lemma RawOutRegisters()
      requires Apart() && state == AtRawOut
      ensures Registers() <==> Now().phase == RawEmit(counter, dist) && !waiting
    {
      hide After;
    }

    lemma LengthRegisters()
      requires Apart() && state == AtLength && |LENGTH_BASE| == |LENGTH_EXTRA| == 31
      ensures var p := Now().phase; Registers() <==>
        p.LengthBits? && Coded(p.lit, p.dst) && 257 <= p.sym < 286 && counter == LENGTH_BASE[p.sym - 257]
        && numExtra == LENGTH_EXTRA[p.sym - 257] && !waiting
    {
      hide Coded, After, LENGTH_BASE, LENGTH_EXTRA;
    }

    lemma FailedRegisters()
      requires Apart() && state == AtFailed
      ensures Registers() <==> Now().phase == Failed
    {
      hide After;
    }

    /** More input is needed, for the machine's next step does not get by with the bits at hand, and there will be
        some. */
    ghost predicate Starved()
      reads `all, `steps, `numBits, `hasMore, `inCur, `inBuf
    {
      hasMore && inCur == |inBuf| && Next(all, Now()).pos > Now().pos + numBits
    }

    /** At a place where a byte is put out, without room for it. */
    ghost predicate Stuck()
      reads `outCur, `outEnd, `state
    {
      outCur == outEnd && (state == AtRawOut || state == AtRawCopy || state == AtLiteral || state == AtCopy)
    }

    /** What belongs to the call and does not change in it. */
    twostate predicate SameCall()
      reads this
    {
      all == old(all) && inBuf == old(inBuf) && hasMore == old(hasMore) && future == old(future)
        && outEnd == old(outEnd) && outCur >= old(outCur)
    }

    /** The machine takes a step. */
    ghost method Advance()
      modifies `steps
      ensures steps == old(steps) + 1 && Now() == Next(all, old(Now()))
    {
      AfterNext(all, steps);
      steps := steps + 1;
    }

    /** The header of a block. */
    method StepHeader() returns (go: bool)
      requires Ready() && state == AtHeader
      modifies `inCur, `pad, `bitBuf, `numBits, `final, `counter, `rawHeader, `tableSizes, `state, `steps
      modifies lit, lit.codeSize, lit.lookUp, lit.tree, dst, dst.codeSize, dst.lookUp, dst.tree
      ensures Ready()
      ensures if go then steps > old(steps) else Starved() && steps == old(steps)
    {
      hide After, Ahead, Apart, Bits, FixedDistances, FixedLengths, Next, Ready, Registers, Repr, Sane;
      Open();
      HeaderRegisters();
      ghost var a := Now();
      HeaderNext(all, a);
      var b: nat;
      go, b := GetBits(3, a.pos);
      if !go {
        HeaderRegisters();
        Close();
        return;
      }
      Advance();
      final := b % 2 == 1;
      BeginBlock(b / 2);
    }

    /** The three kinds of block. */
    method BeginBlock(kind: nat)
      requires Core() && !waiting && kind < 4
      requires Now().phase == if kind == 0 then Align else if kind == 1 then Symbol(FixedLengths(), FixedDistances())
        else if kind == 2 then TableSizes([]) else Failed
      modifies `numBits, `bitBuf, `counter, `rawHeader, `tableSizes, `state, `steps
      modifies lit, lit.codeSize, lit.lookUp, lit.tree, dst, dst.codeSize, dst.lookUp, dst.tree
      ensures Ready() && steps >= old(steps)
    {
      hide Buffered, Sane, From, After, FixedLengths, FixedDistances, HuffTable.Built;
      if kind == 0 {
        BeginRaw();
      } else if kind == 3 {
        state := AtFailed;
      } else if kind == 1 {
        FixedTables();
        state := AtSymbol;
      } else {
        counter, tableSizes := 0, [];
        state := AtSizes;
      }
    }

    /** Skip to the next byte boundary. */
    method BeginRaw()
      requires Core() && !waiting && Now().phase == Align
      modifies `numBits, `bitBuf, `counter, `rawHeader, `state, `steps
      ensures Ready() && steps == old(steps) + 1
    {
      hide After, Ahead, Apart, Next, Ready, Registers, Sane;
      ghost var a := Now();
      AlignNext(all, a);
      Aligning(a.pos);
      Advance();
      SkipBits(numBits % 8, a.pos);
      counter, rawHeader := 0, [];
      state := AtRawHeader;
      RawHeaderRegisters();
      Close();
    }

    lemma Aligning(pos: nat)
      requires Ahead(pos)
      ensures (pos + 7) / 8 * 8 == pos + numBits % 8
    {
      AlignBits(all, pos, bitBuf, numBits, Rest(), pad);
    }

    /** The tables of the fixed code. */
    method FixedTables()
      requires Apart()
      modifies lit, lit.codeSize, lit.lookUp, lit.tree, dst, dst.codeSize, dst.lookUp, dst.tree
      ensures Coded(FixedLengths(), FixedDistances())
    {
      hide HuffTable.Built, Complete, Matches;
      FixedComplete();
      forall i | 0 <= i < 32 { dst.codeSize[i] := 5; }
      var i := 0;
      while i <= 143
        invariant 0 <= i <= 144 && forall j :: 0 <= j < i ==> lit.codeSize[j] == 8
        invariant forall j :: 0 <= j < 32 ==> dst.codeSize[j] == 5
      {
        lit.codeSize[i] := 8;
        i := i + 1;
      }
      while i <= 255
        invariant 144 <= i <= 256 && (forall j :: 0 <= j < 144 ==> lit.codeSize[j] == 8)
          && forall j :: 144 <= j < i ==> lit.codeSize[j] == 9
        invariant forall j :: 0 <= j < 32 ==> dst.codeSize[j] == 5
      {
        lit.codeSize[i] := 9;
        i := i + 1;
      }
      while i <= 279
        invariant 256 <= i <= 280 && (forall j :: 0 <= j < 144 ==> lit.codeSize[j] == 8)
          && (forall j :: 144 <= j < 256 ==> lit.codeSize[j] == 9)
        invariant forall j :: 256 <= j < i ==> lit.codeSize[j] == 7
        invariant forall j :: 0 <= j < 32 ==> dst.codeSize[j] == 5
      {
        lit.codeSize[i] := 7;
        i := i + 1;
      }
      while i <= 287
        invariant 280 <= i <= 288 && (forall j :: 0 <= j < 144 ==> lit.codeSize[j] == 8)
          && (forall j :: 144 <= j < 256 ==> lit.codeSize[j] == 9)
        invariant (forall j :: 256 <= j < 280 ==> lit.codeSize[j] == 7)
          && forall j :: 280 <= j < i ==> lit.codeSize[j] == 8
        invariant forall j :: 0 <= j < 32 ==> dst.codeSize[j] == 5
      {
        lit.codeSize[i] := 8;
        i := i + 1;
      }
      assert dst.Lens(32) == FixedDistances();
      assert lit.Lens(288) == FixedLengths();
      FixedSizes();
      var _ := dst.Build(32);
      var _ := lit.Build(288);
    }

    /** The length of a stored block and its complement. */
    method StepRawHeader() returns (go: bool)
      requires Ready() && state == AtRawHeader
      modifies `inCur, `pad, `bitBuf, `numBits, `rawHeader, `counter, `state, `steps
      ensures Ready()
      ensures if go then steps > old(steps) else Starved() && steps == old(steps)
    {
      hide After, Ahead, Apart, Bits, Next, Ready, Registers, Repr, Sane;
      Open();
      RawHeaderRegisters();
      ghost var a := Now();
      RawHeadNext(all, a, rawHeader);
      var c: nat;
      if numBits > 0 {
        go, c := GetBits(8, a.pos);
      } else {
        go, c := RawByte(a.pos);
      }
      if !go {
        RawHeaderRegisters();
        Close();
        return;
      }
      Advance();
      HeaderByte(c);
    }

    method HeaderByte(c: nat)
      requires Core() && !waiting && Now().phase == RawHead(rawHeader + [c]) && |rawHeader| == counter < 4
        && state == AtRawHeader
      modifies `rawHeader, `counter, `state, `steps
      ensures Ready() && steps >= old(steps)
    {
      hide After, Ahead, Apart, Output, Ready, Registers;
      rawHeader := rawHeader + [c];
      counter := counter + 1;
      if counter == 4 {
        CheckRawHeader();
      } else {
        RawHeaderRegisters();
        Close();
      }
    }

    /** The length must go with its complement. */
    method CheckRawHeader()
      requires Core() && !waiting && Now().phase == RawHead(rawHeader) && |rawHeader| == 4
      modifies `state, `steps, `counter
      ensures Ready() && steps > old(steps)
    {
      hide DIST_BASE, DIST_EXTRA, LENGTH_BASE, LENGTH_EXTRA, ORDER, Buffered, Sane, From, Bits, Next, After, Apart,
        Coded, Waits, HuffTable.Built, Complete;
      RawHeadNext(all, Now(), rawHeader);
      Advance();
      counter := rawHeader[0] + 0x100 * rawHeader[1];
      if counter != 0xFFFF - (rawHeader[2] + 0x100 * rawHeader[3]) {
        state := AtFailed;
      } else {
        GoOnRaw();
      }
    }

    /** A byte straight from the input, the bit buffer being empty. */
    method RawByte(ghost pos: nat) returns (ok: bool, c: nat)
      requires Ahead(pos) && numBits == 0
      modifies `inCur, `pad
      ensures ok ==> Ahead(pos + 8) && c == Bits(all, pos, 8)
      ensures !ok ==> Ahead(pos) && hasMore && inCur == |inBuf|
    {
      hide Buffered, Bits;
      ghost var rest := Rest();
      MoreMeansRest(all, pos, bitBuf, 0, rest, pad);
      ok, c := GetByte();
      if ok {
        if rest != [] {
          ByteThrough(all, pos, bitBuf, rest, pad);
          assert rest[1..] == Rest();
        } else {
          ZeroThrough(all, pos, bitBuf, pad);
          pad := pad + 1;
        }
      }
    }

    /** Where a stored block goes on, or that it is over. */
    method GoOnRaw()
      requires Core() && !waiting && Now().phase == RawRead(counter)
      modifies `state, `steps
      ensures Ready() && steps >= old(steps)
    {
      hide Buffered, Sane, From, Next, After, Apart, Coded, Waits, HuffTable.Built, Complete;
      if counter > 0 && numBits > 0 {
        state := AtRawBits;
      } else if counter > 0 {
        state := AtRawCopy;
      } else {
        RawReadNext(all, Now(), 0);
        Advance();
        state := if final then AtDone else AtHeader;
      }
    }

    /** A byte of a stored block that is in the bit buffer. */
    method StepRawBits() returns (go: bool)
      requires Ready() && state == AtRawBits
      modifies `inCur, `pad, `bitBuf, `numBits, `dist, `state, `steps
      ensures Ready() && go && steps > old(steps)
    {
      hide After, Ahead, Apart, Bits, Next, Ready, Registers, Sane;
      Open();
      RawBitsRegisters();
      RawReadNext(all, Now(), counter);
      BitsAtHand(Now().pos);
      go, dist := BitsStep(8);
      state := AtRawOut;
      RawOutRegisters();
      Close();
    }

    lemma BitsAtHand(pos: nat)
      requires Ahead(pos) && pos % 8 == 0 && numBits > 0 && (pad > 0 ==> numBits < 8)
      ensures numBits >= 8 && pos < 8 * |all|
    {
      WholeBytes(all, pos, bitBuf, numBits, Rest(), pad);
    }

    method StepRawOut() returns (go: bool)
      requires Ready() && state == AtRawOut
      modifies `outCur, `counter, `state, `steps, out
      ensures Ready() && outCur >= old(outCur)
      ensures if go then steps > old(steps) else Stuck() && steps == old(steps)
    {
      hide Buffered, Sane, From, Next, After, Apart, Coded, Waits, HuffTable.Built, Complete;
      if outCur >= outEnd {
        return false;
      }
      ghost var a := Now();
      RawEmitNext(all, a, counter, dist);
      Advance();
      out[outCur] := dist;
      outCur := outCur + 1;
      assert out[..outCur] == a.out + [dist];
      counter := counter - 1;
      GoOnRaw();
      go := true;
    }

    /** Bytes of a stored block straight from input to output. */
    method StepRawCopy() returns (go: bool, full: bool)
      requires Ready() && state == AtRawCopy
      modifies `inCur, `pad, `outCur, `counter, `state, `steps, out
      ensures Ready() && outCur >= old(outCur)
      ensures if go then steps > old(steps) else steps == old(steps) && if full then Stuck() else Starved()
    {
      hide DIST_BASE, DIST_EXTRA, LENGTH_BASE, LENGTH_EXTRA, ORDER, Buffered, Sane, From, Bits, Next, After, Apart,
        Coded, Waits, HuffTable.Built, Complete, Usable, NextSymbol, Matches;
      full := outCur >= outEnd;
      if full {
        return false, true;
      }
      if inCur >= |inBuf| {
        if hasMore {
          WholeRest(all, Now().pos, bitBuf, Rest(), pad);
          RawReadNext(all, Now(), counter);
          return false, false;
        }
        OutOfInput(all, Now().pos, bitBuf, Rest(), pad);
        RawReadNext(all, Now(), counter);
        Advance();
        state := AtFailed;
        return true, false;
      }
      var n := Min(Min(outEnd - outCur, |inBuf| - inCur), counter);
      CopyRaw(n);
      GoOnRaw();
      go := true;
    }

    /** memcpy from the input to the output. */
    method CopyRaw(n: nat)
      requires Core() && !waiting && numBits == 0 && Now().phase == RawRead(counter)
      requires 0 < n <= counter && outCur + n <= outEnd && inCur + n <= |inBuf|
      modifies `inCur, `outCur, `counter, `steps, `pad, out
      ensures Core() && Now().phase == RawRead(counter) && steps > old(steps) && outCur >= old(outCur)
    {
      hide DIST_BASE, DIST_EXTRA, LENGTH_BASE, LENGTH_EXTRA, ORDER, Buffered, Sane, From, Bits, Next, After, Apart,
        Coded, Waits, HuffTable.Built, Complete, Usable, NextSymbol, Matches;
      for i := 0 to n
        invariant Core() && Now().phase == RawRead(counter) && steps == old(steps) + 2 * i
        invariant outCur == old(outCur) + i && inCur == old(inCur) + i && counter == old(counter) - i
      {
        CopyRawByte();
      }
    }

    method CopyRawByte()
      requires Core() && !waiting && numBits == 0 && Now().phase == RawRead(counter)
      requires 0 < counter && outCur < outEnd && inCur < |inBuf|
      modifies `inCur, `outCur, `counter, `steps, out
      ensures Core() && Now().phase == RawRead(counter) && steps == old(steps) + 2
      ensures outCur == old(outCur) + 1 && inCur == old(inCur) + 1 && counter == old(counter) - 1
    {
      hide DIST_BASE, DIST_EXTRA, LENGTH_BASE, LENGTH_EXTRA, ORDER, Buffered, Sane, From, Bits, Next, After, Apart,
        Coded, Waits, HuffTable.Built, Complete, Usable, NextSymbol, Matches;
      ghost var a, rest := Now(), Rest();
      var c := inBuf[inCur];
      assert rest[0] == c;
      ByteThrough(all, a.pos, bitBuf, rest, pad);
      WholeRest(all, a.pos, bitBuf, rest, pad);
      RawReadNext(all, a, counter);
      Advance();
      RawEmitNext(all, Now(), counter, c);
      Advance();
      inCur := inCur + 1;
      assert rest[1..] == Rest();
      out[outCur] := c;
      outCur := outCur + 1;
      assert out[..outCur] == a.out + [c];
      counter := counter - 1;
    }

    // ----- a block with its own codes -----

    /** The numbers of codes. */
    method StepSizes() returns (go: bool)
      requires Ready() && state == AtSizes
      modifies `inCur, `pad, `bitBuf, `numBits, `tableSizes, `counter, `state, `steps, clen.codeSize
      ensures Ready()
      ensures if go then steps > old(steps) else Starved() && steps == old(steps)
    {
      hide After, Apart, Bits, Core, MinTableSize, Next, Ready, Registers, Sane, SizesOk;
      Open();
      CoreApart();
      SizesRegisters();
      TableSizesNext(all, Now(), tableSizes);
      var b: nat;
      go, b := BitsStep(SizeBits(counter));
      if go {
        SizeRead(b + MinTableSize(counter));
      } else {
        SizesRegisters();
        Close();
      }
    }

    method SizeRead(size: nat)
      requires Core() && !waiting && Now().phase == TableSizes(tableSizes + [size]) && |tableSizes| == counter < 3
        && state == AtSizes
      modifies `tableSizes, `counter, `state, `steps, clen.codeSize
      ensures Ready() && steps >= old(steps)
    {
      hide After, Ahead, Apart, Output, Ready, Registers;
      tableSizes := tableSizes + [size];
      counter := counter + 1;
      if counter == 3 {
        ClearLens();
      } else {
        SizesRegisters();
        Close();
      }
    }


    method ClearLens()
      requires Core() && !waiting && Now().phase == TableSizes(tableSizes) && |tableSizes| == 3
      modifies `counter, `state, `steps, clen.codeSize
      ensures Ready() && steps > old(steps)
    {
      hide DIST_BASE, DIST_EXTRA, LENGTH_BASE, LENGTH_EXTRA, ORDER, Buffered, Sane, From, Bits, Next, After, Coded,
        Waits, HuffTable.Built, Complete, Usable, NextSymbol, Matches;
      TableSizesNext(all, Now(), tableSizes);
      Advance();
      forall i | 0 <= i < 288 { clen.codeSize[i] := 0; }
      assert clen.codeSize[..19] == seq(19, i => 0);
      counter := 0;
      state := AtCodeLens;
    }

    /** The lengths of the codes that code the lengths. */
    method StepCodeLens() returns (go: bool)
      requires Ready() && state == AtCodeLens
      modifies `inCur, `pad, `bitBuf, `numBits, `counter, `lenCodes, `state, `steps
      modifies clen, clen.codeSize, clen.lookUp, clen.tree
      ensures Ready()
      ensures if go then steps > old(steps) else Starved() && steps == old(steps)
    {
      hide After, Ahead, Apart, Output, Ready, Registers, Sizes;
      Open();
      CodeLensRegisters();
      CodeLensNext(all, Now(), tableSizes, counter, clen.codeSize[..19]);
      if counter >= tableSizes[2] {
        BuildLens();
        go := true;
      } else {
        go := OneCodeLen();
      }
    }

    method OneCodeLen() returns (go: bool)
      requires Ready() && state == AtCodeLens && |tableSizes| == 3 && counter < tableSizes[2]
      modifies `inCur, `pad, `bitBuf, `numBits, `counter, `steps, clen.codeSize
      ensures Ready()
      ensures if go then steps > old(steps) else Starved() && steps == old(steps)
    {
      hide After, Apart, Bits, Core, Next, Ready, Registers, Sane, Sizes, SizesOk, Usable;
      Open();
      CoreApart();
      CodeLensRegisters();
      ghost var lens := clen.codeSize[..19];
      CodeLensNext(all, Now(), tableSizes, counter, lens);
      var b: nat;
      go, b := BitsStep(3);
      if go {
        SetCodeLen(b, lens);
      } else {
        CodeLensRegisters();
        Close();
      }
    }

    method SetCodeLen(b: nat, ghost lens: Lengths)
      requires Core() && !waiting && state == AtCodeLens && counter < |ORDER| && ORDER[counter] < 19 && |lens| == 19
      requires clen.codeSize.Length == 288 && clen.codeSize[..19] == lens
      requires Now().phase == CodeLens(tableSizes, counter + 1, lens[ORDER[counter] := b])
      modifies `counter, clen.codeSize
      ensures Ready()
    {
      hide After, Ahead, Apart, ORDER, Ready, Registers;
      OutApart();
      clen.codeSize[ORDER[counter]] := b;
      assert clen.codeSize[..19] == lens[ORDER[counter] := b];
      counter := counter + 1;
      CodeLensRegisters();
      Close();
    }

    method BuildLens()
      requires Ready() && state == AtCodeLens && counter >= tableSizes[2]
      modifies `counter, `state, `steps, `lenCodes, clen, clen.lookUp, clen.tree
      ensures Ready() && steps > old(steps)
    {
      hide After, Ahead, Bits, Complete, From, HuffTable.Built, HuffTable.Valid, LOOKUP, Lookup, Matches, Next,
        NextSymbol, ORDER, Ready, Registers, Repr, Sane, Sizes, SizesOk, Usable, UsedTo, Waits;
      Open();
      CodeLensRegisters();
      assert clen.Valid();
      ghost var lens := clen.codeSize[..19];
      CodeLensNext(all, Now(), tableSizes, counter, lens);
      assert clen.Lens(19) == lens;
      var ok := clen.Build(19);
      UsableIs(lens);
      Advance();
      BeginCodes(ok, lens);
    }

    method BeginCodes(ok: bool, ghost lens: Lengths)
      requires Core() && !waiting && |tableSizes| == 3 && tableSizes[0] > 0
      requires if ok then Now().phase == Codes(tableSizes, lens, []) && clen.Built(lens) else Now().phase == Failed
      modifies `counter, `lenCodes, `state
      ensures Ready()
    {
      hide After, Ahead, Apart, HuffTable.Built, Output, Ready, Registers;
      if ok {
        counter, lenCodes := 0, [];
        state := AtCodes;
        CodesRegisters();
      } else {
        state := AtFailed;
        FailedRegisters();
      }
      Close();
    }

    /** No code comes up that no valid stream contains. */
    ghost predicate Within(n: nat)
      reads `all
    {
      Halted(After(all, n)) && !After(all, n).phase.Beyond?
    }

    /** A code length, or a command to repeat one. */
    method StepCodes(ghost n: nat) returns (go: bool)
      requires Ready() && state == AtCodes && Within(n)
      modifies `inCur, `pad, `bitBuf, `numBits, `waiting, `dist, `lenCodes, `counter, `numExtra, `state, `steps
      modifies lit, lit.codeSize, lit.lookUp, lit.tree, dst, dst.codeSize, dst.lookUp, dst.tree
      ensures Ready()
      ensures if go then steps > old(steps) else Starved() && steps == old(steps)
    {
      hide After, Core, From, Halted, HuffTable.Built, Matches, Next, NextSymbol, Ready, Registers, Sane, Sizes,
        SizesOk, Usable;
      Open();
      CoreApart();
      CodesRegisters();
      ghost var a := Now();
      ghost var lens := a.phase.lens;
      CodesNext(all, a, tableSizes, lens, lenCodes);
      ghost var s: nat := CodesSymbol(all, steps, n, tableSizes, lens, lenCodes);
      go, dist := CodeStep(clen, lens, s);
      if go {
        AfterCode(a, lens);
      } else {
        CodesRegisters();
        Close();
      }
    }

    method AfterCode(ghost a: Machine, ghost lens: Lengths)
      requires Core() && !waiting && clen.Built(lens) && counter == |lenCodes| && |tableSizes| == 3 && dist < 19
      requires var b := a.(pos := Now().pos);
        if dist < 16 then Now() == b.(phase := Codes(tableSizes, lens, lenCodes + [dist]))
        else if dist == 16 && lenCodes == [] then Now() == b.(phase := Failed)
        else Now() == b.(phase := Repeat(tableSizes, lens, lenCodes, dist))
      modifies `lenCodes, `counter, `numExtra, `state, `steps, lit, lit.codeSize, lit.lookUp, lit.tree, dst,
        dst.codeSize, dst.lookUp, dst.tree
      ensures Ready() && steps >= old(steps)
    {
      hide DIST_BASE, DIST_EXTRA, LENGTH_BASE, LENGTH_EXTRA, ORDER, Buffered, Sane, From, Bits, Next, After, Coded,
        HuffTable.Built, Complete, Usable, NextSymbol, Matches;
      if dist < 16 {
        lenCodes := lenCodes + [dist];
        counter := counter + 1;
        GoOnCodes(lens);
      } else if dist == 16 && counter == 0 {
        state := AtFailed;
      } else {
        numExtra := RepeatBits(dist);
        state := AtRepeat;
      }
    }

    /** The next code length, or the tables when there are enough. */
    method GoOnCodes(ghost lens: Lengths)
      requires Core() && !waiting && clen.Built(lens) && counter == |lenCodes| && |tableSizes| == 3
      requires Now().phase == Codes(tableSizes, lens, lenCodes)
      modifies `state, `steps, lit, lit.codeSize, lit.lookUp, lit.tree, dst, dst.codeSize, dst.lookUp, dst.tree
      ensures Ready() && steps >= old(steps)
    {
      hide After, Ahead, Apart, Coded, HuffTable.Built, Next, Ready, Registers, Sane, Sizes, Usable;
      CodesNext(all, Now(), tableSizes, lens, lenCodes);
      if counter < tableSizes[0] + tableSizes[1] {
        state := AtCodes;
        CodesRegisters();
        Close();
      } else {
        Advance();
        EndOfCodes(tableSizes[0], tableSizes[1]);
      }
    }

    method EndOfCodes(s0: nat, s1: nat)
      requires Core() && !waiting && s0 <= 288 && s1 <= 32 && Canonical.Sizes(lenCodes) && counter == |lenCodes|
      requires if s0 + s1 != |lenCodes| then Now().phase == Failed else
        Now().phase ==
          (if Usable(lenCodes[s0..]) && Usable(lenCodes[..s0]) then Symbol(lenCodes[..s0], lenCodes[s0..]) else Failed)
      modifies `state, lit, lit.codeSize, lit.lookUp, lit.tree, dst, dst.codeSize, dst.lookUp, dst.tree
      ensures Ready()
    {
      hide After, Ahead, Coded, HuffTable.Built, HuffTable.Valid, Ready, Registers, Sizes, Usable;
      if s0 + s1 != counter {
        state := AtFailed;
        FailedRegisters();
      } else {
        var ok := OwnTables(s0, s1);
        if ok {
          state := AtSymbol;
          SymbolRegisters();
        } else {
          state := AtFailed;
          FailedRegisters();
        }
      }
      Close();
    }

    /** The tables of a block's own codes: distances first. */
    method OwnTables(s0: nat, s1: nat) returns (ok: bool)
      requires Apart() && s0 <= 288 && s1 <= 32 && s0 + s1 == |lenCodes| && Canonical.Sizes(lenCodes)
      modifies lit, lit.codeSize, lit.lookUp, lit.tree, dst, dst.codeSize, dst.lookUp, dst.tree
      ensures ok <==> Usable(lenCodes[s0..]) && Usable(lenCodes[..s0])
      ensures ok ==> Coded(lenCodes[..s0], lenCodes[s0..])
    {
      hide DIST_BASE, DIST_EXTRA, LENGTH_BASE, LENGTH_EXTRA, ORDER, Buffered, Sane, From, Bits, Next, After,
        HuffTable.Built, Complete, Usable, NextSymbol, Matches;
      forall i | 0 <= i < s0 { lit.codeSize[i] := lenCodes[i]; }
      forall i | 0 <= i < s1 { dst.codeSize[i] := lenCodes[s0 + i]; }
      assert lit.Lens(s0) == lenCodes[..s0];
      assert dst.Lens(s1) == lenCodes[s0..];
      SizesParts(lenCodes, s0);
      UsableIs(lenCodes[..s0]);
      UsableIs(lenCodes[s0..]);
      ok := dst.Build(s1);
      if ok {
        ok := lit.Build(s0);
      }
    }

    /** A run of equal code lengths. */
    method StepRepeat() returns (go: bool)
      requires Ready() && state == AtRepeat
      modifies `inCur, `pad, `bitBuf, `numBits, `lenCodes, `counter, `state, `steps
      modifies lit, lit.codeSize, lit.lookUp, lit.tree, dst, dst.codeSize, dst.lookUp, dst.tree
      ensures Ready()
      ensures if go then steps > old(steps) else Starved() && steps == old(steps)
    {
      hide After, Apart, Bits, Core, HuffTable.Built, Next, Ready, Registers, Sane, WithRun;
      Open();
      CoreApart();
      RepeatRegisters();
      ghost var lens := Now().phase.lens;
      RepeatNext(all, Now(), tableSizes, lens, lenCodes, dist);
      var s: nat;
      go, s := BitsStep(numExtra);
      if go {
        RunOn(s + RepeatBase(dist), lens);
      } else {
        RepeatRegisters();
        Close();
      }
    }

    method RunOn(s: nat, ghost lens: Lengths)
      requires Core() && !waiting && clen.Built(lens) && counter == |lenCodes| && |tableSizes| == 3
        && (dist == 16 ==> counter > 0)
      requires Now().phase == Codes(tableSizes, lens, WithRun(lenCodes, dist, s))
      modifies `lenCodes, `counter, `state, `steps
      modifies lit, lit.codeSize, lit.lookUp, lit.tree, dst, dst.codeSize, dst.lookUp, dst.tree
      ensures Ready() && steps >= old(steps)
    {
      hide After, Ahead, Apart, HuffTable.Built, Output, Ready, Registers;
      var c := if dist == 16 then lenCodes[counter - 1] else 0;
      assert WithRun(lenCodes, dist, s) == lenCodes + seq(s, i => c);
      lenCodes := lenCodes + seq(s, i => c);
      counter := counter + s;
      GoOnCodes(lens);
    }

    // ----- literals and copies -----

    /** A literal, a length or the end of the block.  With four bytes of input and room for two of output
        two symbols are decoded in a row. */
    method StepSymbol(ghost n: nat) returns (go: bool)
      requires Ready() && state == AtSymbol && Within(n)
      modifies `inCur, `pad, `bitBuf, `numBits, `waiting, `counter, `numExtra, `state, `steps, `outCur, out
      ensures Ready() && outCur >= old(outCur)
      ensures if go then steps > old(steps) else Starved() && steps == old(steps)
    {
      if waiting || |inBuf| - inCur < 4 || outEnd - outCur < 2 {
        go := OneSymbol(n);
      } else {
        Open();
        SymbolRegisters();
        TwoSymbols(n, Now().phase.lit, Now().phase.dst);
        go := true;
      }
    }

    method OneSymbol(ghost n: nat) returns (go: bool)
      requires Ready() && state == AtSymbol && Within(n)
      modifies `inCur, `pad, `bitBuf, `numBits, `waiting, `counter, `numExtra, `state, `steps
      ensures Ready()
      ensures if go then steps > old(steps) else Starved() && steps == old(steps)
    {
      hide After, Apart, Coded, Core, From, Halted, HuffTable.Built, Matches, Next, NextSymbol, Ready, Registers, Sane;
      Open();
      CoreApart();
      SymbolRegisters();
      ghost var l, d := Now().phase.lit, Now().phase.dst;
      LiteralNext(all, Now(), l, d);
      ghost var s: nat := LiteralSymbol(all, steps, n, l, d);
      DistanceBuilt(l, d);
      go, counter := CodeStep(lit, l, s);
      if go {
        SymbolRead(l, d);
      } else {
        SymbolRegisters();
        Close();
      }
    }

    method SymbolRead(ghost l: Lengths, ghost d: Lengths)
      requires Core() && !waiting && Coded(l, d) && counter < 286
      requires Now().phase == if counter < 256 then Emit(l, d, counter)
        else if counter == 256 then (if final then Done else Header) else LengthBits(l, d, counter)
      modifies `counter, `numExtra, `state
      ensures Ready()
    {
      hide After, Ahead, Apart, Coded, Output, Ready, Registers;
      if counter >= 256 {
        AfterSymbol(l, d);
      } else {
        state := AtLiteral;
        LiteralRegisters();
        Close();
      }
    }

    /** A symbol with no care for the end of the input. */
    method FastSymbol(ghost l: Lengths, ghost pos: nat, ghost s: nat) returns (sym: nat)
      requires Apart() && Coming(lit, l, pos, s) && s < |l| && inCur + 2 <= |inBuf|
      modifies `inCur, `bitBuf, `numBits
      ensures sym % 512 == s && (sym / 256 % 2 == 1 <==> s >= 256) && sym % 256 == s % 256
      ensures Ahead(pos + l[s]) && pad == 0 && inCur <= old(inCur) + 2
    {
      hide Buffered, From, Apart, HuffTable.Built, Matches;
      CodeNotLonger(lit, l, s);
      MoreMeansRest(all, pos, bitBuf, numBits, Rest(), pad);
      if numBits < 15 {
        FetchTwo(pos);
      }
      sym := TakeSymbol(lit, l, pos, s);
    }

    /** Two symbols in a row, as long as they are literals. */
    method TwoSymbols(ghost n: nat, ghost l: Lengths, ghost d: Lengths)
      requires Core() && !waiting && Coded(l, d) && Now().phase == Symbol(l, d) && Within(n)
      requires inCur + 4 <= |inBuf| && outCur + 2 <= outEnd
      modifies `inCur, `bitBuf, `numBits, `counter, `numExtra, `state, `steps, `outCur, out
      ensures Ready() && steps > old(steps) && outCur >= old(outCur)
    {
      hide After, Ahead, Bits, Buffered, Complete, DIST_BASE, DIST_EXTRA, From, Halted, HuffTable.Built,
        HuffTable.Valid, LENGTH_BASE, LENGTH_EXTRA, Matches, Next, NextSymbol, ORDER, Ready, Repr, Sane, Usable;
      ghost var a := Now();
      LiteralNext(all, a, l, d);
      ghost var s1: nat := LiteralSymbol(all, steps, n, l, d);
      counter := FastSymbol(l, a.pos, s1);
      Advance();
      if counter / 256 % 2 == 1 {
        AfterSymbol(l, d);
        return;
      }
      EmitNext(all, Now());
      Advance();
      SecondSymbol(n, l, d, a.out, s1);
    }

    method SecondSymbol(ghost n: nat, ghost l: Lengths, ghost d: Lengths, ghost before: Bytes, ghost s1: nat)
      requires Apart() && Ahead(Now().pos) && pad == 0 && final == Now().last && !waiting && Coded(l, d)
        && Now().phase == Symbol(l, d) && Within(n)
      requires inCur + 2 <= |inBuf| && outCur + 2 <= outEnd <= out.Length && out[..outCur] == before
        && Now().out == before + [s1] && counter % 256 == s1
      modifies `inCur, `bitBuf, `numBits, `counter, `numExtra, `state, `steps, `outCur, out
      ensures Ready() && steps > old(steps) && outCur >= old(outCur)
    {
      hide After, CountTo, First, Holds, Input, Next, NextSymbol, Pow, Prefix, Registers, Sane, Value;
      ghost var a := Now();
      LiteralNext(all, a, l, d);
      ghost var s2: nat := LiteralSymbol(all, steps, n, l, d);
      var sym2 := FastSymbol(l, a.pos, s2);
      Advance();
      out[outCur] := counter % 256;
      assert out[..outCur + 1] == before + [s1];
      FinishPair(sym2, l, d, s2);
    }

    /** The first literal is in the output; the second one follows, or it is no literal. */
    method FinishPair(sym2: nat, ghost l: Lengths, ghost d: Lengths, ghost s2: nat)
      requires Apart() && Ahead(Now().pos) && pad == 0 && final == Now().last && !waiting && Coded(l, d)
      requires outCur + 2 <= outEnd <= out.Length && out[..outCur + 1] == Now().out
      requires s2 < 286 && sym2 % 512 == s2 && (sym2 / 256 % 2 == 1 <==> s2 >= 256) && sym2 % 256 == s2 % 256
      requires Now().phase == if s2 < 256 then Emit(l, d, s2) else if s2 == 256 then (if final then Done else Header)
        else LengthBits(l, d, s2)
      modifies `counter, `numExtra, `state, `steps, `outCur, out
      ensures Ready() && steps >= old(steps) && outCur >= old(outCur)
    {
      hide After, Ahead, Apart, Coded, From, Next, NextSymbol, Ready, Registers, Repr, Sane;
      if sym2 / 256 % 2 == 1 {
        outCur := outCur + 1;
        counter := sym2;
        AfterSymbol(l, d);
        return;
      }
      ghost var before := Now().out;
      EmitNext(all, Now());
      Advance();
      out[outCur + 1] := sym2 % 256;
      outCur := outCur + 2;
      assert out[..outCur] == before + [s2];
      state := AtSymbol;
      SymbolRegisters();
      Close();
    }

    /** The end of the block, or the length base of a copy. */
    method AfterSymbol(ghost l: Lengths, ghost d: Lengths)
      requires Core() && !waiting && Coded(l, d)
      requires var s := counter % 512;
        256 <= s < 286 && Now().phase == if s == 256 then (if final then Done else Header) else LengthBits(l, d, s)
      modifies `counter, `numExtra, `state
      ensures Ready()
    {
      hide After, Apart, Bits, Buffered, Coded, Complete, Core, DIST_BASE, DIST_EXTRA, From, HuffTable.Built,
        HuffTable.Valid, LENGTH_BASE, LENGTH_EXTRA, Matches, Next, NextSymbol, Now, ORDER, Repr, Sane, Usable;
      LengthTables();
      counter := counter % 512;
      if counter == 256 {
        state := if final then AtDone else AtHeader;
      } else {
        numExtra := LENGTH_EXTRA[counter - 257];
        counter := LENGTH_BASE[counter - 257];
        state := AtLength;
      }
    }

    method StepLiteral() returns (go: bool)
      requires Ready() && state == AtLiteral
      modifies `outCur, `state, `steps, out
      ensures Ready() && outCur >= old(outCur)
      ensures if go then steps > old(steps) else Stuck() && steps == old(steps)
    {
      hide After, Ahead, Apart, Coded, Next, Ready, Registers, Sane;
      Open();
      if outCur >= outEnd {
        return false;
      }
      LiteralRegisters();
      ghost var a := Now();
      EmitNext(all, a);
      Advance();
      out[outCur] := counter % 256;
      outCur := outCur + 1;
      assert out[..outCur] == a.out + [counter];
      state := AtSymbol;
      SymbolRegisters();
      Close();
      go := true;
    }

    method StepLength() returns (go: bool)
      requires Ready() && state == AtLength
      modifies `inCur, `pad, `bitBuf, `numBits, `counter, `state, `steps
      ensures Ready()
      ensures if go then steps > old(steps) else Starved() && steps == old(steps)
    {
      hide After, Apart, Bits, Coded, Core, LENGTH_BASE, LENGTH_EXTRA, Next, Ready, Registers, Sane;
      LengthTables();
      Open();
      CoreApart();
      LengthRegisters();
      LengthNext(all, Now());
      var extra: nat;
      go, extra := ExtraStep();
      if go {
        counter := counter + extra;
        state := AtDistance;
        DistanceRegisters();
      } else {
        LengthRegisters();
      }
      Close();
    }

    method StepDistance(ghost n: nat) returns (go: bool)
      requires Ready() && state == AtDistance && Within(n)
      modifies `inCur, `pad, `bitBuf, `numBits, `waiting, `dist, `numExtra, `state, `steps
      ensures Ready()
      ensures if go then steps > old(steps) else Starved() && steps == old(steps)
    {
      hide After, Apart, Coded, Core, From, Halted, HuffTable.Built, Matches, Next, NextSymbol, Ready, Registers, Sane;
      Open();
      CoreApart();
      DistanceRegisters();
      ghost var d := Now().phase.dst;
      DistanceNext(all, Now());
      ghost var s: nat := DistanceSymbol(all, steps, n);
      DistanceBuilt(Now().phase.lit, d);
      go, dist := CodeStep(dst, d, s);
      if go {
        SetDistance();
      } else {
        DistanceRegisters();
        Close();
      }
    }

    lemma DistanceBuilt(l: Lengths, d: Lengths)
      requires Apart() && Coded(l, d)
      ensures lit.Valid() && lit.Built(l) && dst.Valid() && dst.Built(d)
    {
    }

    /** The base of a distance and its extra bits. */
    method SetDistance()
      requires Core() && !waiting && Now().phase.DistanceBits? && Coded(Now().phase.lit, Now().phase.dst)
      requires counter == Now().phase.len && dist == Now().phase.sym < 30
      modifies `dist, `numExtra, `state
      ensures Ready()
    {
      hide After, Ahead, Apart, Coded, DIST_BASE, DIST_EXTRA, Output, Ready, Registers;
      DistanceTables();
      numExtra := DIST_EXTRA[dist];
      dist := DIST_BASE[dist];
      state := AtDistanceBits;
      DistanceBitsRegisters();
      Close();
    }

    /** The extra bits of a distance, and then the copy. */
    method StepDistanceBits() returns (go: bool, full: bool)
      requires Ready() && state == AtDistanceBits
      modifies `inCur, `pad, `bitBuf, `numBits, `dist, `counter, `state, `steps, `outCur, out
      ensures Ready() && outCur >= old(outCur) && (go || full ==> steps > old(steps))
      ensures !go ==> if full then Stuck() else Starved() && steps == old(steps)
    {
      hide After, Apart, Bits, Coded, Core, DIST_BASE, DIST_EXTRA, Next, Ready, Registers, Sane;
      DistanceTables();
      Open();
      CoreApart();
      ghost var a := Now();
      DistanceBitsNext(all, a);
      DistanceBitsRegisters();
      var extra: nat;
      go, extra := ExtraStep();
      full := false;
      if go {
        dist := dist + extra;
        go := DistanceRead(a);
        full := !go;
      } else {
        DistanceBitsRegisters();
        Close();
      }
    }

    /** A copy from before the start of the output fails. */
    method DistanceRead(ghost a: Machine) returns (go: bool)
      requires Core() && !waiting && a.phase.DistanceBits? && Coded(a.phase.lit, a.phase.dst) && 3 <= counter
        && 0 < dist
      requires Now().out == a.out
      requires Now().phase == if dist > |a.out| then Failed else Copy(a.phase.lit, a.phase.dst, counter, dist)
      modifies `counter, `state, `steps, `outCur, out
      ensures Ready() && steps >= old(steps) && outCur >= old(outCur)
      ensures !go ==> Stuck()
    {
      hide After, Ahead, Apart, Coded, Ready, Registers;
      if dist > outCur {
        state := AtFailed;
        FailedRegisters();
        Close();
        go := true;
      } else {
        go := BeginCopy(a.phase.lit, a.phase.dst);
      }
    }

    /** A copy from what has been produced: byte by byte when it may not fit, and in threes otherwise. */
    method BeginCopy(ghost l: Lengths, ghost d: Lengths) returns (go: bool)
      requires Core() && !waiting && Coded(l, d) && Now().phase == Copy(l, d, counter, dist) && 3 <= counter
        && 0 < dist <= outCur
      modifies `counter, `state, `steps, `outCur, out
      ensures Ready() && steps >= old(steps) && outCur >= old(outCur)
      ensures !go ==> Stuck()
    {
      hide DIST_BASE, DIST_EXTRA, LENGTH_BASE, LENGTH_EXTRA, ORDER, Buffered, Sane, From, Bits, Next, After, Apart,
        Coded, Waits, HuffTable.Built, Complete, Usable, NextSymbol, Matches;
      if outCur + counter > outEnd {
        go := CopyOn(l, d);
      } else {
        CopyThrees(l, d);
        go := true;
      }
    }

    /** In a copy, with so many bytes left. */
    ghost predicate Copying(l: Lengths, d: Lengths, left: int)
      reads `all, `steps, `inCur, `inBuf, `hasMore, `future, `bitBuf, `numBits, `pad, `outCur, `outEnd, `final,
        `waiting, `dist
      reads out, lit, lit.lookUp, lit.tree, dst, dst.lookUp, dst.tree
    {
      && left >= 0 && Core() && !waiting && Coded(l, d) && Now().phase == Copy(l, d, left, dist) && 0 < dist <= outCur
    }

    /** One byte of a copy. */
    method CopyByte(ghost l: Lengths, ghost d: Lengths, ghost left: nat)
      requires Copying(l, d, left) && left > 0 && outCur < outEnd
      modifies `outCur, `steps, out
      ensures Copying(l, d, left - 1) && outCur == old(outCur) + 1 && steps == old(steps) + 1
    {
      hide DIST_BASE, DIST_EXTRA, LENGTH_BASE, LENGTH_EXTRA, ORDER, Buffered, Sane, From, Bits, Next, After, Apart,
        Coded, Waits, HuffTable.Built, Complete, Usable, NextSymbol, Matches;
      ghost var a := Now();
      CopyNext(all, a, l, d, left, dist);
      assert out[outCur - dist] == a.out[|a.out| - dist];
      Advance();
      out[outCur] := out[outCur - dist];
      outCur := outCur + 1;
      assert out[..outCur] == Now().out;
    }

    /** Byte by byte, stopping where the room ends. */
    method CopyOn(ghost l: Lengths, ghost d: Lengths) returns (go: bool)
      requires Copying(l, d, counter)
      modifies `counter, `state, `steps, `outCur, out
      ensures Ready() && steps >= old(steps) && outCur >= old(outCur) && (go ==> steps > old(steps))
      ensures !go ==> Stuck()
      ensures outCur + (if go then 0 else counter + 1) == old(outCur + counter)
    {
      hide Copying, Ready;
      CopyRoom(l, d);
      while counter > 0
        invariant Copying(l, d, counter) && outCur <= outEnd
        invariant steps >= old(steps) && outCur >= old(outCur) && outCur + counter == old(outCur + counter)
      {
        counter := counter - 1;
        if outCur >= outEnd {
          PauseCopy(l, d);
          return false;
        }
        CopyByte(l, d, counter + 1);
      }
      Copied(l, d);
      go := true;
    }

    lemma CopyRoom(l: Lengths, d: Lengths)
      requires Copying(l, d, counter)
      ensures outCur <= outEnd
    {
    }

    /** The rest of a copy is for the next call. */
    method PauseCopy(ghost l: Lengths, ghost d: Lengths)
      requires Copying(l, d, counter + 1)
      modifies `state
      ensures Ready() && state == AtCopy
    {
      hide After, Ahead, Apart, Coded, Ready, Registers;
      state := AtCopy;
      CopyRegisters();
      Close();
    }

    /** The same where there is room for all of it: three bytes at a time. */
    method CopyThrees(ghost l: Lengths, ghost d: Lengths)
      requires Copying(l, d, counter) && 3 <= counter && dist <= outCur && outCur + counter <= outEnd
      modifies `counter, `state, `steps, `outCur, out
      ensures Ready() && steps >= old(steps) && outCur == old(outCur + counter)
    {
      hide Copying, Ready;
      var src := outCur - dist;
      CopyThree(src, l, d, counter);
      src := src + 3;
      counter := counter - 3;
      while counter > 2
        invariant src == outCur - dist && outCur + counter <= outEnd && Copying(l, d, counter)
        invariant steps >= old(steps) && outCur + counter == old(outCur + counter)
      {
        CopyThree(src, l, d, counter);
        src := src + 3;
        counter := counter - 3;
      }
      CopyTail(l, d, counter, src);
    }

    method CopyThree(src: nat, ghost l: Lengths, ghost d: Lengths, ghost left: nat)
      requires Copying(l, d, left) && 3 <= left && outCur + 3 <= outEnd && src == outCur - dist
      modifies `steps, `outCur, out
      ensures Copying(l, d, left - 3) && outCur == old(outCur) + 3 && steps == old(steps) + 3
    {
      hide After, Ahead, Apart, Sane, Three;
      ghost var before := out[..outCur];
      AdvanceThree(l, d, left);
      out[outCur] := out[src];
      out[outCur + 1] := out[src + 1];
      out[outCur + 2] := out[src + 2];
      ThreeBytes(before, dist, out[..outCur + 3]);
      outCur := outCur + 3;
    }

    /** The machine copies three bytes. */
    ghost method AdvanceThree(l: Lengths, d: Lengths, left: nat)
      requires Now().phase == Copy(l, d, left, dist) && 3 <= left && 0 < dist <= |Now().out|
      modifies `steps
      ensures steps == old(steps) + 3
      ensures Now() == old(Now()).(out := Three(old(Now()).out, dist), phase := Copy(l, d, left - 3, dist))
    {
      hide After, Sane, Next;
      ThreeNext(all, Now(), l, d, left, dist);
      Advance();
      Advance();
      Advance();
    }

    /** The one or two bytes left over. */
    method CopyTail(ghost l: Lengths, ghost d: Lengths, left: nat, src: nat)
      requires left <= 2 && Copying(l, d, left) && src == outCur - dist && outCur + left <= outEnd
      modifies `steps, `outCur, `state, out
      ensures Ready() && steps >= old(steps) && outCur == old(outCur) + left
    {
      hide Copying;
      if left > 0 {
        TailBytes(l, d, left, src);
      }
      Copied(l, d);
    }

    /** The end of a copy. */
    method Copied(ghost l: Lengths, ghost d: Lengths)
      requires Copying(l, d, 0)
      modifies `steps, `state
      ensures Ready() && steps == old(steps) + 1
    {
      hide After, Ahead, Apart, Coded, Ready, Registers;
      EndCopy(l, d);
      state := AtSymbol;
      SymbolRegisters();
      Close();
    }

    method TailBytes(ghost l: Lengths, ghost d: Lengths, left: nat, src: nat)
      requires 0 < left <= 2 && Copying(l, d, left) && src == outCur - dist && outCur + left <= outEnd
      modifies `steps, `outCur, out
      ensures Copying(l, d, 0) && dist == old(dist) && steps >= old(steps) && outCur == old(outCur) + left
    {
      hide After, Ahead, Apart;
      TailByte(l, d, left, outCur, src);
      if left > 1 {
        TailByte(l, d, left - 1, outCur + 1, src + 1);
      }
      outCur := outCur + left;
    }

    method TailByte(ghost l: Lengths, ghost d: Lengths, ghost left: nat, at: nat, src: nat)
      requires left > 0 && 0 < dist <= at && src == at - dist && at < out.Length && out[..at] == Now().out
      requires Apart() && Ahead(Now().pos) && final == Now().last && Now().phase == Copy(l, d, left, dist)
      modifies `steps, out
      ensures Ahead(Now().pos) && final == Now().last && Now().phase == Copy(l, d, left - 1, dist)
      ensures steps == old(steps) + 1 && out[..at + 1] == Now().out
    {
      hide After, Ahead, Apart;
      ghost var before := Now().out;
      AdvanceCopy(l, d, left);
      out[at] := out[src];
      assert out[..at + 1] == before + [before[|before| - dist]];
    }

    /** The machine copies a byte. */
    ghost method AdvanceCopy(l: Lengths, d: Lengths, left: nat)
      requires Now().phase == Copy(l, d, left, dist) && left > 0 && 0 < dist <= |Now().out|
      modifies `steps
      ensures steps == old(steps) + 1
      ensures var was := old(Now());
        Now() == was.(out := was.out + [was.out[|was.out| - dist]], phase := Copy(l, d, left - 1, dist))
    {
      hide After, Sane, Next;
      CopyNext(all, Now(), l, d, left, dist);
      Advance();
    }

    /** The machine is done with a copy. */
    ghost method EndCopy(l: Lengths, d: Lengths)
      requires Now().phase == Copy(l, d, 0, dist) && 0 < dist <= |Now().out|
      modifies `steps
      ensures steps == old(steps) + 1 && Now() == old(Now()).(phase := Symbol(l, d))
    {
      hide After, Sane, Next;
      CopyNext(all, Now(), l, d, 0, dist);
      Advance();
    }

    /** Going on with a copy that ran out of room. */
    method StepCopy() returns (go: bool)
      requires Ready() && state == AtCopy
      modifies `counter, `state, `steps, `outCur, out
      ensures Ready() && outCur >= old(outCur)
      ensures steps >= old(steps) && if go then steps > old(steps) else Stuck()
    {
      hide DIST_BASE, DIST_EXTRA, LENGTH_BASE, LENGTH_EXTRA, ORDER, Buffered, Sane, From, Bits, Next, After, Apart,
        Coded, Waits, HuffTable.Built, Complete, Usable, NextSymbol, Matches;
      if outCur >= outEnd {
        return false;
      }
      ghost var p := Now().phase;
      CopySane(all, Now());
      CopyByte(p.lit, p.dst, counter + 1);
      go := CopyOn(p.lit, p.dst);
    }

    // ----- a call -----

    /** One step from the place the coroutine is at. */
    method Step(ghost n: nat) returns (go: bool, full: bool)
      requires Ready() && Within(n) && state != AtDone && state != AtFailed
      modifies Repr()
      ensures Ready() && SameCall()
      ensures go ==> steps > old(steps)
      ensures !go ==> steps >= old(steps) && if full then Stuck() else Starved()
    {
      hide Ready, Within;
      full := false;
      match state
      case AtHeader => go := StepHeader();
      case AtRawHeader => go := StepRawHeader();
      case AtRawBits => go := StepRawBits();
      case AtRawOut => go := StepRawOut(); full := !go;
      case AtRawCopy => go, full := StepRawCopy();
      case AtSizes => go := StepSizes();
      case AtCodeLens => go := StepCodeLens();
      case AtCodes => go := StepCodes(n);
      case AtRepeat => go := StepRepeat();
      case AtSymbol => go := StepSymbol(n);
      case AtLiteral => go := StepLiteral(); full := !go;
      case AtLength => go := StepLength();
      case AtDistance => go := StepDistance(n);
      case AtDistanceBits => go, full := StepDistanceBits();
      case AtCopy => go := StepCopy(); full := !go;
    }

    /** One call: the next bytes of the input, whether there will be more, and room for so many bytes of
        output.  The number n is how long the machine runs on this stream. */
    method Decompress(bytes: Bytes, more: bool, room: nat, ghost rest: Bytes, ghost n: nat) returns (status: Status)
      requires Ready() && bytes + rest == Rest() && (more <==> rest != [])
        && (forall i :: 0 <= i < |bytes| ==> bytes[i] < 0x100)
      requires outCur + room <= out.Length && Within(n)
      modifies Repr()
      ensures Ready() && all == old(all) && inBuf == bytes && hasMore == more && future == rest
        && outEnd == old(outCur) + room && outCur >= old(outCur)
      ensures match status
        case StatusDone => Now().phase == Done
        case StatusFailed => Now().phase == Failed
        case NeedsMoreInput => more && inCur == |bytes| && Next(all, Now()).pos > 8 * (|all| - |rest|)
        case HasMoreOutput => outCur == outEnd && ByteDue(Now())
    {
      hide Buffered, After, Registers, Halted;
      NewInput(bytes, more, room, rest);
      while true
        invariant Ready() && Within(n) && all == old(all) && inBuf == bytes && hasMore == more && future == rest
        invariant outEnd == old(outCur) + room && outCur >= old(outCur)
        decreases n - steps
      {
        Resting();
        if state == AtDone {
          return StatusDone;
        }
        if state == AtFailed {
          return StatusFailed;
        }
        NotYet(all, steps, n);
        var go, full := Step(n);
        if !go {
          if full {
            DueNow();
            return HasMoreOutput;
          }
          AllTaken(rest);
          return NeedsMoreInput;
        }
      }
    }

    method MoreRoom(room: nat)
      requires Core() && Registers() && outCur + room <= out.Length
      modifies `outEnd
      ensures Core() && Registers() && outEnd == outCur + room
    {
      hide After, Ahead, Apart, Registers;
      outEnd := outCur + room;
    }

    method SetInput(bytes: Bytes, more: bool, ghost rest: Bytes)
      requires Core() && bytes + rest == Rest() && (more <==> rest != [])
        && (forall i :: 0 <= i < |bytes| ==> bytes[i] < 0x100)
      modifies `inBuf, `inCur, `hasMore, `future
      ensures Core() && inBuf == bytes && inCur == 0 && hasMore == more && future == rest
    {
      hide After, Apart, Buffered, Output, Registers;
      ghost var r := Rest();
      inBuf, inCur, hasMore := bytes, 0, more;
      future := rest;
      assert Rest() == r;
    }

    method NewInput(bytes: Bytes, more: bool, room: nat, ghost rest: Bytes)
      requires Ready() && bytes + rest == Rest() && (more <==> rest != [])
        && (forall i :: 0 <= i < |bytes| ==> bytes[i] < 0x100)
      requires outCur + room <= out.Length
      modifies `inBuf, `inCur, `hasMore, `future, `outEnd
      ensures Ready() && inBuf == bytes && hasMore == more && future == rest && outEnd == outCur + room
    {
      hide Core, Ready, Registers;
      Open();
      CoreBounds();
      MoreRoom(room);
      SetInput(bytes, more, rest);
      Close();
    }

    /** Between two steps, and so whenever a call ends, the bit buffer is a 32-bit word that holds the bits at hand and
        nothing else. */
    lemma BufferFits()
      requires Ready()
      ensures numBits <= 32 && bitBuf < Pow(numBits) <= WORD
    {
      hide Registers, After, Apart;
      PowGrows(numBits, 32);
      Powers();
    }

    lemma CoreBounds()
      requires Core()
      ensures inCur <= |inBuf| && outCur <= outEnd <= out.Length
    {
    }

    lemma AllTaken(rest: Bytes)
      requires Ready() && hasMore && inCur == |inBuf| && rest == future
      ensures Now().pos + numBits == 8 * (|all| - |rest|)
    {
      hide Registers, After, Apart;
      assert Rest() == rest;
    }

    lemma DueNow()
      requires Ready() && Stuck()
      ensures ByteDue(Now())
    {
      hide Buffered, After, Apart, Coded, Matches, NextSymbol, HuffTable.Built;
    }

    lemma Resting()
      requires Ready()
      ensures state == AtDone ==> Now().phase == Done
      ensures state == AtFailed ==> Now().phase == Failed
      ensures state != AtDone && state != AtFailed ==> !Halted(Now())
    {
      hide Buffered, After, Apart, Coded, Matches, NextSymbol, HuffTable.Built;
    }
  }

  lemma FixedSizes()
    ensures Canonical.Sizes(FixedLengths()) && Canonical.Sizes(FixedDistances())
  {
    FixedUsable();
  }

  lemma HeaderNext(all: Bytes, a: Machine)
    requires Sane(a) && a.phase == Header
    ensures Next(all, a) == NextHeader(all, a)
    ensures Bits(all, a.pos, 3) < 8
  {
    assert Pow(3) == 8;
  }

  lemma AlignNext(all: Bytes, a: Machine)
    requires Sane(a) && a.phase == Align
    ensures Next(all, a) == a.(pos := (a.pos + 7) / 8 * 8, phase := RawHead([]))
  {
  }

  /** Skipping the rest of the buffer's last byte aligns the position. */
  lemma AlignBits(all: Bytes, pos: nat, b: nat, n: nat, rest: Bytes, pad: nat)
    requires Buffered(all, pos, b, n, rest, pad)
    ensures (pos + 7) / 8 * 8 == pos + n % 8
  {
    hide Ahead, From, Pow;
    var k := |all| + pad - |rest|;
    assert n + pos == 8 * k;
  }

  lemma RawHeadNext(all: Bytes, a: Machine, h: Bytes)
    requires Sane(a) && a.phase == RawHead(h)
    ensures Next(all, a) == NextRawHead(all, a, h) && forall i :: 0 <= i < |h| ==> h[i] < 0x100
  {
  }

  lemma RawReadNext(all: Bytes, a: Machine, left: nat)
    requires Sane(a) && a.phase == RawRead(left)
    ensures Next(all, a) == NextRawRead(all, a, left) && a.pos % 8 == 0
  {
  }

  lemma RawEmitNext(all: Bytes, a: Machine, left: nat, byte: nat)
    requires Sane(a) && a.phase == RawEmit(left, byte)
    ensures left > 0 && Next(all, a) == a.(out := a.out + [byte], phase := RawRead(left - 1))
  {
  }

  /** At a byte boundary the buffer holds whole bytes of the stream. */
  lemma WholeBytes(all: Bytes, pos: nat, b: nat, n: nat, rest: Bytes, pad: nat)
    requires Buffered(all, pos, b, n, rest, pad) && pos % 8 == 0 && n > 0 && (pad > 0 ==> n < 8)
    ensures n >= 8 && pos < 8 * |all|
  {
    hide Ahead, From, Pow;
    var k := |all| + pad - |rest| - pos / 8;
    assert n == 8 * k;
  }

  lemma ByteThrough(all: Bytes, pos: nat, b: nat, rest: Bytes, pad: nat)
    requires Buffered(all, pos, b, 0, rest, pad) && rest != [] && rest[0] < 0x100
    ensures Buffered(all, pos + 8, b, 0, rest[1..], pad) && Bits(all, pos, 8) == rest[0]
  {
    assert b == 0 && Pow(0) == 1;
    hide Ahead, From;
    TakeByte(all, pos, b, 0, rest, pad);
    DropBits(all, pos, rest[0], 8, rest[1..], pad, 8);
    ShiftSmall(rest[0]);
  }

  lemma ZeroThrough(all: Bytes, pos: nat, b: nat, pad: nat)
    requires Buffered(all, pos, b, 0, [], pad)
    ensures Buffered(all, pos + 8, b, 0, [], pad + 1) && Bits(all, pos, 8) == 0
  {
    assert b == 0 && Pow(0) == 1;
    hide Ahead, From;
    TakeZero(all, pos, b, 0, pad);
    DropBits(all, pos, 0, 8, [], pad + 1, 8);
    ShiftSmall(0);
  }

  lemma ShiftSmall(c: nat)
    requires c < 0x100
    ensures Shift(c, 8) == 0 && c % Pow(8) == c
  {
    assert Pow(8) == 0x100;
  }

  function Min(a: nat, b: nat): nat {
    if a < b then a else b
  }

  lemma OutOfInput(all: Bytes, pos: nat, b: nat, rest: Bytes, pad: nat)
    requires Buffered(all, pos, b, 0, rest, pad) && rest == []
    ensures pos >= 8 * |all|
  {
    hide Ahead, From, Pow;
  }

  lemma WholeRest(all: Bytes, pos: nat, b: nat, rest: Bytes, pad: nat)
    requires Buffered(all, pos, b, 0, rest, pad) && rest != []
    ensures pos < 8 * |all|
  {
    hide Ahead, From, Pow;
  }

  lemma TableSizesNext(all: Bytes, a: Machine, sizes: Bytes)
    requires Sane(a) && a.phase == TableSizes(sizes)
    ensures Next(all, a) == NextTableSizes(all, a, sizes) && SizesOk(sizes)
  {
  }

  lemma CodeLensNext(all: Bytes, a: Machine, sizes: Bytes, k: nat, lens: Lengths)
    requires Sane(a) && a.phase == CodeLens(sizes, k, lens)
    ensures Next(all, a) == NextCodeLens(all, a, sizes, k, lens) && SizesOk(sizes) && |sizes| == 3 && k <= sizes[2]
      && |lens| == 19
    ensures Canonical.Sizes(lens) && |ORDER| == 19 && (k < 19 ==> ORDER[k] < 19)
  {
  }

  lemma UsableIs(ls: Lengths)
    ensures Usable(ls) <==> Complete(ls) || UsedTo(ls, |ls|) <= 1
  {
  }

  lemma CodesNext(all: Bytes, a: Machine, sizes: Bytes, lens: Lengths, codes: Lengths)
    requires Sane(a) && a.phase == Codes(sizes, lens, codes)
    ensures |sizes| == 3 && SizesOk(sizes) && Next(all, a) == NextCodes(all, a, sizes, lens, codes) && |lens| == 19
      && Canonical.Sizes(codes)
  {
  }

  lemma RepeatNext(all: Bytes, a: Machine, sizes: Bytes, lens: Lengths, codes: Lengths, sym: nat)
    requires Sane(a) && a.phase == Repeat(sizes, lens, codes, sym)
    ensures |sizes| == 3 && Next(all, a) == NextRepeat(all, a, sizes, lens, codes, sym) && (sym == 16 ==> |codes| > 0)
  {
  }

  lemma SizesParts(codes: Lengths, s0: nat)
    requires Canonical.Sizes(codes) && s0 <= |codes|
    ensures Canonical.Sizes(codes[..s0]) && Canonical.Sizes(codes[s0..])
  {
  }

  /** A machine that never gets beyond valid codes finds a code where it needs one. */
  lemma NotBeyond(all: Bytes, k: nat, n: nat)
    requires Halted(After(all, n)) && !After(all, n).phase.Beyond?
    ensures !After(all, k).phase.Beyond?
  {
    hide After;
    if Halted(After(all, k)) { OneOutcome(all, n, k); }
  }

  lemma CodesSymbol(all: Bytes, k: nat, n: nat, sizes: Bytes, lens: Lengths, codes: Lengths) returns (s: nat)
    requires Halted(After(all, n)) && !After(all, n).phase.Beyond?
    requires After(all, k).phase == Codes(sizes, lens, codes) && |sizes| == 3 && |codes| < sizes[0] + sizes[1]
    ensures s == NextSymbol(lens, From(all, After(all, k).pos)) < |lens| && s < 19
      && Matches(lens, From(all, After(all, k).pos), s)
  {
    hide After, Next, NextSymbol, Matches, From, Sane;
    var a := After(all, k);
    CodesNext(all, a, sizes, lens, codes);
    AfterNext(all, k);
    NotBeyond(all, k + 1, n);
    SymbolBound(lens, From(all, a.pos));
    s := NextSymbol(lens, From(all, a.pos));
  }

  lemma LiteralNext(all: Bytes, a: Machine, l: Lengths, d: Lengths)
    requires Sane(a) && a.phase == Symbol(l, d)
    ensures Next(all, a) == NextLiteral(all, a, l, d)
  {
  }

  lemma EmitNext(all: Bytes, a: Machine)
    requires Sane(a) && a.phase.Emit?
    ensures a.phase.byte < 256 && Next(all, a)
      == a.(out := a.out + [a.phase.byte], phase := Symbol(a.phase.lit, a.phase.dst))
  {
  }

  lemma LiteralSymbol(all: Bytes, k: nat, n: nat, l: Lengths, d: Lengths) returns (s: nat)
    requires Halted(After(all, n)) && !After(all, n).phase.Beyond?
    requires After(all, k).phase == Symbol(l, d)
    ensures s == NextSymbol(l, From(all, After(all, k).pos)) < |l| && s < 286
      && Matches(l, From(all, After(all, k).pos), s)
  {
    hide After, Next, NextSymbol, Matches, From, Sane;
    var a := After(all, k);
    LiteralNext(all, a, l, d);
    AfterNext(all, k);
    NotBeyond(all, k + 1, n);
    SymbolBound(l, From(all, a.pos));
    s := NextSymbol(l, From(all, a.pos));
  }

  lemma NineBits(l: nat, s: nat)
    requires s < 512
    ensures var e := l * 512 + s; e % 512 == s && (e / 256 % 2 == 1 <==> s >= 256) && e % 256 == s % 256
  {
    EntryParts(l, s);
    assert (l * 512 + s) / 256 == 2 * l + s / 256;
  }

  lemma TwoBytes(a: Bytes, i: nat, b: Bytes)
    requires i + 2 <= |a|
    ensures var r := a[i..] + b; r[0] == a[i] && r[1..][0] == a[i + 1] && r[1..][1..] == a[i + 2..] + b
  {
  }

  lemma LengthTables()
    ensures |LENGTH_BASE| == |LENGTH_EXTRA| == 31
    ensures forall k :: 0 <= k < 31 ==> LENGTH_EXTRA[k] <= 5
  {
  }

  lemma DistanceTables()
    ensures |DIST_BASE| == |DIST_EXTRA| == 32
    ensures forall k :: 0 <= k < 32 ==> DIST_EXTRA[k] <= 13
  {
  }

  /** The next thing the machine does is to put out a byte, unless the input of a stored block has come to its end. */
  ghost predicate ByteDue(a: Machine) {
    match a.phase
    case Emit(_, _, _) => true
    case RawEmit(_, _) => true
    case RawRead(left) => left > 0
    case Copy(_, _, len, _) => len > 0
    case _ => false
  }

  /** So there is more output to come, if the stream gets to its end. */
  lemma MoreOutput(all: Bytes, k: nat, n: nat)
    requires ByteDue(After(all, k)) && After(all, n).phase == Done
    ensures |After(all, n).out| > |After(all, k).out|
  {
    hide After, Next, Sane;
    var a := After(all, k);
    AfterNext(all, k);
    AfterNext(all, k + 1);
    ByteComes(all, a);
    if After(all, k + 1).phase.Failed? { OneOutcome(all, k + 1, n); }
    MostOutput(all, k + 1, n);
    MostOutput(all, k + 2, n);
  }

  lemma ByteComes(all: Bytes, a: Machine)
    requires Sane(a) && ByteDue(a)
    ensures var b := Next(all, a);
      b.phase.Failed? || |b.out| == |a.out| + 1 || (Sane(b) && |Next(all, b).out| == |a.out| + 1)
  {
    hide Bits, TablesOk, From, Usable, Sizes;
    SaneNext(all, a);
  }

  lemma NotYet(all: Bytes, k: nat, n: nat)
    requires Halted(After(all, n)) && !Halted(After(all, k))
    ensures k < n
  {
    hide After;
    if k >= n { Halts(all, n, k); }
  }

  lemma BufferedStart(all: Bytes)
    ensures Buffered(all, 0, 0, 0, all, 0)
  {
    assert Pow(0) == 1;
  }

  /** Whatever way the input and the room for the output are cut up among the calls, the outcome is the
      same: the same bytes and the same final status. */
  lemma SplitIndependent(d: Decompressor, e: Decompressor)
    requires d.Ready() && e.Ready() && d.all == e.all
    requires d.Now().phase == Done || d.Now().phase == Failed
    requires e.Now().phase == Done || e.Now().phase == Failed
    ensures d.out[..d.outCur] == e.out[..e.outCur] && d.Now().phase == e.Now().phase
  {
    hide After, Buffered;
    OneOutcome(d.all, d.steps, e.steps);
  }

  /** One of many calls: at most c bytes of what is left of the input, and at most so much room. */
  method Piece(d: Decompressor, left: Bytes, cut: nat, room: nat, ghost n: nat) returns (status: Status, rest: Bytes)
    requires d.Ready() && d.Within(n) && d.Rest() == left && d.outCur <= d.out.Length
      && forall i :: 0 <= i < |left| ==> left[i] < 0x100
    modifies d.Repr()
    ensures d.Ready() && d.all == old(d.all) && d.Within(n) && d.Rest() == rest
      && forall i :: 0 <= i < |rest| ==> rest[i] < 0x100
    ensures status == StatusDone ==> d.Now().phase == Done
    ensures status == StatusFailed ==> d.Now().phase == Failed
    ensures |rest| <= |left| && d.outCur >= old(d.outCur) && d.outCur <= d.out.Length
    ensures status == NeedsMoreInput && cut > 0 ==> |rest| < |left|
    ensures status == HasMoreOutput ==> d.outCur == Min(old(d.outCur) + room, d.out.Length) && ByteDue(d.Now())
  {
    hide Buffered, After, Halted, Decompressor.Registers, Decompressor.Apart;
    var c := Min(cut, |left|);
    assert left[..c] + left[c..] == left;
    status := d.Decompress(left[..c], c < |left|, Min(room, d.out.Length - d.outCur), left[c..], n);
    rest := left[..c][d.inCur..] + left[c..];
  }

  /** Every call gets some input and some room. */
  ghost predicate Generous(cut: nat -> nat, room: nat -> nat, calls: nat) {
    forall k: nat :: k < calls ==> cut(k) > 0 && room(k) > 0
  }

  /** Room for what the machine puts out; a stream that fails may do so behind the room. */
  ghost predicate Roomy(a: Machine, capacity: nat) {
    if a.phase == Done then capacity >= |a.out| else capacity > |a.out|
  }

  lemma NoMoreOutput(d: Decompressor, n: nat)
    requires d.Ready() && d.Within(n)
    ensures d.outCur <= |After(d.all, n).out|
    ensures ByteDue(d.Now()) && After(d.all, n).phase == Done ==> d.outCur < |After(d.all, n).out|
  {
    hide Buffered, After, Decompressor.Registers, Decompressor.Apart;
    MostOutput(d.all, d.steps, n);
    if ByteDue(d.Now()) && After(d.all, n).phase == Done { MoreOutput(d.all, d.steps, n); }
  }

  /** Inflate with any pieces of input and room: at most cut(k) bytes of input and room(k) bytes of output
      in call k.  When it finishes, it has produced what the machine produces. */
  method InflateInPieces(data: Bytes, capacity: nat, cut: nat -> nat, room: nat -> nat, calls: nat, ghost n: nat)
    returns (d: Decompressor, status: Status)
    requires (forall i :: 0 <= i < |data| ==> data[i] < 0x100) && Halted(After(data, n))
      && !After(data, n).phase.Beyond?
    ensures status == StatusDone ==>
      After(data, n).phase == Done && d.outCur <= d.out.Length && d.out[..d.outCur] == After(data, n).out
    ensures status == StatusFailed ==> After(data, n).phase == Failed
    ensures Generous(cut, room, calls) && Roomy(After(data, n), capacity) && calls > |data| + |After(data, n).out| ==>
      status == StatusDone || status == StatusFailed
  {
    hide Buffered, After, Halted, Decompressor.Registers, Decompressor.Apart;
    ghost var enough := Generous(cut, room, calls) && Roomy(After(data, n), capacity);
    var out := new nat[capacity];
    d := new Decompressor(out, data != [], data);
    var left := data;
    status := NeedsMoreInput;
    for k := 0 to calls
      invariant d.Ready() && fresh(d.Repr()) && d.all == data && d.Rest() == left && d.Within(n)
        && d.outCur <= d.out.Length
      invariant (forall i :: 0 <= i < |left| ==> left[i] < 0x100) && status != StatusDone && status != StatusFailed
      invariant |left| <= |data| && d.out.Length == capacity && (enough ==> k <= |data| - |left| + d.outCur)
      invariant d.outCur <= |After(data, n).out|
    {
      status, left := Piece(d, left, cut(k), room(k), n);
      NoMoreOutput(d, n);
      if status == StatusDone || status == StatusFailed {
        Outcome(d, n);
        return;
      }
    }
  }

  lemma Outcome(d: Decompressor, n: nat)
    requires d.Ready() && d.Within(n) && (d.Now().phase == Done || d.Now().phase == Failed)
    ensures After(d.all, n).phase == d.Now().phase && d.outCur <= d.out.Length
      && d.out[..d.outCur] == After(d.all, n).out
  {
    hide Buffered, After, Decompressor.Registers, Decompressor.Apart;
    OneOutcome(d.all, d.steps, n);
  }

  lemma NoBits(all: Bytes, pos: nat)
    ensures Bits(all, pos, 0) == 0
  {
    assert Pow(0) == 1;
  }

  lemma LengthNext(all: Bytes, a: Machine)
    requires Sane(a) && a.phase.LengthBits?
    ensures 257 <= a.phase.sym < 286 && Next(all, a) == NextLength(all, a, a.phase.lit, a.phase.dst, a.phase.sym)
  {
  }

  lemma DistanceNext(all: Bytes, a: Machine)
    requires Sane(a) && a.phase.Distance?
    ensures Next(all, a) == NextDistance(all, a, a.phase.lit, a.phase.dst, a.phase.len)
    ensures |DIST_BASE| == |DIST_EXTRA| == 32
    ensures forall k :: 0 <= k < 32 ==> DIST_EXTRA[k] <= 13
  {
  }

  lemma DistanceSymbol(all: Bytes, k: nat, n: nat) returns (s: nat)
    requires Halted(After(all, n)) && !After(all, n).phase.Beyond?
    requires After(all, k).phase.Distance?
    ensures var d, v := After(all, k).phase.dst, From(all, After(all, k).pos);
      s == NextSymbol(d, v) < |d| && s < 30 && Matches(d, v, s)
  {
    hide After, Next, NextSymbol, Matches, From, Sane;
    var a := After(all, k);
    DistanceNext(all, a);
    AfterNext(all, k);
    NotBeyond(all, k + 1, n);
    SymbolBound(a.phase.dst, From(all, a.pos));
    s := NextSymbol(a.phase.dst, From(all, a.pos));
  }

  lemma DistanceBitsNext(all: Bytes, a: Machine)
    requires Sane(a) && a.phase.DistanceBits?
    ensures |DIST_BASE| == |DIST_EXTRA| == 32
    ensures a.phase.sym < 30 && a.phase.len >= 3
      && Next(all, a) == NextDistanceBits(all, a, a.phase.lit, a.phase.dst, a.phase.len, a.phase.sym)
    ensures DIST_BASE[a.phase.sym] > 0
  {
  }

  lemma CopyNext(all: Bytes, a: Machine, l: Lengths, d: Lengths, len: nat, dist: nat)
    requires Sane(a) && a.phase == Copy(l, d, len, dist)
    ensures 0 < dist <= |a.out| && Next(all, a) == NextCopy(a, l, d, len, dist)
  {
  }

  /** Three more bytes, each the one so far back. */
  function Three(before: Bytes, dist: nat): Bytes
    requires 0 < dist <= |before|
  {
    var b1 := before + [before[|before| - dist]];
    var b2 := b1 + [b1[|b1| - dist]];
    b2 + [b2[|b2| - dist]]
  }

  /** Three overlapping bytes, written one after the other. */
  lemma ThreeBytes(before: Bytes, dist: nat, after: Bytes)
    requires 0 < dist <= |before| && |after| == |before| + 3 && after[..|before|] == before
    requires forall i :: |before| <= i < |after| ==> after[i] == after[i - dist]
    ensures after == Three(before, dist)
  {
    var n := |before|;
    var b1 := before + [before[n - dist]];
    var b2 := b1 + [b1[n + 1 - dist]];
    assert after[n] == b2[n] && after[n + 1] == b2[n + 1];
    assert after[..n + 2] == b2;
  }

  lemma CopySane(all: Bytes, a: Machine)
    requires Sane(a) && a.phase.Copy?
    ensures 0 < a.phase.d <= |a.out|
  {
  }

  /** Three steps of a copy. */
  lemma ThreeNext(all: Bytes, a: Machine, l: Lengths, d: Lengths, len: nat, dist: nat)
    requires Sane(a) && a.phase == Copy(l, d, len, dist) && len >= 3
    ensures 0 < dist <= |a.out|
    ensures var a1 := a.(out := a.out + [a.out[|a.out| - dist]], phase := Copy(l, d, len - 1, dist));
      && Next(all, a) == a1 && Sane(a1) && dist <= |a1.out|
      && var a2 := a1.(out := a1.out + [a1.out[|a1.out| - dist]], phase := Copy(l, d, len - 2, dist));
      Next(all, a1) == a2 && Sane(a2) && dist <= |a2.out|
      && Next(all, a2) == a2.(out := a2.out + [a2.out[|a2.out| - dist]], phase := Copy(l, d, len - 3, dist))
  {
    hide TablesOk;
  }

  lemma SymbolFacts(ls: Lengths, v: nat, s: nat)
    requires Matches(ls, v, s)
    ensures s < |ls| && ls[s] > 0
  {
  }

  lemma CodeNotLonger(t: HuffTable, ls: Lengths, s: nat)
    requires t.Valid() && t.Built(ls) && s < |ls|
    ensures ls[s] <= 15
  {
    HoldsSizes(ls, |ls|, t.names, t.lookUp[..], t.tree[..], s);
  }

  lemma MoreMeansRest(all: Bytes, pos: nat, b: nat, n: nat, rest: Bytes, pad: nat)
    requires Buffered(all, pos, b, n, rest, pad)
    ensures pad > 0 ==> rest == []
  {
  }
}
