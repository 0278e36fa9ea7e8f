/** The decompressor against the encoder: it gives back what was encoded, however the stream is cut up, and whatever it
    accepts was an encoding. */
module Conformance {
  import opened Canonical
  import opened BitStream
  import opened BitLists
  import opened Deflate
  import opened Encoding
  import opened RoundTrip
  import opened Acceptance
  import opened BitBuffer
  import opened Inflate

  /** The decompressor has finished: its input is an encoding, and its output is the text of it. */
  lemma Sound(d: Decompressor) returns (bs: seq<Block>)
    requires d.Ready() && d.Now().phase == Done && BytesOk(d.all)
    ensures bs != [] && BlocksOk([], bs) && Begins(d.all, 0, BlocksBits(bs, 0))
    ensures d.outCur <= d.out.Length && d.out[..d.outCur] == BlocksText([], bs)
  {
    hide Buffered, After, Decompressor.Registers, Decompressor.Apart, BlocksBits, BlocksText, BlocksOk, Begins;
    bs := OnlyEncodings(d.all, d.steps);
  }

  /** It has failed: its input does not start with an encoding. */
  lemma Rejected(d: Decompressor, text: Bytes)
    requires d.Ready() && d.Now().phase == Failed && BytesOk(d.all)
    ensures !Encodes(d.all, text)
  {
    hide Buffered, After, Decompressor.Registers, Decompressor.Apart, BlocksBits, BlocksText, BlocksOk, Begins;
    ExactlyOne(d.all, text);
    if DecodesTo(d.all, text) {
      var n :| After(d.all, n).phase == Done && After(d.all, n).out == text;
      OneOutcome(d.all, d.steps, n);
    }
  }

  /** Encoded, sent in any pieces and decompressed with any room: the text, whenever it finishes, and it finishes when
      every call gets some of both. */
  method Decode(bs: seq<Block>, capacity: nat, cut: nat -> nat, room: nat -> nat, calls: nat)
    returns (text: Bytes, status: Status)
    requires bs != [] && BlocksOk([], bs)
    ensures status != StatusFailed && (status == StatusDone ==> text == BlocksText([], bs))
    ensures var n := |BlocksText([], bs)|;
      Generous(cut, room, calls) && capacity >= n && calls > |Encoded(bs)| + n ==> status == StatusDone
  {
    hide Buffered, After, Decompressor.Registers, Decompressor.Apart, BlocksBits, BlocksText, BlocksOk;
    var data := Encoded(bs);
    PackBytes(BlocksBits(bs, 0));
    ghost var n := RoundTrip.RoundTrip(bs);
    var d;
    d, status := InflateInPieces(data, capacity, cut, room, calls, n);
    text := if d.outCur <= d.out.Length then d.out[..d.outCur] else [];
  }
}
