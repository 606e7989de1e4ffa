/** The block acceptance loop of libdraw/creadimage.c, and its agreement with the writer. */
module ReadImage {
  import opened HashChains
  import opened CompressedImage
  import opened Pixels
  import opened WriteImage
  import opened Wrappers
  import opened Words

  /** A draw message: load `bytes` into the lines `[miny, maxy)`. */
  datatype Load = Load(miny: int, maxy: int, bytes: seq<Byte>)

  /** The reader's checks pass for the blocks it reads until line `maxy` is reached. */
  predicate Acceptable(blocks: seq<Block>, miny: int, maxy: int, ncblock: nat) {
    miny == maxy || (
      && blocks != []
      && miny < blocks[0].maxy <= maxy
      && 0 < |blocks[0].bytes| <= ncblock
      && Acceptable(blocks[1..], blocks[0].maxy, maxy, ncblock))
  }

  /** The messages for the blocks read until line `maxy` is reached. */
  function Loads(blocks: seq<Block>, miny: int, maxy: int, flip: bool): seq<Load> {
    if blocks == [] || miny == maxy then []
    else
      var b := blocks[0];
      [Load(miny, b.maxy, if flip then Twiddled(b.bytes) else b.bytes)] + Loads(blocks[1..], b.maxy, maxy, flip)
  }

  /** Read an image whose lines are `[miny, maxy)` from a stream of blocks.  `flip` is set for old images, whose
      pixels are complemented.  The buffer has `ncblock` bytes; a literal that runs past its block is complemented in
      there, too, so it must not run past the buffer. */
  method Read(blocks: seq<Block>, miny: int, maxy: int, ncblock: nat, flip: bool) returns (ok: bool, sent: seq<Load>)
    requires flip ==> forall i :: 0 <= i < |blocks| && |blocks[i].bytes| <= ncblock ==> |blocks[i].bytes| + Overrun(blocks[i].bytes) <= ncblock
    ensures ok <==> Acceptable(blocks, miny, maxy, ncblock)
    ensures ok ==> sent == Loads(blocks, miny, maxy, flip)
  {
    hide Acceptable;
    hide Loads;
    hide Twiddled;
    hide Overrun;
    sent := [];
    var y, i := miny, 0;
    assert blocks[0..] == blocks;
    while y != maxy
      invariant 0 <= i <= |blocks|
      invariant Acceptable(blocks, miny, maxy, ncblock) == Acceptable(blocks[i..], y, maxy, ncblock)
      invariant Loads(blocks, miny, maxy, flip) == sent + Loads(blocks[i..], y, maxy, flip)
      decreases |blocks| - i
    {
      Unroll(blocks, i, y, maxy, ncblock, flip);
      if i == |blocks| {
        return false, sent;
      }
      var b := blocks[i];
      if b.maxy <= y || maxy < b.maxy {
        return false, sent;
      }
      if |b.bytes| <= 0 || ncblock < |b.bytes| {
        return false, sent;
      }
      var bytes := b.bytes;
      if flip {
        bytes := TwiddledCopy(bytes, ncblock);
      }
      sent := sent + [Load(y, b.maxy, bytes)];
      i, y := i + 1, b.maxy;
    }
    Finished(blocks[i..], maxy, ncblock, flip);
    return true, sent;
  }

  lemma Unroll(blocks: seq<Block>, i: nat, y: int, maxy: int, ncblock: nat, flip: bool)
    requires i <= |blocks| && y != maxy
    ensures i == |blocks| ==> !Acceptable(blocks[i..], y, maxy, ncblock)
    ensures i < |blocks| ==> var b := blocks[i];
      && Acceptable(blocks[i..], y, maxy, ncblock) ==
           (y < b.maxy <= maxy && 0 < |b.bytes| <= ncblock && Acceptable(blocks[i + 1..], b.maxy, maxy, ncblock))
      && Loads(blocks[i..], y, maxy, flip) ==
           [Load(y, b.maxy, if flip then Twiddled(b.bytes) else b.bytes)] + Loads(blocks[i + 1..], b.maxy, maxy, flip)
  {
    hide Twiddled;
    if i < |blocks| {
      assert blocks[i..][1..] == blocks[i + 1..];
    }
  }

  lemma Finished(blocks: seq<Block>, maxy: int, ncblock: nat, flip: bool)
    ensures Acceptable(blocks, maxy, maxy, ncblock) && Loads(blocks, maxy, maxy, flip) == []
  {
  }

  /** Twiddle the read buffer, of `size` bytes, and copy the block into the message. */
  method TwiddledCopy(bytes: seq<Byte>, size: nat) returns (r: seq<Byte>)
    requires |bytes| + Overrun(bytes) <= size
    ensures r == Twiddled(bytes)
  {
    var n := |bytes|;
    var buf := new Byte[size](i requires 0 <= i < size => if i < n then bytes[i] else 0);
    assert buf[..n] == bytes;
    Twiddle(buf, n);
    r := buf[..n];
    assert r == buf[..][..n];
  }

  // ----- the reader accepts what the writer wrote

  function StartY(blocks: seq<Block>, miny: int, i: nat): int
    requires i < |blocks|
  {
    if i == 0 then miny else blocks[i - 1].maxy
  }

  /** Each header starts a non-empty range of lines above the previous one, and each size is in range. */
  predicate Rising(blocks: seq<Block>, miny: int, ncblock: nat) {
    forall i :: 0 <= i < |blocks| ==>
      StartY(blocks, miny, i) < blocks[i].maxy && 0 < |blocks[i].bytes| <= ncblock
  }

  lemma {:induction false} FaithfulIsRising(blocks: seq<Block>, data: seq<Byte>, bpl: nat, miny: int, ncblock: nat)
    requires Faithful(blocks, data, bpl, miny, ncblock)
    ensures Rising(blocks, miny, ncblock)
    decreases |blocks|
  {
    hide *;
    if blocks != [] {
      FaithfulParts(blocks, data, bpl, miny, ncblock);
      var init := blocks[..|blocks| - 1];
      FaithfulIsRising(init, data[..Span(EndY(init, miny) - miny, bpl)], bpl, miny, ncblock);
      RisingLast(blocks, miny, ncblock);
    } else {
      RisingNone(miny, miny, ncblock, false);
    }
  }

  lemma FaithfulParts(blocks: seq<Block>, data: seq<Byte>, bpl: nat, miny: int, ncblock: nat)
    requires Faithful(blocks, data, bpl, miny, ncblock) && blocks != []
    ensures var init, b := blocks[..|blocks| - 1], blocks[|blocks| - 1]; var y := EndY(init, miny);
      && miny <= y < b.maxy && 0 < |b.bytes| <= ncblock && Span(y - miny, bpl) <= |data|
      && Faithful(init, data[..Span(y - miny, bpl)], bpl, miny, ncblock)
  {
    hide Decode;
    hide Span;
  }

  lemma RisingLast(blocks: seq<Block>, miny: int, ncblock: nat)
    requires blocks != []
    requires var init, b := blocks[..|blocks| - 1], blocks[|blocks| - 1];
      Rising(init, miny, ncblock) && EndY(init, miny) < b.maxy && 0 < |b.bytes| <= ncblock
    ensures Rising(blocks, miny, ncblock)
  {
    var init := blocks[..|blocks| - 1];
    forall i | 0 <= i < |blocks| - 1 ensures blocks[i] == init[i] && StartY(blocks, miny, i) == StartY(init, miny, i) {}
  }

  /** Rising blocks that end at `maxy` are accepted, and message `i` carries block `i`. */
  lemma {:induction false} RisingIsAcceptable(blocks: seq<Block>, miny: int, maxy: int, ncblock: nat, flip: bool)
    requires Rising(blocks, miny, ncblock) && EndY(blocks, miny) == maxy
    ensures miny <= maxy && (blocks != [] ==> miny < maxy) && Acceptable(blocks, miny, maxy, ncblock)
    ensures var loads := Loads(blocks, miny, maxy, flip);
      && |loads| == |blocks|
      && forall i :: 0 <= i < |blocks| ==>
           && loads[i].miny == StartY(blocks, miny, i) && loads[i].maxy == blocks[i].maxy
           && loads[i].bytes == if flip then Twiddled(blocks[i].bytes) else blocks[i].bytes
    decreases |blocks|
  {
    hide *;
    if blocks == [] {
      RisingNone(miny, maxy, ncblock, flip);
    } else {
      var rest, b := blocks[1..], blocks[0];
      RisingRest(blocks, miny, ncblock);
      RisingIsAcceptable(rest, b.maxy, maxy, ncblock, flip);
      assert blocks[0..] == blocks;
      Unroll(blocks, 0, miny, maxy, ncblock, flip);
      forall i | 0 < i < |blocks|
        ensures Loads(blocks, miny, maxy, flip)[i] == Loads(rest, b.maxy, maxy, flip)[i - 1] && rest[i - 1] == blocks[i] {}
    }
  }

  lemma RisingNone(miny: int, maxy: int, ncblock: nat, flip: bool)
    requires EndY([], miny) == maxy || miny == maxy
    ensures EndY([], miny) == miny == maxy && Rising([], miny, ncblock) && Acceptable([], miny, maxy, ncblock) && Loads([], miny, maxy, flip) == []
  {
  }

  lemma RisingRest(blocks: seq<Block>, miny: int, ncblock: nat)
    requires Rising(blocks, miny, ncblock) && blocks != []
    ensures var rest, b := blocks[1..], blocks[0];
      && miny < b.maxy && 0 < |b.bytes| <= ncblock && StartY(blocks, miny, 0) == miny
      && Rising(rest, b.maxy, ncblock) && EndY(rest, b.maxy) == EndY(blocks, miny)
      && forall i :: 0 < i < |blocks| ==> StartY(rest, b.maxy, i - 1) == StartY(blocks, miny, i)
  {
    var rest, b := blocks[1..], blocks[0];
    assert StartY(blocks, miny, 0) < b.maxy && 0 < |b.bytes| <= ncblock;
    forall i | 0 <= i < |rest|
      ensures StartY(rest, b.maxy, i) < rest[i].maxy && 0 < |rest[i].bytes| <= ncblock
    {
      assert rest[i] == blocks[i + 1] && StartY(rest, b.maxy, i) == StartY(blocks, miny, i + 1);
    }
  }

  lemma Prefix(data: seq<Byte>, n: nat, a: nat, b: nat)
    requires a <= b <= n <= |data|
    ensures data[..n][a..b] == data[a..b]
  {
  }

  /** Block `i` of a correct file stands for the lines from the end of block `i - 1` to its own end. */
  lemma {:induction false} FaithfulAt(blocks: seq<Block>, data: seq<Byte>, bpl: nat, miny: int, ncblock: nat, i: nat)
    requires Faithful(blocks, data, bpl, miny, ncblock) && i < |blocks|
    ensures var y, y' := StartY(blocks, miny, i), blocks[i].maxy;
      && miny <= y < y' && Span(y - miny, bpl) <= Span(y' - miny, bpl) <= |data|
      && Decode(blocks[i].bytes, []) == Some(data[Span(y - miny, bpl)..Span(y' - miny, bpl)])
    decreases |blocks|
  {
    hide Decode;
    var init := blocks[..|blocks| - 1];
    var n := Span(EndY(init, miny) - miny, bpl);
    if i < |blocks| - 1 {
      FaithfulAt(init, data[..n], bpl, miny, ncblock, i);
      assert init[i] == blocks[i] && StartY(init, miny, i) == StartY(blocks, miny, i);
      var a, b := Span(StartY(init, miny, i) - miny, bpl), Span(init[i].maxy - miny, bpl);
      Prefix(data, n, a, b);
    } else {
      assert EndY(init, miny) == StartY(blocks, miny, i);
      assert data[n..] == data[n..|data|];
    }
  }

  /** A message loads exactly the original lines (or their complement, for an old image) where they belong. */
  ghost predicate LoadsLines(l: Load, data: seq<Byte>, bpl: nat, miny: int, flip: bool) {
    && miny <= l.miny < l.maxy && Span(l.maxy - miny, bpl) <= |data|
    && var lines := Lines(data, bpl, l.miny - miny, l.maxy - miny);
       Decode(l.bytes, []) == Some(if flip then Flip(lines) else lines)
  }

  /** Any file the writer produces is accepted by the reader for the same rectangle; every block is loaded, the
      messages cover the rectangle from top to bottom, and each one loads exactly the original lines. */
  lemma WrittenIsReadable(blocks: seq<Block>, data: seq<Byte>, bpl: nat, miny: int, maxy: int, ncblock: nat, flip: bool)
    requires Faithful(blocks, data, bpl, miny, ncblock) && EndY(blocks, miny) == maxy
    ensures Acceptable(blocks, miny, maxy, ncblock)
    ensures var loads := Loads(blocks, miny, maxy, flip);
      && |loads| == |blocks|
      && forall i :: 0 <= i < |loads| ==>
           && loads[i].miny == (if i == 0 then miny else loads[i - 1].maxy)
           && LoadsLines(loads[i], data, bpl, miny, flip)
  {
    FaithfulIsRising(blocks, data, bpl, miny, ncblock);
    RisingIsAcceptable(blocks, miny, maxy, ncblock, flip);
    hide Faithful;
    hide Loads;
    hide LoadsLines;
    var loads := Loads(blocks, miny, maxy, flip);
    forall i | 0 <= i < |loads|
      ensures loads[i].miny == (if i == 0 then miny else loads[i - 1].maxy) && LoadsLines(loads[i], data, bpl, miny, flip)
    {
      BlockLoadsLines(blocks, data, bpl, miny, ncblock, flip, i, loads[i]);
    }
  }

  lemma BlockLoadsLines(
    blocks: seq<Block>, data: seq<Byte>, bpl: nat, miny: int, ncblock: nat, flip: bool, i: nat, l: Load)
    requires Faithful(blocks, data, bpl, miny, ncblock) && i < |blocks|
    requires l.miny == StartY(blocks, miny, i) && l.maxy == blocks[i].maxy
    requires l.bytes == if flip then Twiddled(blocks[i].bytes) else blocks[i].bytes
    ensures LoadsLines(l, data, bpl, miny, flip)
  {
    hide Decode;
    hide Twiddled;
    hide Faithful;
    FaithfulAt(blocks, data, bpl, miny, ncblock, i);
    TwiddleCommutes(blocks[i].bytes, []);
    assert Flip([]) == [];
  }

  /** The messages load the whole image: from line `miny` on, each one where the last one ended, each one exactly its
      lines. */
  ghost predicate LoadsImage(loads: seq<Load>, pixels: seq<Byte>, bpl: nat, lines: nat, miny: int, flip: bool) {
    && (forall i :: 0 <= i < |loads| ==>
          loads[i].miny == (if i == 0 then miny else loads[i - 1].maxy) && LoadsLines(loads[i], pixels, bpl, miny, flip))
    && (if loads == [] then lines == 0 else loads[|loads| - 1].maxy == miny + lines)
  }

  lemma AllLoaded(blocks: seq<Block>, pixels: seq<Byte>, bpl: nat, lines: nat, miny: int, ncblock: nat, flip: bool)
    requires Faithful(blocks, pixels, bpl, miny, ncblock) && |pixels| == Span(lines, bpl) && (bpl > 0 || lines == 0)
    requires EndY(blocks, miny) == if pixels == [] then miny else miny + lines
    ensures Acceptable(blocks, miny, miny + lines, ncblock)
    ensures LoadsImage(Loads(blocks, miny, miny + lines, flip), pixels, bpl, lines, miny, flip)
  {
    if lines > 0 { SpanMonotone(0, lines, bpl); }
    assert EndY(blocks, miny) == miny + lines;
    WrittenIsReadable(blocks, pixels, bpl, miny, miny + lines, ncblock, flip);
    FaithfulIsRising(blocks, pixels, bpl, miny, ncblock);
    RisingIsAcceptable(blocks, miny, miny + lines, ncblock, flip);
    hide Faithful;
    hide Loads;
    hide LoadsLines;
    hide Acceptable;
  }

  /** Write an image as a compressed file and read it again.  The writer gets past reading the pixels if and only if
      there are no lines, or a line has some bytes and fits the display's buffer; and then everything goes well. */
  method WriteAndRead(pixels: seq<Byte>, bpl: nat, lines: nat, chunk: nat, miny: int) returns (out: Outcome, ok: bool, loads: seq<Load>)
    requires |pixels| == Span(lines, bpl)
    ensures out == Done <==> lines == 0 || (0 < bpl <= chunk && bpl <= DISPLAYBUFSIZE)
    ensures ok <==> out == Done
    ensures ok ==> LoadsImage(loads, pixels, bpl, lines, miny, false)
  {
    hide *;
    var data;
    out, data := ReadPixels(pixels, bpl, lines, chunk);
    if out != Done {
      return out, false, [];
    }
    var blocks;
    ok, blocks := Compress(data, bpl, lines, miny);
    AllLoaded(blocks, pixels, bpl, lines, miny, CompBlockSize(bpl), false);
    ok, loads := Read(blocks, miny, miny + lines, CompBlockSize(bpl), false);
  }
}
