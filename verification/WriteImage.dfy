/** The compression loop of libdraw/writeimage.c. */
module WriteImage {
  import opened HashChains
  import opened CompressedImage
  import opened Wrappers
  import opened Words

  lemma OneMore(s: seq<Byte>, lo: nat, hi: nat)
    requires lo <= hi < |s|
    ensures s[lo..hi + 1] == s[lo..hi] + [s[hi]]
  {
  }

  /** `h` is the hash of the string at `p`, if there is one. */
  predicate Hashed(data: seq<Byte>, p: nat, h: Hash) {
    p + NMATCH <= |data| ==> h == StringHash(data, p, NMATCH)
  }

  predicate AllHashed(data: seq<Byte>, start: nat, hs: seq<Hash>) {
    forall j :: 0 <= j < |hs| ==> Hashed(data, start + j, hs[j])
  }

  /** One of the strings in the window, those that begin in the last NMEM bytes, matches the one at `p` for `n` bytes that
      do not go beyond `es`. */
  ghost predicate Matches(data: seq<Byte>, start: nat, p: nat, n: nat, es: nat) {
    p + n <= es && exists q: nat :: MatchesAt(data, start, p, q, n)
  }

  /** A run of `n` bytes at `p`: a match, and the longest there is, if any string in the window matches NMATCH bytes, and
      otherwise one literal. */
  ghost predicate Longest(data: seq<Byte>, start: nat, p: nat, n: nat, es: nat, matched: bool) {
    && (matched <==> Matches(data, start, p, NMATCH, es))
    && if matched then Matches(data, start, p, n, es) && !Matches(data, start, p, n + 1, es) else n == 1
  }

  predicate MatchesAt(data: seq<Byte>, start: nat, p: nat, q: nat, n: nat) {
    start <= q < p <= q + NMEM && Same(data, p, q, n)
  }

  lemma NotElsewhere(data: seq<Byte>, start: nat, hs: seq<Hash>, h: Hash, p: nat, es: nat, n: nat, r: nat)
    requires p == start + |hs| && p < es <= |data| && Hashed(data, p, h) && AllHashed(data, start, hs)
    requires start <= r < p <= r + NMEM && p + NMATCH <= es && Same(data, p, r, NMATCH)
    requires forall j :: Oldest(|hs|) <= j < |hs| && hs[j] == h ==> NoLonger(data, p, start + j, n, es)
    ensures NoLonger(data, p, r, n, es)
  {
    hide StringHash;
    hide NoLonger;
    SameHash(data, p, r);
    assert Hashed(data, start + (r - start), hs[r - start]);
  }

  /** The strings with the right hash are enough: no other one matches NMATCH bytes. */
  lemma Searched(data: seq<Byte>, start: nat, hs: seq<Hash>, h: Hash, p: nat, es: nat, n: nat, q: nat)
    requires p == start + |hs| && p < es <= |data| && Hashed(data, p, h) && AllHashed(data, start, hs)
    requires n <= es - p && (n > 0 ==> MatchesAt(data, start, p, q, n))
    requires forall j :: Oldest(|hs|) <= j < |hs| && hs[j] == h ==> NoLonger(data, p, start + j, n, es)
    ensures n < NMATCH ==> !Matches(data, start, p, NMATCH, es)
    ensures n >= NMATCH ==>
      Matches(data, start, p, NMATCH, es) && Matches(data, start, p, n, es) && !Matches(data, start, p, n + 1, es)
  {
    hide StringHash;
    var m := if n < NMATCH then NMATCH else n + 1;
    if p + m <= es {
      forall r: nat ensures !MatchesAt(data, start, p, r, m) {
        if MatchesAt(data, start, p, r, m) {
          NotElsewhere(data, start, hs, h, p, es, n, r);
        }
      }
    }
    if n >= NMATCH {
      assert MatchesAt(data, start, p, q, NMATCH);
    }
  }

  lemma RollsOn(data: seq<Byte>, p: nat, h: Hash, g: Hash)
    requires Hashed(data, p, h) && p < |data|
    ensures |data| - p > NMATCH ==> Hashed(data, p + 1, HUpdate(h, data[p + NMATCH]))
    ensures |data| - p <= NMATCH ==> Hashed(data, p + 1, g)
  {
    hide HUpdate;
    hide StringHash;
    if |data| - p > NMATCH {
      Rolls(data, p);
    }
  }

  lemma AllHashedMore(data: seq<Byte>, start: nat, hs: seq<Hash>, h: Hash)
    requires AllHashed(data, start, hs) && Hashed(data, start + |hs|, h)
    ensures AllHashed(data, start, hs + [h])
  {
  }

  /** State of the encoder while it works on one block. */
  class Encoder {
    const data: seq<Byte>         // all lines of the image
    const outbuf: array<Byte>     // the encoded block
    const dumpbuf: array<Byte>    // literals not yet written to outbuf
    const w: Window
    var outp: nat
    var ndump: nat
    var h: Hash

    ghost predicate Valid()
      reads this, dumpbuf, outbuf, w, w.next, w.prev, w.s
    {
      && outbuf != dumpbuf && dumpbuf.Length == NDUMP
      && {outbuf as object, dumpbuf} !! {w.next as object, w.prev, w.s}
      && outp <= outbuf.Length && ndump <= NDUMP
      && w.Valid()
    }

    /** `outbuf` followed by `dumpbuf` stands for the text from the start of the block to `p`. */
    ghost predicate Text(p: nat)
      requires Valid()
      reads this, dumpbuf, outbuf, w, w.next, w.prev, w.s
    {
      && w.start + ndump <= p <= |data|
      && Decode(outbuf[..outp], []) == Some(data[w.start..p - ndump])
      && dumpbuf[..ndump] == data[p - ndump..p]
    }

    /** The strings before `p` have been entered in the window, each with its hash, and `h` is the hash of the next one; but
        the last bytes of the image are no string. */
    ghost predicate At(p: nat)
      reads this, w
    {
      p == w.start + |w.hs| && Hashed(data, p, h) && AllHashed(data, w.start, w.hs)
    }


    /** Bytes of `outbuf` used once the pending literals are written. */
    function Cost(): nat
      reads this
    {
      if ndump == 0 then outp else outp + ndump + 1
    }

    constructor (data: seq<Byte>, size: nat)
      ensures Valid() && this.data == data && outbuf.Length == size
      ensures fresh(outbuf) && fresh(dumpbuf) && fresh(w) && fresh(w.next) && fresh(w.prev) && fresh(w.s)
    {
      this.data := data;
      outbuf := new Byte[size];
      dumpbuf := new Byte[NDUMP];
      w := new Window();
      outp, ndump, h := 0, 0, 0;
    }

    /** Write out the accumulated literals; false if they do not fit. */
    method Dump(ghost p: nat) returns (fits: bool)
      requires Valid() && Text(p) && ndump > 0
      modifies this`outp, this`ndump, outbuf
      ensures Valid() && Text(p) && outbuf[..old(outp)] == old(outbuf[..outp])
      ensures fits <==> old(outp) + old(ndump) + 1 <= outbuf.Length
      ensures if fits then ndump == 0 && outp == old(outp) + old(ndump) + 1 else outp == old(outp) && ndump == old(ndump)
    {
      hide Decode;
      hide w.Valid;
      if outbuf.Length - outp < ndump + 1 {
        return false;
      }
      ghost var enc, out, dump := outbuf[..outp], data[w.start..p - ndump], dumpbuf[..ndump];
      ghost var code: seq<Byte> := enc + [|dump| - 1 + 128] + dump;
      DecodeDump(enc, dump, out);
      assert out + dump == data[w.start..p];
      outbuf[outp] := ndump - 1 + 128;
      forall i | 0 <= i < ndump { outbuf[outp + 1 + i] := dumpbuf[i]; }
      assert outbuf[..outp + 1 + ndump] == code;
      assert outbuf[..outp] == code[..outp] == enc;
      outp := outp + 1 + ndump;
      ndump := 0;
      return true;
    }

    /** Add the byte at `p` to the pending literals; false if older ones had to be written and do not fit. */
    method EmitLiteral(p: nat) returns (fits: bool)
      requires Valid() && Text(p) && p < |data|
      modifies this`outp, this`ndump, outbuf, dumpbuf
      ensures Valid() && outbuf[..old(outp)] == old(outbuf[..outp]) && old(outp) <= outp
      ensures if fits then ndump > 0 && Text(p + 1) && old(Cost()) < Cost() <= old(Cost()) + 2 else old(Cost()) > outbuf.Length
    {
      hide Decode;
      hide w.Valid;
      if ndump == NDUMP {
        fits := Dump(p);
        if !fits { return; }
      }
      ghost var dump := dumpbuf[..ndump];
      dumpbuf[ndump] := data[p];
      ndump := ndump + 1;
      assert dumpbuf[..ndump - 1] == dump;
      OneMore(dumpbuf[..], 0, ndump - 1);
      OneMore(data, p + 1 - ndump, p);
      fits := true;
    }

    /** Write the pending literals and then the match of `n` bytes with the text at `q`. */
    method EmitMatch(p: nat, q: nat, n: nat) returns (fits: bool)
      requires Valid() && Text(p) && NMATCH <= n <= NRUN && p + n <= |data|
      requires w.start <= q < p <= q + NMEM && Same(data, p, q, n)
      modifies this`outp, this`ndump, outbuf
      ensures Valid() && outbuf[..old(outp)] == old(outbuf[..outp]) && old(outp) <= outp
      ensures if fits then ndump == 0 && Text(p + n) && Cost() == old(Cost()) + 2 else old(Cost()) + 2 > outbuf.Length
    {
      hide Decode;
      hide w.Valid;
      if ndump != 0 {
        fits := Dump(p);
        if !fits { return; }
      }
      if outbuf.Length - outp < 2 {
        return false;
      }
      ghost var enc := outbuf[..outp];
      DecodeMatch(enc, data, w.start, p, q, n);
      var code := MatchCode(n, p - q);
      outbuf[outp] := code[0];
      outbuf[outp + 1] := code[1];
      outp := outp + 2;
      assert outbuf[..outp] == enc + code;
      assert outbuf[..outp - 2] == enc;
      assert enc[..old(outp)] == old(outbuf[..outp]);
      fits := true;
    }

    /** Encode one match or one literal at `p`, not going beyond `es`; false if the buffer is full. */
    method Emit(p: nat, es: nat) returns (fits: bool, runlen: nat)
      requires Valid() && Text(p) && At(p) && p < es <= |data| && es <= p + NRUN
      modifies this`outp, this`ndump, outbuf, dumpbuf
      ensures Valid() && outbuf[..old(outp)] == old(outbuf[..outp]) && old(outp) <= outp
      ensures fits ==> 1 <= runlen <= es - p && Text(p + runlen) && old(Cost()) < Cost() <= old(Cost()) + 2 * runlen
      ensures !fits ==> old(Cost()) + 2 > outbuf.Length
      ensures fits ==> Longest(data, w.start, p, runlen, es, ndump == 0)
    {
      hide Decode;
      hide Linked;
      var q;
      runlen, q := w.LongestMatch(data, p, es, h);
      Searched(data, w.start, w.hs, h, p, es, runlen, q);
      hide Matches;
      if runlen < NMATCH {
        runlen := 1;
        fits := EmitLiteral(p);
      } else {
        fits := EmitMatch(p, q, runlen);
      }
    }

    /** Enter the strings that start in `[p, q)` in the window. */
    method Remember(p: nat, q: nat)
      requires Valid() && At(p) && p <= q <= |data|
      modifies this`h, w, w.next, w.prev, w.s
      ensures Valid() && At(q) && w.start == old(w.start)
    {
      hide Linked;
      hide Hashed;
      hide AllHashed;
      hide HUpdate;
      var i := p;
      while i != q
        invariant p <= i <= q && Valid() && At(i) && w.start == old(w.start)
        invariant outp == old(outp) && ndump == old(ndump)
      {
        AllHashedMore(data, w.start, w.hs, h);
        RollsOn(data, i, h, h);
        w.Insert(h, i);
        i := i + 1;
        if |data| - (i - 1) > NMATCH {
          h := HUpdate(h, data[i - 1 + NMATCH]);
        }
      }
    }

    /** Encode the next run of a line that ends at `eline` and enter it in the window. */
    method Advance(p: nat, eline: nat) returns (fits: bool, q: nat)
      requires Valid() && Text(p) && At(p) && p < eline <= |data|
      modifies this, outbuf, dumpbuf, w, w.next, w.prev, w.s
      ensures Valid() && outbuf[..old(outp)] == old(outbuf[..outp]) && old(outp) <= outp && w.start == old(w.start)
      ensures fits ==> p < q <= eline && Text(q) && At(q) && old(Cost()) < Cost() <= old(Cost()) + 2 * (q - p)
      ensures !fits ==> old(Cost()) + 2 > outbuf.Length
      ensures fits ==> Longest(data, w.start, p, q - p, if eline - p < NRUN then eline else p + NRUN, ndump == 0)
    {
      hide Decode;
      hide Linked;
      hide Longest;
      var es := if eline - p < NRUN then eline else p + NRUN;
      var runlen;
      fits, runlen := Emit(p, es);
      q := p + runlen;
      if fits {
        Remember(p, q);
      }
    }

    /** Encode the line `[line, eline)`.  A line that does not fit leaves the earlier lines' code intact, and a line
        always fits when twice its length does. */
    method EncodeLine(line: nat, eline: nat) returns (fits: bool)
      requires Valid() && Text(line) && At(line) && ndump == 0 && line < eline <= |data|
      modifies this, outbuf, dumpbuf, w, w.next, w.prev, w.s
      ensures Valid() && outbuf[..old(outp)] == old(outbuf[..outp]) && w.start == old(w.start)
      ensures fits ==> Text(eline) && At(eline) && ndump == 0 && old(outp) < outp <= old(outp) + 2 * (eline - line)
      ensures !fits ==> old(outp) + 2 * (eline - line) > outbuf.Length
    {
      hide Decode;
      hide Linked;
      ghost var loutp, code := outp, outbuf[..outp];
      var p := line;
      while p != eline
        invariant line <= p <= eline && Valid() && Text(p) && At(p) && w.start == old(w.start)
        invariant loutp <= outp && outbuf[..loutp] == code
        invariant Cost() <= loutp + 2 * (p - line) && (p > line ==> Cost() > loutp)
        decreases eline - p
      {
        ghost var code0 := outbuf[..outp];
        fits, p := Advance(p, eline);
        assert outbuf[..loutp] == code0[..loutp];
        if !fits { return; }
      }
      if ndump != 0 {
        ghost var code0 := outbuf[..outp];
        fits := Dump(p);
        assert outbuf[..loutp] == code0[..loutp];
        if !fits { return; }
      }
      fits := true;
    }

    /** Forget everything and hash the first string at `line0`. */
    method Begin(line0: nat)
      requires Valid() && line0 <= |data|
      modifies this, w, w.next, w.prev
      ensures Valid() && Text(line0) && At(line0) && w.start == line0 && outp == ndump == 0
    {
      hide Linked;
      hide HUpdate;
      hide StringHash;
      w.Reset(line0);
      h, outp, ndump := 0, 0, 0;
      assert StringHash(data, line0, 0) == 0 by { NoHash(data, line0); }
      var i := 0;
      while i != NMATCH
        invariant 0 <= i <= NMATCH && Valid() && w.hs == [] && w.start == line0 && outp == ndump == 0
        invariant line0 + i <= |data| ==> h == StringHash(data, line0, i)
      {
        var c: Byte := *;   // a byte past the end of a very small image is whatever memory holds
        if line0 + i < |data| {
          c := data[line0 + i];
          NextHash(data, line0, i);
        }
        h := HUpdate(h, c);
        i := i + 1;
      }
      assert outbuf[..0] == [] && data[line0..line0] == [] && dumpbuf[..0] == [];
    }

    /** Encode whole lines from `line0` until the image ends or the buffer is full.  The code of an unfinished line
        is abandoned: only the first `n` bytes of `outbuf` count. */
    method EncodeBlock(line0: nat, bpl: nat, ghost rem: nat) returns (n: nat, line: nat, done: nat)
      requires Valid() && bpl > 0 && rem > 0 && |data| == line0 + Span(rem, bpl)
      modifies this, outbuf, dumpbuf, w, w.next, w.prev, w.s
      ensures Valid() && n <= outbuf.Length && done <= rem && line == line0 + Span(done, bpl) <= |data|
      ensures Decode(outbuf[..n], []) == Some(data[line0..line])
      ensures outbuf.Length >= 2 * bpl ==> n > 0 && done > 0
      ensures n == 0 <==> done == 0
    {
      hide Decode;
      hide Linked;
      hide w.Valid;
      Begin(line0);
      n, done := 0, 0;
      line := line0;
      while line != |data|
        invariant done <= rem && line == line0 + Span(done, bpl) <= |data|
        invariant Valid() && Text(line) && At(line) && w.start == line0 && ndump == 0 && n == outp
        invariant n == 0 <==> done == 0
        decreases |data| - line
      {
        SpanMonotone(done, rem, bpl);
        ghost var code := outbuf[..n];
        var fits := EncodeLine(line, line + bpl);
        if !fits {
          assert outbuf[..n] == code;
          break;
        }
        line := line + bpl;
        n, done := outp, done + 1;
      }
    }
  }

  /** The size of `n` lines of `bpl` bytes. */
  function Span(n: nat, bpl: nat): nat {
    if n == 0 then 0 else Span(n - 1, bpl) + bpl
  }

  lemma {:induction false} SpanMonotone(m: nat, n: nat, bpl: nat)
    requires m <= n
    ensures Span(m, bpl) <= Span(n, bpl)
    ensures m < n ==> Span(m + 1, bpl) <= Span(n, bpl)
    decreases n
  {
    if m < n { SpanMonotone(m, n - 1, bpl); }
  }

  /** A block of the file: the y coordinate after its last line, and its code (whose length is in the header). */
  datatype Block = Block(maxy: int, bytes: seq<Byte>)

  function EndY(blocks: seq<Block>, miny: int): int {
    if blocks == [] then miny else blocks[|blocks| - 1].maxy
  }

  /** The blocks are a correct compressed file for `data`: headers rise from `miny`, sizes are in range, and block by
      block the code stands for exactly the next lines. */
  predicate Faithful(blocks: seq<Block>, data: seq<Byte>, bpl: nat, miny: int, ncblock: nat) {
    if blocks == [] then data == []
    else
      var init, b := blocks[..|blocks| - 1], blocks[|blocks| - 1];
      var y := EndY(init, miny);
      && miny <= y < b.maxy
      && 0 < |b.bytes| <= ncblock
      && |data| == Span(b.maxy - miny, bpl)
      && Span(y - miny, bpl) <= |data|
      && Decode(b.bytes, []) == Some(data[Span(y - miny, bpl)..])
      && Faithful(init, data[..Span(y - miny, bpl)], bpl, miny, ncblock)
  }

  /** Encode the next block of the image, of which `rows` lines out of `lines` are written. */
  method NextBlock(e: Encoder, bpl: nat, line0: nat, ghost rows: nat, ghost lines: nat)
    returns (line: nat, done: nat, bytes: seq<Byte>)
    requires e.Valid() && |e.data| == Span(lines, bpl) && e.outbuf.Length == CompBlockSize(bpl)
    requires rows <= lines && line0 == Span(rows, bpl) < |e.data| && bpl > 0
    modifies e, e.outbuf, e.dumpbuf, e.w, e.w.next, e.w.prev, e.w.s
    ensures e.Valid() && done > 0 && rows + done <= lines && line == Span(rows + done, bpl) <= |e.data|
    ensures 0 < |bytes| <= CompBlockSize(bpl) && line0 < line && Decode(bytes, []) == Some(e.data[line0..line])
  {
    hide Decode;
    hide e.Valid;
    SpanSplit(rows, lines, bpl);
    var n;
    n, line, done := e.EncodeBlock(line0, bpl, lines - rows);
    SpanSplit(rows, rows + done, bpl);
    SpanMonotone(0, done, bpl);
    bytes := e.outbuf[..n];
  }

  /** Compress an image of `lines` lines.  The size check after a block never fails, every block holds at least one
      line, and the blocks are a correct file for the image. */
  method Compress(data: seq<Byte>, bpl: nat, ghost lines: nat, miny: int) returns (ok: bool, blocks: seq<Block>)
    requires |data| == Span(lines, bpl)
    ensures ok && Faithful(blocks, data, bpl, miny, CompBlockSize(bpl))
    ensures EndY(blocks, miny) == if data == [] then miny else miny + lines
  {
    hide *;
    var e := new Encoder(data, CompBlockSize(bpl));
    blocks := [];
    var line, y := 0, miny;
    ghost var rows: nat := 0;
    FaithfulNothing(data, bpl, miny, lines);
    while line != |data|
      invariant e.Valid() && e.data == data && e.outbuf.Length == CompBlockSize(bpl)
      invariant fresh(e) && fresh(e.outbuf) && fresh(e.dumpbuf)
      invariant fresh(e.w) && fresh(e.w.next) && fresh(e.w.prev) && fresh(e.w.s)
      invariant rows <= lines && line == Span(rows, bpl) <= |data| && (bpl == 0 ==> rows == 0)
      invariant y == EndY(blocks, miny) == miny + rows
      invariant Faithful(blocks, data[..line], bpl, miny, CompBlockSize(bpl))
      decreases |data| - line
    {
      ghost var line0, blocks0 := line, blocks;
      var done, bytes;
      line, done, bytes := NextBlock(e, bpl, line, rows, lines);
      if bytes == [] {
        return false, blocks;
      }
      y := y + done;
      blocks := blocks + [Block(y, bytes)];
      FaithfulExtends(blocks0, data[..line0], Block(y, bytes), data[line0..line], bpl, miny, CompBlockSize(bpl));
      EndYLast(blocks0, Block(y, bytes), miny);
      assert data[..line0] + data[line0..line] == data[..line];
      rows := rows + done;
    }
    assert data[..|data|] == data;
    SpanFixes(rows, lines, bpl);
    ok := true;
  }

  lemma FaithfulExtends(blocks: seq<Block>, data: seq<Byte>, b: Block, more: seq<Byte>, bpl: nat, miny: int, ncblock: nat)
    requires Faithful(blocks, data, bpl, miny, ncblock) && miny <= EndY(blocks, miny) < b.maxy
    requires 0 < |b.bytes| <= ncblock && Decode(b.bytes, []) == Some(more)
    requires |data| == Span(EndY(blocks, miny) - miny, bpl) && |data| + |more| == Span(b.maxy - miny, bpl)
    ensures Faithful(blocks + [b], data + more, bpl, miny, ncblock)
  {
    assert (blocks + [b])[..|blocks|] == blocks;
    assert (data + more)[..|data|] == data && (data + more)[|data|..] == more;
  }

  lemma FaithfulNothing(data: seq<Byte>, bpl: nat, miny: int, lines: nat)
    ensures Faithful([], data[..0], bpl, miny, CompBlockSize(bpl)) && EndY([], miny) == miny && Span(0, bpl) == 0
    ensures bpl == 0 ==> Span(lines, bpl) == 0
  {
    if bpl == 0 { SpanOfEmptyLines(lines); }
  }

  lemma EndYLast(blocks: seq<Block>, b: Block, miny: int)
    ensures EndY(blocks + [b], miny) == b.maxy
  {
  }

  lemma {:induction false} SpanOfEmptyLines(n: nat)
    ensures Span(n, 0) == 0
  {
    if n > 0 { SpanOfEmptyLines(n - 1); }
  }

  lemma SpanFixes(m: nat, n: nat, bpl: nat)
    requires m <= n && Span(m, bpl) == Span(n, bpl) && (bpl == 0 ==> m == 0)
    ensures m == if Span(n, bpl) == 0 then 0 else n
  {
    if bpl == 0 {
      SpanOfEmptyLines(n);
    } else {
      SpanSplit(m, n, bpl);
    }
  }

  lemma {:induction false} SpanSplit(m: nat, n: nat, bpl: nat)
    requires m <= n
    ensures Span(n, bpl) == Span(m, bpl) + Span(n - m, bpl)
    decreases n
  {
    if m < n { SpanSplit(m, n - 1, bpl); }
  }
}
