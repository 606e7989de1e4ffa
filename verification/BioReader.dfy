/**
  Buffered input: libbio/bgetc.c, bread.c, brdline.c, brdstr.c, bseek.c and boffset.c on a
  descriptor without read errors.  The descriptor may return fewer bytes than asked for, in
  any pattern.  Whatever it does, the functions agree with a plain cursor over the file.
 */
module BioReader {
  import opened Wrappers
  import opened Words

  const UNGET := 5   // Bungetsize: UTFmax + 1
  const BEOF := -1

  function Min(x: int, y: int): int { if x < y then x else y }

  function Max(x: int, y: int): int { if x < y then y else x }

  datatype State = Ractive | Racteof

  /** An open file.  Reads may be short, but deliver something unless the file has ended: `pattern` says how much more
      than one byte each call may deliver. */
  class File {
    const contents: seq<Byte>
    const pattern: nat -> nat
    var pos: nat
    var calls: nat

    constructor (contents: seq<Byte>, pattern: nat -> nat)
      ensures this.contents == contents && this.pattern == pattern && pos == 0 && calls == 0
    {
      this.contents, this.pattern := contents, pattern;
      pos, calls := 0, 0;
    }

    /** The number of bytes the next read of `n` bytes delivers. */
    function Given(n: nat): (k: nat)
      reads this
      ensures k <= n && (n > 0 ==> (k == 0 <==> pos >= |contents|)) && (k > 0 ==> pos + k <= |contents|)
    {
      if pos >= |contents| then 0 else Min(n, Min(|contents| - pos, 1 + pattern(calls)))
    }

    method Read(buf: array<Byte>, at: nat, n: nat) returns (k: nat)
      requires n > 0 && at + n <= buf.Length
      modifies this`pos, this`calls, buf
      ensures k == old(Given(n)) && calls == old(calls) + 1
      ensures pos == old(pos) + k && (k > 0 ==> pos <= |contents|)
      ensures k == 0 ==> buf[..] == old(buf[..])
      ensures forall i :: 0 <= i < buf.Length ==>
        buf[i] == if at <= i < at + k then contents[old(pos) + i - at] else old(buf[i])
    {
      k := Given(n);
      calls := calls + 1;
      forall i | 0 <= i < k { buf[at + i] := contents[pos + i]; }
      pos := pos + k;
    }

    method Seek(n: nat)
      modifies this`pos
      ensures pos == n
    {
      pos := n;
    }
  }

  /** The bytes `b[lo..hi]` are those of the file, index 0 standing for file position `at`. */
  predicate Has(b: array<Byte>, lo: int, hi: int, contents: seq<Byte>, at: int)
    reads b
  {
    && 0 <= lo && hi <= b.Length
    && (lo < hi ==> 0 <= lo + at && hi + at <= |contents|)
    && forall j :: lo <= j < hi ==> b[j] == contents[j + at]
  }

  /** memmove within one buffer. */
  method Memmove(b: array<Byte>, dst: nat, src: nat, n: nat)
    requires dst + n <= b.Length && src + n <= b.Length
    modifies b
    ensures forall i :: 0 <= i < b.Length && !(dst <= i < dst + n) ==> b[i] == old(b[i])
    ensures b[dst..dst + n] == old(b[src..src + n])
  {
    var copy := b[src..src + n];
    forall i | 0 <= i < n { b[dst + i] := copy[i]; }
  }

  /** memmove of bytes of which those in `[lo, hi)` are bytes of the file: they are so at the new place. */
  method MoveGood(b: array<Byte>, dst: nat, src: nat, n: nat, ghost lo: int, ghost hi: int, ghost contents: seq<Byte>, ghost at: int)
    requires dst + n <= b.Length && src + n <= b.Length
    requires src <= lo <= hi <= src + n && Has(b, lo, hi, contents, at)
    modifies b
    ensures forall i :: 0 <= i < b.Length && !(dst <= i < dst + n) ==> b[i] == old(b[i])
    ensures Has(b, lo - src + dst, hi - src + dst, contents, at + src - dst)
  {
    Memmove(b, dst, src, n);
    forall j | lo - src + dst <= j < hi - src + dst ensures b[j] == old(b[j - dst + src]) {
      assert b[dst..dst + n][j - dst] == old(b[src..src + n])[j - dst];
    }
  }

  /** A Biobuf opened for reading.  `b` is the whole allocation: UNGET bytes, then bbuf up to ebuf. */
  class Reader {
    const f: File
    const b: array<Byte>
    var icount: int    // minus the number of unread bytes, which end at ebuf
    var gbuf: int      // start of what Bseek takes to be good data
    var offset: int    // file position of ebuf
    var state: State
    var rdline: int
    ghost var valid: nat   // number of bytes before ebuf that are the file's bytes before `offset`
    ghost var far: nat     // furthest cursor since the last seek

    ghost predicate Valid()
      reads this, b, f
    {
      && UNGET < b.Length < 0x8000_0000
      && offset == f.pos
      && valid <= offset && valid <= b.Length && Has(b, b.Length - valid, b.Length, f.contents, offset - b.Length)
      && 0 - valid <= icount <= 0
      && (state.Racteof? ==> icount == 0 && offset >= |f.contents|)
      && UNGET <= gbuf <= b.Length
    }

    /** Where the next byte will come from: the abstract state of the buffer. */
    function Boffset(): int
      reads this`offset, this`icount
    {
      offset + icount
    }

    constructor (f: File, size: nat)
      requires 0 < size < 0x8000_0000 - UNGET && f.pos == 0
      ensures Valid() && this.f == f && fresh(b) && b.Length == UNGET + size
      ensures Boffset() == 0 && valid == 0 && far == 0 && gbuf == b.Length && state == Ractive && icount == 0
    {
      this.f := f;
      b := new Byte[UNGET + size];
      icount, gbuf, offset, state, rdline := 0, UNGET + size, 0, Ractive, 0;
      valid, far := 0, 0;
    }

    /** The bytes from `start` on are the file's, as far as they stand for places in the file at all. */
    predicate GoodFrom(start: int)
      reads this`offset, b
    {
      Has(b, Max(start, b.Length - offset), b.Length, f.contents, offset - b.Length)
    }

    /** Everything Bseek relies on is true. */
    predicate Good()
      reads this`offset, this`gbuf, b
    {
      GoodFrom(gbuf)
    }

    /** It would be true if gbuf were at the start of the buffer. */
    predicate Whole()
      reads this`offset, b
    {
      GoodFrom(UNGET)
    }

    /** What the next seek relies on is true; after an end of file that is nothing. */
    predicate Trusted()
      reads this`offset, this`gbuf, this`state, b
    {
      state.Racteof? || Good()
    }

    lemma GoodIfValid(start: int)
      requires Valid() && b.Length - start <= valid && start <= b.Length
      ensures GoodFrom(start)
    {
      HasPart(b, b.Length - valid, Max(start, b.Length - offset), b.Length, f.contents, offset - b.Length);
    }

    lemma GoodAt(start: int)
      requires Valid() && b.Length - start <= valid && gbuf == start
      ensures Good()
    {
      GoodIfValid(start);
    }

    /** Only the bytes of the buffer matter. */
    twostate lemma SameGood(start: int)
      requires UNGET <= start && UNGET <= b.Length && offset == old(offset) && b[UNGET..] == old(b[UNGET..])
      ensures GoodFrom(start) <==> old(GoodFrom(start))
    {
      forall j | UNGET <= j < b.Length ensures b[j] == old(b[j]) {
        assert b[UNGET..][j - UNGET] == old(b[UNGET..])[j - UNGET];
      }
    }

    /** No unread byte lies in the unget area. */
    ghost predicate Unpushed()
      reads this
    {
      -icount <= b.Length - UNGET
    }

    /** Backing up to UNGET bytes before the furthest point read, or to the start of the file, stays in valid bytes. */
    ghost predicate Recoverable()
      reads this`offset, this`icount, this`far, this`valid
    {
      Boffset() <= far <= offset && (offset <= valid || far - UNGET >= offset - valid)
    }

    /** Copy the last UNGET bytes to the front and read the next bytes after them. */
    method ReadAfterUnget() returns (i: nat)
      requires Valid() && icount == 0
      modifies b, f`pos, f`calls
      ensures i == old(f.Given(b.Length - UNGET)) && f.calls == old(f.calls) + 1 && f.pos == old(f.pos) + i
      ensures i <= b.Length - UNGET && (i == 0 <==> old(f.pos) >= |f.contents|)
      ensures i == 0 ==> b[UNGET..] == old(b[UNGET..])
      ensures Has(b, UNGET - Min(valid, UNGET), UNGET + i, f.contents, offset - UNGET)
      ensures i == 0 ==> Has(b, b.Length - Min(valid, b.Length - UNGET), b.Length, f.contents, offset - b.Length)
    {
      CopyUnget();
      i := f.Read(b, UNGET, b.Length - UNGET);
    }

    /** Copy the last UNGET bytes to the front; the rest of the buffer stays. */
    method CopyUnget()
      requires Valid() && icount == 0
      modifies b
      ensures b[UNGET..] == old(b[UNGET..])
      ensures Has(b, UNGET - Min(valid, UNGET), UNGET, f.contents, offset - UNGET)
      ensures Has(b, b.Length - Min(valid, b.Length - UNGET), b.Length, f.contents, offset - b.Length)
    {
      ghost var n, m := Min(valid, UNGET), Min(valid, b.Length - UNGET);
      HasPart(b, b.Length - valid, b.Length - n, b.Length, f.contents, offset - b.Length);
      HasPart(b, b.Length - valid, b.Length - m, b.Length, f.contents, offset - b.Length);
      label before:
      MoveGood(b, 0, b.Length - UNGET, UNGET, b.Length - n, b.Length, f.contents, offset - b.Length);
      forall j | b.Length - m <= j < b.Length ensures b[j] == f.contents[j + (offset - b.Length)] {
        assert b[j] == old@before(b[j]);
      }
    }

    /** The refill step of Bgetc: keep the last UNGET bytes in front of the new ones. */
    method Refill() returns (i: nat)
      requires Valid() && icount == 0 && state == Ractive
      modifies this, b, f
      ensures Valid() && (i == 0 <==> old(offset) >= |f.contents|) && far == old(far) && rdline == old(rdline)
      ensures icount == 0 - i && offset == old(offset) + i && state == if i == 0 then Racteof else Ractive
      ensures i == old(f.Given(b.Length - UNGET)) && f.calls == old(f.calls) + 1
      ensures i == 0 ==> gbuf == UNGET && valid == Min(old(valid), b.Length - UNGET) && b[UNGET..] == old(b[UNGET..])
      ensures i == 0 ==> (Good() <==> old(Whole()))
      ensures i > 0 ==> gbuf == b.Length - i && valid == i + Min(old(valid), UNGET) && Good()
      ensures i > 0 && i + 2 * UNGET < b.Length ==> b[UNGET] == f.contents[old(offset)]
      ensures old(Recoverable()) && b.Length - UNGET >= UNGET ==> Recoverable()
    {
      hide Has;
      i := ReadAfterUnget();
      ghost var lo := UNGET - Min(valid, UNGET);
      FirstByte(b, lo, UNGET, UNGET + i, f.contents, offset - UNGET);
      gbuf := UNGET;
      if i <= 0 {
        state := Racteof;
        valid := Min(valid, b.Length - UNGET);
        SameGood(UNGET);
        return;
      }
      MoveUp(i, lo);
      icount := 0 - i;
      offset := offset + i;
      valid := i + Min(valid, UNGET);
      GoodIfValid(gbuf);
    }

    /** Move the bytes just read, and those in front of them, up to ebuf. */
    method MoveUp(i: nat, ghost lo: int)
      requires 0 < i <= b.Length - UNGET && 0 <= lo <= UNGET && Has(b, lo, UNGET + i, f.contents, offset - UNGET) && gbuf == UNGET
      modifies b, this`gbuf
      ensures gbuf == b.Length - i && Has(b, b.Length - i - UNGET + lo, b.Length, f.contents, offset + i - b.Length)
      ensures i + 2 * UNGET < b.Length ==> b[UNGET] == old(b[UNGET])
    {
      hide Has;
      if i < b.Length - UNGET {
        MoveGood(b, b.Length - i - UNGET, 0, i + UNGET, lo, UNGET + i, f.contents, offset - UNGET);
        gbuf := b.Length - i;
      }
    }

    /** Note how far the cursor has been. */
    ghost method Reach()
      modifies this`far
      ensures far == Max(old(far), Boffset())
      ensures old(Recoverable()) ==> Recoverable()
    {
      far := Max(far, Boffset());
    }

    /** The next byte in the buffer. */
    method Deliver() returns (c: Byte)
      requires Valid() && icount != 0
      modifies this`icount, this`far
      ensures 0 <= old(Boffset()) < |f.contents| && c == f.contents[old(Boffset())]
      ensures Valid() && icount == old(icount) + 1 && far == Max(old(far), Boffset())
      ensures old(Recoverable()) ==> Recoverable()
    {
      c := b[b.Length + icount];
      icount := icount + 1;
      Reach();
    }

    /** The next byte of the file, or Beof at its end.  At the end of the file gbuf is moved to the start of the buffer
        although nothing was read: what Bseek relies on is true after that just if the whole buffer held bytes of the
        file before. */
    method Bgetc() returns (c: int)
      requires Valid()
      modifies this, b, f
      ensures Valid() && rdline == old(rdline)
      ensures var p := old(Boffset());
        if p < |f.contents| then c == f.contents[p] && Boffset() == p + 1 else c == BEOF && Boffset() == p
      ensures old(Good()) && c != BEOF ==> Good()
      ensures old(Unpushed()) ==> Unpushed()
      ensures old(Recoverable()) && b.Length - UNGET >= UNGET ==> Recoverable()
      ensures far == Max(old(far), Boffset())
      ensures old(icount) != 0 ==> Buffered(old(offset), old(valid), old(gbuf), old(f.calls)) && b[..] == old(b[..]) && state == Ractive
      ensures old(icount) == 0 && c != BEOF ==>
        var k := old(f.Given(b.Length - UNGET));
        && Buffered(old(offset) + k, k + Min(old(valid), UNGET), b.Length - k, old(f.calls) + 1) && state == Ractive
        && (k + 2 * UNGET < b.Length ==> b[UNGET] == f.contents[old(offset)])
      ensures c == BEOF ==> b[UNGET..] == old(b[UNGET..]) && offset == old(offset)
      ensures c == BEOF && old(state) == Ractive ==>
        state == Racteof && gbuf == UNGET && valid == Min(old(valid), b.Length - UNGET) && (Good() <==> old(Whole()))
      ensures c == BEOF && old(state) == Racteof ==>
        state == Ractive && gbuf == old(gbuf) && valid == old(valid) && (Good() <==> old(Good()))
    {
      hide Has;
      hide Recoverable;
      if icount == 0 {
        if state != Ractive {
          state := Ractive;
          Reach();
          return BEOF;
        }
        var i := Refill();
        if i == 0 {
          Reach();
          return BEOF;
        }
      }
      c := Deliver();
    }

    /** The file position of ebuf, the good bytes before it, gbuf, and the number of reads so far. */
    ghost predicate Buffered(offset: int, valid: int, gbuf: int, calls: nat)
      reads this, f
    {
      this.offset == offset && this.valid == valid && this.gbuf == gbuf && f.calls == calls
    }

    /** Put the last byte back.  The buffer is good for the new cursor just if the byte before the old one is still
        in it. */
    method Bungetc()
      requires Valid()
      modifies this`icount, this`state
      ensures Boffset() == old(Boffset()) - 1 && state == Ractive
      ensures Valid() <==> old(icount) > 0 - valid
      ensures old(Recoverable()) ==> Recoverable()
    {
      hide Has;
      if state == Racteof {
        state := Ractive;
      }
      icount := icount - 1;
    }

    /** Read the next bytes into the front of the buffer. */
    method ReadAtFront() returns (i: nat)
      requires Valid() && icount == 0
      modifies b, f`pos, f`calls
      ensures i <= b.Length - UNGET && (i == 0 <==> old(f.pos) >= |f.contents|) && f.pos == old(f.pos) + i
      ensures Has(b, UNGET, UNGET + i, f.contents, offset - UNGET)
      ensures i == 0 ==> b[..] == old(b[..]) && Has(b, b.Length - valid, b.Length, f.contents, offset - b.Length)
    {
      i := f.Read(b, UNGET, b.Length - UNGET);
    }

    /** The refill step of Bread: the new bytes replace everything. */
    method RefillAll() returns (i: nat)
      requires Valid() && icount == 0 && state == Ractive
      modifies this, b, f
      ensures Valid() && (i == 0 <==> old(offset) >= |f.contents|)
      ensures icount == 0 - i && offset == old(offset) + i && state == if i == 0 then Racteof else Ractive
      ensures if i == 0 then gbuf == old(gbuf) && (old(Good()) ==> Good()) else Good()
      ensures Unpushed()
    {
      hide Has;
      i := ReadAtFront();
      if i <= 0 {
        state := Racteof;
        SameGood(gbuf);
        return;
      }
      gbuf := UNGET;
      offset := offset + i;
      if i < b.Length - UNGET {
        MoveGood(b, b.Length - i, UNGET, i, UNGET, UNGET + i, f.contents, offset - i - UNGET);
        gbuf := b.Length - i;
      }
      valid := i;
      icount := 0 - i;
      GoodIfValid(gbuf);
    }

    /** Deliver `n` buffered bytes. */
    method Take(n: nat) returns (out: seq<Byte>)
      requires Valid() && 0 < n <= -icount
      modifies this`icount
      ensures Valid() && icount == old(icount) + n && (old(Good()) ==> Good())
      ensures out == At(f.contents, old(Boffset()), n) && |out| == n
    {
      ghost var lo := b.Length + icount;
      HasPart(b, b.Length - valid, lo, b.Length, f.contents, offset - b.Length);
      HasSlice(b, lo, lo + n, b.Length, f.contents, offset - b.Length);
      AtInside(f.contents, Boffset(), n);
      out := b[b.Length + icount..b.Length + icount + n];
      icount := icount + n;
    }

    /** One round of Bread: deliver up to `count` buffered bytes, or refill an empty buffer. */
    method BreadRound(count: nat) returns (more: seq<Byte>, eof: bool)
      requires Valid() && count > 0
      modifies this, b, f
      ensures Valid() && Boffset() == old(Boffset()) + |more| && (old(Unpushed()) ==> Unpushed())
      ensures (old(Good()) ==> Good()) && (old(Trusted()) ==> Trusted())
      ensures |more| <= count && more == At(f.contents, old(Boffset()), |more|)
      ensures eof ==> more == [] && Boffset() >= |f.contents|
      ensures !eof ==> more != [] || (old(icount) == 0 && icount < 0)
    {
      hide Has;
      hide At;
      more, eof := [], false;
      AtNothing(f.contents, Boffset());
      var n := if -icount > count then count else -icount;
      if n == 0 {
        if state != Ractive {
          return [], true;
        }
        var i := RefillAll();
        eof := i == 0;
        return;
      }
      more := Take(n);
    }

    /** Up to `count` bytes at the cursor: fewer only at the end of the file. */
    method Bread(count: nat) returns (out: seq<Byte>)
      requires Valid()
      modifies this, b, f
      ensures Valid() && Boffset() == old(Boffset()) + |out| && (old(Unpushed()) ==> Unpushed())
      ensures (old(Good()) ==> Good()) && (old(Trusted()) ==> Trusted())
      ensures out == At(f.contents, old(Boffset()), count)
    {
      hide Has;
      hide At;
      hide Good;
      hide Trusted;
      hide Unpushed;
      out := [];
      AtNothing(f.contents, Boffset());
      while |out| < count
        invariant Valid() && |out| <= count && Boffset() == old(Boffset()) + |out|
        invariant (old(Good()) ==> Good()) && (old(Trusted()) ==> Trusted()) && (old(Unpushed()) ==> Unpushed())
        invariant out == At(f.contents, old(Boffset()), |out|)
        decreases count - |out|, if icount == 0 then 1 else 0
      {
        var more, eof := BreadRound(count - |out|);
        if eof {
          AtPastEnd(f.contents, old(Boffset()), |out|, count);
          return;
        }
        AtSplit(f.contents, old(Boffset()), |out|, |more|);
        out := out + more;
      }
    }

    /** `i` bytes from file position `p` on are at the front of the buffer; the descriptor stands after them. */
    ghost predicate Front(i: nat, p: int)
      reads this, b, f
    {
      && UNGET < b.Length < 0x8000_0000 && UNGET + i <= b.Length && 0 <= p && offset == f.pos == p + i
      && Has(b, UNGET, UNGET + i, f.contents, p - UNGET)
    }

    /** Copy the unread bytes to the beginning of the buffer. */
    method ToFront() returns (i: nat)
      requires Valid() && Unpushed()
      modifies this`gbuf, b
      ensures i == -icount && Front(i, Boffset()) && gbuf == UNGET
      ensures i == 0 ==> Valid() && (Good() <==> old(Whole()))
    {
      hide Has;
      i := -icount;
      HasPart(b, b.Length - valid, b.Length - i, b.Length, f.contents, offset - b.Length);
      if i == 0 {
        HasNone(b, UNGET);
      } else if i < b.Length - UNGET {
        MoveGood(b, UNGET, b.Length - i, i, b.Length - i, b.Length, f.contents, offset - b.Length);
      }
      gbuf := UNGET;
    }

    /** Read after the `i` bytes at the front. */
    method ReadMore(i: nat, ghost p: int) returns (j: nat)
      requires Front(i, p) && UNGET + i < b.Length
      modifies this`offset, b, f`pos, f`calls
      ensures Front(i + j, p) && (j == 0 <==> p + i >= |f.contents|)
      ensures j == 0 ==> b[..] == old(b[..]) && offset == old(offset) && f.pos == old(f.pos)
    {
      j := f.Read(b, UNGET + i, b.Length - UNGET - i);
      offset := offset + j;
    }

    /** A read that delivers nothing changes nothing. */
    twostate lemma NothingRead()
      requires old(Valid()) && b[..] == old(b[..]) && offset == old(offset) && f.pos == old(f.pos)
      requires icount == old(icount) && gbuf == old(gbuf) && state == old(state) && valid == old(valid)
      ensures Valid() && (Good() <==> old(Good()))
    {
      forall j | 0 <= j < b.Length ensures b[j] == old(b[j]) {
        assert b[..][j] == old(b[..])[j];
      }
    }

    /** Copy the bytes at the front back up and reset everything, leaving the last `left` of them unread. */
    method BackUp(i: nat, left: nat, ghost p: int)
      requires Front(i, p) && left <= i && (gbuf == UNGET || gbuf == b.Length) && (state.Racteof? ==> left == 0 && offset >= |f.contents|)
      modifies this`gbuf, this`icount, this`valid, b
      ensures Valid() && Unpushed() && Good() && icount == 0 - left && valid == i
    {
      hide Has;
      if i < b.Length - UNGET {
        MoveGood(b, b.Length - i, UNGET, i, UNGET, UNGET + i, f.contents, p - UNGET);
        gbuf := b.Length - i;
      }
      valid := i;
      icount := 0 - left;
      GoodIfValid(gbuf);
    }

    /** Look for `delim` in the unread part of the buffer and, if it is there, consume up to it: `j` bytes. */
    method TryBuffer(delim: Byte) returns (j: nat)
      requires Valid()
      modifies this`icount
      ensures Valid() && icount == old(icount) + j && (Good() <==> old(Good()))
      ensures var p, k := old(Boffset()), Find(f.contents, old(Boffset()), delim);
        if j > 0 then
          && p <= k < |f.contents| && j == k + 1 - p <= -old(icount)
          && var ip := b.Length + old(icount); b[ip..ip + j] == f.contents[p..k + 1]
        else offset <= Max(p, k)
    {
      hide Has;
      var i := -icount;
      HasPart(b, b.Length - valid, b.Length - i, b.Length, f.contents, offset - b.Length);
      var ep := FindIn(b.Length - i, i, delim, offset - b.Length, Boffset());
      if ep < 0 {
        return 0;
      }
      j := ep - (b.Length - i) + 1;
      HasSlice(b, b.Length - i, ep + 1, b.Length, f.contents, offset - b.Length);
      icount := icount + j;
    }

    /** What Brdline should leave behind when called with the cursor at `p`: a complete line of at most `room` bytes is
        found and consumed; otherwise nothing is consumed and `rdline` counts the bytes there are. */
    ghost predicate LineResult(delim: Byte, p: int, room: int, ip: int)
      requires 0 <= p
      reads this, b, f
    {
      var k := Find(f.contents, p, delim);
      if p <= k < |f.contents| && k + 1 - p <= room then
        && rdline == k + 1 - p && Boffset() == k + 1
        && 0 <= ip && ip + rdline <= b.Length && b[ip..ip + rdline] == f.contents[p..k + 1]
      else
        ip == -1 && Boffset() == p && rdline == Min(room, Max(0, |f.contents| - p))
    }

    /** The longest line Brdline can find: a full buffer, or all the bytes put back if they are more. */
    function Room(): int
      reads this`icount
    {
      Max(b.Length - UNGET, -icount)
    }

    /** Unread bytes reach into the unget area and do not hold the delimiter. */
    ghost predicate Overfull(delim: Byte)
      requires Valid()
      reads this, b, f
    {
      !Unpushed() && Find(f.contents, Boffset(), delim) >= offset
    }

    /** The line at the cursor, up to and including `delim`, as a place in the buffer.  A line that is not complete or
        does not fit in the buffer is not consumed; `rdline` then tells how much of it there is.  Exactly when bytes have
        been put back beyond the start of the buffer, with no delimiter among them, this fails: the ones that do not fit
        the buffer are skipped. */
    method Brdline(delim: int) returns (ip: int)
      requires Valid()
      modifies this, b, f
      ensures Valid() && (old(Unpushed()) ==> Unpushed()) && state == Ractive && (old(Trusted()) ==> Good())
      ensures LineResult(UChar(delim), old(Boffset()), old(Room()), ip) <==> !old(Overfull(UChar(delim)))
      ensures old(Overfull(UChar(delim))) ==> ip == -1 && rdline == b.Length - UNGET && Boffset() == old(offset) - rdline
    {
      hide Has;
      hide Good;
      var i, d := -icount, UChar(delim);
      if i == 0 && state != Ractive {
        state := Ractive;
        rdline := 0;
        gbuf := b.Length;
        EmptyGood();
        return -1;
      }
      var j := TryBuffer(d);
      if j > 0 {
        rdline := j;
        ip := b.Length - i;
        assert LineResult(d, old(Boffset()), old(Room()), ip);
        return;
      }
      if i > b.Length - UNGET {
        // nothing is copied and nothing read: the buffer is taken to be full
        gbuf := UNGET;
        rdline := b.Length - UNGET;
        icount := 0 - (b.Length - UNGET);
        GoodAt(UNGET);
        return -1;
      }
      ip := Append(d);
    }

    /** The second half of Brdline: copy the unread bytes to the front and append to them, looking for `delim`. */
    method Append(delim: Byte) returns (ip: int)
      requires Valid() && Unpushed() && state == Ractive
      requires offset <= Max(Boffset(), Find(f.contents, Boffset(), delim))
      modifies this, b, f
      ensures Valid() && Unpushed() && state == Ractive && Good() && LineResult(delim, old(Boffset()), b.Length - UNGET, ip)
    {
      hide Has;
      hide LineResult;
      ghost var p := Boffset();
      var i := ToFront();
      while UNGET + i < b.Length
        invariant Front(i, p) && gbuf == UNGET && state == Ractive && p + i <= Max(p, Find(f.contents, p, delim))
        decreases b.Length - i
      {
        var j := ReadMore(i, p);
        if j <= 0 {
          NotFound(i, delim, p);
          return -1;
        }
        HasPart(b, UNGET, UNGET + i, UNGET + i + j, f.contents, p - UNGET);
        i := i + j;
        var ep := FindIn(UNGET + i - j, j, delim, p - UNGET, p);
        if ep >= 0 {
          ip := Found(i, ep, delim, p);
          return;
        }
      }
      NotFound(i, delim, p);
      return -1;
    }

    /** Found in the new piece. */
    method Found(i: nat, ep: int, delim: Byte, ghost p: int) returns (ip: int)
      requires Front(i, p) && gbuf == UNGET && state == Ractive && UNGET <= ep < UNGET + i
      requires Find(f.contents, p, delim) == ep + p - UNGET < |f.contents|
      modifies this, b
      ensures Valid() && Unpushed() && state == Ractive && Good() && LineResult(delim, p, b.Length - UNGET, ip)
    {
      hide Has;
      var n := ep - UNGET + 1;
      BackUp(i, i - n, p);
      ip := b.Length - i;
      rdline := n;
      HasSlice(b, ip, ip + n, b.Length, f.contents, offset - b.Length);
    }

    /** End of file, or a full buffer, with no delimiter. */
    method NotFound(i: nat, delim: Byte, ghost p: int)
      requires Front(i, p) && gbuf == UNGET && state == Ractive && p + i <= Max(p, Find(f.contents, p, delim))
      requires i == b.Length - UNGET || p + i >= |f.contents|
      modifies this, b
      ensures Valid() && Unpushed() && state == Ractive && Good() && LineResult(delim, p, b.Length - UNGET, -1)
    {
      rdline := i;
      BackUp(i, i, p);
    }

    /** What Brdstr should return when called with the cursor at `p`: nothing at the end of the file, else the bytes up
        to the first delimiter or the end of the file, as badd leaves them. */
    ghost predicate StringResult(delim: int, nulldelim: bool, p: int, r: Option<seq<Byte>>)
      requires 0 <= p
      reads this, f
    {
      var k := Find(f.contents, p, UChar(delim));
      if p >= |f.contents| then r == None && Boffset() == p
      else if k < |f.contents| then
        r == Some(Badd([], f.contents[p..k + 1], delim, nulldelim)) && Boffset() == k + 1 && rdline == |r.value|
      else
        r == Some(f.contents[p..]) && Boffset() == |f.contents| && rdline == |r.value|
    }

    /** Where Brdstr starts to read if the delimiter is not among the unread bytes: bytes put back that do not fit the
        buffer are skipped. */
    function From(): int
      reads this
    {
      Max(Boffset(), offset - (b.Length - UNGET))
    }

    /** Whether what Bseek relies on is true after Brdstr.  If there is nothing to read, gbuf is moved as by Bgetc; if the
        string ends with the file, the buffer is left with a NUL after the last byte. */
    predicate StringKeeps(delim: int)
      requires Valid()
      reads this, b, f
    {
      state.Racteof? || if Boffset() <= Find(f.contents, Boffset(), UChar(delim)) < offset then Good() else PastBufferKeeps(delim)
    }

    predicate PastBufferKeeps(delim: int)
      requires Valid()
      reads this, b, f
    {
      if Find(f.contents, Boffset(), UChar(delim)) < |f.contents| then true
      else if Boffset() >= |f.contents| then Whole()
      else FromInside(); TailKept(f.contents, b.Length - UNGET, From())
    }

    lemma FromInside()
      requires Valid() && Boffset() < |f.contents|
      ensures 0 <= From() <= |f.contents|
    {
    }

    /** The buffer after a string from `p` on that ended with the file, in the middle of the buffer: its last piece and a
        NUL, and gbuf before them unless the buffer is full and it was not the first piece. */
    ghost predicate NulLeft(p: nat)
      requires UNGET < b.Length
      reads this, b, f
    {
      var size, m := b.Length - UNGET, |f.contents| - p;
      m > 0 && Tail(m, size) > 0 ==>
        && icount == 0 && offset == |f.contents| && b[b.Length - 1] == 0
        && gbuf == if m > size && Tail(m, size) + 1 == size then b.Length else b.Length - (Tail(m, size) + 1)
    }

    /** The string at the cursor, of any length.  Exactly when bytes have been put back beyond the start of the buffer,
        with no delimiter among them, this fails: the ones that do not fit the buffer are missing from the string.  A
        delimiter that is found is removed, if that is asked for, exactly if it is the value of a signed char. */
    method Brdstr(delim: int, nulldelim: bool) returns (r: Option<seq<Byte>>)
      requires Valid()
      modifies this, b, f
      ensures Valid() && (old(Unpushed()) ==> Unpushed())
      ensures StringResult(delim, nulldelim, old(Boffset()), r) <==> !old(Overfull(UChar(delim)))
      ensures old(Overfull(UChar(delim))) ==> StringResult(delim, nulldelim, old(offset) - (b.Length - UNGET), r)
      ensures var p, k := old(Boffset()), Find(f.contents, old(Boffset()), UChar(delim));
        !old(Overfull(UChar(delim))) && p <= k < |f.contents| && nulldelim ==> (r == Some(f.contents[p..k]) <==> -128 <= delim < 128)
      ensures state == Ractive && (Good() <==> old(StringKeeps(delim)))
      ensures old(state) == Ractive && Find(f.contents, old(Boffset()), UChar(delim)) == |f.contents| ==> NulLeft(old(From()))
    {
      hide Badd;
      hide Has;
      hide StringResult;
      hide StringKeeps;
      hide NulLeft;
      hide Find;
      ghost var p := Boffset();
      r := ReadString(delim, nulldelim);
      StringRemoved(delim, nulldelim, p, r);
    }

    /** What a string result means for a delimiter that is to be removed. */
    lemma StringRemoved(delim: int, nulldelim: bool, p: int, r: Option<seq<Byte>>)
      requires 0 <= p
      ensures var k := Find(f.contents, p, UChar(delim));
        StringResult(delim, nulldelim, p, r) && p <= k < |f.contents| && nulldelim ==> (r == Some(f.contents[p..k]) <==> -128 <= delim < 128)
    {
      hide Badd;
      hide Find;
      BaddExact(f.contents, p, delim);
    }

    /** The body of Brdstr. */
    method ReadString(delim: int, nulldelim: bool) returns (r: Option<seq<Byte>>)
      requires Valid()
      modifies this, b, f
      ensures Valid() && (old(Unpushed()) ==> Unpushed())
      ensures StringResult(delim, nulldelim, old(Boffset()), r) <==> !old(Overfull(UChar(delim)))
      ensures old(Overfull(UChar(delim))) ==> StringResult(delim, nulldelim, old(offset) - (b.Length - UNGET), r)
      ensures state == Ractive && (Good() <==> old(StringKeeps(delim)))
      ensures old(state) == Ractive && Find(f.contents, old(Boffset()), UChar(delim)) == |f.contents| ==> NulLeft(old(From()))
    {
      hide Badd;
      hide Has;
      hide NulLeft;
      hide TailKept;
      hide Whole;
      hide Good;
      hide Find;
      var i := -icount;
      rdline := 0;
      if i == 0 && state != Ractive {
        state := Ractive;
        gbuf := b.Length;
        EmptyGood();
        return None;
      }
      ghost var p := Boffset();
      var j := TryBuffer(UChar(delim));
      if j > 0 {
        var ip := b.Length - i;
        r := Some(Badd([], b[ip..ip + j], delim, nulldelim));
        rdline := |r.value|;
        return;
      }
      hide StringResult;
      r := ReadPast(delim, nulldelim);
    }

    /** The second half of Brdstr: the delimiter is not among the unread bytes. */
    method ReadPast(delim: int, nulldelim: bool) returns (r: Option<seq<Byte>>)
      requires Valid() && state == Ractive && rdline == 0 && offset <= Max(Boffset(), Find(f.contents, Boffset(), UChar(delim)))
      modifies this, b, f
      ensures Valid() && Unpushed() && state == Ractive
      ensures StringResult(delim, nulldelim, old(Boffset()), r) <==> !old(Overfull(UChar(delim)))
      ensures old(Overfull(UChar(delim))) ==> StringResult(delim, nulldelim, old(offset) - (b.Length - UNGET), r)
      ensures Good() <==> old(PastBufferKeeps(delim))
      ensures Find(f.contents, old(Boffset()), UChar(delim)) == |f.contents| ==> NulLeft(old(From()))
    {
      hide Badd;
      hide Has;
      hide At;
      hide Good;
      hide Find;
      hide NulLeft;
      hide TailKept;
      hide StringResult;
      ghost var p := Boffset();
      if icount < 0 { ValidInside(); }
      if -icount > b.Length - UNGET {
        r := Overflow(delim, nulldelim);
        return;
      }
      var i := ToFront();
      AtNothing(f.contents, p);
      r := Gather(i, delim, nulldelim, p);
    }

    /** More bytes have been put back than fit: only those from bbuf on are taken. */
    method Overflow(delim: int, nulldelim: bool) returns (r: Option<seq<Byte>>)
      requires Valid() && !Unpushed() && state == Ractive && Overfull(UChar(delim)) && rdline == 0
      modifies this, b, f
      ensures Valid() && Unpushed() && state == Ractive
      ensures var k := Find(f.contents, old(Boffset()), UChar(delim));
        && (Good() <==> k < |f.contents| || TailKept(f.contents, b.Length - UNGET, old(From())))
        && (k == |f.contents| ==> NulLeft(old(From())))
      ensures StringResult(delim, nulldelim, old(offset) - (b.Length - UNGET), r)
      ensures !StringResult(delim, nulldelim, old(Boffset()), r)
    {
      hide Has;
      hide Badd;
      hide At;
      hide Find;
      hide NulLeft;
      hide TailKept;
      hide StringResult;
      ghost var p, q := Boffset(), offset - (b.Length - UNGET);
      HasPart(b, b.Length - valid, UNGET, b.Length, f.contents, offset - b.Length);
      ValidInside();
      gbuf := UNGET;
      FindLater(f.contents, p, q, UChar(delim));
      AtNothing(f.contents, q);
      r := Gather(b.Length - UNGET, delim, nulldelim, q);
      Different(delim, nulldelim, p, q, r);
    }

    lemma ValidInside()
      requires Valid() && icount < 0
      ensures offset <= |f.contents|
    {
    }

    /** What is right from `q` on is not right from an earlier place. */
    lemma Different(delim: int, nulldelim: bool, p: nat, q: nat, r: Option<seq<Byte>>)
      requires p < q < |f.contents| && q <= Find(f.contents, p, UChar(delim)) && StringResult(delim, nulldelim, q, r)
      ensures !StringResult(delim, nulldelim, p, r)
    {
      hide Badd;
      hide Find;
      Longer(f.contents, p, q, delim, nulldelim);
    }

    /** The loop of Brdstr: `acc` holds the bytes `[p, q)` of earlier full buffers, the buffer the next `i`. */
    ghost predicate Gathered(i: nat, acc: seq<Byte>, p: nat, q: nat)
      reads this, b, f
    {
      && Front(i, q) && gbuf == (if p == q then UNGET else b.Length) && state == Ractive
      && p <= q && (p < q ==> q <= |f.contents|) && acc == At(f.contents, p, q - p) && |acc| == q - p == rdline
    }

    lemma FrontInside(i: nat, p: int)
      requires Front(i, p) && i > 0
      ensures p + i <= |f.contents|
    {
    }

    /** No byte of `[p, q)` is the delimiter. */
    ghost predicate Clear(delim: Byte, p: nat, q: int) {
      q <= Max(p, Find(f.contents, p, delim))
    }

    /** Fill the buffer, looking for `delim`; a full buffer without one is added to the user's string. */
    method Gather(i0: nat, delim: int, nulldelim: bool, ghost p: nat) returns (r: Option<seq<Byte>>)
      requires Gathered(i0, [], p, p) && Clear(UChar(delim), p, p + i0) && (i0 == 0 ==> Valid() && icount == 0)
      modifies this, b, f
      ensures Valid() && Unpushed() && state == Ractive && StringResult(delim, nulldelim, p, r)
      ensures var k := Find(f.contents, p, UChar(delim));
        && (Good() <==> if k < |f.contents| then true else if p >= |f.contents| then old(Good()) else TailKept(f.contents, b.Length - UNGET, p))
        && (k == |f.contents| ==> NulLeft(p))
    {
      hide Has;
      hide StringResult;
      hide Find;
      hide Good;
      hide GoodFrom;
      hide TailKept;
      hide NulLeft;
      hide Tail;
      hide At;
      TailStart(p);
      if i0 > 0 { FrontInside(i0, p); }
      r := None;
      var i := i0;
      ghost var q: nat := p;
      while true
        invariant Gathered(i, if r.None? then [] else r.value, p, q) && Clear(UChar(delim), p, q + i)
        invariant (r.None? <==> p == q) && (i == 0 ==> Valid() && icount == 0)
        invariant (p < q || i > 0 ==> q + i <= |f.contents|) && (i == 0 && p == q ==> (Good() <==> old(Good())))
        invariant SameTail(p, q)
        decreases |f.contents| - q, b.Length - i
      {
        if UNGET + i == b.Length {
          var acc := Flush(i, if r.None? then [] else r.value, p, q);
          WholeBuffer(p, q);
          r := Some(acc);
          q, i := q + i, 0;
          continue;
        }
        label before:
        var j := ReadMore(i, q);
        if j <= 0 && i == 0 {
          NothingRead@before();
          AtEnd(r, delim, nulldelim, p, q);
          NothingLeft(p, q);
          return;
        }
        if j <= 0 {
          r := LastPiece(i, if r.None? then [] else r.value, delim, nulldelim, p, q);
          return;
        }
        HasPart(b, UNGET, UNGET + i, UNGET + i + j, f.contents, q - UNGET);
        i := i + j;
        var ep := FindIn(UNGET + i - j, j, UChar(delim), q - UNGET, p);
        if ep >= 0 {
          r := Finish(i, ep, if r.None? then [] else r.value, delim, nulldelim, p, q);
          return;
        }
      }
    }

    /** A full buffer without the delimiter. */
    method Flush(i: nat, acc: seq<Byte>, ghost p: nat, ghost q: nat) returns (acc': seq<Byte>)
      requires Gathered(i, acc, p, q) && UNGET + i == b.Length
      modifies this
      ensures Gathered(0, acc', p, q + i) && icount == 0 && q + i <= |f.contents| && Valid()
    {
      hide Has;
      hide At;
      HasSlice(b, UNGET, UNGET + i, UNGET + i, f.contents, q - UNGET);
      AtSplit(f.contents, p, q - p, i);
      AtInside(f.contents, q, i);
      assert b[UNGET..] == b[UNGET..UNGET + i];
      HasNone(b, UNGET);
      acc' := acc + b[UNGET..];
      rdline := |acc'|;
      icount := 0;
      gbuf := b.Length;
      valid := i;
    }

    /** Nothing more to read and nothing buffered: return the pieces gathered so far, if any. */
    lemma AtEnd(r: Option<seq<Byte>>, delim: int, nulldelim: bool, p: nat, q: nat)
      requires Gathered(0, if r.None? then [] else r.value, p, q) && Clear(UChar(delim), p, q) && (r.None? <==> p == q)
      requires q >= |f.contents| && icount == 0
      ensures StringResult(delim, nulldelim, p, r) && Find(f.contents, p, UChar(delim)) == |f.contents|
    {
      if p <= |f.contents| { assert f.contents[p..] == f.contents[p..|f.contents|]; }
    }

    /** The whole buffers before `q` do not count for the last piece. */
    ghost predicate SameTail(p: nat, q: nat) {
      && UNGET < b.Length && p <= q
      && (p < q ==> p + (b.Length - UNGET) <= q <= |f.contents|)
      && (q <= |f.contents| ==> Tail(|f.contents| - p, b.Length - UNGET) == Tail(|f.contents| - q, b.Length - UNGET))
    }

    lemma TailStart(p: nat)
      requires UNGET < b.Length
      ensures SameTail(p, p)
    {
    }

    lemma WholeBuffer(p: nat, q: nat)
      requires SameTail(p, q) && q + (b.Length - UNGET) <= |f.contents|
      ensures SameTail(p, q + (b.Length - UNGET))
    {
    }

    /** If the file ends with a whole buffer, gbuf is right. */
    lemma NothingLeft(p: nat, q: nat)
      requires Valid() && SameTail(p, q) && Gathered(0, At(f.contents, p, q - p), p, q) && icount == 0
      requires q >= |f.contents| && (p < q ==> q == |f.contents|)
      ensures p < |f.contents| ==> Good() && TailKept(f.contents, b.Length - UNGET, p)
      ensures NulLeft(p)
    {
      if p < |f.contents| { GoodIfValid(gbuf); }
    }

    /** End of file but no delimiter: pretend there was one, a NUL, and remove it again. */
    method LastPiece(i: nat, acc: seq<Byte>, delim: int, nulldelim: bool, ghost p: nat, ghost q: nat)
      returns (r: Option<seq<Byte>>)
      requires Gathered(i, acc, p, q) && Clear(UChar(delim), p, q + i) && 0 < i && UNGET + i < b.Length && q + i >= |f.contents|
      requires SameTail(p, q)
      modifies this, b
      ensures Valid() && Unpushed() && state == Ractive && StringResult(delim, nulldelim, p, r)
      ensures p < |f.contents| && Find(f.contents, p, UChar(delim)) == |f.contents|
      ensures (Good() <==> TailKept(f.contents, b.Length - UNGET, p)) && NulLeft(p)
    {
      hide Has;
      hide Badd;
      hide At;
      hide Find;
      hide GoodFrom;
      hide StringResult;
      hide TailKept;
      hide NulLeft;
      hide SameTail;
      FrontInside(i, q);
      PieceEnds(i, acc, delim, p, q);
      PutNul(i, p, q);
      r := Some(Badd(acc, b[b.Length - (i + 1)..], 0, true));
      rdline := |r.value|;
      icount, valid := 0, 0;
      Ended(i, acc, delim, nulldelim, p, q, r);
      Shifted(i, p, q);
    }

    lemma PieceEnds(i: nat, acc: seq<Byte>, delim: int, p: nat, q: nat)
      requires Gathered(i, acc, p, q) && Clear(UChar(delim), p, q + i) && 0 < i && q + i == |f.contents|
      ensures Find(f.contents, p, UChar(delim)) == |f.contents| && UNGET < b.Length && p <= q
      ensures gbuf == (if p == q then UNGET else b.Length) && state == Ractive && offset == f.pos == |f.contents|
      ensures acc == At(f.contents, p, q - p)
    {
      hide Has;
      hide At;
    }

    /** Put the NUL behind the piece and move both up to ebuf. */
    method PutNul(i: nat, ghost p: nat, ghost q: nat)
      requires Front(i, q) && 0 < i && UNGET + i < b.Length && q + i == |f.contents| && gbuf == (if p == q then UNGET else b.Length)
      modifies this`gbuf, b
      ensures b[b.Length - (i + 1)..] == f.contents[q..q + i] + [0]
      ensures gbuf == if i + 1 < b.Length - UNGET || p == q then b.Length - (i + 1) else b.Length
    {
      hide Has;
      HasSlice(b, UNGET, UNGET + i, UNGET + i, f.contents, q - UNGET);
      b[UNGET + i] := 0;
      var n := i + 1;
      ghost var piece := b[UNGET..UNGET + n];
      assert piece == f.contents[q..q + i] + [0];
      if n < b.Length - UNGET {
        Memmove(b, b.Length - n, UNGET, n);
        gbuf := b.Length - n;
      }
      assert b[b.Length - n..] == piece;
    }

    lemma Ended(i: nat, acc: seq<Byte>, delim: int, nulldelim: bool, p: nat, q: nat, r: Option<seq<Byte>>)
      requires UNGET < b.Length < 0x8000_0000 && 0 < i && UNGET + i < b.Length && p <= q && q + i == |f.contents| == offset == f.pos
      requires b[b.Length - (i + 1)..] == f.contents[q..q + i] + [0] && acc == At(f.contents, p, q - p)
      requires Find(f.contents, p, UChar(delim)) == |f.contents| && r == Some(Badd(acc, b[b.Length - (i + 1)..], 0, true))
      requires rdline == |r.value| && icount == 0 && valid == 0 && state == Ractive && UNGET <= gbuf <= b.Length
      ensures Valid() && Unpushed() && StringResult(delim, nulldelim, p, r) && b[b.Length - 1] == 0
    {
      hide Badd;
      hide Find;
      NulRemoved(f.contents, p, q, i, acc);
      LastByte(b, i + 1);
    }

    /** After that, each byte of the piece stands where the one before it should. */
    lemma Shifted(i: nat, p: nat, q: nat)
      requires UNGET < b.Length && 0 < i && UNGET + i < b.Length && p <= q && q + i == |f.contents| == offset && SameTail(p, q)
      requires b[b.Length - (i + 1)..] == f.contents[q..q + i] + [0]
      requires gbuf == (if i + 1 < b.Length - UNGET || p == q then b.Length - (i + 1) else b.Length) && icount == 0 && b[b.Length - 1] == 0
      ensures Good() <==> TailKept(f.contents, b.Length - UNGET, p)
      ensures NulLeft(p)
    {
      hide NulFrom;
      if gbuf < b.Length {
        NulsOnly(b, i, q, f.contents);
      }
    }

    /** Found in the new piece: copy back up and reset everything. */
    method Finish(i: nat, ep: int, acc: seq<Byte>, delim: int, nulldelim: bool, ghost p: nat, ghost q: nat)
      returns (r: Option<seq<Byte>>)
      requires Gathered(i, acc, p, q) && UNGET <= ep < UNGET + i
      requires Find(f.contents, p, UChar(delim)) == ep + q - UNGET < |f.contents|
      modifies this, b
      ensures Valid() && Unpushed() && state == Ractive && Good() && StringResult(delim, nulldelim, p, r)
    {
      hide Has;
      hide Badd;
      var n := ep - UNGET + 1;
      BackUp(i, i - n, q);
      var ip := b.Length - i;
      HasSlice(b, ip, ip + n, b.Length, f.contents, offset - b.Length);
      PiecesJoin(f.contents, p, q, n, acc, delim, nulldelim);
      r := Some(Badd(acc, b[ip..ip + n], delim, nulldelim));
      rdline := |r.value|;
    }

    /** The file position that a seek asks for. */
    function Target(n: int, base: int): int
      reads this
    {
      if base == 0 then n else if base == 1 then n + Boffset() else |f.contents| + n
    }

    /** The value `icount` gets when a seek is tried within the buffer; it is stored in an int. */
    function Moved(target: int): int
      reads this
    {
      Wrap32(icount + (target - Boffset()))
    }

    /** The test of Bseek for staying within the buffer, which counts as empty after an end of file.  The negation is that
        of an int. */
    predicate StaysInBuffer(target: int)
      reads this
    {
      && target - Boffset() <= b.Length - UNGET
      && Moved(target) <= 0 && (if state == Racteof then 0 else b.Length - gbuf) >= Wrap32(-Moved(target))
    }

    /** The count of unread bytes after the displacement fits an int, and so does its negation. */
    predicate FitsInt(target: int)
      reads this
    {
      -0x8000_0000 < icount + (target - Boffset()) < 0x8000_0000
    }

    /** Seek.  As long as the bytes from gbuf on are the file's, the next bytes delivered are the file's bytes at the
        new cursor, whether or not the descriptor was moved; and the new cursor is the one asked for, in a buffer that has
        it, unless the displacement does not fit an int and still looks like a place in the buffer. */
    method Bseek(n: int, base: int) returns (r: int)
      requires Valid() && 0 <= base <= 2 && Target(n, base) >= 0
      modifies this, f`pos
      ensures r == old(Target(n, base)) && state == Ractive
      ensures old(Trusted()) ==>
        ((Valid() && Boffset() == r) <==> base == 2 || !old(StaysInBuffer(Target(n, base))) || old(FitsInt(Target(n, base))))
      ensures old(Trusted()) && Valid() ==> Good() && Unpushed()
      ensures base != 2 && old(StaysInBuffer(Target(n, base))) ==>
        && offset == old(offset) && icount == old(Moved(Target(n, base))) && (old(state) == Ractive ==> gbuf == old(gbuf))
        && (icount == -0x8000_0000 ==> !Valid())
      ensures base == 2 || !old(StaysInBuffer(Target(n, base))) ==> offset == f.pos == r && icount == 0 && gbuf == b.Length && Valid()
    {
      hide Has;
      hide Good;
      hide GoodFrom;
      hide Wrap32;
      WrapExact(icount + (Target(n, base) - Boffset()));
      if state == Racteof {
        state := Ractive;
        icount := 0;
        gbuf := b.Length;
        EmptyGood();
      }
      r := n;
      if base != 2 {
        if base == 1 {
          r := r + Boffset();
        }
        var stays := TryWithin(r - Boffset());
        if stays {
          return;
        }
      } else {
        r := |f.contents| + n;
      }
      f.Seek(r);
      icount := 0;
      gbuf := b.Length;
      offset := r;
      valid, far := 0, r;
      HasNone(b, b.Length);
      EmptyGood();
    }

    lemma EmptyGood()
      requires 0 <= offset && gbuf == b.Length
      ensures Good()
    {
    }

    /** Try to seek within the buffer, by a displacement of `d`. */
    method TryWithin(d: int) returns (stays: bool)
      requires Valid() && state == Ractive
      modifies this`icount, this`valid
      ensures icount == Wrap32(old(icount) + d) && (Good() <==> old(Good()))
      ensures stays <==> d <= b.Length - UNGET && icount <= 0 && b.Length - gbuf >= Wrap32(-icount)
      ensures stays && Good() ==> (Valid() <==> icount > -0x8000_0000 && icount >= -offset) && (Valid() ==> Unpushed())
      ensures icount == -0x8000_0000 ==> !Valid()
    {
      hide Has;
      icount := Wrap32(icount + d);
      stays := d <= b.Length - UNGET && icount <= 0 && b.Length - gbuf >= Wrap32(-icount);
      if -0x8000_0000 <= icount <= 0 { Negated(icount); }
      // from now on all good bytes count as valid
      if Good() && valid < Min(b.Length - gbuf, offset) {
        valid := Min(b.Length - gbuf, offset);
      }
    }

    /** memchr over file bytes: no earlier byte from file position `p` on is `delim`. */
    method FindIn(lo: nat, n: nat, delim: Byte, ghost at: int, ghost p: int) returns (ep: int)
      requires lo + n <= b.Length && Has(b, lo, lo + n, f.contents, at)
      requires 0 <= p <= lo + at && lo + at <= Max(p, Find(f.contents, p, delim))
      ensures if ep >= 0 then lo <= ep < lo + n && Find(f.contents, p, delim) == ep + at < |f.contents|
        else ep == -1 && lo + n + at <= Max(p, Find(f.contents, p, delim))
    {
      var k := lo;
      while k < lo + n
        invariant lo <= k <= lo + n && k + at <= Max(p, Find(f.contents, p, delim))
      {
        if b[k] == delim {
          return k;
        }
        k := k + 1;
      }
      return -1;
    }
  }

  /** The byte memchr looks for, given an int. */
  function UChar(delim: int): Byte { delim % 256 }

  /** The value of a byte as a plain char, which is signed. */
  function Signed(b: Byte): int { if b < 128 then b else b - 256 }

  /** badd: append `data` to `p`, then drop a final delimiter if asked.  A plain char is compared with the delimiter as
      an int. */
  function Badd(p: seq<Byte>, data: seq<Byte>, delim: int, nulldelim: bool): seq<Byte> {
    var q := p + data;
    if q != [] && nulldelim && Signed(q[|q| - 1]) == delim then q[..|q| - 1] else q
  }

  /** A delimiter that memchr found is removed exactly if it is the value of a signed char. */
  lemma BaddExact(contents: seq<Byte>, p: int, delim: int)
    requires 0 <= p
    ensures var k := Find(contents, p, UChar(delim));
      p <= k < |contents| ==> (Badd([], contents[p..k + 1], delim, true) == contents[p..k] <==> -128 <= delim < 128)
  {
    hide Find;
    hide Badd;
    hide UChar;
    var k := Find(contents, p, UChar(delim));
    if p <= k < |contents| {
      Ends(contents, p, k);
      BaddLast(contents[p..k + 1], delim, true);
    }
  }

  lemma Ends(s: seq<Byte>, p: nat, k: nat)
    requires p <= k < |s|
    ensures |s[p..k + 1]| == k + 1 - p && s[p..k + 1][k - p] == s[k] && s[p..k + 1][..k - p] == s[p..k]
  {
  }

  lemma BaddLast(q: seq<Byte>, delim: int, nulldelim: bool)
    requires q != [] && q[|q| - 1] == UChar(delim)
    ensures Badd([], q, delim, nulldelim) == if nulldelim && -128 <= delim < 128 then q[..|q| - 1] else q
  {
    assert [] + q == q;
    SignedUChar(delim);
    hide Signed;
    hide UChar;
  }

  lemma SignedUChar(delim: int)
    ensures Signed(UChar(delim)) == delim <==> -128 <= delim < 128
  {
  }

  lemma BaddIs(contents: seq<Byte>, p: int, delim: int, nulldelim: bool)
    requires 0 <= p
    ensures var k := Find(contents, p, UChar(delim));
      p <= k < |contents| ==>
        Badd([], contents[p..k + 1], delim, nulldelim) == if nulldelim && -128 <= delim < 128 then contents[p..k] else contents[p..k + 1]
  {
    hide Find;
    hide Badd;
    hide UChar;
    var k := Find(contents, p, UChar(delim));
    if p <= k < |contents| {
      Ends(contents, p, k);
      BaddLast(contents[p..k + 1], delim, nulldelim);
    }
  }

  lemma FindLater(contents: seq<Byte>, p: int, q: int, d: Byte)
    requires 0 <= p <= q && (q <= Find(contents, p, d) || q <= p)
    ensures Find(contents, q, d) == Find(contents, p, d)
  {
  }

  /** A string taken from a later place is another string. */
  lemma Longer(contents: seq<Byte>, p: int, q: int, delim: int, nulldelim: bool)
    requires 0 <= p < q < |contents| && q <= Find(contents, p, UChar(delim))
    ensures var k := Find(contents, p, UChar(delim));
      && Find(contents, q, UChar(delim)) == k
      && (if k < |contents| then
            Badd([], contents[p..k + 1], delim, nulldelim) != Badd([], contents[q..k + 1], delim, nulldelim)
          else contents[p..] != contents[q..])
  {
    hide Badd;
    hide Find;
    FindLater(contents, p, q, UChar(delim));
    BaddIs(contents, p, delim, nulldelim);
    BaddIs(contents, q, delim, nulldelim);
    var k := Find(contents, p, UChar(delim));
    if k < |contents| {
      Lengths(contents, p, q, k);
    } else {
      assert |contents[p..]| != |contents[q..]|;
    }
  }

  lemma Lengths(contents: seq<Byte>, p: nat, q: nat, k: nat)
    requires p < q <= k < |contents|
    ensures contents[p..k] != contents[q..k] && contents[p..k + 1] != contents[q..k + 1]
  {
    assert |contents[p..k]| != |contents[q..k]| && |contents[p..k + 1]| != |contents[q..k + 1]|;
  }

  /** Removing the pretended NUL leaves everything up to the end of the file. */
  lemma NulRemoved(contents: seq<Byte>, p: nat, q: nat, i: nat, acc: seq<Byte>)
    requires p <= q && q + i == |contents| && 0 < i && acc == At(contents, p, q - p)
    ensures Badd(acc, contents[q..q + i] + [0], 0, true) == contents[p..]
  {
    assert acc + (contents[q..q + i] + [0]) == contents[p..] + [0];
  }

  lemma PiecesJoin(contents: seq<Byte>, p: nat, q: nat, n: nat, acc: seq<Byte>, delim: int, nulldelim: bool)
    requires p <= q && q + n <= |contents| && 0 < n && acc == At(contents, p, q - p)
    ensures Badd(acc, contents[q..q + n], delim, nulldelim) == Badd([], contents[p..q + n], delim, nulldelim)
  {
    assert acc + contents[q..q + n] == [] + contents[p..q + n];
  }

  lemma FirstByte(b: array<Byte>, from: int, lo: int, hi: int, contents: seq<Byte>, at: int)
    requires Has(b, from, hi, contents, at) && from <= lo
    ensures 0 <= lo < hi ==> 0 <= lo + at < |contents| && b[lo] == contents[lo + at]
  {
  }

  lemma HasNone(b: array<Byte>, at: nat)
    requires at <= b.Length
    ensures forall contents, from :: Has(b, at, at, contents, from)
  {
  }

  lemma HasSlice(b: array<Byte>, lo: int, mid: int, hi: int, contents: seq<Byte>, at: int)
    requires Has(b, lo, hi, contents, at) && lo <= mid <= hi && (lo < mid || (0 <= lo + at <= |contents|))
    ensures 0 <= lo + at <= mid + at <= |contents| && b[lo..mid] == contents[lo + at..mid + at]
  {
  }

  lemma WrapExact(x: int)
    ensures -0x8000_0000 <= Wrap32(x) < 0x8000_0000 && (Wrap32(x) == x <==> -0x8000_0000 <= x < 0x8000_0000)
  {
  }

  lemma Negated(x: int)
    requires -0x8000_0000 <= x <= 0
    ensures Wrap32(-x) == if x == -0x8000_0000 then x else -x
  {
  }

  /** What is left of `m` bytes after whole buffers of `size` bytes. */
  function Tail(m: nat, size: nat): (r: nat)
    requires size > 0
    ensures r < size && r <= m
    decreases m
  {
    if m < size then m else Tail(m - size, size)
  }

  /** Whether gbuf is right after a string from `p` to the end of the file was read through a buffer of `size` bytes: it
      ends with a whole buffer, the last piece and its NUL fill the buffer and are not the first piece, or the bytes there
      are nothing but NULs. */
  predicate TailKept(contents: seq<Byte>, size: nat, p: nat)
    requires size > 0 && p <= |contents|
  {
    var m := |contents| - p;
    var i := Tail(m, size);
    i == 0 || (m > size && i + 1 == size) || NulFrom(contents, |contents| - (i + 1))
  }

  /** The file has only NULs from `lo` on. */
  predicate NulFrom(contents: seq<Byte>, lo: int) {
    forall r :: 0 <= r < |contents| && lo <= r ==> contents[r] == 0
  }

  lemma {:induction false} AllNul(contents: seq<Byte>, lo: nat)
    requires lo <= |contents|
    requires forall r :: lo <= r < |contents| ==> contents[r] == if r + 1 < |contents| then contents[r + 1] else 0
    ensures NulFrom(contents, lo)
    decreases |contents| - lo
  {
    if lo < |contents| {
      AllNul(contents, lo + 1);
      if lo + 1 < |contents| { assert contents[lo + 1] == 0; }
      assert contents[lo] == if lo + 1 < |contents| then contents[lo + 1] else 0;
    }
  }

  /** Bytes one place too early are right exactly if they are all NUL. */
  lemma NulsOnly(b: array<Byte>, i: nat, q: nat, contents: seq<Byte>)
    requires 0 < i < b.Length && q + i == |contents| && b[b.Length - (i + 1)..] == contents[q..q + i] + [0]
    ensures Has(b, Max(b.Length - (i + 1), b.Length - |contents|), b.Length, contents, |contents| - b.Length)
            <==> NulFrom(contents, |contents| - (i + 1))
  {
    var lo, at := Max(b.Length - (i + 1), b.Length - |contents|), |contents| - b.Length;
    forall j | lo <= j < b.Length ensures b[j] == if j + at + 1 < |contents| then contents[j + at + 1] else 0 {
      assert b[j] == b[b.Length - (i + 1)..][j - (b.Length - (i + 1))];
    }
    if Has(b, lo, b.Length, contents, at) {
      forall r | lo + at <= r < |contents| ensures contents[r] == if r + 1 < |contents| then contents[r + 1] else 0 {
        assert b[r - at] == contents[r];
      }
      AllNul(contents, lo + at);
    }
  }

  lemma LastByte(b: array<Byte>, n: nat)
    requires 0 < n <= b.Length
    ensures b[b.Length - n..][n - 1] == b[b.Length - 1]
  {
  }

  /** The first position from `from` on that holds `d`, or the end of the file. */
  function Find(s: seq<Byte>, from: int, d: Byte): (k: nat)
    requires 0 <= from
    ensures k <= |s| && (from <= |s| ==> from <= k)
    ensures k < |s| ==> from <= k && s[k] == d
    ensures forall i :: from <= i < k ==> s[i] != d
    decreases |s| - from
  {
    if from >= |s| then |s| else if s[from] == d then from else Find(s, from + 1, d)
  }

  lemma HasPart(b: array<Byte>, lo: int, lo': int, hi: int, contents: seq<Byte>, at: int)
    requires Has(b, lo, hi, contents, at) && lo <= lo' <= hi
    ensures Has(b, lo', hi, contents, at)
  {
  }

  lemma AtSplit(contents: seq<Byte>, p: int, m: nat, n: nat)
    requires 0 <= p
    ensures |At(contents, p, m)| == m ==> At(contents, p, m) + At(contents, p + m, n) == At(contents, p, m + n)
  {
  }

  lemma AtInside(contents: seq<Byte>, p: int, n: nat)
    requires 0 <= p && p + n <= |contents|
    ensures At(contents, p, n) == contents[p..p + n]
  {
  }

  lemma AtNothing(contents: seq<Byte>, p: int)
    ensures At(contents, p, 0) == []
  {
  }

  lemma AtPastEnd(contents: seq<Byte>, p: int, m: nat, n: nat)
    requires m <= n && p + m >= |contents|
    ensures At(contents, p, m) == At(contents, p, n)
  {
  }

  /** The file's bytes at position `p`, at most `n` of them. */
  function At(contents: seq<Byte>, p: int, n: nat): (r: seq<Byte>) {
    if p < 0 || p >= |contents| then [] else if p + n <= |contents| then contents[p..p + n] else contents[p..]
  }

  // ----- whole runs, against a plain cursor

  datatype Op = Getc | Read(n: nat) | Line(delim: int) | Str(delim: int, nulldelim: bool)

  datatype Reply = Char(c: int) | Bytes(bytes: seq<Byte>) | Nil

  /** What an operation answers with the cursor at `p` of a plain file, and the new cursor.  `size` is only the longest
      line Brdline can deliver; nothing else depends on buffering or on how the descriptor splits its reads. */
  function Answer(contents: seq<Byte>, size: nat, p: nat, op: Op): (Reply, nat) {
    match op
    case Getc => if p < |contents| then (Char(contents[p]), p + 1) else (Char(BEOF), p)
    case Read(n) => (Bytes(At(contents, p, n)), p + |At(contents, p, n)|)
    case Line(d) =>
      var k := Find(contents, p, UChar(d));
      if p <= k < |contents| && k + 1 - p <= size then (Bytes(contents[p..k + 1]), k + 1) else (Nil, p)
    case Str(d, nulldelim) =>
      var k := Find(contents, p, UChar(d));
      if p >= |contents| then (Nil, p)
      else if k < |contents| then (Bytes(if nulldelim && -128 <= d < 128 then contents[p..k] else contents[p..k + 1]), k + 1)
      else (Bytes(contents[p..]), |contents|)
  }

  function Answers(contents: seq<Byte>, size: nat, p: nat, ops: seq<Op>): (seq<Reply>, nat)
    decreases |ops|
  {
    if ops == [] then ([], p)
    else
      var (r, p') := Answer(contents, size, p, ops[0]);
      var (rs, q) := Answers(contents, size, p', ops[1..]);
      ([r] + rs, q)
  }

  /** An operation after which a seek cannot be trusted: Bgetc at the end of the file for the second time, if the buffer
      was not whole, and Brdstr that does not keep gbuf right. */
  predicate Spoils(r: Reader, op: Op)
    requires r.Valid()
    reads r, r.b, r.f
  {
    (op.Getc? && r.state.Racteof? && !r.Good()) || (op.Str? && !r.StringKeeps(op.delim))
  }

  /** An operation that is never one of those, whatever the buffer holds. */
  predicate Harmless(contents: seq<Byte>, size: nat, p: nat, op: Op)
    requires size > 0
  {
    && (op.Getc? ==> p < |contents|)
    && (op.Str? ==> p < |contents| && (Find(contents, p, UChar(op.delim)) < |contents| || TailKept(contents, size, p)))
  }

  lemma HarmlessKeeps(r: Reader, op: Op)
    requires r.Valid() && r.Unpushed() && r.Trusted() && Harmless(r.f.contents, r.b.Length - UNGET, r.Boffset(), op)
    ensures !Spoils(r, op)
  {
    hide Has;
    hide TailKept;
  }

  method PerformLine(r: Reader, d: int) returns (reply: Reply)
    requires r.Valid() && r.Unpushed()
    modifies r, r.b, r.f
    ensures r.Valid() && r.Unpushed() && (old(r.Trusted()) ==> r.Trusted())
    ensures (reply, r.Boffset()) == Answer(r.f.contents, r.b.Length - UNGET, old(r.Boffset()), Line(d))
  {
    hide Has;
    var ip := r.Brdline(d);
    reply := if ip < 0 then Nil else Bytes(r.b[ip..ip + r.rdline]);
  }

  method PerformStr(r: Reader, d: int, nulldelim: bool) returns (reply: Reply)
    requires r.Valid() && r.Unpushed()
    modifies r, r.b, r.f
    ensures r.Valid() && r.Unpushed() && (r.Trusted() <==> old(r.StringKeeps(d)))
    ensures (reply, r.Boffset()) == Answer(r.f.contents, r.b.Length - UNGET, old(r.Boffset()), Str(d, nulldelim))
  {
    hide Has;
    hide Badd;
    hide Find;
    BaddIs(r.f.contents, r.Boffset(), d, nulldelim);
    var s := r.Brdstr(d, nulldelim);
    reply := if s.None? then Nil else Bytes(s.value);
  }

  /** Perform one operation on the buffer.  A seek after it can be trusted exactly if it is not one that spoils that. */
  method Perform(r: Reader, op: Op) returns (reply: Reply)
    requires r.Valid() && r.Unpushed()
    modifies r, r.b, r.f
    ensures r.Valid() && r.Unpushed() && (old(r.Trusted()) ==> (r.Trusted() <==> !old(Spoils(r, op))))
    ensures (reply, r.Boffset()) == Answer(r.f.contents, r.b.Length - UNGET, old(r.Boffset()), op)
  {
    hide Has;
    hide Find;
    match op {
      case Getc =>
        var c := r.Bgetc();
        reply := Char(c);
      case Read(n) =>
        var bytes := r.Bread(n);
        reply := Bytes(bytes);
      case Line(d) =>
        reply := PerformLine(r, d);
      case Str(d, nulldelim) =>
        reply := PerformStr(r, d, nulldelim);
    }
  }

  /** Any run of reading operations, whatever the pattern of short reads, answers exactly as a plain cursor does, and
      leaves Boffset at that cursor. */
  method PerformAll(r: Reader, ops: seq<Op>) returns (replies: seq<Reply>)
    requires r.Valid() && r.Unpushed()
    modifies r, r.b, r.f
    ensures r.Valid() && r.Unpushed()
    ensures (replies, r.Boffset()) == Answers(r.f.contents, r.b.Length - UNGET, old(r.Boffset()), ops)
    decreases |ops|
  {
    hide Has;
    if ops == [] {
      return [];
    }
    var first := Perform(r, ops[0]);
    var rest := PerformAll(r, ops[1..]);
    return [first] + rest;
  }

  /** The state of a plain cursor that may back up: where it is and how far it has been. */
  datatype Cursor = Cursor(p: nat, far: nat)

  /** A plain cursor under Bgetc (true) and Bungetc (false).  A call to Bungetc that would go back more than UNGET bytes
      from the furthest point, or before the start of the file, is not made. */
  function Move(contents: seq<Byte>, c: Cursor, getc: bool): (int, Cursor) {
    if getc then
      if c.p < |contents| then (contents[c.p], Cursor(c.p + 1, Max(c.far, c.p + 1))) else (BEOF, c.(far := Max(c.far, c.p)))
    else if c.p > 0 && c.p > c.far - UNGET then (1, c.(p := c.p - 1))
    else (0, c)
  }

  function Moves(contents: seq<Byte>, c: Cursor, ops: seq<bool>): (seq<int>, Cursor)
    decreases |ops|
  {
    if ops == [] then ([], c)
    else
      var (r, c') := Move(contents, c, ops[0]);
      var (rs, d) := Moves(contents, c', ops[1..]);
      ([r] + rs, d)
  }

  /** Any run of Bgetc and Bungetc that backs up at most UNGET bytes re-delivers the same bytes, across refills, short
      reads and the end of the file. */
  method GetAndUnget(r: Reader, far: nat, ops: seq<bool>) returns (replies: seq<int>)
    requires r.Valid() && r.Recoverable() && far == r.far && r.b.Length - UNGET >= UNGET
    modifies r, r.b, r.f
    ensures r.Valid() && r.Recoverable()
    ensures (replies, Cursor(r.Boffset(), r.far)) == Moves(r.f.contents, Cursor(old(r.Boffset()), far), ops)
    decreases |ops|
  {
    hide Has;
    if ops == [] {
      return [];
    }
    var reply, far' := 0, far;
    if ops[0] {
      reply := r.Bgetc();
      far' := Max(far, r.Boffset());
    } else if r.Boffset() > 0 && r.Boffset() > far - UNGET {
      r.Bungetc();
      reply := 1;
    }
    var rest := GetAndUnget(r, far', ops[1..]);
    return [reply] + rest;
  }

  /** Reading and seeking, from the start of the file, from the cursor or from the end. */
  datatype SeekOp = Plain(op: Op) | Seek(n: int, base: nat)

  /** Where a seek goes. */
  function Goes(contents: seq<Byte>, p: nat, n: int, base: nat): int {
    if base == 0 then n else if base == 1 then n + p else |contents| + n
  }

  /** The cursor after an operation. */
  function Next(contents: seq<Byte>, size: nat, p: nat, op: SeekOp): nat {
    match op
    case Plain(o) => Answer(contents, size, p, o).1
    case Seek(n, base) => Max(0, Goes(contents, p, n, base))
  }

  /** Seeks go to places in or after the file, with displacements that fit an int unless they are from its end. */
  predicate SeeksFit(contents: seq<Byte>, size: nat, p: nat, ops: seq<SeekOp>)
    decreases |ops|
  {
    ops == [] || (
      && (ops[0].Seek? ==>
            var q := Goes(contents, p, ops[0].n, ops[0].base);
            ops[0].base <= 2 && q >= 0 && (ops[0].base == 2 || size - 0x8000_0000 < q - p < 0x8000_0000))
      && SeeksFit(contents, size, Next(contents, size, p, ops[0]), ops[1..]))
  }

  /** All operations are harmless. */
  predicate AllHarmless(contents: seq<Byte>, size: nat, p: nat, ops: seq<SeekOp>)
    requires size > 0
    decreases |ops|
  {
    ops == [] || (
      && (ops[0].Plain? ==> Harmless(contents, size, p, ops[0].op))
      && AllHarmless(contents, size, Next(contents, size, p, ops[0]), ops[1..]))
  }

  function SeekAnswers(contents: seq<Byte>, size: nat, p: nat, ops: seq<SeekOp>): (seq<Reply>, nat)
    decreases |ops|
  {
    if ops == [] then ([], p)
    else
      var r := match ops[0] case Plain(op) => Answer(contents, size, p, op).0 case Seek(_, _) => Nil;
      var (rs, q) := SeekAnswers(contents, size, Next(contents, size, p, ops[0]), ops[1..]);
      ([r] + rs, q)
  }

  /** A seek satisfied within the buffer reads the same bytes as a real seek: every answer is that of a plain cursor, up to
      the first operation after which a seek cannot be trusted, if there is one. */
  method PerformSeeking(r: Reader, ops: seq<SeekOp>) returns (replies: seq<Reply>, n: nat)
    requires r.Valid() && r.Unpushed() && r.Trusted()
    requires SeeksFit(r.f.contents, r.b.Length - UNGET, r.Boffset(), ops)
    modifies r, r.b, r.f
    ensures r.Valid() && r.Unpushed() && r.Trusted()
    ensures n <= |ops| && (replies, r.Boffset()) == SeekAnswers(r.f.contents, r.b.Length - UNGET, old(r.Boffset()), ops[..n])
    ensures n < |ops| ==> ops[n].Plain? && Spoils(r, ops[n].op)
    ensures AllHarmless(r.f.contents, r.b.Length - UNGET, old(r.Boffset()), ops) ==> n == |ops|
    decreases |ops|
  {
    hide Has;
    hide Find;
    hide Harmless;
    hide Answer;
    if ops == [] {
      return [], 0;
    }
    if ops[0].Plain? {
      if Spoils(r, ops[0].op) {
        NotHarmless(r, ops[0].op);
        return [], 0;
      }
    }
    var first := Nil;
    match ops[0] {
      case Plain(op) => first := Perform(r, op);
      case Seek(m, base) => var _ := r.Bseek(m, base);
    }
    var rest, k := PerformSeeking(r, ops[1..]);
    assert ops[..k + 1][0] == ops[0] && ops[..k + 1][1..] == ops[1..][..k];
    return [first] + rest, k + 1;
  }

  lemma NotHarmless(r: Reader, op: Op)
    requires r.Valid() && r.Unpushed() && r.Trusted() && Spoils(r, op)
    ensures !Harmless(r.f.contents, r.b.Length - UNGET, r.Boffset(), op)
  {
    hide Spoils;
    if Harmless(r.f.contents, r.b.Length - UNGET, r.Boffset(), op) {
      HarmlessKeeps(r, op);
    }
  }

  /** When what Bseek relies on is not true, there is a seek that stays in the buffer where the byte is not the file's. */
  lemma Misled(r: Reader) returns (q: nat)
    requires r.Valid() && r.Unpushed() && r.state == Ractive && !r.Good()
    ensures r.StaysInBuffer(q) && r.FitsInt(q)
    ensures var k := r.b.Length + q - r.offset;
      0 <= k < r.b.Length && (q >= |r.f.contents| || r.b[k] != r.f.contents[q])
  {
    var lo, at := Max(r.gbuf, r.b.Length - r.offset), r.offset - r.b.Length;
    if r.offset > |r.f.contents| {
      q := r.offset - 1;
    } else {
      var j :| lo <= j < r.b.Length && r.b[j] != r.f.contents[j + at];
      q := j + at;
    }
  }
}
