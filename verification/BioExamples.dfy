/** Runs of module BioReader in which libbio does not do what a plain cursor over the file would do. */
module BioExamples {
  import opened Wrappers
  import opened Words
  import opened BioReader

  /** A delimiter of 128 or more is found but not removed; as a negative int, the same byte is. */
  lemma DelimiterKept(size: nat)
    ensures Answer([65, 200], size, 0, Str(200, true)) == (Bytes([65, 200]), 2)
    ensures Answer([65, 200], size, 0, Str(200 - 256, true)) == (Bytes([65]), 2)
  {
    var s: seq<Byte> := [65, 200];
    assert s[0..1] == [65] && s[0..2] == s;
    assert Find(s, 1, 200) == 1;
  }

  /** `n` calls of Bgetc that find their bytes in the buffer. */
  method GetBuffered(r: Reader, n: nat)
    requires r.Valid() && n <= -r.icount && r.state == Ractive
    modifies r, r.b, r.f
    ensures r.Valid() && r.icount == old(r.icount) + n && r.b[..] == old(r.b[..]) && r.state == Ractive
    ensures r.Buffered(old(r.offset), old(r.valid), old(r.gbuf), old(r.f.calls))
  {
    hide r.Valid;
    hide Has;
    for i := 0 to n
      invariant r.Valid() && r.icount == old(r.icount) + i && r.b[..] == old(r.b[..]) && r.state == Ractive
      invariant r.Buffered(old(r.offset), old(r.valid), old(r.gbuf), old(r.f.calls))
    {
      var _ := r.Bgetc();
    }
  }

  /** A buffer of 8 bytes on a file whose reads are never short, after reading 9 bytes: the second buffer has been filled. */
  method NineRead(contents: seq<Byte>) returns (r: Reader)
    requires 9 <= |contents| <= 16
    ensures fresh(r) && fresh(r.b) && fresh(r.f) && r.Valid() && r.f.contents == contents && r.b.Length == UNGET + 8 && r.state == Ractive
    ensures r.offset == |contents| && r.icount == 9 - |contents| && r.valid == |contents| - 8 + UNGET && r.gbuf == r.b.Length - (|contents| - 8)
    ensures |contents| < 8 + 3 ==> r.b[UNGET] == contents[8]
  {
    var f := new File(contents, _ => 100);
    r := new Reader(f, 8);
    var _ := r.Bgetc();
    GetBuffered(r, 7);
    var _ := r.Bgetc();
  }

  /** Sixteen bytes without a delimiter, nine of them read and two put back: Brdline finds no line, which is right, but
      moves the cursor from 7 to 8. */
  method PutBackIsLost() returns (before: int, line: int, after: int)
    ensures before == 7 && line == -1 && after == 8
  {
    var contents: seq<Byte> := seq(16, _ => 65);
    var r := NineRead(contents);
    r.Bungetc();
    r.Bungetc();
    before := r.Boffset();
    assert r.Overfull(UChar(10)) by {
      assert Find(contents, 7, 10) == 16;
    }
    line := r.Brdline(10);
    after := r.Boffset();
  }

  /** A seek from 2^32 + 100 to 100 says 100 and does not move. */
  method SeekStays() returns (said: int, got: int)
    ensures said == 100 && got == M32 + 100
  {
    var f := new File([], _ => 0);
    var r := new Reader(f, 8);
    var _ := r.Bseek(M32 + 100, 0);
    said := r.Bseek(100, 0);
    got := r.Boffset();
  }

  /** A file of the ten bytes 0 to 9, read to its end and twice more: a seek to 2 stays in the buffer, whose next byte
      is then 8. */
  method WrongByteAfterEnd() returns (at: int, next: Byte)
    ensures at == 2 && next == 8
  {
    hide Has;
    hide Reader.GoodFrom;
    var contents: seq<Byte> := seq(10, i requires 0 <= i < 10 => i);
    var r := NineRead(contents);
    var _ := r.Bgetc();
    var _ := r.Bgetc();
    var _ := r.Bgetc();
    assert r.b[UNGET] == r.b[UNGET..][0];
    var _ := r.Bseek(2, 0);
    at := r.Boffset();
    next := r.b[r.b.Length + r.icount];
  }

  /** A seek from 2^31 to the start of the file: the count becomes -2^31, whose negation as an int is negative again, so
      the buffer, which is empty, is taken to hold the place. */
  method SeekOutside() returns (said: int, count: int, ghost valid: bool)
    ensures said == 0 && count == -0x8000_0000 && !valid
  {
    var f := new File([], _ => 0);
    var r := new Reader(f, 8);
    var _ := r.Bseek(0x8000_0000, 0);
    said := r.Bseek(0, 0);
    count := r.icount;
    valid := r.Valid();
  }

  /** A file of the bytes a and b, read as one string that ends with the file: a seek to the b stays in the buffer, whose
      next byte is then NUL. */
  method NulForB() returns (got: Option<seq<Byte>>, at: int, next: Byte)
    ensures got == Some([97, 98]) && at == 1 && next == 0
  {
    hide Has;
    hide Reader.GoodFrom;
    hide TailKept;
    var contents: seq<Byte> := [97, 98];
    var f := new File(contents, _ => 100);
    var r := new Reader(f, 8);
    assert Find(contents, 1, 10) == 2 && Find(contents, 0, 10) == 2;
    got := r.Brdstr(10, false);
    assert contents[0..] == contents;
    var _ := r.Bseek(1, 0);
    at := r.Boffset();
    next := r.b[r.b.Length + r.icount];
  }
}
