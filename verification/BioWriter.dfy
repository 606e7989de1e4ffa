/** Buffered output: libbio/bwrite.c, bputc.c, bflush.c and boffset.c on a descriptor without write errors. */
module BioWriter {
  import opened Words

  /** A descriptor that accepts everything written to it. */
  class Sink {
    var written: seq<Byte>

    constructor ()
      ensures written == []
    {
      written := [];
    }

    method Write(buf: array<Byte>, n: nat) returns (k: nat)
      requires n <= buf.Length
      modifies this
      ensures k == n && written == old(written) + buf[..n]
    {
      written := written + buf[..n];
      return n;
    }
  }

  /** A Biobuf in state Bwactive.  `b` is the buffer from bbuf to ebuf; `ocount` is minus the room left. */
  class Writer {
    const f: Sink
    const b: array<Byte>
    var ocount: int
    var offset: int

    ghost predicate Valid()
      reads this, b, f
    {
      && b.Length > 0 && -b.Length <= ocount <= 0
      && offset == |f.written|
    }

    /** Everything written so far: what the descriptor has, then what is still buffered. */
    ghost function Output(): seq<Byte>
      requires Valid()
      reads this, b, f
    {
      f.written + b[..b.Length + ocount]
    }

    /** Binits for OWRITE with a buffer of `size` bytes besides the unget area. */
    constructor (f: Sink, size: nat)
      requires size > 0 && f.written == []
      ensures Valid() && this.f == f && fresh(b) && b.Length == size && Output() == []
    {
      this.f := f;
      b := new Byte[size];
      ocount := 0 - size;
      offset := 0;
    }

    /** The position of the next byte is the number of bytes written, whether or not they were sent. */
    function Boffset(): (n: int)
      requires Valid()
      reads this, b, f
      ensures n == |Output()|
    {
      offset + (b.Length + ocount)
    }

    method Bflush()
      requires Valid()
      modifies this`ocount, this`offset, f
      ensures Valid() && Output() == old(Output()) && ocount == -b.Length
      ensures f.written == old(Output())
    {
      var n := b.Length + ocount;
      if n == 0 {
        return;
      }
      var c := f.Write(b, n);
      offset := offset + n;
      ocount := -b.Length;
    }

    method Bputc(c: Byte)
      requires Valid()
      modifies this`ocount, this`offset, f, b
      ensures Valid() && Output() == old(Output()) + [c]
    {
      ghost var out := Output();
      while true
        invariant Valid() && Output() == out
        decreases if ocount == 0 then 1 else 0
      {
        var i := ocount;
        if i != 0 {
          ghost var pending := b[..b.Length + i];
          b[b.Length + i] := c;
          ocount := i + 1;
          assert b[..b.Length + ocount] == pending + [c];
          return;
        }
        Bflush();
      }
    }

    method Bwrite(p: seq<Byte>) returns (count: int)
      requires Valid()
      modifies this`ocount, this`offset, f, b
      ensures Valid() && Output() == old(Output()) + p && count == |p|
    {
      ghost var out := Output();
      var oc, c := ocount, 0;
      assert p[..0] == [];
      while c < |p|
        invariant 0 <= c <= |p| && -b.Length <= oc <= 0 && offset == |f.written|
        invariant f.written + b[..b.Length + oc] == out + p[..c]
        decreases |p| - c, if oc == 0 then 1 else 0
      {
        var n := if -oc > |p| - c then |p| - c else -oc;
        if n == 0 {
          ghost var before := b[..b.Length + oc];
          var i := f.Write(b, b.Length);
          offset := offset + i;
          oc := -b.Length;
          assert b[..b.Length + oc] == [] && f.written + [] == f.written;
          assert before == b[..b.Length];
          continue;
        }
        ghost var pending := b[..b.Length + oc];
        forall j | 0 <= j < n { b[b.Length + oc + j] := p[c + j]; }
        assert b[..b.Length + (oc + n)] == pending + p[c..c + n];
        assert p[..c] + p[c..c + n] == p[..c + n];
        assert f.written + (pending + p[c..c + n]) == out + p[..c] + p[c..c + n] == out + p[..c + n];
        oc := oc + n;
        c := c + n;
      }
      assert p[..c] == p;
      ocount := oc;
      return |p|;
    }
  }
}
