/**
  The compressed image format: what a sequence of byte codes means (libdraw/computil.c:4-8,
  include/draw.h:523-527) and the bit flipping of old images.
 */
module CompressedImage {
  import opened HashChains
  import opened Wrappers
  import opened Words

  const NDUMP := 128     // maximum length of dump
  const NCBLOCK := 6000  // size of compressed blocks

  /** Copy `n` bytes, one at a time, from `d` bytes back; the source may run into the copy. */
  function CopyBack(out: seq<Byte>, d: nat, n: nat): (r: seq<Byte>)
    requires 1 <= d <= |out|
    ensures |r| == |out| + n
    decreases n
  {
    if n == 0 then out else CopyBack(out + [out[|out| - d]], d, n - 1)
  }

  /** The length and distance of the match code `b0 b1`. */
  function MatchLength(b0: int): int {
    b0 / 4 + NMATCH
  }

  function MatchDistance(b0: int, b1: int): int {
    (b0 % 4) * 256 + b1 + 1
  }

  /** The two bytes of the match code for `n` bytes from `d` back. */
  function MatchCode(n: int, d: int): (code: seq<Byte>)
    requires NMATCH <= n <= NRUN && 1 <= d <= NMEM
    ensures |code| == 2 && code[0] < 128 && MatchLength(code[0]) == n && MatchDistance(code[0], code[1]) == d
    ensures n == code[0] as int / 4 + 3 && d == 256 * (code[0] as int % 4) + code[1] as int + 1
  {
    var offs := d - 1;
    [(n - NMATCH) * 4 + offs / 256, offs % 256]
  }

  /** The number of bytes the code at the front of `enc` occupies, or None if `enc` ends inside it. */
  function CodeLength(enc: seq<Byte>): Option<nat>
    requires enc != []
  {
    var n := if enc[0] >= 128 then enc[0] - 128 + 2 else 2;
    if |enc| < n then None else Some(n)
  }

  /** The bytes that `enc` stands for when `out` has already been produced. */
  function Decode(enc: seq<Byte>, out: seq<Byte>): Option<seq<Byte>> {
    if enc == [] then Some(out)
    else if CodeLength(enc).None? then None
    else
      var n := CodeLength(enc).value;
      if enc[0] >= 128 then Decode(enc[n..], out + enc[1..n])
      else
        var d := MatchDistance(enc[0], enc[1]);
        if d > |out| then None else Decode(enc[n..], CopyBack(out, d, MatchLength(enc[0])))
  }

  /** The format: after a byte from 128 on come as many bytes as it says, less 127; a smaller byte `b` and the next one, `c`,
      say that the b / 4 + 3 bytes to come repeat those from 256 * (b % 4) + c + 1 before. */
  lemma CodeMeans(b: Byte, rest: seq<Byte>, out: seq<Byte>)
    ensures b >= 128 && |rest| == b - 127 ==> Decode([b] + rest, out) == Some(out + rest)
    ensures b < 128 && |rest| == 1 ==>
      var d: int := 256 * (b as int % 4) + rest[0] as int + 1;
      if d > |out| then Decode([b] + rest, out) == None
      else
        && Decode([b] + rest, out).Some?
        && var r := Decode([b] + rest, out).value;
           && out <= r && |r| == |out| + b / 4 + 3
           && forall i :: |out| <= i < |r| ==> r[i] == r[i - d]
  {
    var enc := [b] + rest;
    if b >= 128 && |rest| == b - 127 {
      assert enc[1..|enc|] == rest && enc[|enc|..] == [];
    }
    if b < 128 && |rest| == 1 {
      assert enc[2..] == [];
      var d: int := 256 * (b as int % 4) + rest[0] as int + 1;
      if d <= |out| { CopyMeans(out, d, b / 4 + 3); }
    }
  }

  lemma {:induction false} CopyMeans(out: seq<Byte>, d: nat, n: nat)
    requires 1 <= d <= |out|
    ensures out <= CopyBack(out, d, n)
    ensures forall i :: |out| <= i < |out| + n ==> CopyBack(out, d, n)[i] == CopyBack(out, d, n)[i - d]
    decreases n
  {
    if n > 0 {
      var next := out + [out[|out| - d]];
      CopyMeans(next, d, n - 1);
      assert CopyBack(out, d, n)[..|next|] == next;
      assert CopyBack(out, d, n)[|out|] == next[|out|] && CopyBack(out, d, n)[|out| - d] == next[|out| - d];
    }
  }

  lemma {:induction false} DecodeAppend(a: seq<Byte>, b: seq<Byte>, out: seq<Byte>)
    requires Decode(a, out).Some?
    ensures Decode(a + b, out) == Decode(b, Decode(a, out).value)
    decreases |a|
  {
    if a == [] {
      assert a + b == b;
    } else {
      var n := CodeLength(a).value;
      assert (a + b)[n..] == a[n..] + b;
      if a[0] >= 128 {
        assert (a + b)[1..n] == a[1..n];
        DecodeAppend(a[n..], b, out + a[1..n]);
      } else {
        DecodeAppend(a[n..], b, CopyBack(out, MatchDistance(a[0], a[1]), MatchLength(a[0])));
      }
    }
  }

  /** A literal code appended to an encoding appends its bytes. */
  lemma DecodeDump(enc: seq<Byte>, dump: seq<Byte>, out: seq<Byte>)
    requires Decode(enc, []) == Some(out) && 1 <= |dump| <= NDUMP
    ensures Decode(enc + [|dump| - 1 + 128] + dump, []) == Some(out + dump)
  {
    hide Decode;
    var code := [|dump| - 1 + 128] + dump;
    DecodeAppend(enc, code, []);
    assert enc + code == enc + [|dump| - 1 + 128] + dump;
    DecodeOneDump(dump, out);
  }

  lemma DecodeOneDump(dump: seq<Byte>, out: seq<Byte>)
    requires 1 <= |dump| <= NDUMP
    ensures Decode([|dump| - 1 + 128] + dump, out) == Some(out + dump)
  {
    hide CopyBack;
    var code := [|dump| - 1 + 128] + dump;
    assert code[1..|code|] == dump;
    assert code[|code|..] == [];
    assert Decode([], out + dump) == Some(out + dump);
  }

  /** Copying back over text that repeats itself reproduces the text. */
  lemma {:induction false} CopyRepeats(data: seq<Byte>, base: nat, p: nat, q: nat, n: nat)
    requires base <= q < p && p + n <= |data| && Same(data, p, q, n)
    ensures CopyBack(data[base..p], p - q, n) == data[base..p + n]
    decreases n
  {
    if n > 0 {
      var out := data[base..p];
      assert Agree(data, p, q, 0);
      assert out + [out[|out| - (p - q)]] == data[base..p + 1];
      var p', q' := p + 1, q + 1;
      forall i | 0 <= i < n - 1 ensures Agree(data, p', q', i) { assert Agree(data, p, q, i + 1); }
      CopyRepeats(data, base, p', q', n - 1);
    }
  }

  /** A match code appended to an encoding of `data[base..p]` extends it over the match. */
  lemma DecodeMatch(enc: seq<Byte>, data: seq<Byte>, base: nat, p: nat, q: nat, n: nat)
    requires base <= q < p <= q + NMEM && NMATCH <= n <= NRUN && p + n <= |data| && Same(data, p, q, n)
    requires Decode(enc, []) == Some(data[base..p])
    ensures Decode(enc + MatchCode(n, p - q), []) == Some(data[base..p + n])
  {
    var code := MatchCode(n, p - q);
    DecodeAppend(enc, code, []);
    assert code[2..] == [];
    CopyRepeats(data, base, p, q, n);
  }

  /** The buffer size for one block of an image with `bpl` bytes per line. */
  function CompBlockSize(bpl: nat): (n: nat)
    ensures n >= 2 * bpl && n >= NCBLOCK && (n == 2 * bpl || n == NCBLOCK)
  {
    if 2 * bpl < NCBLOCK then NCBLOCK else 2 * bpl
  }

  // ----- old images store complemented pixels

  function Flip(s: seq<Byte>): (r: seq<Byte>)
    ensures |r| == |s| && forall i :: 0 <= i < |s| ==> r[i] == 255 - s[i]
  {
    seq(|s|, i requires 0 <= i < |s| => 255 - s[i])
  }

  function FlipResult(r: Option<seq<Byte>>): Option<seq<Byte>> {
    if r.None? then None else Some(Flip(r.value))
  }

  /** The length of the first code, cut short by the end of the input. */
  function FirstLength(enc: seq<Byte>): (n: nat)
    requires enc != []
    ensures 1 <= n <= |enc|
  {
    if CodeLength(enc).None? then |enc| else CodeLength(enc).value
  }

  /** The code with its literal bytes complemented; match codes stay as they are. */
  function Twiddled(enc: seq<Byte>): (r: seq<Byte>)
    ensures |r| == |enc|
  {
    if enc == [] then []
    else var n := FirstLength(enc); TwiddledCode(enc[..n]) + Twiddled(enc[n..])
  }

  function TwiddledCode(code: seq<Byte>): (r: seq<Byte>)
    requires code != []
    ensures |r| == |code| && r[0] == code[0]
  {
    if code[0] >= 128 then [code[0]] + Flip(code[1..]) else code
  }

  /** By how many bytes the last literal runs past the end of the code. */
  function Overrun(enc: seq<Byte>): nat {
    if enc == [] then 0
    else if CodeLength(enc).Some? then Overrun(enc[CodeLength(enc).value..])
    else if enc[0] >= 128 then enc[0] - 128 + 2 - |enc| else 0
  }

  lemma {:induction false} CopyFlipped(out: seq<Byte>, d: nat, n: nat)
    requires 1 <= d <= |out|
    ensures CopyBack(Flip(out), d, n) == Flip(CopyBack(out, d, n))
    decreases n
  {
    if n > 0 {
      var out' := out + [out[|out| - d]];
      assert Flip(out') == Flip(out) + [Flip(out)[|out| - d]];
      CopyFlipped(out', d, n - 1);
    }
  }

  lemma TwiddledParts(enc: seq<Byte>)
    requires enc != []
    ensures var n, t := FirstLength(enc), Twiddled(enc);
      CodeLength(t) == CodeLength(enc) && t[..n] == TwiddledCode(enc[..n]) && t[n..] == Twiddled(enc[n..])
  {
    var n, t := FirstLength(enc), Twiddled(enc);
    var code := TwiddledCode(enc[..n]);
    assert t == code + Twiddled(enc[n..]);
    hide *;
    Split(code, Twiddled(enc[n..]));
    SameLength(enc, t);
  }

  lemma Split(a: seq<Byte>, b: seq<Byte>)
    ensures (a + b)[..|a|] == a && (a + b)[|a|..] == b
  {
  }

  lemma SameLength(enc: seq<Byte>, t: seq<Byte>)
    requires enc != [] && |t| == |enc| && t[0] == enc[0]
    ensures CodeLength(t) == CodeLength(enc)
  {
  }

  lemma TwiddledNothing()
    ensures Twiddled([]) == []
  {
  }

  lemma TwiddledDump(enc: seq<Byte>, t: seq<Byte>, n: nat, out: seq<Byte>)
    requires 1 <= n <= |enc| && n <= |t| && enc[0] >= 128 && t[..n] == TwiddledCode(enc[..n])
    ensures t[1..n] == Flip(enc[1..n]) && Flip(out + enc[1..n]) == Flip(out) + Flip(enc[1..n])
  {
    assert enc[..n][1..] == enc[1..n] && t[..n][1..] == t[1..n];
  }

  /** Decoding the twiddled code gives the complement of what the code stands for, although matches are untouched. */
  lemma {:induction false} TwiddleCommutes(enc: seq<Byte>, out: seq<Byte>)
    ensures Decode(Twiddled(enc), Flip(out)) == FlipResult(Decode(enc, out))
    decreases |enc|
  {
    hide Twiddled;
    hide CopyBack;
    if enc == [] {
      TwiddledNothing();
    } else {
      TwiddledParts(enc);
      if CodeLength(enc).Some? {
        var n, t := CodeLength(enc).value, Twiddled(enc);
        if enc[0] >= 128 {
          TwiddledDump(enc, t, n, out);
          TwiddleCommutes(enc[n..], out + enc[1..n]);
        } else if MatchDistance(enc[0], enc[1]) <= |out| {
          assert t[1] == t[..n][1] == enc[1];
          var d, m := MatchDistance(enc[0], enc[1]), MatchLength(enc[0]);
          CopyFlipped(out, d, m);
          TwiddleCommutes(enc[n..], CopyBack(out, d, m));
        }
      }
    }
  }

  lemma {:induction false} TwiddleTwice(enc: seq<Byte>)
    ensures Twiddled(Twiddled(enc)) == enc
    decreases |enc|
  {
    if enc != [] {
      var n, t := FirstLength(enc), Twiddled(enc);
      TwiddledParts(enc);
      TwiddledParts(t);
      TwiddleTwice(enc[n..]);
      hide Twiddled;
      assert TwiddledCode(TwiddledCode(enc[..n])) == enc[..n];
      assert Twiddled(t) == Twiddled(t)[..n] + Twiddled(t)[n..];
      assert enc == enc[..n] + enc[n..];
    }
  }

  /** Complement `buf[lo..hi]`. */
  method FlipRange(buf: array<Byte>, lo: nat, hi: nat)
    requires lo <= hi <= buf.Length
    modifies buf
    ensures forall i :: 0 <= i < buf.Length ==> buf[i] == if lo <= i < hi then 255 - old(buf[i]) else old(buf[i])
  {
    var j := lo;
    while j < hi
      invariant lo <= j <= hi
      invariant forall i :: 0 <= i < buf.Length ==> buf[i] == if lo <= i < j then 255 - old(buf[i]) else old(buf[i])
    {
      buf[j] := 255 - buf[j];
      j := j + 1;
    }
  }

  /** The length of the first code as it says itself. */
  function Claimed(enc: seq<Byte>): nat
    requires enc != []
  {
    if enc[0] >= 128 then enc[0] - 128 + 2 else 2
  }

  /** Complement the literals of the code at `b`; the result is the position of the next code. */
  method TwiddleOne(buf: array<Byte>, b: nat, n: nat) returns (next: nat)
    requires b < n <= buf.Length && n + Overrun(buf[b..n]) <= buf.Length
    modifies buf
    ensures next == b + Claimed(old(buf[b..n]))
    ensures forall i :: 0 <= i < buf.Length ==>
      buf[i] == if b < i < next && old(buf[b]) >= 128 then 255 - old(buf[i]) else old(buf[i])
  {
    ghost var rest := buf[b..n];
    var c := buf[b];
    next := b + 1;
    if c >= 128 {
      var k := c - 128 + 1;
      assert 1 + k == Claimed(rest);
      FlipRange(buf, next, next + k);
      next := next + k;
    } else {
      next := next + 1;
    }
  }

  /** One more code done: `done` grows by the twiddled code that `rest` loses. */
  lemma Splice(done: seq<Byte>, rest: seq<Byte>, tail: seq<Byte>, m: nat, code: seq<Byte>, all: seq<Byte>)
    requires 0 < m == |code| <= |rest| && |all| == |done| + |rest| + |tail|
    requires forall i :: 0 <= i < |all| ==>
      all[i] == if |done| <= i < |done| + m then code[i - |done|] else (done + rest + tail)[i]
    ensures all == (done + code) + rest[m..] + tail
  {
  }

  lemma TwiddledCodeAt(code: seq<Byte>)
    requires code != []
    ensures forall i :: 0 <= i < |code| ==>
      TwiddledCode(code)[i] == if i > 0 && code[0] >= 128 then 255 - code[i] else code[i]
  {
  }

  /** Work done on a buffer: `done` is finished, `rest` is still to do, `tail` is not part of the block. */
  ghost predicate Progress(buf: array<Byte>, b: nat, n: nat, done: seq<Byte>, rest: seq<Byte>, tail: seq<Byte>)
    reads buf
  {
    && |done| == (if b <= n then b else n) && |done| + |rest| == n && n + |tail| == buf.Length
    && buf[..] == done + rest + tail && Overrun(rest) <= |tail|
  }

  /** All codes are done; the last literal has gone `o` bytes into `tail`. */
  ghost predicate Complete(buf: array<Byte>, n: nat, done: seq<Byte>, tail: seq<Byte>, o: nat)
    reads buf
  {
    |done| == n && o <= |tail| && buf[..] == done + Flip(tail[..o]) + tail[o..]
  }

  /** The code at `b` runs past the end. */
  predicate RunsOver(rest: seq<Byte>)
    requires rest != []
  {
    CodeLength(rest).None? && rest[0] >= 128
  }

  lemma Lengths(rest: seq<Byte>)
    requires rest != []
    ensures var m := FirstLength(rest);
      && (RunsOver(rest) ==> m == |rest| && Overrun(rest) == Claimed(rest) - |rest| > 0)
      && (!RunsOver(rest) ==> Overrun(rest[m..]) == Overrun(rest) && m <= Claimed(rest) && (m < Claimed(rest) ==> m == |rest|))
  {
  }

  method TwiddleNext(buf: array<Byte>, b: nat, n: nat, ghost done: seq<Byte>, ghost rest: seq<Byte>, ghost tail: seq<Byte>)
    returns (next: nat)
    requires b < n && Progress(buf, b, n, done, rest, tail)
    modifies buf
    ensures var m := FirstLength(rest);
      && next > b
      && (!RunsOver(rest) ==> Progress(buf, next, n, done + TwiddledCode(rest[..m]), rest[m..], tail))
      && (RunsOver(rest) ==> next > n && Complete(buf, n, done + TwiddledCode(rest), tail, Overrun(rest)))
  {
    hide Overrun;
    ghost var m, was := FirstLength(rest), buf[..];
    ghost var code, o := TwiddledCode(rest[..m]), Overrun(rest);
    TwiddledCodeAt(rest[..m]);
    Lengths(rest);
    assert buf[b..n] == rest by { assert was[b..n] == rest; }
    next := TwiddleOne(buf, b, n);
    assert rest[..m] == rest || m < |rest|;
    hide TwiddledCode;
    hide FirstLength;
    hide CodeLength;
    if RunsOver(rest) {
      SpliceOver(done, rest, tail, code, o, buf[..]);
    } else {
      hide Claimed;
      Splice(done, rest, tail, m, code, buf[..]);
    }
  }

  /** The last code done, with what it takes of `tail`. */
  lemma SpliceOver(done: seq<Byte>, rest: seq<Byte>, tail: seq<Byte>, code: seq<Byte>, o: nat, all: seq<Byte>)
    requires |code| == |rest| && |all| == |done| + |rest| + |tail| && o <= |tail|
    requires forall i :: 0 <= i < |all| ==>
      all[i] == if |done| <= i < |done| + |rest| then code[i - |done|]
                else if |done| + |rest| <= i < |done| + |rest| + o then 255 - (done + rest + tail)[i]
                else (done + rest + tail)[i]
    ensures all == (done + code) + Flip(tail[..o]) + tail[o..]
  {
  }

  /** Complement the literal bytes of the first `n` bytes of `buf` in place, and those of the last literal that come
      after them. */
  method Twiddle(buf: array<Byte>, n: nat)
    requires n <= buf.Length && n + Overrun(buf[..n]) <= buf.Length
    modifies buf
    ensures var o := Overrun(old(buf[..n]));
      buf[..] == Twiddled(old(buf[..n])) + Flip(old(buf[n..n + o])) + old(buf[n + o..])
  {
    hide Twiddled;
    hide TwiddledCode;
    hide FirstLength;
    hide Overrun;
    hide RunsOver;
    ghost var want, tail, o := Twiddled(buf[..n]), buf[n..], Overrun(buf[..n]);
    ghost var done, rest: seq<Byte> := [], buf[..n];
    var b := 0;
    assert done + Twiddled(rest) == want && done + rest + tail == buf[..];
    assert tail[..o] == buf[n..n + o] && tail[o..] == buf[n + o..];
    while b < n
      invariant done + Twiddled(rest) == want
      invariant (Progress(buf, b, n, done, rest, tail) && Overrun(rest) == o) || (b >= n && rest == [] && Complete(buf, n, done, tail, o))
    {
      TwiddledStep(done, rest);
      Lengths(rest);
      ghost var m := FirstLength(rest);
      b := TwiddleNext(buf, b, n, done, rest, tail);
      assert rest[..m] == rest || m < |rest|;
      done, rest := done + TwiddledCode(rest[..m]), rest[m..];
    }
    NothingLeft();
    assert rest == [] && done + [] == done;
    if o == 0 { assert Flip(tail[..0]) == [] && tail[0..] == tail && done + [] + tail == done + tail; }
  }

  lemma NothingLeft()
    ensures Twiddled([]) == [] && Overrun([]) == 0
  {
  }

  lemma TwiddledUnfold(rest: seq<Byte>)
    requires rest != []
    ensures var m := FirstLength(rest); m <= |rest| && Twiddled(rest) == TwiddledCode(rest[..m]) + Twiddled(rest[m..])
  {
    hide TwiddledCode;
  }

  lemma TwiddledStep(done: seq<Byte>, rest: seq<Byte>)
    requires rest != []
    ensures var m := FirstLength(rest); m <= |rest| && done + Twiddled(rest) == (done + TwiddledCode(rest[..m])) + Twiddled(rest[m..])
  {
    hide TwiddledCode;
    hide FirstLength;
    hide Twiddled;
    TwiddledUnfold(rest);
    var m := FirstLength(rest);
    Assoc(done, TwiddledCode(rest[..m]), Twiddled(rest[m..]));
  }

  lemma Assoc(a: seq<Byte>, b: seq<Byte>, c: seq<Byte>)
    ensures a + (b + c) == (a + b) + c
  {
  }
}
