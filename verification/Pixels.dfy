/** How libdraw/writeimage.c gets the pixels of an image from the display, by libdraw/unloadimage.c. */
module Pixels {
  import opened WriteImage
  import opened Words

  const DISPLAYBUFSIZE: nat := 8000

  /** What comes of reading the pixels.  `Stuck` is a loop that no longer changes anything. */
  datatype Outcome = Done | TooWide | DividedByZero | Stuck

  lemma {:induction false} SpanIsTimes(n: nat, bpl: nat)
    ensures Span(n, bpl) == n * bpl
  {
    if n > 0 { SpanIsTimes(n - 1, bpl); }
  }

  /** Division says how many lines fit. */
  lemma LinesFit(room: nat, bpl: nat)
    requires bpl > 0
    ensures Span(room / bpl, bpl) <= room && (room / bpl == 0 <==> room < bpl)
  {
    SpanIsTimes(room / bpl, bpl);
    Quotient(room, bpl);
  }

  lemma Quotient(room: nat, bpl: nat)
    requires bpl > 0
    ensures room / bpl * bpl <= room && (room / bpl == 0 <==> room < bpl)
  {
  }

  /** The bytes of the lines from `y` to `y'`, as the display sends them. */
  function Lines(pixels: seq<Byte>, bpl: nat, y: nat, y': nat): (r: seq<Byte>)
    requires y <= y' && Span(y', bpl) <= |pixels|
    ensures |r| == Span(y' - y, bpl)
  {
    SpanSplit(y, y', bpl);
    pixels[Span(y, bpl)..Span(y', bpl)]
  }

  lemma LinesJoin(pixels: seq<Byte>, bpl: nat, lines: nat, x: nat, y: nat, z: nat)
    requires |pixels| == Span(lines, bpl) && x <= y <= z <= lines
    ensures Span(x, bpl) <= Span(y, bpl) <= Span(z, bpl) <= |pixels|
    ensures Lines(pixels, bpl, x, y) + Lines(pixels, bpl, y, z) == Lines(pixels, bpl, x, z)
  {
    SpanMonotone(x, y, bpl);
    SpanMonotone(y, z, bpl);
    SpanMonotone(z, lines, bpl);
    hide Span;
    SlicesJoin(pixels, Span(x, bpl), Span(y, bpl), Span(z, bpl));
  }

  lemma SlicesJoin(s: seq<Byte>, a: nat, b: nat, c: nat)
    requires a <= b <= c <= |s|
    ensures s[a..b] + s[b..c] == s[a..c]
  {
  }

  /** unloadimage: read the lines from `miny` to `maxy`, so many at a time that a reply fits the display's buffer. */
  method Unload(pixels: seq<Byte>, bpl: nat, lines: nat, miny: nat, maxy: nat) returns (out: Outcome, data: seq<Byte>)
    requires |pixels| == Span(lines, bpl) && miny <= maxy <= lines
    ensures out == if miny == maxy then Done else if bpl == 0 then DividedByZero else if bpl > DISPLAYBUFSIZE then TooWide else Done
    ensures out == Done ==> Span(maxy, bpl) <= |pixels| && data == Lines(pixels, bpl, miny, maxy)
  {
    hide *;
    var y := miny;
    LinesJoin(pixels, bpl, lines, miny, miny, maxy);
    data := Lines(pixels, bpl, miny, miny);
    while y < maxy
      invariant miny <= y <= maxy && Span(y, bpl) <= |pixels| && data == Lines(pixels, bpl, miny, y)
      invariant y > miny ==> 0 < bpl <= DISPLAYBUFSIZE
    {
      if bpl == 0 {
        return DividedByZero, [];
      }
      LinesFit(DISPLAYBUFSIZE, bpl);
      var dy := DISPLAYBUFSIZE / bpl;
      if dy <= 0 {
        return TooWide, [];
      }
      if dy > maxy - y {
        dy := maxy - y;
      }
      LinesJoin(pixels, bpl, lines, miny, y, y + dy);
      data := data + Lines(pixels, bpl, y, y + dy);
      y := y + dy;
    }
    out := Done;
  }

  /** The first loop of writeimage: all lines, in pieces of at most `chunk` bytes, which is what the display's buffer
      holds besides the headers. */
  method ReadPixels(pixels: seq<Byte>, bpl: nat, lines: nat, chunk: nat) returns (out: Outcome, data: seq<Byte>)
    requires |pixels| == Span(lines, bpl)
    ensures out == Done <==> lines == 0 || (0 < bpl <= chunk && bpl <= DISPLAYBUFSIZE)
    ensures out == DividedByZero <==> lines > 0 && bpl == 0
    ensures out == Stuck <==> lines > 0 && bpl > chunk
    ensures out == Done ==> data == pixels
  {
    hide *;
    var y := 0;
    LinesJoin(pixels, bpl, lines, 0, 0, lines);
    data := Lines(pixels, bpl, 0, 0);
    while y != lines
      invariant 0 <= y <= lines && Span(y, bpl) <= |pixels| && data == Lines(pixels, bpl, 0, y)
      invariant y > 0 ==> 0 < bpl <= chunk && bpl <= DISPLAYBUFSIZE
      decreases lines - y
    {
      var dy := lines - y;
      WideOrNot(dy, bpl, chunk);
      if Span(dy, bpl) > chunk {
        dy := chunk / bpl;
      }
      var more;
      out, more := Unload(pixels, bpl, lines, y, y + dy);
      if out != Done {
        return out, [];
      }
      if dy == 0 {
        // the next round would be this one again
        return Stuck, [];
      }
      LinesJoin(pixels, bpl, lines, 0, y, y + dy);
      data := data + more;
      y := y + dy;
    }
    AllLines(pixels, bpl, lines);
    out := Done;
  }

  lemma WideOrNot(dy: nat, bpl: nat, chunk: nat)
    requires dy > 0
    ensures bpl == 0 ==> Span(dy, bpl) == 0
    ensures bpl > chunk ==> Span(dy, bpl) > chunk
    ensures Span(dy, bpl) > chunk ==> bpl > 0 && chunk / bpl < dy && (chunk / bpl == 0 <==> chunk < bpl)
  {
    SpanIsTimes(dy, bpl);
    if bpl == 0 {
      SpanOfEmptyLines(dy);
    } else {
      SpanMonotone(1, dy, bpl);
      LinesFit(chunk, bpl);
      if chunk / bpl >= dy { SpanMonotone(dy, chunk / bpl, bpl); }
    }
  }

  lemma AllLines(pixels: seq<Byte>, bpl: nat, lines: nat)
    requires |pixels| == Span(lines, bpl)
    ensures Lines(pixels, bpl, 0, lines) == pixels
  {
  }

  /** Two images that are never written, the display's buffer having 8000 bytes: a line of 7969 bytes, and a line of
      none. */
  method Unwritable() returns (wide: Outcome, empty: Outcome)
    ensures wide == Stuck && empty == DividedByZero
  {
    SpanIsTimes(1, 7969);
    SpanIsTimes(1, 0);
    var data;
    wide, data := ReadPixels(seq(7969, _ => 0), 7969, 1, DISPLAYBUFSIZE - 32);
    empty, data := ReadPixels([], 0, 1, DISPLAYBUFSIZE - 32);
  }
}
