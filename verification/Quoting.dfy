/**
  lib9/fmtquote.c: printing a string so that tokenize gives it back.  A string is a sequence
  of runes; what the C code sees is its UTF-8 encoding.
 */
module Quoting {
  import opened Utf8
  import opened Tokens
  import opened Words

  const BLANK := 32

  /** A NUL-free string of valid runes. */
  predicate Text(s: seq<nat>) {
    forall i :: 0 <= i < |s| ==> Scalar(s[i]) && s[i] != 0
  }

  function Bytes(s: seq<nat>): seq<Byte> {
    if s == [] then [] else Encode(s[0]) + Bytes(s[1..])
  }

  /** Runes that force quoting; `dq` is the program's own choice, the hook doquote. */
  predicate Special(c: nat, dq: nat -> bool) {
    c <= BLANK || c == QUOTE || dq(c)
  }

  predicate NeedsQuotes(s: seq<nat>, dq: nat -> bool) {
    s == [] || exists i :: 0 <= i < |s| && Special(s[i], dq)
  }

  /** One rune inside quotes: a quote reproduces as two characters. */
  function Inner(c: nat): seq<Byte> {
    if c == QUOTE then [QUOTE, QUOTE] else Encode(c)
  }

  function Doubled(s: seq<nat>): seq<Byte> {
    if s == [] then [] else Inner(s[0]) + Doubled(s[1..])
  }

  /** What is printed for `s`. */
  function Printed(s: seq<nat>, quoted: bool): seq<Byte> {
    if quoted then [QUOTE] + Doubled(s) + [QUOTE] else Bytes(s)
  }

  // ----- what is printed is one token

  lemma {:induction false} PlainPrefix(e: seq<Byte>, x: seq<Byte>, quoting: bool)
    requires forall i :: 0 <= i < |e| ==> e[i] != QUOTE && (quoting || !IsSep(e[i]))
    ensures Token(e + x, quoting) == (e + Token(x, quoting).0, Token(x, quoting).1)
  {
    if e == [] {
      assert e + x == x && e + Token(x, quoting).0 == Token(x, quoting).0;
    } else {
      assert (e + x)[1..] == e[1..] + x;
      PlainPrefix(e[1..], x, quoting);
      assert [e[0]] + (e[1..] + Token(x, quoting).0) == e + Token(x, quoting).0;
    }
  }

  lemma {:induction false} DoubledIsText(s: seq<nat>, rest: seq<Byte>)
    requires Text(s) && (rest == [] || IsSep(rest[0]))
    ensures Token(Doubled(s) + [QUOTE] + rest, true) == (Bytes(s), rest)
    decreases |s|
  {
    hide Encode;
    var tail := [QUOTE] + rest;
    assert Doubled(s) + [QUOTE] + rest == Doubled(s) + tail;
    if s == [] {
      assert Doubled(s) + tail == tail && tail[1..] == rest;
    } else {
      var x := Doubled(s[1..]) + tail;
      assert Doubled(s[1..]) + [QUOTE] + rest == x;
      DoubledIsText(s[1..], rest);
      assert Doubled(s) + tail == Inner(s[0]) + x;
      if s[0] == QUOTE {
        NonAscii(QUOTE, 0);
        assert (Inner(s[0]) + x)[2..] == x;
      } else {
        forall i | 0 <= i < |Encode(s[0])| ensures Encode(s[0])[i] != QUOTE { NonAscii(s[0], i); }
        PlainPrefix(Encode(s[0]), x, true);
      }
    }
  }

  lemma {:induction false} PlainBytes(s: seq<nat>, i: nat)
    requires i < |Bytes(s)| && forall k :: 0 <= k < |s| ==> s[k] > BLANK && s[k] != QUOTE
    ensures Bytes(s)[i] != QUOTE && !IsSep(Bytes(s)[i])
    decreases |s|
  {
    var n := |Encode(s[0])|;
    if i < n {
      NonAscii(s[0], i);
    } else {
      PlainBytes(s[1..], i - n);
    }
  }

  /** A printed string is read back as one token, up to the separator or the end that follows it. */
  lemma PrintedIsToken(s: seq<nat>, quoted: bool, dq: nat -> bool, rest: seq<Byte>)
    requires Text(s) && (rest == [] || IsSep(rest[0])) && (NeedsQuotes(s, dq) ==> quoted)
    ensures Token(Printed(s, quoted) + rest, false) == (Bytes(s), rest)
    ensures SkipSeps(Printed(s, quoted) + rest) == Printed(s, quoted) + rest != []
  {
    if quoted {
      QuotedIsToken(s, rest);
    } else {
      forall k | 0 <= k < |s| ensures s[k] > BLANK && s[k] != QUOTE { assert !Special(s[k], dq); }
      PlainIsToken(s, rest);
    }
  }

  lemma QuotedIsToken(s: seq<nat>, rest: seq<Byte>)
    requires Text(s) && (rest == [] || IsSep(rest[0]))
    ensures Token(Printed(s, true) + rest, false) == (Bytes(s), rest)
    ensures SkipSeps(Printed(s, true) + rest) == Printed(s, true) + rest != []
  {
    var x := Doubled(s) + [QUOTE] + rest;
    assert Printed(s, true) + rest == [QUOTE] + x;
    DoubledIsText(s, rest);
    hide Doubled;
    hide Bytes;
    assert ([QUOTE] + x)[1..] == x;
  }

  lemma PlainIsToken(s: seq<nat>, rest: seq<Byte>)
    requires s != [] && (forall k :: 0 <= k < |s| ==> s[k] > BLANK && s[k] != QUOTE) && (rest == [] || IsSep(rest[0]))
    ensures Token(Bytes(s) + rest, false) == (Bytes(s), rest)
    ensures SkipSeps(Bytes(s) + rest) == Bytes(s) + rest != []
  {
    forall i | 0 <= i < |Bytes(s)| ensures Bytes(s)[i] != QUOTE && !IsSep(Bytes(s)[i]) { PlainBytes(s, i); }
    assert |Bytes(s)| > 0;
    hide Bytes;
    PlainPrefix(Bytes(s), rest, false);
    assert Bytes(s) + [] == Bytes(s);
  }

  /** A word of a command line: the string, whether it was quoted, and the separators printed before it. */
  datatype Item = Item(s: seq<nat>, quoted: bool, before: seq<Byte>)

  predicate Seps(b: seq<Byte>) {
    forall i :: 0 <= i < |b| ==> IsSep(b[i])
  }

  /** Words that are quoted where needed and separated from each other. */
  predicate Separated(ws: seq<Item>, dq: nat -> bool) {
    forall i :: 0 <= i < |ws| ==>
      Text(ws[i].s) && (NeedsQuotes(ws[i].s, dq) ==> ws[i].quoted) && Seps(ws[i].before) && (i > 0 ==> ws[i].before != [])
  }

  function Line(ws: seq<Item>, after: seq<Byte>): seq<Byte> {
    if ws == [] then after else ws[0].before + Printed(ws[0].s, ws[0].quoted) + Line(ws[1..], after)
  }

  function Strings(ws: seq<Item>): seq<seq<Byte>> {
    if ws == [] then [] else [Bytes(ws[0].s)] + Strings(ws[1..])
  }

  lemma {:induction false} SkipAll(b: seq<Byte>, x: seq<Byte>)
    requires Seps(b)
    ensures SkipSeps(b + x) == SkipSeps(x)
  {
    if b == [] {
      assert b + x == x;
    } else {
      assert (b + x)[1..] == b[1..] + x;
      SkipAll(b[1..], x);
    }
  }

  /** Print any strings, quoting them where needed, with any separators around them: tokenize returns the strings. */
  lemma {:induction false} QuotedRoundTrip(ws: seq<Item>, after: seq<Byte>, dq: nat -> bool, max: nat)
    requires Separated(ws, dq) && Seps(after) && |ws| <= max
    ensures TokenList(Line(ws, after), max) == Strings(ws)
    decreases |ws|
  {
    hide Encode;
    hide Token;
    hide Printed;
    hide SkipSeps;
    hide TokenList;
    TokenListStep(Line(ws, after), max);
    if ws == [] {
      SkipAll(after, []);
      NothingLeft(after);
    } else {
      var rest, p := Line(ws[1..], after), Printed(ws[0].s, ws[0].quoted);
      assert Line(ws, after) == ws[0].before + (p + rest);
      RestSeparated(ws, after, dq);
      hide Line;
      hide Seps;
      SkipAll(ws[0].before, p + rest);
      PrintedIsToken(ws[0].s, ws[0].quoted, dq, rest);
      QuotedRoundTrip(ws[1..], after, dq, max - 1);
    }
  }

  lemma NothingLeft(after: seq<Byte>)
    requires SkipSeps(after + []) == SkipSeps([])
    ensures SkipSeps(after) == []
  {
    assert after + [] == after;
  }

  lemma RestSeparated(ws: seq<Item>, after: seq<Byte>, dq: nat -> bool)
    requires Separated(ws, dq) && Seps(after) && ws != []
    ensures var rest := Line(ws[1..], after); rest == [] || IsSep(rest[0])
    ensures Separated(ws[1..], dq)
  {
    hide Printed;
    if |ws| > 1 {
      assert ws[1..][0] == ws[1];
      assert Line(ws[1..], after)[0] == ws[1].before[0];
    }
  }

  // ----- measuring and printing

  /** What _quotesetup fills in (for a UTF string and no input count). */
  datatype Info = Info(quoted: bool, nbytesout: nat, nrunesout: nat, nbytesin: nat, nrunesin: nat)

  /** The runes inside quotes, and those of the printed form. */
  function DoubledRunes(s: seq<nat>): seq<nat> {
    if s == [] then [] else (if s[0] == QUOTE then [QUOTE, QUOTE] else [s[0]]) + DoubledRunes(s[1..])
  }

  function PrintedRunes(s: seq<nat>, quoted: bool): seq<nat> {
    if quoted then [QUOTE] + DoubledRunes(s) + [QUOTE] else s
  }

  lemma {:induction false} DoubledBytes(s: seq<nat>)
    ensures Bytes(DoubledRunes(s)) == Doubled(s)
  {
    if s != [] {
      DoubledBytes(s[1..]);
      hide Encode;
      var c: seq<nat> := if s[0] == QUOTE then [QUOTE, QUOTE] else [s[0]];
      BytesAppend(c, DoubledRunes(s[1..]));
      InnerBytes(s[0]);
    }
  }

  lemma InnerBytes(c: nat)
    ensures Bytes(if c == QUOTE then [QUOTE, QUOTE] else [c]) == Inner(c)
  {
    BytesOne(c);
    BytesAppend([QUOTE], [QUOTE]);
    BytesOne(QUOTE);
    assert [QUOTE] + [QUOTE] == [QUOTE, QUOTE] && Encode(QUOTE) == [QUOTE];
    hide Encode;
    hide Bytes;
  }

  /** What is printed is the encoding of those runes. */
  lemma PrintedBytes(s: seq<nat>, quoted: bool)
    ensures Bytes(PrintedRunes(s, quoted)) == Printed(s, quoted)
  {
    if quoted {
      DoubledBytes(s);
      BytesOne(QUOTE);
      assert Encode(QUOTE) == [QUOTE];
      hide Bytes;
      hide Encode;
      BytesAppend([QUOTE] + DoubledRunes(s), [QUOTE]);
      BytesAppend([QUOTE], DoubledRunes(s));
    }
  }

  lemma {:induction false} RunesAppend(s: seq<nat>, t: seq<nat>)
    ensures DoubledRunes(s + t) == DoubledRunes(s) + DoubledRunes(t)
    decreases |s|
  {
    if s == [] {
      assert s + t == t;
    } else {
      assert (s + t)[1..] == s[1..] + t;
      RunesAppend(s[1..], t);
    }
  }

  /** One rune more. */
  lemma RunesSnoc(s: seq<nat>, k: nat)
    requires k < |s|
    ensures |DoubledRunes(s[..k + 1])| == |DoubledRunes(s[..k])| + (if s[k] == QUOTE then 2 else 1)
    ensures |DoubledRunes(s[..k + 1])| <= |DoubledRunes(s)|
    ensures QUOTE !in s[..k] ==> |DoubledRunes(s[..k])| == k
  {
    assert s == s[..k + 1] + s[k + 1..];
    RunesAppend(s[..k + 1], s[k + 1..]);
    assert s[..k + 1] == s[..k] + [s[k]];
    RunesAppend(s[..k], [s[k]]);
    assert [s[k]][1..] == [] && DoubledRunes([]) == [];
    if QUOTE !in s[..k] { NoQuoteRunes(s[..k]); }
  }

  lemma {:induction false} NoQuoteRunes(s: seq<nat>)
    requires QUOTE !in s
    ensures DoubledRunes(s) == s
  {
    if s != [] {
      NoQuoteRunes(s[1..]);
      assert [s[0]] + s[1..] == s;
    }
  }

  /** The counts describe the first `nrunesin` runes of `s`: the input they take and the output they will make. */
  predicate Describes(q: Info, s: seq<nat>) {
    && q.nrunesin <= |s|
    && q.nbytesin == |Bytes(s[..q.nrunesin])|
    && q.nbytesout == |Printed(s[..q.nrunesin], q.quoted)|
    && q.nrunesout == |PrintedRunes(s[..q.nrunesin], q.quoted)|
  }

  lemma {:induction false} BytesAppend(s: seq<nat>, t: seq<nat>)
    ensures Bytes(s + t) == Bytes(s) + Bytes(t) && Doubled(s + t) == Doubled(s) + Doubled(t)
    decreases |s|
  {
    hide Encode;
    if s == [] {
      assert s + t == t;
    } else {
      assert (s + t)[1..] == s[1..] + t;
      BytesAppend(s[1..], t);
    }
  }

  lemma BytesOne(c: nat)
    ensures Bytes([c]) == Encode(c) && Doubled([c]) == Inner(c)
  {
    hide Encode;
    assert Bytes([c]) == Encode(c) + Bytes([]) && Doubled([c]) == Inner(c) + Doubled([]);
  }

  /** One rune more. */
  lemma BytesSnoc(s: seq<nat>, k: nat)
    requires k < |s|
    ensures Bytes(s[..k + 1]) == Bytes(s[..k]) + Encode(s[k]) && Doubled(s[..k + 1]) == Doubled(s[..k]) + Inner(s[k])
  {
    hide Bytes;
    hide Doubled;
    hide Encode;
    hide Inner;
    assert s[..k + 1] == s[..k] + [s[k]];
    BytesAppend(s[..k], [s[k]]);
    BytesOne(s[k]);
  }

  /** The rune at `k` is what the bytes after those of the first `k` runes decode to. */
  lemma RuneAt(s: seq<nat>, k: nat)
    requires Text(s) && k < |s|
    ensures var b, m := Bytes(s), |Bytes(s[..k])|; m < |b| && Decode(b[m..]) == (s[k], |Encode(s[k])|)
  {
    hide Encode;
    hide Decode;
    assert s == s[..k] + s[k..];
    BytesAppend(s[..k], s[k..]);
    assert Bytes(s)[|Bytes(s[..k])|..] == Bytes(s[k..]);
    DecodeEncode(s[k], Bytes(s[k..][1..]));
  }

  lemma {:induction false} NoQuoteSame(s: seq<nat>)
    requires QUOTE !in s
    ensures Doubled(s) == Bytes(s)
  {
    hide Encode;
    if s != [] { NoQuoteSame(s[1..]); }
  }

  /** The sizes of the first `k` runes, without and with quotes, and with one rune more. */
  lemma Sizes(s: seq<nat>, k: nat)
    requires k < |s|
    ensures |Bytes(s[..k])| < |Bytes(s[..k + 1])| == |Bytes(s[..k])| + |Encode(s[k])| <= |Bytes(s)|
    ensures |Doubled(s[..k + 1])| == |Doubled(s[..k])| + |Encode(s[k])| + (if s[k] == QUOTE then 1 else 0) <= |Doubled(s)|
    ensures QUOTE !in s[..k] ==> |Doubled(s[..k])| == |Bytes(s[..k])|
  {
    hide Encode;
    BytesSnoc(s, k);
    NonAscii(QUOTE, 0);
    assert s == s[..k + 1] + s[k + 1..];
    BytesAppend(s[..k + 1], s[k + 1..]);
    if QUOTE !in s[..k] { NoQuoteSame(s[..k]); }
  }

  /** What counts against the limit: runes or bytes of output. */
  function Used(q: Info, runes: bool): nat {
    if runes then q.nrunesout else q.nbytesout
  }

  /** What is known while _quotesetup scans. */
  ghost predicate Scanning(q: Info, s: seq<nat>, nout: nat, runes: bool, sharp: bool, dq: nat -> bool) {
    && q.nrunesin <= |s| && q.nbytesin == |Bytes(s[..q.nrunesin])| && Used(q, runes) <= nout
    && q.nbytesout == (if q.quoted then |Doubled(s[..q.nrunesin])| + 2 else |Bytes(s[..q.nrunesin])|)
    && q.nrunesout == (if q.quoted then |DoubledRunes(s[..q.nrunesin])| + 2 else q.nrunesin)
    && (q.quoted ==> sharp || NeedsQuotes(s, dq))
    && (!q.quoted ==> !sharp && s != [])
    && (!q.quoted ==> forall i :: 0 <= i < q.nrunesin ==> !Special(s[i], dq))
  }

  /** One round of the loop of _quotesetup, for rune `c` of width `w`; false if the rune does not fit. */
  method SetupRune(q0: Info, c: nat, w: nat, nout: nat, runes: bool, dq: nat -> bool, ghost s: seq<nat>, ghost sharp: bool)
    returns (q: Info, fits: bool)
    requires Scanning(q0, s, nout, runes, sharp, dq) && q0.nrunesin < |s| && c == s[q0.nrunesin] && w == |Encode(c)|
    ensures Scanning(q, s, nout, runes, sharp, dq)
    ensures q.nrunesin == q0.nrunesin + (if fits then 1 else 0)
    ensures nout >= (if runes then |DoubledRunes(s)| else |Doubled(s)|) + 2 ==> fits
  {
    hide Encode;
    hide Bytes;
    hide Doubled;
    hide DoubledRunes;
    Sizes(s, q0.nrunesin);
    RunesSnoc(s, q0.nrunesin);
    q := q0;
    var more := if runes then 1 else w;
    if Used(q, runes) + more > nout {
      return q, false;
    }
    if Special(c, dq) {
      if !q.quoted {
        if 1 + Used(q, runes) + more + 1 > nout {
          return q, false;
        }
        q := q.(nrunesout := q.nrunesout + 2, nbytesout := q.nbytesout + 2, quoted := true);
      }
      if c == QUOTE {
        if 1 + Used(q, runes) + more > nout {
          return q, false;
        }
        q := q.(nbytesout := q.nbytesout + 1, nrunesout := q.nrunesout + 1);
      }
    }
    q := Info(q.quoted, q.nbytesout + w, q.nrunesout + 1, q.nbytesin + w, q.nrunesin + 1);
    fits := true;
  }

  /** _quotesetup: how much of `s` can be printed in `nout` bytes, or runes, and whether with quotes.  The prediction is exact and
      never exceeds the limit; with room for the whole string, the whole string is taken and quoted only if needed. */
  method QuoteSetup(sin: seq<Byte>, nout: nat, runes: bool, sharp: bool, dq: nat -> bool, ghost s: seq<nat>) returns (q: Info)
    requires Text(s) && sin == Bytes(s)
    ensures Describes(q, s) && Used(q, runes) <= nout
    ensures nout >= (if runes then |PrintedRunes(s, true)| else |Printed(s, true)|) ==> q.nrunesin == |s| && q.quoted == (sharp || NeedsQuotes(s, dq))
  {
    EmptyBytes(s);
    hide Encode;
    hide Decode;
    hide Bytes;
    hide Doubled;
    hide Scanning;
    hide Describes;
    q := Info(false, 0, 0, 0, 0);
    if sharp || sin == [] {
      if nout < 2 {
        NothingTaken(s);
        return;
      }
      q := Info(true, 2, 2, 0, 0);
    }
    var m := 0;
    ScanningStarts(q, s, nout, runes, sharp, dq);
    while m < |sin|
      invariant Scanning(q, s, nout, runes, sharp, dq) && m == q.nbytesin <= |sin| && q.nrunesin <= |s|
      invariant m == |sin| <==> q.nrunesin == |s|
      decreases |sin| - m
    {
      Measure(q, s, nout, runes, sharp, dq);
      RuneAt(s, q.nrunesin);
      Sizes(s, q.nrunesin);
      var c, w := CharToRune(sin[m..]);
      var fits;
      q, fits := SetupRune(q, c, w, nout, runes, dq, s, sharp);
      Measure(q, s, nout, runes, sharp, dq);
      if !fits {
        break;
      }
      m := m + w;
    }
    ScanningEnds(q, s, nout, runes, sharp, dq);
  }

  lemma NothingTaken(s: seq<nat>)
    ensures Describes(Info(false, 0, 0, 0, 0), s) && |Printed(s, true)| >= 2 && |PrintedRunes(s, true)| >= 2
  {
    assert s[..0] == [];
  }

  lemma ScanningStarts(q: Info, s: seq<nat>, nout: nat, runes: bool, sharp: bool, dq: nat -> bool)
    requires q == if sharp || s == [] then Info(true, 2, 2, 0, 0) else Info(false, 0, 0, 0, 0)
    requires Used(q, runes) <= nout
    ensures Scanning(q, s, nout, runes, sharp, dq)
  {
    assert s[..0] == [];
  }

  /** All runes are taken exactly when all bytes are. */
  lemma Measure(q: Info, s: seq<nat>, nout: nat, runes: bool, sharp: bool, dq: nat -> bool)
    requires Scanning(q, s, nout, runes, sharp, dq)
    ensures q.nrunesin <= |s| && q.nbytesin == |Bytes(s[..q.nrunesin])| <= |Bytes(s)|
    ensures q.nrunesin == |s| <==> q.nbytesin == |Bytes(s)|
  {
    hide Bytes;
    if q.nrunesin < |s| {
      Sizes(s, q.nrunesin);
    } else {
      assert s[..q.nrunesin] == s;
    }
  }

  lemma ScanningEnds(q: Info, s: seq<nat>, nout: nat, runes: bool, sharp: bool, dq: nat -> bool)
    requires Scanning(q, s, nout, runes, sharp, dq)
    ensures Describes(q, s) && Used(q, runes) <= nout && |Printed(s, true)| == |Doubled(s)| + 2 && |PrintedRunes(s, true)| == |DoubledRunes(s)| + 2
    ensures q.nrunesin == |s| ==> q.quoted == (sharp || NeedsQuotes(s, dq))
  {
    hide Encode;
  }

  lemma EmptyBytes(s: seq<nat>)
    ensures s == [] <==> Bytes(s) == []
  {
    hide Encode;
  }

  /** fullrune. */
  function FullRune(str: seq<Byte>, n: nat): bool {
    var c := CharAt(str, 0);
    n > 0 && (if c < 0x80 then true else if c < T(3) then n >= 2 else if c < T(4) then n >= 3 else n >= UTFMAX)
  }

  lemma FullAtRune(r: nat, tail: seq<Byte>, n: nat)
    requires Scalar(r) && |Encode(r)| <= n
    ensures FullRune(Encode(r) + tail, n) && CharAt(Encode(r) + tail, 0) == Encode(r)[0] && (r < 0x80 <==> Encode(r)[0] < 0x80)
  {
  }

  /** qstrfmt, for byte output without padding: the quoted form of the runes that _quotesetup accepted. */
  method QStrFmt(sin: seq<Byte>, q: Info, ghost s: seq<nat>) returns (out: seq<Byte>)
    requires Text(s) && sin == Bytes(s) && Describes(q, s) && q.quoted
    ensures out == Printed(s[..q.nrunesin], true) && |out| == q.nbytesout
  {
    hide Encode;
    hide Decode;
    var m, me := 0, q.nbytesin;
    out := [QUOTE];
    var k := 0;
    assert s[..0] == [];
    while k < q.nrunesin
      invariant 0 <= k <= q.nrunesin && m == |Bytes(s[..k])| && out == [QUOTE] + Doubled(s[..k])
    {
      var r, w := NextRune(sin, m, me, s, k, q.nrunesin);
      if w == 0 {
        break;
      }
      BytesSnoc(s, k);
      m := m + w;
      var e := RuneToChar(r);
      NonAscii(QUOTE, 0);
      out := out + e;
      if r == QUOTE {
        out := out + e;
      }
      k := k + 1;
    }
    assert s[..k] == s[..q.nrunesin];
    out := out + [QUOTE];
  }

  /** The rune at `m`, or width 0 if the bytes before `me` do not hold a whole one. */
  method NextRune(sin: seq<Byte>, m: nat, me: nat, ghost s: seq<nat>, ghost k: nat, ghost n: nat) returns (r: nat, w: nat)
    requires Text(s) && sin == Bytes(s) && k < n <= |s| && m == |Bytes(s[..k])| && me == |Bytes(s[..n])|
    ensures r == s[k] && w == |Encode(s[k])| > 0
  {
    RuneAt(s, k);
    ghost var e, tail := Encode(s[k]), Bytes(s[k..][1..]);
    assert s == s[..k] + s[k..];
    BytesAppend(s[..k], s[k..]);
    assert sin[m..] == e + tail;
    RoomFor(s, k, n);
    FullAtRune(s[k], tail, me - m);
    NonAscii(s[k], 0);
    hide Encode;
    hide Decode;
    assert sin[m] == sin[m..][0] == CharAt(sin[m..], 0);
    r, w := sin[m], 0;
    if r < 0x80 {
      w := 1;
    } else if me - m >= UTFMAX || FullRune(sin[m..], me - m) {
      r, w := CharToRune(sin[m..]);
    }
  }

  lemma RoomFor(s: seq<nat>, k: nat, n: nat)
    requires k < n <= |s|
    ensures |Bytes(s[..k])| + |Encode(s[k])| <= |Bytes(s[..n])|
  {
    hide Encode;
    BytesSnoc(s, k);
    assert s[..n] == s[..k + 1] + s[k + 1..n];
    BytesAppend(s[..k + 1], s[k + 1..n]);
  }

  /** quotestrfmt for a UTF string, byte output and no width: at most `outlen` bytes, exactly as many as predicted, and
      the whole string if it fits. */
  method QuoteStrFmt(sin: seq<Byte>, outlen: nat, sharp: bool, dq: nat -> bool, ghost s: seq<nat>)
    returns (out: seq<Byte>, q: Info)
    requires Text(s) && sin == Bytes(s)
    ensures |out| == q.nbytesout <= outlen && q.nrunesin <= |s| && out == Printed(s[..q.nrunesin], q.quoted)
    ensures outlen >= |Printed(s, true)| ==> out == Printed(s, sharp || NeedsQuotes(s, dq))
    ensures outlen >= |Printed(s, true)| && !sharp && s != [] && (forall i :: 0 <= i < |s| ==> s[i] > 32 && s[i] != 39 && !dq(s[i])) ==>
      out == sin
    ensures outlen >= |Printed(s, true)| && (sharp || s == [] || exists i :: 0 <= i < |s| && (s[i] <= 32 || s[i] == 39 || dq(s[i]))) ==>
      |out| >= 2 && out[0] == 39 && out[|out| - 1] == 39
  {
    hide *;
    QuotedExactly(s, dq);
    q := QuoteSetup(sin, outlen, false, sharp, dq, s);
    AsDescribed(q, s);
    if q.nrunesin == |s| { assert s[..q.nrunesin] == s; }
    if !q.quoted {
      out := sin[..q.nbytesin];
    } else {
      out := QStrFmt(sin, q, s);
    }
  }

  /** Quotes are put around the empty string, and around a string with a character up to the blank, a quote, or one that the
      program's hook names; and around no other. */
  lemma QuotedExactly(s: seq<nat>, dq: nat -> bool)
    ensures NeedsQuotes(s, dq) <==> s == [] || exists i :: 0 <= i < |s| && (s[i] <= 32 || s[i] == 39 || dq(s[i]))
    ensures Printed(s, false) == Bytes(s)
    ensures var p := Printed(s, true); |p| >= 2 && p[0] == 39 && p[|p| - 1] == 39
  {
  }

  lemma AsDescribed(q: Info, s: seq<nat>)
    requires Describes(q, s)
    ensures q.nrunesin <= |s| && q.nbytesout == |Printed(s[..q.nrunesin], q.quoted)| == Used(q, false)
    ensures !q.quoted ==> q.nbytesin <= |Bytes(s)| && Bytes(s)[..q.nbytesin] == Printed(s[..q.nrunesin], false)
  {
    hide Bytes;
    hide Doubled;
    hide PrintedRunes;
    assert s == s[..q.nrunesin] + s[q.nrunesin..];
    BytesAppend(s[..q.nrunesin], s[q.nrunesin..]);
  }
}
