/** lib9/tokenize.c: splitting a string into quoted tokens in place. */
module Tokens {
  import opened Utf8
  import opened Words

  const QUOTE: Byte := 39

  /** Blank, tab, carriage return, newline. */
  predicate IsSep(c: Byte) {
    c == 32 || c == 9 || c == 13 || c == 10
  }

  /** The token at the front of a string, with its quoting undone, and what follows it. */
  function Token(s: seq<Byte>, quoting: bool): (r: (seq<Byte>, seq<Byte>))
    ensures |r.0| + |r.1| <= |s|
    decreases |s|
  {
    if s == [] || (!quoting && IsSep(s[0])) then ([], s)
    else if s[0] != QUOTE then
      var (tok, rest) := Token(s[1..], quoting);
      ([s[0]] + tok, rest)
    else if !quoting then Token(s[1..], true)
    else if |s| == 1 || s[1] != QUOTE then Token(s[1..], false)
    else
      var (tok, rest) := Token(s[2..], true);
      ([QUOTE] + tok, rest)
  }

  function SkipSeps(s: seq<Byte>): (r: seq<Byte>)
    ensures |r| <= |s| && (r != [] ==> !IsSep(r[0]))
  {
    if s != [] && IsSep(s[0]) then SkipSeps(s[1..]) else s
  }

  /** The first `max` tokens of a string. */
  function TokenList(s: seq<Byte>, max: nat): seq<seq<Byte>>
    decreases max
  {
    var u := SkipSeps(s);
    if max == 0 || u == [] then [] else [Token(u, false).0] + TokenList(Token(u, false).1, max - 1)
  }

  /** Bytes that neither separate nor quote. */
  predicate Plain(x: seq<Byte>) {
    forall i :: 0 <= i < |x| ==> x[i] != 9 && x[i] != 10 && x[i] != 13 && x[i] != 32 && x[i] != 39
  }

  lemma {:induction false} PlainToken(x: seq<Byte>, rest: seq<Byte>)
    requires Plain(x) && (rest == [] || rest[0] in {9, 10, 13, 32})
    ensures Token(x + rest, false) == (x, rest)
  {
    if x == [] {
      assert x + rest == rest;
    } else {
      assert (x + rest)[1..] == x[1..] + rest;
      PlainToken(x[1..], rest);
      assert [x[0]] + x[1..] == x;
    }
  }

  /** Blanks, tabs, carriage returns and newlines separate two words, and nothing else does. */
  lemma WordsAreSeparated(x: seq<Byte>, c: Byte, y: seq<Byte>)
    requires Plain(x) && Plain(y) && x != [] && y != [] && c != 39
    ensures TokenList(x + [c] + y, 3) == if c in {9, 10, 13, 32} then [x, y] else [x + [c] + y]
  {
    var s := x + [c] + y;
    hide Token;
    assert SkipSeps(s) == s;
    if c in {9, 10, 13, 32} {
      var t := [c] + y;
      assert s == x + t;
      PlainToken(x, t);
      assert SkipSeps(t) == SkipSeps(t[1..]) == y by { assert t[1..] == y; }
      assert y + [] == y;
      PlainToken(y, []);
      assert TokenList(t, 2) == [y] + TokenList([], 1);
    } else {
      assert Plain(s) && s + [] == s;
      PlainToken(s, []);
    }
  }

  /** A NUL-terminated string of `buf` that starts at `at` and ends at `e`. */
  ghost predicate StringAt(buf: array<Byte>, at: nat, e: nat)
    reads buf
  {
    at <= e < buf.Length && buf[e] == 0 && forall i :: at <= i < e ==> buf[i] != 0
  }

  /** Whether the scan of qtoken and etoken stops at `c`. */
  predicate Stops(c: Byte, quoting: bool) {
    c == 0 || (!quoting && IsSep(c))
  }

  /** The token of `text` is `done` followed by the token of `left`. */
  predicate Scanned(text: seq<Byte>, done: seq<Byte>, left: seq<Byte>, quoting: bool) {
    && Token(text, false).0 == done + Token(left, quoting).0
    && Token(text, false).1 == Token(left, quoting).1
  }

  lemma ScanStep(text: seq<Byte>, done: seq<Byte>, left: seq<Byte>, quoting: bool)
    requires Scanned(text, done, left, quoting) && left != [] && (quoting || !IsSep(left[0]))
    ensures if left[0] != QUOTE then Scanned(text, done + [left[0]], left[1..], quoting)
      else if !quoting then Scanned(text, done, left[1..], true)
      else if |left| == 1 || left[1] != QUOTE then Scanned(text, done, left[1..], false)
      else Scanned(text, done + [QUOTE], left[2..], true)
  {
    if left[0] != QUOTE {
      assert done + ([left[0]] + Token(left[1..], quoting).0) == done + [left[0]] + Token(left[1..], quoting).0;
    } else if quoting && |left| > 1 && left[1] == QUOTE {
      assert done + ([QUOTE] + Token(left[2..], true).0) == done + [QUOTE] + Token(left[2..], true).0;
    }
  }

  lemma ScanStart(text: seq<Byte>)
    ensures Scanned(text, [], text, false)
  {
  }

  lemma ScanEnd(text: seq<Byte>, done: seq<Byte>, left: seq<Byte>, quoting: bool)
    requires Scanned(text, done, left, quoting) && (left == [] || (!quoting && IsSep(left[0])))
    ensures Token(text, false) == (done, left)
  {
    assert Token(left, quoting) == ([], left) && done + [] == done;
  }

  /** The scanning loop of qtoken: unquote the token at `s0` in place.  The token ends at `s`, its source at `t`. */
  method Unquote(buf: array<Byte>, s0: nat, ghost e: nat) returns (s: nat, t: nat)
    requires StringAt(buf, s0, e)
    modifies buf
    ensures s0 <= s <= t <= e && StringAt(buf, t, e) && (t < e ==> IsSep(buf[t]))
    ensures Token(old(buf[s0..e]), false) == (buf[s0..s], buf[t..e])
    ensures forall i :: 0 <= i < buf.Length && !(s0 <= i < s) ==> buf[i] == old(buf[i])
  {
    hide Token;
    hide Scanned;
    ghost var text := buf[s0..e];
    var quoting := false;
    s, t := s0, s0;
    ScanStart(text);
    assert buf[s0..s0] == [];
    while !Stops(buf[t], quoting)
      invariant s0 <= s <= t <= e && StringAt(buf, t, e)
      invariant Scanned(text, buf[s0..s], buf[t..e], quoting)
      invariant forall i :: 0 <= i < buf.Length && !(s0 <= i < s) ==> buf[i] == old(buf[i])
      decreases e - t
    {
      ghost var done, left := buf[s0..s], buf[t..e];
      ScanStep(text, done, left, quoting);
      if buf[t] != QUOTE {
        buf[s] := buf[t];
        s, t := s + 1, t + 1;
        assert buf[s0..s] == done + [left[0]] && buf[t..e] == left[1..];
      } else if !quoting {
        quoting := true;
        t := t + 1;
        assert buf[t..e] == left[1..];
      } else if buf[t + 1] != QUOTE {
        t := t + 1;
        quoting := false;
        assert buf[t..e] == left[1..];
      } else {
        t := t + 1;
        buf[s] := buf[t];
        s, t := s + 1, t + 1;
        assert buf[s0..s] == done + [QUOTE] && buf[t..e] == left[2..];
      }
    }
    ScanEnd(text, buf[s0..s], buf[t..e], quoting);
  }

  /** qtoken: unquote the token at `s0`, end it with a NUL, and return where to look for the next one. */
  method QToken(buf: array<Byte>, s0: nat, ghost e: nat) returns (t: nat, ghost s: nat)
    requires StringAt(buf, s0, e)
    modifies buf
    ensures s0 <= s <= t <= e && StringAt(buf, t, e) && buf[s] == 0 && (s == t ==> t == e)
    ensures var (tok, rest) := Token(old(buf[s0..e]), false);
      buf[s0..s] == tok && SkipSeps(buf[t..e]) == SkipSeps(rest)
    ensures forall i :: 0 <= i < buf.Length && !(s0 <= i <= s) ==> buf[i] == old(buf[i])
  {
    hide Token;
    var s1;
    s1, t := Unquote(buf, s0, e);
    s := s1;
    if buf[s1] != 0 {
      ghost var tok, rest := buf[s0..s1], buf[t..e];
      buf[s1] := 0;
      assert buf[s0..s1] == tok;
      if t == s1 {
        t := t + 1;
        assert buf[t..e] == rest[1..];
      } else {
        assert buf[t..e] == rest;
      }
    }
  }

  /** tokenize: the tokens are the strings that now start at the returned positions, all of them intact together. */
  method Tokenize(buf: array<Byte>, ghost e: nat, maxargs: nat) returns (args: seq<nat>)
    requires StringAt(buf, 0, e)
    modifies buf
    ensures var toks := TokenList(old(buf[..e]), maxargs);
      && |args| == |toks|
      && forall i :: 0 <= i < |args| ==> Spells(buf, args[i], toks[i])
  {
    hide TokenList;
    hide Spells;
    hide Together;
    ghost var text := buf[..e];
    ghost var toks: seq<seq<Byte>> := [];
    args := [];
    var s := 0;
    assert buf[0..e] == text;
    NoneTogether(buf, e);
    while |args| < maxargs
      invariant 0 <= s <= e && StringAt(buf, s, e) && |args| == |toks| <= maxargs
      invariant TokenList(text, maxargs) == toks + TokenList(buf[s..e], maxargs - |args|)
      invariant Together(buf, args, toks, s, e)
    {
      var at, more;
      ghost var tok;
      s, at, more, tok := NextToken(buf, s, e, args, toks, maxargs - |args|);
      if !more {
        break;
      }
      args, toks := args + [at], toks + [tok];
    }
    if |args| == maxargs { TokenListStep(buf[s..e], 0); }
    AllTogether(buf, args, toks, s, e);
  }

  lemma NoneTogether(buf: array<Byte>, e: nat)
    ensures Together(buf, [], [], 0, e)
  {
  }

  lemma AllTogether(buf: array<Byte>, args: seq<nat>, toks: seq<seq<Byte>>, s: nat, e: nat)
    requires Together(buf, args, toks, s, e)
    ensures |args| == |toks| && forall i :: 0 <= i < |args| ==> Spells(buf, args[i], toks[i])
  {
  }

  /** One round of the loop of tokenize: skip separators and, unless the string ends there, take the token at `at`. */
  method NextToken(buf: array<Byte>, s0: nat, ghost e: nat, ghost args: seq<nat>, ghost toks: seq<seq<Byte>>, ghost left: nat)
    returns (s: nat, at: nat, more: bool, ghost tok: seq<Byte>)
    requires StringAt(buf, s0, e) && Together(buf, args, toks, s0, e) && left > 0
    modifies buf
    ensures s0 <= s <= e && StringAt(buf, s, e)
    ensures !more ==> TokenList(old(buf[s0..e]), left) == [] && Together(buf, args, toks, s, e) && TokenList(buf[s..e], left) == []
    ensures more ==> TokenList(old(buf[s0..e]), left) == [tok] + TokenList(buf[s..e], left - 1) && Together(buf, args + [at], toks + [tok], s, e)
    ensures more ==> s > s0
  {
    hide TokenList;
    hide Spells;
    hide Token;
    ghost var u := buf[s0..e];
    s := Skip(buf, s0, e);
    TokenListStep(u, left);
    TokenListStep(buf[s..e], left);
    at, more, tok := s, buf[s] != 0, [];
    if !more {
      return;
    }
    tok := Token(buf[s..e], false).0;
    ghost var rest, n := Token(buf[s..e], false).1, 0;
    s, n := OneMore(buf, s, e, args, toks);
    TokenListSame(buf[s..e], rest, left - 1);
  }

  /** Skip separators. */
  method Skip(buf: array<Byte>, s0: nat, ghost e: nat) returns (s: nat)
    requires StringAt(buf, s0, e)
    ensures s0 <= s <= e && buf[s..e] == SkipSeps(buf[s0..e]) && (buf[s] == 0 <==> s == e)
  {
    s := s0;
    while buf[s] != 0 && IsSep(buf[s])
      invariant s0 <= s <= e && SkipSeps(buf[s..e]) == SkipSeps(buf[s0..e])
      decreases e - s
    {
      assert buf[s..e][1..] == buf[s + 1..e];
      s := s + 1;
    }
  }

  /** The tokens found so far are intact and lie before `s`. */
  ghost predicate Together(buf: array<Byte>, args: seq<nat>, toks: seq<seq<Byte>>, s: nat, e: nat)
    reads buf
  {
    && |args| == |toks|
    && (forall i :: 0 <= i < |args| ==> Spells(buf, args[i], toks[i]))
    && (forall i :: 0 <= i < |args| ==> args[i] + |toks[i]| < s || (s == e && args[i] + |toks[i]| <= s))
  }

  /** Unquoting one more token leaves the earlier ones alone. */
  method OneMore(buf: array<Byte>, s0: nat, ghost e: nat, ghost args: seq<nat>, ghost toks: seq<seq<Byte>>)
    returns (t: nat, ghost s: nat)
    requires StringAt(buf, s0, e) && s0 < e && Together(buf, args, toks, s0, e)
    modifies buf
    ensures s0 < t <= e && StringAt(buf, t, e)
    ensures var (tok, rest) := Token(old(buf[s0..e]), false);
      && Together(buf, args + [s0], toks + [tok], t, e)
      && SkipSeps(buf[t..e]) == SkipSeps(rest)
  {
    hide Token;
    ghost var was := buf[..];
    t, s := QToken(buf, s0, e);
    forall i | 0 <= i < |args| ensures Spells(buf, args[i], toks[i]) {
      var a, n := args[i], |toks[i]|;
      assert Spells(buf, a, toks[i]) by {
        assert buf[a..a + n] == was[a..a + n];
      }
    }
  }

  lemma TokenListStep(u: seq<Byte>, max: nat)
    ensures max == 0 || SkipSeps(u) == [] ==> TokenList(u, max) == []
    ensures max > 0 && SkipSeps(u) != [] ==>
      TokenList(u, max) == [Token(SkipSeps(u), false).0] + TokenList(Token(SkipSeps(u), false).1, max - 1)
  {
  }

  lemma TokenListSame(u: seq<Byte>, v: seq<Byte>, max: nat)
    requires SkipSeps(u) == SkipSeps(v)
    ensures TokenList(u, max) == TokenList(v, max)
  {
  }

  /** The string at `a` is `tok`. */
  ghost predicate Spells(buf: array<Byte>, a: nat, tok: seq<Byte>)
    reads buf
  {
    a + |tok| < buf.Length && buf[a..a + |tok|] == tok && buf[a + |tok|] == 0
  }
}
