/**
  lib9/rune.c: the UTF-8 encoding of one rune and its decoding (sections 3 and 4 of
  RFC 3629).  Bit operations on non-negative numbers are written as arithmetic.
 */
module Utf8 {
  import opened Words

  const UTFMAX := 4
  const RUNEERROR := 0xFFFD
  const RUNEMAX := 0x10FFFF

  /** A rune that has an encoding of its own: in range and not half of a surrogate pair. */
  predicate Scalar(r: int) {
    0 <= r <= RUNEMAX && !(0xD800 <= r <= 0xDFFF)
  }

  /** The lead byte of an `i`-byte sequence has the bits of `T(i)` set; `T(i)` is also above all shorter lead bytes. */
  function T(i: int): int {
    if i == 2 then 0xC0 else if i == 3 then 0xE0 else if i == 4 then 0xF0 else 0xF8
  }

  /** The largest value that fits an `i`-byte sequence. */
  function RuneX(i: int): int {
    if i <= 1 then 0x7F else if i == 2 then 0x7FF else if i == 3 then 0xFFFF else 0x1FFFFF
  }

  function Pow64(n: nat): (p: int)
    ensures p >= 1
  {
    if n == 0 then 1 else if n == 1 then 64 else if n == 2 then 4096 else 262144
  }

  /** The encoding of a rune; anything without an encoding of its own is encoded as the error rune. */
  function Encode(r: nat): (s: seq<Byte>)
    ensures 1 <= |s| <= UTFMAX
  {
    var c := if Scalar(r) then r else RUNEERROR;
    if c <= 0x7F then [c]
    else if c <= 0x7FF then [0xC0 + c / 64, 0x80 + c % 64]
    else if c <= 0xFFFF then [0xE0 + c / 4096, 0x80 + c / 64 % 64, 0x80 + c % 64]
    else [0xF0 + c / 262144, 0x80 + c / 4096 % 64, 0x80 + c / 64 % 64, 0x80 + c % 64]
  }

  /** The table of RFC 3629, section 3: the shortest form, its lead byte and the six bits in each further byte; what has no
      encoding of its own becomes EF BF BD. */
  lemma EncodeTable(r: nat)
    ensures !Scalar(r) ==> Encode(r) == [0xEF, 0xBF, 0xBD]
    ensures Scalar(r) ==> var e := Encode(r);
      && (|e| <= 1 <==> r < 0x80) && (|e| <= 2 <==> r < 0x800) && (|e| <= 3 <==> r < 0x10000) && |e| <= 4
      && (forall i :: 1 <= i < |e| ==> 0x80 <= e[i] <= 0xBF)
      && (|e| == 1 ==> r == e[0])
      && (|e| == 2 ==> 0xC0 <= e[0] <= 0xDF && r == 64 * (e[0] as int - 0xC0) + (e[1] as int - 0x80))
      && (|e| == 3 ==> 0xE0 <= e[0] <= 0xEF && r == 4096 * (e[0] as int - 0xE0) + 64 * (e[1] as int - 0x80) + (e[2] as int - 0x80))
      && (|e| == 4 ==> 0xF0 <= e[0] <= 0xF4 && r == 262144 * (e[0] as int - 0xF0) + 4096 * (e[1] as int - 0x80) + 64 * (e[2] as int - 0x80) + (e[3] as int - 0x80))
  {
    Split64(r, 64, 4096);
    Split64(r, 4096, 262144);
  }

  lemma Split64(r: nat, p: nat, q: nat)
    requires (p == 64 && q == 4096) || (p == 4096 && q == 262144)
    ensures r / p == 64 * (r / q) + r / p % 64
  {
    assert r / p / 64 == r / q;
  }

  /** runetochar. */
  method RuneToChar(rune: nat) returns (str: seq<Byte>)
    ensures str == Encode(rune)
  {
    var c := rune;
    if c <= 0x7F {
      return [c];
    }
    var i := 2;
    while i < UTFMAX + 1
      invariant 2 <= i <= UTFMAX && c > RuneX(i - 1)
      invariant if i <= 3 then c == rune else c == if Scalar(rune) then rune else RUNEERROR
      decreases UTFMAX + 1 - i
    {
      if i == 3 {
        if c > RUNEMAX {
          c := RUNEERROR;
        }
        if 0xD800 <= c <= 0xDFFF {
          c := RUNEERROR;
        }
      }
      if c <= RuneX(i) || i == UTFMAX {
        str := [T(i) + c / Pow64(i - 1)];
        var j := 1;
        while j < i
          invariant 1 <= j <= i && |str| == j && str[0] == T(i) + c / Pow64(i - 1)
          invariant j >= 2 ==> str[1] == 0x80 + c / Pow64(i - 2) % 64
          invariant j >= 3 ==> str[2] == 0x80 + c / Pow64(i - 3) % 64
          invariant j >= 4 ==> str[3] == 0x80 + c / Pow64(i - 4) % 64
        {
          str := str + [0x80 + c / Pow64(i - j - 1) % 64];
          j := j + 1;
        }
        return;
      }
      i := i + 1;
    }
  }

  /** Byte `i` of a string, or the NUL that ends it. */
  function CharAt(s: seq<Byte>, i: nat): Byte {
    if i < |s| then s[i] else 0
  }

  predicate Continues(b: Byte) {
    0x80 <= b < 0xC0
  }

  /** The rune at the front of a string and the number of bytes it takes; an error takes one byte. */
  function Decode(s: seq<Byte>): (r: (nat, nat))
    ensures 1 <= r.1 <= UTFMAX
  {
    var c0, c1, c2, c3 := CharAt(s, 0), CharAt(s, 1), CharAt(s, 2), CharAt(s, 3);
    var bad := (RUNEERROR, 1);
    if c0 < 0x80 then (c0, 1)
    else if !Continues(c1) then bad
    else if c0 < 0xE0 then
      var l: int := (c0 % 32) * 64 + (c1 - 0x80);
      if c0 < 0xC0 || l <= 0x7F then bad else (l, 2)
    else if !Continues(c2) then bad
    else if c0 < 0xF0 then
      var l: int := (c0 % 16) * 4096 + (c1 - 0x80) * 64 + (c2 - 0x80);
      if l <= 0x7FF || 0xD800 <= l <= 0xDFFF then bad else (l, 3)
    else if !Continues(c3) || c0 >= 0xF8 then bad
    else
      var l: int := (c0 % 8) * 262144 + (c1 - 0x80) * 4096 + (c2 - 0x80) * 64 + (c3 - 0x80);
      if l <= 0xFFFF || l > RUNEMAX then bad else (l, 4)
  }

  /** chartorune. */
  method CharToRune(str: seq<Byte>) returns (rune: nat, n: nat)
    ensures (rune, n) == Decode(str)
  {
    var c0 := CharAt(str, 0);
    if c0 < 0x80 {
      return c0, 1;
    }
    var l: int := c0;
    var i := 1;
    while i < UTFMAX
      invariant 1 <= i <= UTFMAX && (i > 1 ==> c0 >= T(i + 1))
      invariant i > 1 ==> Continues(CharAt(str, 1))
      invariant i > 2 ==> Continues(CharAt(str, 2))
      invariant i > 3 ==> Continues(CharAt(str, 3))
      invariant l == Accumulated(str, i)
    {
      var c := CharAt(str, i);
      if !Continues(c) {
        return RUNEERROR, 1;
      }
      l := l * 64 + (c - 0x80);
      if c0 < T(i + 2) {
        l := l % (RuneX(i + 1) + 1);
        MaskedIsDecoded(str, i);
        if i == 1 {
          if c0 < T(2) || l <= 0x7F {
            return RUNEERROR, 1;
          }
        } else if l <= RuneX(i) || l > RUNEMAX {
          return RUNEERROR, 1;
        }
        if i == 2 && 0xD800 <= l <= 0xDFFF {
          return RUNEERROR, 1;
        }
        return l, i + 1;
      }
      i := i + 1;
    }
    return RUNEERROR, 1;
  }

  /** The value gathered from the first `i` bytes, lead byte bits included. */
  function Accumulated(s: seq<Byte>, i: nat): int {
    var c0: int, c1: int, c2: int, c3: int := CharAt(s, 0), CharAt(s, 1) - 0x80, CharAt(s, 2) - 0x80, CharAt(s, 3) - 0x80;
    if i <= 1 then c0
    else if i == 2 then c0 * 64 + c1
    else if i == 3 then (c0 * 64 + c1) * 64 + c2
    else ((c0 * 64 + c1) * 64 + c2) * 64 + c3
  }

  lemma ModAdd(q: int, m: int, x: int)
    requires 0 <= x < m && m in {2048, 65536, 2097152}
    ensures (q * m + x) % m == x
  {
  }

  /** Masking removes exactly the lead byte's length bits. */
  lemma MaskedIsDecoded(s: seq<Byte>, i: nat)
    requires 1 <= i <= 3 && Continues(CharAt(s, 1)) && (i >= 2 ==> Continues(CharAt(s, 2))) && (i >= 3 ==> Continues(CharAt(s, 3)))
    ensures var c0: int, c1: int, c2: int, c3: int := CharAt(s, 0), CharAt(s, 1) - 0x80, CharAt(s, 2) - 0x80, CharAt(s, 3) - 0x80;
      Accumulated(s, i + 1) % (RuneX(i + 1) + 1) ==
        if i == 1 then (c0 % 32) * 64 + c1
        else if i == 2 then (c0 % 16) * 4096 + c1 * 64 + c2
        else (c0 % 8) * 262144 + c1 * 4096 + c2 * 64 + c3
  {
    var c0: int, c1: int, c2: int, c3: int := CharAt(s, 0), CharAt(s, 1) - 0x80, CharAt(s, 2) - 0x80, CharAt(s, 3) - 0x80;
    if i == 1 {
      ModAdd(c0 / 32, 2048, (c0 % 32) * 64 + c1);
    } else if i == 2 {
      ModAdd(c0 / 16, 65536, (c0 % 16) * 4096 + c1 * 64 + c2);
    } else {
      ModAdd(c0 / 8, 2097152, (c0 % 8) * 262144 + c1 * 4096 + c2 * 64 + c3);
    }
  }

  /** Base-64 digits of a number, and the number of some base-64 digits. */
  lemma Digits(r: nat)
    ensures r / 64 == r / 4096 * 64 + r / 64 % 64 && r / 4096 == r / 262144 * 64 + r / 4096 % 64
  {
    Div4096(r, r / 64 / 64);
    Div262144(r, r / 64 / 64 / 64);
  }

  lemma Div4096(r: nat, q: nat)
    requires 4096 * q <= r < 4096 * q + 4096
    ensures r / 4096 == q
  {
  }

  lemma Div262144(r: nat, q: nat)
    requires 262144 * q <= r < 262144 * q + 262144
    ensures r / 262144 == q
  {
  }

  lemma Div64(r: nat, q: nat)
    requires 64 * q <= r < 64 * q + 64
    ensures r / 64 == q && r % 64 == r - 64 * q
  {
  }

  lemma FromDigits(a: nat, b: nat, c: nat, d: nat)
    requires b < 64 && c < 64 && d < 64
    ensures var l := a * 262144 + b * 4096 + c * 64 + d;
      l / 262144 == a && l / 4096 % 64 == b && l / 64 % 64 == c && l % 64 == d
    ensures a == 0 ==> (b * 4096 + c * 64 + d) / 4096 == b
    ensures a == 0 && b == 0 ==> (c * 64 + d) / 64 == c
  {
    var l := a * 262144 + b * 4096 + c * 64 + d;
    Div262144(l, a);
    Div4096(l, a * 64 + b);
    Div64(l, a * 4096 + b * 64 + c);
    Div64(a * 64 + b, a);
    Div64(a * 4096 + b * 64 + c, a * 64 + b);
    Div4096(b * 4096 + c * 64 + d, b);
    Div64(c * 64 + d, c);
  }

  lemma DecodeTwo(s: seq<Byte>, r: nat)
    requires 0x7F < r <= 0x7FF && CharAt(s, 0) == 0xC0 + r / 64 && CharAt(s, 1) == 0x80 + r % 64
    ensures Decode(s) == (r, 2)
  {
    assert (0xC0 + r / 64) % 32 == r / 64;
  }

  lemma DecodeThree(s: seq<Byte>, r: nat)
    requires 0x7FF < r <= 0xFFFF && Scalar(r) && CharAt(s, 0) == 0xE0 + r / 4096
    requires CharAt(s, 1) == 0x80 + r / 64 % 64 && CharAt(s, 2) == 0x80 + r % 64
    ensures Decode(s) == (r, 3)
  {
    Digits(r);
    assert (0xE0 + r / 4096) % 16 == r / 4096;
  }

  lemma DecodeFour(s: seq<Byte>, r: nat)
    requires 0xFFFF < r <= RUNEMAX && CharAt(s, 0) == 0xF0 + r / 262144 && CharAt(s, 1) == 0x80 + r / 4096 % 64
    requires CharAt(s, 2) == 0x80 + r / 64 % 64 && CharAt(s, 3) == 0x80 + r % 64
    ensures Decode(s) == (r, 4)
  {
    Digits(r);
    assert r / 262144 < 8 && (0xF0 + r / 262144) % 8 == r / 262144;
  }

  /** Decoding undoes encoding, whatever follows. */
  lemma DecodeEncode(r: nat, tail: seq<Byte>)
    requires Scalar(r)
    ensures Decode(Encode(r) + tail) == (r, |Encode(r)|)
  {
    hide Decode;
    var e := Encode(r);
    var s := e + tail;
    if r <= 0x7F {
      DecodeOne(s);
    } else if r <= 0x7FF {
      DecodeTwo(s, r);
    } else if r <= 0xFFFF {
      DecodeThree(s, r);
    } else {
      DecodeFour(s, r);
    }
  }

  lemma DecodeOne(s: seq<Byte>)
    requires s != [] && s[0] < 0x80
    ensures Decode(s) == (s[0], 1)
  {
  }

  lemma EncodeTwo(c0: Byte, c1: Byte)
    requires 0xC0 <= c0 < 0xE0 && Continues(c1)
    ensures var l := (c0 as int % 32) * 64 + (c1 as int - 0x80); 0x7F < l ==> Encode(l) == [c0, c1]
  {
    FromDigits(0, 0, c0 % 32, c1 - 0x80);
  }

  lemma EncodeThree(c0: Byte, c1: Byte, c2: Byte)
    requires 0xE0 <= c0 < 0xF0 && Continues(c1) && Continues(c2)
    ensures var l := (c0 as int % 16) * 4096 + (c1 as int - 0x80) * 64 + (c2 as int - 0x80);
      0x7FF < l && Scalar(l) ==> Encode(l) == [c0, c1, c2]
  {
    FromDigits(0, c0 % 16, c1 - 0x80, c2 - 0x80);
  }

  lemma EncodeFour(c0: Byte, c1: Byte, c2: Byte, c3: Byte)
    requires 0xF0 <= c0 < 0xF8 && Continues(c1) && Continues(c2) && Continues(c3)
    ensures var l := (c0 as int % 8) * 262144 + (c1 as int - 0x80) * 4096 + (c2 as int - 0x80) * 64 + (c3 as int - 0x80);
      0xFFFF < l <= RUNEMAX ==> Encode(l) == [c0, c1, c2, c3]
  {
    FromDigits(c0 % 8, c1 - 0x80, c2 - 0x80, c3 - 0x80);
  }

  /** Whatever is decoded without error is the one encoding of its rune: overlong forms, surrogates and values out of
      range are errors. */
  lemma EncodeDecode(s: seq<Byte>)
    requires s != [] && Decode(s) != (RUNEERROR, 1)
    ensures var (r, n) := Decode(s); Scalar(r) && n <= |s| && Encode(r) == s[..n]
  {
    hide Encode;
    var (r, n) := Decode(s);
    if n == 1 {
      EncodeOne(s[0]);
      assert s[..1] == [s[0]];
    } else if n == 2 {
      EncodeTwo(s[0], s[1]);
      assert s[..2] == [s[0], s[1]];
    } else if n == 3 {
      EncodeThree(s[0], s[1], s[2]);
      assert s[..3] == [s[0], s[1], s[2]];
    } else {
      EncodeFour(s[0], s[1], s[2], s[3]);
      assert s[..4] == [s[0], s[1], s[2], s[3]];
    }
  }

  lemma EncodeOne(c: Byte)
    requires c < 0x80
    ensures Encode(c) == [c]
  {
  }

  /** Encodings of runes outside ASCII contain no ASCII byte. */
  lemma NonAscii(r: nat, i: nat)
    requires i < |Encode(r)|
    ensures if r < 0x80 then Encode(r) == [r] else Encode(r)[i] >= 0x80
  {
  }
}
