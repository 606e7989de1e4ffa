/**
  The sliding window of libdraw/writeimage.c: 1024 list nodes, recycled in order, each on
  one of 512 doubly linked hash chains.  Pointers are node numbers: `chain[i]` is `i`,
  `&hash[h]` is `NMEM + h` and the null pointer is `NIL`.
 */
module HashChains {
  import opened Words

  const NMATCH := 3           // shortest match possible
  const NRUN := NMATCH + 31   // longest match possible
  const NMEM := 1024          // window size
  const NHASH := 512          // 1 << (HSHIFT*NMATCH)
  const NIL := -1

  type Hash = h: int | 0 <= h < NHASH

  /** The hash of the next string; nine-bit arithmetic does the masking by HMASK. */
  function HUpdate(h: Hash, c: Byte): Hash {
    (((h as bv9) << 3) ^ (c as bv9)) as int
  }

  /** The hash of the first `n` bytes of the string at `p`. */
  function StringHash(data: seq<Byte>, p: nat, n: nat): Hash
    requires p + n <= |data|
  {
    if n == 0 then 0 else HUpdate(StringHash(data, p, n - 1), data[p + n - 1])
  }

  lemma NoHash(data: seq<Byte>, p: nat)
    requires p <= |data|
    ensures StringHash(data, p, 0) == 0
  {
  }

  lemma NextHash(data: seq<Byte>, p: nat, n: nat)
    requires p + n < |data|
    ensures StringHash(data, p, n + 1) == HUpdate(StringHash(data, p, n), data[p + n])
  {
    hide HUpdate;
  }

  lemma BackToBits(x: bv9)
    ensures (x as int) as bv9 == x
  {
  }

  lemma UpdateBits(h: Hash, c: Byte)
    ensures HUpdate(h, c) as bv9 == ((h as bv9) << 3) ^ (c as bv9)
  {
    BackToBits(((h as bv9) << 3) ^ (c as bv9));
  }

  lemma ShiftedOut(g: bv9, a: bv9, b: bv9, c: bv9)
    ensures ((((((g << 3) ^ a) << 3) ^ b) << 3) ^ c) == (((a << 6) ^ (b << 3)) ^ c)
  {
  }

  lemma UpdateIs(h: Hash, c: Byte)
    ensures HUpdate(h, c) == (((h as bv9) << 3) ^ (c as bv9)) as int
  {
  }

  /** A hash after three updates. */
  lemma ThreeUpdates(h: Hash, a: Byte, b: Byte, c: Byte)
    ensures HUpdate(HUpdate(HUpdate(h, a), b), c) == ((((a as bv9) << 6) ^ ((b as bv9) << 3)) ^ (c as bv9)) as int
  {
    hide HUpdate;
    UpdateBits(h, a);
    UpdateBits(HUpdate(h, a), b);
    UpdateIs(HUpdate(HUpdate(h, a), b), c);
    ShiftedOut(h as bv9, a as bv9, b as bv9, c as bv9);
  }

  /** Three updates forget everything before them. */
  lemma Forgets(g: Hash, h: Hash, a: Byte, b: Byte, c: Byte)
    ensures HUpdate(HUpdate(HUpdate(g, a), b), c) == HUpdate(HUpdate(HUpdate(h, a), b), c)
  {
    hide HUpdate;
    ThreeUpdates(g, a, b, c);
    ThreeUpdates(h, a, b, c);
  }

  lemma ThreeHashed(data: seq<Byte>, p: nat)
    requires p + NMATCH <= |data|
    ensures StringHash(data, p, NMATCH) == HUpdate(HUpdate(HUpdate(0, data[p]), data[p + 1]), data[p + 2])
  {
    hide HUpdate;
    assert StringHash(data, p, 0) == 0;
    assert StringHash(data, p, 1) == HUpdate(0, data[p]);
    assert StringHash(data, p, 2) == HUpdate(HUpdate(0, data[p]), data[p + 1]);
  }

  /** The hash rolls: from that of the string at `p` to that of the next one. */
  lemma Rolls(data: seq<Byte>, p: nat)
    requires p + NMATCH < |data|
    ensures StringHash(data, p + 1, NMATCH) == HUpdate(StringHash(data, p, NMATCH), data[p + NMATCH])
  {
    hide HUpdate;
    hide StringHash;
    ThreeHashed(data, p);
    ThreeHashed(data, p + 1);
    Forgets(HUpdate(0, data[p]), 0, data[p + 1], data[p + 2], data[p + 3]);
  }

  /** Strings that match have the same hash. */
  lemma SameHash(data: seq<Byte>, p: nat, q: nat)
    requires q + NMATCH <= |data| && p + NMATCH <= |data| && Same(data, p, q, NMATCH)
    ensures StringHash(data, p, NMATCH) == StringHash(data, q, NMATCH)
  {
    hide HUpdate;
    hide StringHash;
    ThreeHashed(data, p);
    ThreeHashed(data, q);
    assert Agree(data, p, q, 0) && Agree(data, p, q, 1) && Agree(data, p, q, 2);
  }

  function Head(h: Hash): int {
    NMEM + h
  }

  // ----- insertions by number: `hs[j]` is the hash of insertion `j`

  /** The newest insertion in `[lo, j)` with hash `h`, or NIL. */
  function Older(hs: seq<Hash>, lo: nat, j: nat, h: Hash): (r: int)
    requires lo <= j <= |hs|
    ensures r == NIL || (lo <= r < j && hs[r] == h)
    ensures forall i :: lo <= i < j && i > r ==> hs[i] != h
    decreases j
  {
    if j == lo then NIL else if hs[j - 1] == h then j - 1 else Older(hs, lo, j - 1, h)
  }

  /** The oldest insertion after `j` with the same hash, or NIL. */
  function Newer(hs: seq<Hash>, j: nat, from: nat): (r: int)
    requires j < from <= |hs|
    ensures r == NIL || (from <= r < |hs| && hs[r] == hs[j])
    ensures forall i :: from <= i < |hs| && (r == NIL || i < r) ==> hs[i] != hs[j]
    decreases |hs| - from
  {
    if from == |hs| then NIL else if hs[from] == hs[j] then from else Newer(hs, j, from + 1)
  }

  /** The number of the oldest insertion still in the window after `k` insertions. */
  function Oldest(k: nat): nat {
    if k <= NMEM then 0 else k - NMEM
  }

  function Node(j: int): int {
    if j == NIL then NIL else j % NMEM
  }

  /** Insertions in the window are in different nodes. */
  lemma NodesDiffer(i: nat, j: nat)
    requires i < j < i + NMEM
    ensures Node(i) != Node(j)
  {
  }

  /** `next` of insertion `j` is the newest older insertion with its hash. */
  predicate NextOk(next: seq<int>, hs: seq<Hash>, lo: nat, j: nat)
    requires |next| == NMEM + NHASH && lo <= j < |hs|
  {
    next[Node(j)] == Node(Older(hs, lo, j, hs[j]))
  }

  predicate PrevOk(prev: seq<int>, hs: seq<Hash>, j: nat)
    requires |prev| == NMEM + NHASH && j < |hs|
  {
    prev[Node(j)] == var n := Newer(hs, j, j + 1); if n == NIL then Head(hs[j]) else Node(n)
  }

  predicate HeadOk(next: seq<int>, hs: seq<Hash>, lo: nat, h: Hash)
    requires |next| == NMEM + NHASH && lo <= |hs|
  {
    next[Head(h)] == Node(Older(hs, lo, |hs|, h))
  }

  /** The links of the nodes, for insertions `hs` whose window starts at `lo`. */
  ghost predicate Linked(next: seq<int>, prev: seq<int>, hs: seq<Hash>, lo: nat) {
    && |next| == |prev| == NMEM + NHASH
    && lo <= |hs| <= lo + NMEM
    && (forall j :: lo <= j < |hs| ==> NextOk(next, hs, lo, j))
    && (forall j :: lo <= j < |hs| ==> PrevOk(prev, hs, j))
    && (forall h: Hash :: HeadOk(next, hs, lo, h))
    && (forall j {:trigger Node(j)} :: |hs| <= j < NMEM ==> prev[Node(j)] == NIL)
  }

  /** Forgetting the oldest insertion: cut the link that leads to it. */
  lemma CutKeepsLinks(next: seq<int>, prev: seq<int>, hs: seq<Hash>, lo: nat, lo': nat)
    requires Linked(next, prev, hs, lo) && lo < |hs| && lo' == lo + 1
    ensures var p := prev[Node(lo)];
      0 <= p < NMEM + NHASH && next[p] == Node(lo) && Linked(next[p := NIL], prev, hs, lo')
  {
    var p := prev[Node(lo)];
    assert PrevOk(prev, hs, lo);
    var n := Newer(hs, lo, lo');
    if n == NIL {
      assert HeadOk(next, hs, lo, hs[lo]);
    } else {
      assert NextOk(next, hs, lo, n);
    }
    var next' := next[p := NIL];
    forall j | lo' <= j < |hs| ensures NextOk(next', hs, lo', j) {
      assert NextOk(next, hs, lo, j);
      OlderDrop(hs, lo, j, hs[j]);
      if n != NIL && j != n {
        if j < n { NodesDiffer(j, n); } else { NodesDiffer(n, j); }
      }
    }
    forall h: Hash ensures HeadOk(next', hs, lo', h) {
      assert HeadOk(next, hs, lo, h);
      OlderDrop(hs, lo, |hs|, h);
    }
  }

  lemma OlderDrop(hs: seq<Hash>, lo: nat, j: nat, h: Hash)
    requires lo < j <= |hs|
    ensures Older(hs, lo + 1, j, h) == if Older(hs, lo, j, h) == lo then NIL else Older(hs, lo, j, h)
  {
  }

  lemma {:induction false} OlderAppend(hs: seq<Hash>, x: Hash, lo: nat, j: nat, h: Hash)
    requires lo <= j <= |hs|
    ensures Older(hs + [x], lo, j, h) == Older(hs, lo, j, h)
    decreases j
  {
    if j > lo { OlderAppend(hs, x, lo, j - 1, h); }
  }

  lemma {:induction false} NewerAppend(hs: seq<Hash>, x: Hash, j: nat, from: nat)
    requires j < from <= |hs|
    ensures Newer(hs + [x], j, from) ==
      if Newer(hs, j, from) == NIL && x == hs[j] then |hs| else Newer(hs, j, from)
    decreases |hs| - from
  {
    if from < |hs| { NewerAppend(hs, x, j, from + 1); }
  }

  /** Unlinking the node about to be reused leaves a well linked window with room for one more. */
  function Unlink(next: seq<int>, prev: seq<int>, c: nat): seq<int>
    requires c < |prev| && NIL <= prev[c] < |next|
  {
    if prev[c] == NIL then next else next[prev[c] := NIL]
  }

  lemma UnlinkKeepsLinks(next: seq<int>, prev: seq<int>, hs: seq<Hash>)
    requires Linked(next, prev, hs, Oldest(|hs|))
    ensures var c := Node(|hs|);
      0 <= c < NMEM && NIL <= prev[c] < |next| && Linked(Unlink(next, prev, c), prev, hs, Oldest(|hs| + 1))
  {
    if |hs| >= NMEM {
      CutKeepsLinks(next, prev, hs, Oldest(|hs|), Oldest(|hs| + 1));
    }
  }

  /** The recycled node put in front of chain `h`: its forward links. */
  function PushNext(next: seq<int>, k: nat, h: Hash): seq<int>
    requires |next| == NMEM + NHASH
  {
    next[Node(k) := next[Head(h)]][Head(h) := Node(k)]
  }

  /** The recycled node put in front of chain `h`: its backward links. */
  function PushPrev(prev: seq<int>, k: nat, h: Hash, first: int): seq<int>
    requires |prev| == NMEM + NHASH && NIL <= first < NMEM
  {
    var prev' := prev[Node(k) := Head(h)];
    if first == NIL then prev' else prev'[first := Node(k)]
  }

  lemma PushKeepsNext(next: seq<int>, prev: seq<int>, hs: seq<Hash>, lo: nat, h: Hash, j: nat)
    requires Linked(next, prev, hs, lo) && |hs| < lo + NMEM && lo <= j <= |hs|
    ensures NextOk(PushNext(next, |hs|, h), hs + [h], lo, j)
  {
    assert HeadOk(next, hs, lo, h);
    OlderAppend(hs, h, lo, j, (hs + [h])[j]);
    if j < |hs| {
      assert NextOk(next, hs, lo, j);
      NodesDiffer(j, |hs|);
    }
  }

  lemma PushKeepsPrev(next: seq<int>, prev: seq<int>, hs: seq<Hash>, lo: nat, h: Hash, j: nat)
    requires Linked(next, prev, hs, lo) && |hs| < lo + NMEM && lo <= j <= |hs|
    requires NIL <= next[Head(h)] < NMEM
    ensures PrevOk(PushPrev(prev, |hs|, h, next[Head(h)]), hs + [h], j)
  {
    var k, f := |hs|, Older(hs, lo, |hs|, h);
    assert HeadOk(next, hs, lo, h);
    if f != NIL { NodesDiffer(f, k); }
    if j < k {
      assert PrevOk(prev, hs, j);
      NodesDiffer(j, k);
      NewerAppend(hs, h, j, j + 1);
      if f != NIL && f < j { NodesDiffer(f, j); } else if f > j { NodesDiffer(j, f); }
    }
  }

  lemma PushKeepsLinks(next: seq<int>, prev: seq<int>, hs: seq<Hash>, lo: nat, h: Hash)
    requires Linked(next, prev, hs, lo) && |hs| < lo + NMEM
    ensures NIL <= next[Head(h)] < NMEM && next[Head(h)] != Node(|hs|)
    ensures Linked(PushNext(next, |hs|, h), PushPrev(prev, |hs|, h, next[Head(h)]), hs + [h], lo)
  {
    var k, hs', next', f := |hs|, hs + [h], PushNext(next, |hs|, h), Older(hs, lo, |hs|, h);
    assert HeadOk(next, hs, lo, h);
    if f != NIL { NodesDiffer(f, k); }
    var prev' := PushPrev(prev, k, h, next[Head(h)]);
    forall j | lo <= j < |hs'| ensures NextOk(next', hs', lo, j) { PushKeepsNext(next, prev, hs, lo, h, j); }
    forall j | lo <= j < |hs'| ensures PrevOk(prev', hs', j) { PushKeepsPrev(next, prev, hs, lo, h, j); }
    forall g: Hash ensures HeadOk(next', hs', lo, g) {
      assert HeadOk(next, hs, lo, g);
      OlderAppend(hs, h, lo, k, g);
    }
    forall j {:trigger Node(j)} | |hs'| <= j < NMEM ensures prev'[Node(j)] == NIL {
      assert prev[Node(j)] == NIL;
      NodesDiffer(k, j);
      if f != NIL { NodesDiffer(f, j); }
    }
  }

  // ----- chains as sequences of insertions

  /** The insertions of chain `h` that are older than `j`, newest first. */
  function Chain(hs: seq<Hash>, lo: nat, j: nat, h: Hash): (c: seq<nat>)
    requires lo <= j <= |hs|
    decreases j
  {
    var r := Older(hs, lo, j, h);
    if r == NIL then [] else [r] + Chain(hs, lo, r, h)
  }

  /** A chain is strictly newest first and holds exactly the live insertions with its hash. */
  lemma {:induction false} ChainIsExact(hs: seq<Hash>, lo: nat, j: nat, h: Hash)
    requires lo <= j <= |hs|
    ensures var c := Chain(hs, lo, j, h);
      && (forall a, b :: 0 <= a < b < |c| ==> c[a] > c[b])
      && (forall i: nat :: i in c <==> lo <= i < j && hs[i] == h)
    decreases j
  {
    var r := Older(hs, lo, j, h);
    if r != NIL {
      ChainIsExact(hs, lo, r, h);
      var d := Chain(hs, lo, r, h);
      forall b | 0 <= b < |d| ensures d[b] < r { assert d[b] in d; }
      forall i: nat ensures i in [r] + d <==> lo <= i < j && hs[i] == h {
        if lo <= i < j && hs[i] == h { assert i <= r; }
      }
    }
  }

  /** The oldest live insertion is the tail of its own chain and on no other; dropping it drops nothing else. */
  lemma {:induction false} OldestIsTail(hs: seq<Hash>, lo: nat, j: nat, h: Hash)
    requires lo < j <= |hs|
    ensures Chain(hs, lo, j, h) == Chain(hs, lo + 1, j, h) + if hs[lo] == h then [lo] else []
    decreases j
  {
    var r := Older(hs, lo, j, h);
    OlderDrop(hs, lo, j, h);
    if r == lo {
      assert Older(hs, lo, lo, h) == NIL;
    } else if r != NIL {
      OldestIsTail(hs, lo, r, h);
    }
  }

  /** The nodes met by following `next`, at most `fuel` of them. */
  function Walk(next: seq<int>, from: int, fuel: nat): seq<int>
    decreases fuel
  {
    if fuel == 0 || !(0 <= from < |next|) then [] else [from] + Walk(next, next[from], fuel - 1)
  }

  /** Following the pointers from a chain's head visits the nodes of exactly that chain. */
  lemma {:induction false} WalkIsChain(next: seq<int>, prev: seq<int>, hs: seq<Hash>, lo: nat, j: nat, h: Hash, fuel: nat)
    requires Linked(next, prev, hs, lo) && lo <= j <= |hs| && j - lo <= fuel
    ensures var c := Chain(hs, lo, j, h);
      Walk(next, Node(Older(hs, lo, j, h)), fuel) == seq(|c|, i requires 0 <= i < |c| => Node(c[i]))
    decreases j
  {
    var r := Older(hs, lo, j, h);
    if r != NIL {
      assert NextOk(next, hs, lo, r);
      WalkIsChain(next, prev, hs, lo, r, h, fuel - 1);
    }
  }

  // ----- the window itself

  class Window {
    const next: array<int>   // of the nodes, then of the hash heads
    const prev: array<int>
    const s: array<int>      // position of the string each node stands for
    var cp: nat              // next node to fall out of the window
    ghost var start: nat     // position of insertion 0
    ghost var hs: seq<Hash>  // hashes of all insertions since the last reset

    ghost predicate Valid()
      reads this, next, prev, s
    {
      && next.Length == prev.Length == NMEM + NHASH && s.Length == NMEM
      && next != prev && next != s && prev != s
      && cp == Node(|hs|)
      && Linked(next[..], prev[..], hs, Oldest(|hs|))
      && (forall j :: Oldest(|hs|) <= j < |hs| ==> s[Node(j)] == start + j)
    }

    constructor ()
      ensures Valid() && fresh(next) && fresh(prev) && fresh(s) && hs == [] && start == 0
    {
      next := new int[NMEM + NHASH](_ => NIL);
      prev := new int[NMEM + NHASH](_ => NIL);
      s := new int[NMEM];
      cp := 0;
      start := 0;
      hs := [];
    }

    /** Empty the window; the next string inserted starts at position `at`. */
    method Reset(ghost at: nat)
      requires Valid()
      modifies this, next, prev
      ensures Valid() && hs == [] && start == at
    {
      forall i | 0 <= i < next.Length { next[i] := NIL; }
      forall i | 0 <= i < prev.Length { prev[i] := NIL; }
      cp := 0;
      start := at;
      hs := [];
    }

    /** Unlink the oldest node, if the window is full, and put it in front of chain `h`. */
    method Relink(h: Hash)
      requires Valid()
      modifies next, prev
      ensures Linked(next[..], prev[..], hs + [h], Oldest(|hs| + 1))
    {
      hide Linked;
      UnlinkKeepsLinks(next[..], prev[..], hs);
      ghost var next0, prev0 := Unlink(next[..], prev[..], cp), prev[..];
      PushKeepsLinks(next0, prev0, hs, Oldest(|hs| + 1), h);
      if prev[cp] != NIL {
        next[prev[cp]] := NIL;
      }
      assert next[..] == next0;
      next[cp] := next[Head(h)];
      prev[cp] := Head(h);
      if next[cp] != NIL {
        prev[next[cp]] := cp;
      }
      next[prev[cp]] := cp;
      assert next[..] == PushNext(next0, |hs|, h);
      assert prev[..] == PushPrev(prev0, |hs|, h, next0[Head(h)]);
    }

    /** Recycle the oldest node for the string at `p`, whose hash is `h`. */
    method Insert(h: Hash, p: nat)
      requires Valid() && p == start + |hs|
      modifies this, next, prev, s
      ensures Valid() && start == old(start) && hs == old(hs) + [h]
    {
      hide Linked;
      ghost var k := |hs|;
      Relink(h);
      s[cp] := p;
      forall j | Oldest(k + 1) <= j < k ensures s[Node(j)] == start + j { NodesDiffer(j, k); }
      hs := hs + [h];
      cp := if cp + 1 == NMEM then 0 else cp + 1;
    }

    /** The longest match, up to `es`, between the string at `p` and a string of chain `h`.  Every candidate is
        confirmed byte by byte, so the hash decides only which candidates are tried. */
    method LongestMatch(data: seq<Byte>, p: nat, es: nat, h: Hash) returns (runlen: nat, q: nat)
      requires Valid() && p == start + |hs| && p < es <= |data| && es <= p + NRUN
      ensures runlen <= es - p
      ensures runlen > 0 ==> start <= q < p <= q + NMEM && Same(data, p, q, runlen)
      ensures forall j :: Oldest(|hs|) <= j < |hs| && hs[j] == h ==> NoLonger(data, p, start + j, runlen, es)
    {
      ghost var lo, k := Oldest(|hs|), |hs|;
      ghost var j := Older(hs, lo, k, h);
      q, runlen := 0, 0;
      var hp := next[Head(h)];
      assert HeadOk(next[..], hs, lo, h);
      hide Same;
      hide NoLonger;
      hide Older;
      while hp != NIL
        invariant hp == Node(j) && (j == NIL || (lo <= j < k && hs[j] == h))
        invariant runlen <= es - p
        invariant runlen > 0 ==> start <= q < p <= q + NMEM && Same(data, p, q, runlen)
        invariant forall i :: lo <= i < k && i > j && hs[i] == h ==> NoLonger(data, p, start + i, runlen, es)
        decreases j
      {
        assert NextOk(next[..], hs, lo, j);
        ghost var before := runlen;
        runlen, q := Try(data, p, s[hp], es, runlen, q);
        forall i | lo <= i < k && i >= j && hs[i] == h ensures NoLonger(data, p, start + i, runlen, es) {
          if i > j { NoLongerStill(data, p, start + i, before, runlen, es); }
        }
        if runlen == NRUN {
          AtMost(data, p, runlen, es);
          return;
        }
        hp := next[hp];
        j := Older(hs, lo, j, h);
      }
    }
  }

  lemma NoLongerStill(data: seq<Byte>, p: nat, q: nat, n: nat, n': nat, es: nat)
    requires NoLonger(data, p, q, n, es) && n <= n'
    ensures NoLonger(data, p, q, n', es)
  {
    if p + n < es {
      var i :| 0 <= i < n + 1 && !Agree(data, p, q, i);
    }
  }

  /** A run of NRUN bytes reaches `es`. */
  lemma AtMost(data: seq<Byte>, p: nat, n: nat, es: nat)
    requires p + n >= es
    ensures forall q: nat :: NoLonger(data, p, q, n, es)
  {
  }

  /** One candidate: keep it if it matches longer than the best so far. */
  method Try(data: seq<Byte>, p: nat, candidate: nat, es: nat, runlen: nat, q: nat) returns (runlen': nat, q': nat)
    requires candidate < p && p < es <= |data| && runlen <= es - p
    ensures runlen <= runlen' <= es - p && NoLonger(data, p, candidate, runlen', es)
    ensures (runlen' == runlen && q' == q) || (q' == candidate && Same(data, p, candidate, runlen'))
  {
    runlen', q' := runlen, q;
    if p + runlen < es {
      var same := SameBackwards(data, p, candidate, runlen);
      if same {
        var n := Extend(data, p, candidate, runlen + 1, es);
        runlen', q' := n, candidate;
      }
    }
  }

  predicate Agree(data: seq<Byte>, p: nat, q: nat, i: nat) {
    p + i < |data| && q + i < |data| && data[p + i] == data[q + i]
  }

  /** The `n` bytes at `p` repeat the `n` bytes at `q`; the two strings may overlap. */
  predicate Same(data: seq<Byte>, p: nat, q: nat, n: nat) {
    forall i :: 0 <= i < n ==> Agree(data, p, q, i)
  }

  /** The strings at `p` and `q` do not agree on more than `n` bytes before `es`. */
  predicate NoLonger(data: seq<Byte>, p: nat, q: nat, n: nat, es: nat) {
    p + n >= es || !Same(data, p, q, n + 1)
  }

  /** Compare `len + 1` bytes, last byte first. */
  method SameBackwards(data: seq<Byte>, p: nat, q: nat, len: nat) returns (same: bool)
    requires q <= p && p + len < |data|
    ensures same <==> Same(data, p, q, len + 1)
  {
    var i := len;
    while i >= 0
      invariant -1 <= i <= len
      invariant forall m :: i < m <= len ==> Agree(data, p, q, m)
    {
      if data[p + i] != data[q + i] {
        assert !Agree(data, p, q, i);
        return false;
      }
      i := i - 1;
    }
    return true;
  }

  /** Lengthen a match of `len` bytes as far as it goes before `es`. */
  method Extend(data: seq<Byte>, p: nat, q: nat, len: nat, es: nat) returns (n: nat)
    requires q <= p && Same(data, p, q, len) && p + len <= es <= |data|
    ensures len <= n <= es - p && Same(data, p, q, n) && NoLonger(data, p, q, n, es)
  {
    n := len;
    while p + n < es
      invariant len <= n <= es - p && Same(data, p, q, n)
    {
      if data[p + n] != data[q + n] {
        assert !Agree(data, p, q, n);
        break;
      }
      n := n + 1;
    }
  }
}
