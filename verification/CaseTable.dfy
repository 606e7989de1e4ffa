/**
  Case tables in libinterp/comp-386.c.  A table is a count `n`, `n` triples (low, high, arm)
  and a default arm, all in the module data.  The compiler's two passes mark and then
  relocate tables in place (`comcase`); the emitted macro searches one by bisection
  (`maccase`).  Several case instructions may share a table.
 */
module CaseTable {
  import opened Words

  /** The code address of Dis instruction `t`. */
  function Reloc(base: nat, patch: seq<nat>, t: int): int
    requires 0 <= t < |patch|
  {
    Wrap32(base + patch[t])
  }

  /** Word `i` holds an arm, or the default arm, of the table of `n` entries at `d`. */
  predicate IsArm(d: nat, n: int, i: nat) {
    (d < i <= d + 3 * n && (i - d) % 3 == 0) || i == d + 1 + 3 * n
  }

  /** A table lies at `d` and its arms name instructions. */
  predicate TableAt(mp: seq<int>, d: nat, np: nat) {
    && d < |mp| && mp[d] >= 0 && d + 1 + 3 * mp[d] < |mp|
    && forall i :: d < i < |mp| && IsArm(d, mp[d], i) ==> 0 <= mp[i] < np
  }

  predicate Apart(mp: seq<int>, d: nat, e: nat)
    requires d < |mp| && e < |mp|
  {
    d == e || d + 1 + 3 * mp[d] < e || e + 1 + 3 * mp[e] < d
  }

  /** The module data before compilation: every case instruction has a table, and different tables do not overlap. */
  predicate Tables(mp: seq<int>, cases: seq<nat>, np: nat) {
    && (forall c :: 0 <= c < |cases| ==> TableAt(mp, cases[c], np))
    && (forall a, b :: 0 <= a < |cases| && 0 <= b < |cases| ==> Apart(mp, cases[a], cases[b]))
  }

  /** Module data in the middle of compilation: the tables in `marked` are marked, the arms of those in `done` are
      relocated, and nothing else has changed. */
  ghost predicate State(mp: seq<int>, was: seq<int>, marked: set<nat>, done: set<nat>, base: nat, patch: seq<nat>) {
    && |mp| == |was|
    && forall i :: 0 <= i < |was| ==> Word(mp[i], was, marked, done, base, patch, i)
  }

  ghost predicate Word(w: int, was: seq<int>, marked: set<nat>, done: set<nat>, base: nat, patch: seq<nat>, i: nat)
    requires i < |was|
  {
    if i in marked then w == -was[i] - 1
    else if ArmOf(was, done, i) then 0 <= was[i] < |patch| && w == Reloc(base, patch, was[i])
    else w == was[i]
  }

  ghost predicate ArmOf(was: seq<int>, done: set<nat>, i: nat) {
    exists d :: d in done && d < |was| && IsArm(d, was[d], i)
  }

  /** comcase in pass 0: mark the table as not yet relocated, once. */
  method Mark(mp: array<int>, d: nat, ghost was: seq<int>, ghost marked: set<nat>, ghost base: nat, ghost patch: seq<nat>)
    requires State(mp[..], was, marked, {}, base, patch) && TableAt(was, d, |patch|)
    modifies mp
    ensures State(mp[..], was, marked + {d}, {}, base, patch)
  {
    assert Word(mp[..][d], was, marked, {}, base, patch, d);
    ghost var before := mp[..];
    var l := mp[d];
    if l >= 0 {
      mp[d] := -l - 1;
    }
    forall i | 0 <= i < |was| ensures Word(mp[i], was, marked + {d}, {}, base, patch, i) {
      assert Word(before[i], was, marked, {}, base, patch, i);
    }
  }

  /** The tables named by a set do not overlap, and each holds instruction numbers. */
  ghost predicate AllApart(was: seq<int>, ds: set<nat>, np: nat) {
    && (forall d :: d in ds ==> TableAt(was, d, np))
    && (forall d, e :: d in ds && e in ds ==> d < |was| && e < |was| && Apart(was, d, e))
  }

  /** A word of table `d` belongs to no other table. */
  lemma ArmsAreOwn(was: seq<int>, ds: set<nat>, np: nat, d: nat, i: nat)
    requires AllApart(was, ds, np) && d in ds && i < |was| && d <= i <= d + 1 + 3 * was[d]
    ensures i in ds ==> i == d
    ensures forall done :: done <= ds && d !in done ==> !ArmOf(was, done, i)
  {
    assert TableAt(was, d, np);
    forall e | e in ds && e != d ensures i != e && !IsArm(e, was[e], i) {
      assert TableAt(was, e, np);
      assert Apart(was, d, e);
    }
  }

  /** Set the count of the table at `d` and relocate each of its arms. */
  method RelocateArms(mp: array<int>, d: nat, n: nat, base: nat, patch: seq<nat>)
    requires d + 1 + 3 * n < mp.Length
    requires forall i :: d < i < mp.Length && IsArm(d, n, i) ==> 0 <= mp[i] < |patch|
    modifies mp
    ensures mp[d] == n
    ensures forall i :: 0 <= i < mp.Length && i != d ==>
      mp[i] == if IsArm(d, n, i) then Reloc(base, patch, old(mp[i])) else old(mp[i])
  {
    mp[d] := n;
    var t, e := d + 1, d + 1 + 3 * n;
    while t < e
      invariant d + 1 <= t <= e && (t - d) % 3 == 1 && mp[d] == n
      invariant forall i :: 0 <= i < mp.Length && i != d ==>
        mp[i] == if i < t && IsArm(d, n, i) then Reloc(base, patch, old(mp[i])) else old(mp[i])
    {
      assert IsArm(d, n, t + 2);
      mp[t + 2] := Wrap32(base + patch[mp[t + 2]]);
      t := t + 3;
    }
    assert IsArm(d, n, t);
    mp[t] := Wrap32(base + patch[mp[t]]);
  }

  /** The arms of a marked table are still as they were. */
  lemma MarkedArmsAreRaw(mp: seq<int>, was: seq<int>, marked: set<nat>, done: set<nat>, base: nat, patch: seq<nat>, d: nat)
    requires State(mp, was, marked, done, base, patch) && AllApart(was, marked + done, |patch|) && marked !! done
    requires d in marked
    ensures d < |was| && was[d] >= 0 && d + 1 + 3 * was[d] < |was| && mp[d] == -was[d] - 1
    ensures forall i :: 0 <= i < |was| && IsArm(d, was[d], i) ==> mp[i] == was[i] && 0 <= was[i] < |patch|
  {
    assert TableAt(was, d, |patch|) && Word(mp[d], was, marked, done, base, patch, d);
    forall i | 0 <= i < |was| && IsArm(d, was[d], i) ensures mp[i] == was[i] && 0 <= was[i] < |patch| {
      assert Word(mp[i], was, marked, done, base, patch, i);
      ArmsAreOwn(was, marked + done, |patch|, d, i);
    }
  }

  lemma RelocatedState(mp: seq<int>, mp': seq<int>, was: seq<int>, marked: set<nat>, done: set<nat>, base: nat,
                       patch: seq<nat>, d: nat)
    requires State(mp, was, marked, done, base, patch) && AllApart(was, marked + done, |patch|) && marked !! done
    requires d in marked && |mp'| == |mp| && d < |was| && mp'[d] == was[d] && d !in done
    requires forall i :: 0 <= i < |was| && i != d && IsArm(d, was[d], i) ==> 0 <= mp[i] < |patch| && mp'[i] == Reloc(base, patch, mp[i])
    requires forall i :: 0 <= i < |was| && i != d && !IsArm(d, was[d], i) ==> mp'[i] == mp[i]
    ensures State(mp', was, marked - {d}, done + {d}, base, patch)
  {
    MarkedArmsAreRaw(mp, was, marked, done, base, patch, d);
    ArmsAreOwn(was, marked + done, |patch|, d, d);
    forall i | 0 <= i < |was| ensures Word(mp'[i], was, marked - {d}, done + {d}, base, patch, i) {
      assert Word(mp[i], was, marked, done, base, patch, i);
      assert ArmOf(was, done + {d}, i) <==> ArmOf(was, done, i) || IsArm(d, was[d], i) by {
        assert d in done + {d};
      }
      if IsArm(d, was[d], i) {
        ArmsAreOwn(was, marked + done, |patch|, d, i);
      }
    }
  }

  /** comcase in pass 1: relocate the arms of a marked table and restore its count; leave any other table alone. */
  method Relocate(mp: array<int>, d: nat, base: nat, patch: seq<nat>, ghost was: seq<int>, ghost marked: set<nat>,
                  ghost done: set<nat>)
    requires State(mp[..], was, marked, done, base, patch)
    requires AllApart(was, marked + done, |patch|) && marked !! done && d in marked + done
    modifies mp
    ensures State(mp[..], was, marked - {d}, done + {d}, base, patch)
  {
    assert TableAt(was, d, |patch|);
    ghost var before := mp[..];
    if d in marked {
      MarkedArmsAreRaw(before, was, marked, done, base, patch, d);
    } else {
      ArmsAreOwn(was, marked + done, |patch|, d, d);
      assert Word(before[d], was, marked, done, base, patch, d);
      assert !ArmOf(was, done, d);
      assert marked - {d} == marked && done + {d} == done;
    }
    hide State;
    hide AllApart;
    var l := mp[d];
    if l >= 0 {
      return;
    }
    RelocateArms(mp, d, -l - 1, base, patch);
    RelocatedState(before, mp[..], was, marked, done, base, patch, d);
  }

  ghost function TableSet(cases: seq<nat>): set<nat> {
    set c | 0 <= c < |cases| :: cases[c]
  }

  /** The two passes of compile() over all case instructions, in program order and with any sharing of tables: every
      arm of every table is relocated exactly once, every count is what it was, and no other word changes. */
  method CompileCases(mp: array<int>, cases: seq<nat>, base: nat, patch: seq<nat>)
    requires Tables(mp[..], cases, |patch|)
    modifies mp
    ensures State(mp[..], old(mp[..]), {}, TableSet(cases), base, patch)
  {
    ghost var was := mp[..];
    ghost var all := TableSet(cases);
    assert AllApart(was, all, |patch|);
    assert State(mp[..], was, {}, {}, base, patch);
    hide State;
    hide AllApart;
    var c := 0;
    while c < |cases|
      invariant 0 <= c <= |cases|
      invariant State(mp[..], was, TableSet(cases[..c]), {}, base, patch)
    {
      Mark(mp, cases[c], was, TableSet(cases[..c]), base, patch);
      TableSetStep(cases, c);
      c := c + 1;
    }
    assert cases[..c] == cases;
    ghost var marked, done: set<nat> := all, {};
    c := 0;
    while c < |cases|
      invariant 0 <= c <= |cases|
      invariant done == TableSet(cases[..c]) && marked == all - done
      invariant State(mp[..], was, marked, done, base, patch)
    {
      TableSetStep(cases, c);
      assert cases[c] in all;
      assert marked + done == all by { TableSetMonotone(cases, c); }
      Relocate(mp, cases[c], base, patch, was, marked, done);
      marked, done := marked - {cases[c]}, done + {cases[c]};
      c := c + 1;
    }
    assert cases[..c] == cases;
    assert marked == {};
  }

  lemma TableSetStep(cases: seq<nat>, c: nat)
    requires c < |cases|
    ensures TableSet(cases[..c + 1]) == TableSet(cases[..c]) + {cases[c]}
  {
    assert cases[..c + 1] == cases[..c] + [cases[c]];
    forall d | d in TableSet(cases[..c + 1]) ensures d in TableSet(cases[..c]) + {cases[c]} {
      var k :| 0 <= k < c + 1 && cases[..c + 1][k] == d;
      if k < c { assert cases[..c][k] == d; }
    }
    forall d | d in TableSet(cases[..c]) + {cases[c]} ensures d in TableSet(cases[..c + 1]) {
      if d in TableSet(cases[..c]) {
        var k :| 0 <= k < c && cases[..c][k] == d;
        assert cases[..c + 1][k] == d;
      } else {
        assert cases[..c + 1][c] == d;
      }
    }
  }

  lemma TableSetMonotone(cases: seq<nat>, c: nat)
    requires c <= |cases|
    ensures TableSet(cases[..c]) <= TableSet(cases)
  {
    forall d | d in TableSet(cases[..c]) ensures d in TableSet(cases) {
      var k :| 0 <= k < c && cases[..c][k] == d;
      assert cases[k] == d;
    }
  }

  // ----- dispatch

  /** Entry `k` of the table at `d`: its range is `[Low, High)`. */
  function Low(mp: seq<int>, d: nat, k: nat): int
    requires d + 1 + 3 * k < |mp|
  {
    mp[d + 1 + 3 * k]
  }

  function High(mp: seq<int>, d: nat, k: nat): int
    requires d + 2 + 3 * k < |mp|
  {
    mp[d + 2 + 3 * k]
  }

  function Arm(mp: seq<int>, d: nat, k: nat): int
    requires d + 3 + 3 * k < |mp|
  {
    mp[d + 3 + 3 * k]
  }

  predicate HasTable(mp: seq<int>, d: nat) {
    d < |mp| && mp[d] >= 0 && d + 1 + 3 * mp[d] < |mp|
  }

  /** The meaning of a case statement: the first entry from `k` on whose range holds `v`, else the default arm. */
  function Scan(mp: seq<int>, d: nat, k: nat, v: int): int
    requires HasTable(mp, d) && k <= mp[d]
    decreases mp[d] - k
  {
    if k == mp[d] then mp[d + 1 + 3 * k]
    else if Low(mp, d, k) <= v < High(mp, d, k) then Arm(mp, d, k)
    else Scan(mp, d, k + 1, v)
  }

  /** Ranges are in order and disjoint. */
  predicate Sorted(mp: seq<int>, d: nat)
    requires HasTable(mp, d)
  {
    && (forall k :: 0 <= k < mp[d] ==> Low(mp, d, k) <= High(mp, d, k))
    && (forall j, k :: 0 <= j < k < mp[d] ==> High(mp, d, j) <= Low(mp, d, k))
  }

  lemma {:induction false} ScanSkips(mp: seq<int>, d: nat, j: nat, k: nat, v: int)
    requires HasTable(mp, d) && j <= k <= mp[d]
    requires forall i :: j <= i < k ==> !(Low(mp, d, i) <= v < High(mp, d, i))
    ensures Scan(mp, d, j, v) == Scan(mp, d, k, v)
    decreases k - j
  {
    if j < k { ScanSkips(mp, d, j + 1, k, v); }
  }

  /** Every word of a compiled table: arms are relocated, everything else is as it was. */
  lemma CompiledWords(mp: seq<int>, was: seq<int>, cases: seq<nat>, base: nat, patch: seq<nat>, d: nat)
    requires Tables(was, cases, |patch|) && State(mp, was, {}, TableSet(cases), base, patch)
    requires d in cases
    ensures HasTable(was, d) && HasTable(mp, d) && mp[d] == was[d]
    ensures forall i :: d <= i <= d + 1 + 3 * was[d] && !IsArm(d, was[d], i) ==> mp[i] == was[i]
    ensures forall i :: d <= i <= d + 1 + 3 * was[d] && IsArm(d, was[d], i) ==>
      0 <= was[i] < |patch| && mp[i] == Reloc(base, patch, was[i])
  {
    var ds := TableSet(cases);
    assert d in ds && AllApart(was, ds, |patch|);
    forall i | d <= i <= d + 1 + 3 * was[d]
      ensures if IsArm(d, was[d], i) then 0 <= was[i] < |patch| && mp[i] == Reloc(base, patch, was[i]) else mp[i] == was[i]
    {
      assert Word(mp[i], was, {}, ds, base, patch, i);
      if !IsArm(d, was[d], i) {
        ArmsAreOwn(was, ds, |patch|, d, i);
        assert !ArmOf(was, ds - {d}, i);
      }
    }
  }

  /** Table `mp` has the ranges of table `was` and the code addresses of its arms. */
  predicate Compiled(mp: seq<int>, was: seq<int>, base: nat, patch: seq<nat>, d: nat) {
    && HasTable(was, d) && HasTable(mp, d) && mp[d] == was[d]
    && (forall k :: 0 <= k < was[d] ==> Low(mp, d, k) == Low(was, d, k) && High(mp, d, k) == High(was, d, k))
    && (forall k :: 0 <= k < was[d] ==> 0 <= Arm(was, d, k) < |patch| && Arm(mp, d, k) == Reloc(base, patch, Arm(was, d, k)))
    && var i := d + 1 + 3 * was[d]; 0 <= was[i] < |patch| && mp[i] == Reloc(base, patch, was[i])
  }

  lemma CompiledTable(mp: seq<int>, was: seq<int>, cases: seq<nat>, base: nat, patch: seq<nat>, d: nat)
    requires Tables(was, cases, |patch|) && State(mp, was, {}, TableSet(cases), base, patch) && d in cases
    ensures Compiled(mp, was, base, patch, d)
  {
    hide State;
    hide Tables;
    hide IsArm;
    hide Reloc;
    CompiledWords(mp, was, cases, base, patch, d);
    forall k | 0 <= k < was[d]
      ensures Low(mp, d, k) == Low(was, d, k) && High(mp, d, k) == High(was, d, k)
      ensures 0 <= Arm(was, d, k) < |patch| && Arm(mp, d, k) == Reloc(base, patch, Arm(was, d, k))
    {
      ArmIndex(d, was[d], k);
    }
    ArmIndex(d, was[d], was[d]);
  }

  /** In a range of three words the last is an arm; and so is the word after all ranges. */
  lemma ArmIndex(d: nat, n: nat, k: nat)
    requires k <= n
    ensures k < n ==> !IsArm(d, n, d + 1 + 3 * k) && !IsArm(d, n, d + 2 + 3 * k) && IsArm(d, n, d + 3 + 3 * k)
    ensures k == n ==> IsArm(d, n, d + 1 + 3 * k)
  {
  }

  lemma {:induction false} ScanCompiled(mp: seq<int>, was: seq<int>, base: nat, patch: seq<nat>, d: nat, k: nat, v: int)
    requires Compiled(mp, was, base, patch, d) && k <= was[d]
    ensures 0 <= Scan(was, d, k, v) < |patch| && Scan(mp, d, k, v) == Reloc(base, patch, Scan(was, d, k, v))
    decreases was[d] - k
  {
    if k < was[d] {
      ScanCompiled(mp, was, base, patch, d, k + 1, v);
    }
  }

  lemma SortedCompiled(mp: seq<int>, was: seq<int>, base: nat, patch: seq<nat>, d: nat)
    requires Compiled(mp, was, base, patch, d) && Sorted(was, d)
    ensures Sorted(mp, d)
  {
    forall j, k | 0 <= j < k < mp[d] ensures High(mp, d, j) <= Low(mp, d, k) {
      assert High(was, d, j) <= Low(was, d, k);
    }
    forall k | 0 <= k < mp[d] ensures Low(mp, d, k) <= High(mp, d, k) {
      assert Low(was, d, k) <= High(was, d, k);
    }
  }

  /** Compiled case statements mean what the Dis program says: after the two passes, a sorted table is still sorted,
      so the emitted search applies, and a scan of it yields the code address of the arm that the original table
      gives for `v`. */
  lemma CompiledCaseIsCorrect(mp: seq<int>, was: seq<int>, cases: seq<nat>, base: nat, patch: seq<nat>, d: nat, v: int)
    requires Tables(was, cases, |patch|) && State(mp, was, {}, TableSet(cases), base, patch)
    requires d in cases && HasTable(was, d) && Sorted(was, d)
    ensures HasTable(mp, d) && Sorted(mp, d)
    ensures 0 <= Scan(was, d, 0, v) < |patch| && Scan(mp, d, 0, v) == Reloc(base, patch, Scan(was, d, 0, v))
  {
    hide State;
    hide Tables;
    hide Sorted;
    CompiledTable(mp, was, cases, base, patch, d);
    SortedCompiled(mp, was, base, patch, d);
    ScanCompiled(mp, was, base, patch, d, 0, v);
  }
}
