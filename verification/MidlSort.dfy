/**
  mdb_midl_sort: quicksort with an explicit 64-entry stack and insertion sort for short
  segments, in place, into descending order.  Slot 0 of the array holds the list's length.
 */
module MidlSort {
  type Id = nat

  /** A segment [l, r] of the list still to be sorted. */
  datatype Seg = Seg(l: int, r: int) {
    function Size(): int { r - l + 1 }
  }

  const SMALL := 8
  const STACK := 64

  ghost predicate Descending(s: seq<Id>, l: int, r: int) {
    forall p, q :: 0 <= l <= p < q <= r < |s| ==> s[p] >= s[q]
  }

  // ---------------------------------------------------------------- permuting a segment

  /** t is s with the elements of [l, r] permuted and the others left alone. */
  ghost predicate Rearranged(s: seq<Id>, t: seq<Id>, l: int, r: int) {
    && |s| == |t| && multiset(s) == multiset(t)
    && (forall p :: 0 <= p < |s| && (p < l || r < p) ==> t[p] == s[p])
    && (forall p :: 0 <= l <= p <= r < |t| ==> From(s, l, r, t[p]))
  }

  ghost predicate From(s: seq<Id>, l: int, r: int, x: Id)
    requires 0 <= l <= r < |s|
  {
    exists q :: l <= q <= r && s[q] == x
  }

  lemma SelfRearranged(s: seq<Id>, l: int, r: int)
    ensures Rearranged(s, s, l, r)
  {
  }

  /** Permuting a part, and then the whole of a segment. */
  lemma RearrangedMore(s: seq<Id>, t: seq<Id>, u: seq<Id>, l: int, r: int, l': int, r': int)
    requires 0 <= l <= l' && r' <= r < |s| && Rearranged(s, t, l, r) && Rearranged(t, u, l', r')
    ensures Rearranged(s, u, l, r)
  {
    forall p | l <= p <= r ensures From(s, l, r, u[p]) {
      if l' <= p <= r' {
        assert From(t, l', r', u[p]);
        var q :| l' <= q <= r' && t[q] == u[p];
        assert From(s, l, r, t[q]);
      } else {
        assert From(s, l, r, t[p]);
      }
    }
  }

  lemma SwapPermutes(s: seq<Id>, i: int, j: int)
    requires 0 <= i < |s| && 0 <= j < |s|
    ensures multiset(s[i := s[j]][j := s[i]]) == multiset(s)
  {
  }

  lemma SwapRearranged(s: seq<Id>, i: int, j: int, l: int, r: int)
    requires 0 <= l <= i <= r < |s| && l <= j <= r
    ensures Rearranged(s, s[i := s[j]][j := s[i]], l, r)
  {
    var t := s[i := s[j]][j := s[i]];
    SwapPermutes(s, i, j);
    forall p | l <= p <= r ensures From(s, l, r, t[p]) {
      assert t[p] == s[if p == i then j else if p == j then i else p];
    }
  }

  /** MIDL_SWAP, within a segment that has so far been permuted from `base`. */
  method Swap(ids: array<Id>, i: int, j: int, ghost l: int, ghost r: int, ghost base: seq<Id>)
    requires 0 <= l <= i <= r < ids.Length && l <= j <= r && Rearranged(base, ids[..], l, r)
    modifies ids
    ensures ids[i] == old(ids[j]) && ids[j] == old(ids[i])
    ensures forall p :: 0 <= p < ids.Length && p != i && p != j ==> ids[p] == old(ids[p])
    ensures Rearranged(base, ids[..], l, r)
  {
    SwapRearranged(ids[..], i, j, l, r);
    ids[i], ids[j] := ids[j], ids[i];
    RearrangedMore(base, old(ids[..]), ids[..], l, r, l, r);
  }

  // ---------------------------------------------------------------- insertion sort

  /** t is s with element j taken out and put back at k, those between moved up. */
  ghost predicate Rotated(s: seq<Id>, t: seq<Id>, k: int, j: int) {
    && 0 <= k <= j < |s| == |t|
    && t[k] == s[j]
    && (forall p :: 0 <= p < |s| && (p < k || j < p) ==> t[p] == s[p])
    && (forall p :: k < p <= j ==> t[p] == s[p - 1])
  }

  lemma {:induction false} RotatedPermutes(s: seq<Id>, t: seq<Id>, k: int, j: int)
    requires Rotated(s, t, k, j)
    ensures multiset(s) == multiset(t)
    decreases j - k
  {
    if k == j {
      assert s == t;
    } else {
      var u := t[k := t[k + 1]][k + 1 := t[k]];
      SwapPermutes(t, k, k + 1);
      RotatedPermutes(s, u, k + 1, j);
    }
  }

  lemma RotatedRearranged(s: seq<Id>, t: seq<Id>, l: int, k: int, j: int)
    requires Rotated(s, t, k, j) && 0 <= l <= k
    ensures Rearranged(s, t, l, j)
  {
    RotatedPermutes(s, t, k, j);
    forall p | l <= p <= j ensures From(s, l, j, t[p]) {
      assert t[p] == s[if p < k then p else if p == k then j else p - 1];
    }
  }

  lemma RotatedDescending(s: seq<Id>, t: seq<Id>, l: int, k: int, j: int)
    requires Rotated(s, t, k, j) && 0 <= l <= k && Descending(s, l, j - 1)
    requires l < k ==> s[k - 1] >= s[j]
    requires k < j ==> s[k] < s[j]
    ensures Descending(t, l, j)
  {
    forall p, q | l <= p < q <= j ensures t[p] >= t[q] {
      if q < k {
      } else if q == k {
        assert s[p] >= s[k - 1];
      } else if p < k {
        assert s[p] >= s[q - 1];
      } else if p == k {
        assert s[k] >= s[q - 1];
      }
    }
  }

  /** The inner loop of the insertion sort.  Its only guard is i >= 1, yet it stops at l:
      whatever stands left of l is no smaller. */
  method Shift(ids: array<Id>, ghost l: int, j: int) returns (k: int)
    requires 1 <= l < j < ids.Length
    requires l > 1 ==> ids[l - 1] >= ids[j]
    modifies ids
    ensures l <= k <= j && Rotated(old(ids[..]), ids[..], k, j)
    ensures l < k ==> old(ids[k - 1]) >= old(ids[j])
    ensures k < j ==> old(ids[k]) < old(ids[j])
  {
    var a := ids[j];
    var i := j - 1;
    while i >= 1 && ids[i] < a
      invariant l - 1 <= i < j
      invariant forall p :: 0 <= p < ids.Length && (p <= i || j < p) ==> ids[p] == old(ids[p])
      invariant forall p :: i + 1 < p <= j ==> ids[p] == old(ids[p - 1])
      invariant i + 1 < j ==> old(ids[i + 1]) < a
    {
      ids[i + 1] := ids[i];
      i := i - 1;
    }
    ids[i + 1] := a;
    k := i + 1;
  }

  /** Insert element j into the descending part [l, j - 1]. */
  method Insert(ids: array<Id>, ghost l: int, j: int)
    requires 1 <= l < j < ids.Length
    requires Descending(ids[..], l, j - 1)
    requires l > 1 ==> ids[l - 1] >= ids[j]
    modifies ids
    ensures Rearranged(old(ids[..]), ids[..], l, j)
    ensures Descending(ids[..], l, j)
  {
    var k := Shift(ids, l, j);
    RotatedRearranged(old(ids[..]), ids[..], l, k, j);
    RotatedDescending(old(ids[..]), ids[..], l, k, j);
  }

  method InsertionSort(ids: array<Id>, l: int, ir: int)
    requires 1 <= l <= ir + 1 <= ids.Length
    requires forall p :: 1 < l <= p <= ir ==> ids[l - 1] >= ids[p]
    modifies ids
    ensures Rearranged(old(ids[..]), ids[..], l, ir)
    ensures Descending(ids[..], l, ir)
  {
    var j := l + 1;
    while j <= ir
      invariant l < j && (l <= ir ==> j <= ir + 1)
      invariant Rearranged(old(ids[..]), ids[..], l, ir)
      invariant l <= ir ==> Descending(ids[..], l, j - 1)
    {
      GuardStays(old(ids[..]), ids[..], l, ir, j);
      label before:
      Insert(ids, l, j);
      RearrangedMore(old(ids[..]), old@before(ids[..]), ids[..], l, ir, l, j);
      j := j + 1;
    }
  }

  lemma GuardStays(s: seq<Id>, t: seq<Id>, l: int, ir: int, j: int)
    requires 1 <= l <= j <= ir < |s| && Rearranged(s, t, l, ir)
    requires forall p :: 1 < l <= p <= ir ==> s[l - 1] >= s[p]
    ensures l > 1 ==> t[l - 1] >= t[j]
  {
    assert From(s, l, ir, t[j]);
  }

  // ---------------------------------------------------------------- partition

  const INT_MAX: int := 0x7fff_ffff

  /** The longest list in which no two ends of a segment that gets partitioned add up to more than
      an int holds. */
  const LONGEST: int := 0x4000_0003

  /** The C expression l + ir is defined. */
  predicate SumFits(l: int, ir: int) { l + ir <= INT_MAX }

  lemma SumsFit(n: nat)
    ensures (forall l, ir :: 1 <= l && l + SMALL <= ir <= n ==> SumFits(l, ir)) <==> n <= LONGEST
  {
    if n > LONGEST { assert !SumFits(n - SMALL, n); }
  }

  /** Median of three: the middle of the left, centre and right element goes to l + 1. */
  method MedianOfThree(ids: array<Id>, l: int, ir: int)
    requires 1 <= l && l + SMALL <= ir < ids.Length && SumFits(l, ir)
    modifies ids
    ensures Rearranged(old(ids[..]), ids[..], l, ir)
    ensures ids[l] >= ids[l + 1] >= ids[ir]
  {
    var k := (l + ir) / 2;
    ghost var s := ids[..];
    SelfRearranged(s, l, ir);
    Swap(ids, k, l + 1, l, ir, s);
    if ids[l] < ids[ir] { Swap(ids, l, ir, l, ir, s); }
    if ids[l + 1] < ids[ir] { Swap(ids, l + 1, ir, l, ir, s); }
    if ids[l] < ids[l + 1] { Swap(ids, l, l + 1, l, ir, s); }
  }

  /** do i++ while (ids[i] > a): stops within the segment because the last element is <= a. */
  method ScanUp(ids: array<Id>, start: int, ghost ir: int, a: Id) returns (i: int)
    requires 0 <= start < ir < ids.Length && ids[ir] <= a
    ensures start < i <= ir && ids[i] <= a
    ensures forall p :: start < p < i ==> ids[p] > a
  {
    i := start + 1;
    while ids[i] > a
      invariant start < i <= ir
      invariant forall p :: start < p < i ==> ids[p] > a
      decreases ir - i
    {
      i := i + 1;
    }
  }

  /** do j-- while (ids[j] < a): stops within the segment because element `first` is a. */
  method ScanDown(ids: array<Id>, start: int, ghost first: int, a: Id) returns (j: int)
    requires 0 <= first < start <= ids.Length && ids[first] >= a
    ensures first <= j < start && ids[j] >= a
    ensures forall q :: j < q < start ==> ids[q] < a
  {
    j := start - 1;
    while ids[j] < a
      invariant first <= j < start
      invariant forall q :: j < q < start ==> ids[q] < a
      decreases j
    {
      j := j - 1;
    }
  }

  /** After partitioning: [l, j) is >= a, [i, ir] is <= a, and everything between equals a. */
  ghost predicate Parted(s: seq<Id>, l: int, j: int, i: int, ir: int) {
    && 1 <= l < j < i <= ir < |s|
    && (forall p :: l <= p < j ==> s[p] >= s[j])
    && (forall p :: j <= p < i ==> s[p] == s[j])
    && (forall p :: i <= p <= ir ==> s[p] <= s[j])
  }

  method Partition(ids: array<Id>, l: int, ir: int) returns (j: int, i: int)
    requires 1 <= l && l + SMALL <= ir < ids.Length && SumFits(l, ir)
    modifies ids
    ensures Rearranged(old(ids[..]), ids[..], l, ir)
    ensures Parted(ids[..], l, j, i, ir)
  {
    ghost var s := ids[..];
    MedianOfThree(ids, l, ir);
    var a := ids[l + 1];
    i, j := Sweep(ids, l, ir, a, s);
    Swap(ids, l + 1, j, l, ir, s);
  }

  /** The loop of mdb_midl_sort that moves large elements left and small ones right. */
  method Sweep(ids: array<Id>, l: int, ir: int, a: Id, ghost s: seq<Id>) returns (i: int, j: int)
    requires 1 <= l && l + SMALL <= ir < ids.Length
    requires ids[l] >= a == ids[l + 1] >= ids[ir] && Rearranged(s, ids[..], l, ir)
    modifies ids
    ensures Rearranged(s, ids[..], l, ir)
    ensures l + 1 <= j < i <= ir && ids[l] >= a == ids[l + 1] && ids[j] >= a
    ensures forall p :: l + 1 < p < i ==> ids[p] >= a
    ensures forall q :: j < q <= ir ==> ids[q] <= a
  {
    i, j := l + 1, ir;
    while true
      invariant l + 1 <= i <= j <= ir && i < ir && l + 1 < j
      invariant Rearranged(s, ids[..], l, ir)
      invariant ids[l] >= a == ids[l + 1]
      invariant forall p :: l + 1 < p <= i ==> ids[p] >= a
      invariant forall q :: j <= q <= ir ==> ids[q] <= a
      decreases j - i
    {
      i := ScanUp(ids, i, ir, a);
      j := ScanDown(ids, j, l + 1, a);
      if j < i { return; }
      Swap(ids, i, j, l, ir, s);
    }
  }

  // ---------------------------------------------------------------- the segments still to do

  /** Everything left of the segment is >= its elements, everything right of it <=. */
  ghost predicate Settled(s: seq<Id>, n: int, g: Seg)
    requires n < |s|
  {
    && 1 <= g.l <= g.r + 1 <= n + 1
    && (forall x, p :: 1 <= x < g.l <= p <= g.r ==> s[x] >= s[p])
    && (forall p, y :: g.l <= p <= g.r < y <= n ==> s[p] >= s[y])
  }

  predicate Apart(g: Seg, h: Seg) { g.r < h.l || h.r < g.l }

  predicate Covers(g: Seg, p: int) { g.l <= p && p + 1 <= g.r }

  predicate Stepped(s: seq<Id>, p: int)
    requires 0 <= p < |s| - 1
  {
    s[p] >= s[p + 1]
  }

  ghost predicate Covered(segs: seq<Seg>, p: int) { exists k :: 0 <= k < |segs| && Covers(segs[k], p) }

  /** The pending segments are settled and apart, and neighbours outside them are in order. */
  ghost predicate Pending(s: seq<Id>, n: int, segs: seq<Seg>) {
    && 0 <= n < |s|
    && (forall k :: 0 <= k < |segs| ==> Settled(s, n, segs[k]))
    && (forall k, m :: 0 <= k < m < |segs| ==> Apart(segs[k], segs[m]))
    && (forall p :: 1 <= p < n ==> Stepped(s, p) || Covered(segs, p))
  }

  /** Permuting one segment settles nothing less. */
  lemma SettledStays(s: seq<Id>, t: seq<Id>, n: int, g: Seg, h: Seg)
    requires 0 <= n < |s| && Settled(s, n, g) && 1 <= h.l && h.r <= n && (g == h || Apart(g, h))
    requires Rearranged(s, t, h.l, h.r)
    ensures Settled(t, n, g)
  {
    forall x, p | 1 <= x < g.l <= p <= g.r ensures t[x] >= t[p] {
      var x' := Origin(s, t, h, x);
      var p' := Origin(s, t, h, p);
    }
    forall p, y | g.l <= p <= g.r < y <= n ensures t[p] >= t[y] {
      var p' := Origin(s, t, h, p);
      var y' := Origin(s, t, h, y);
    }
  }

  /** Where an element stood before the permutation: in the segment if it is in it now. */
  lemma Origin(s: seq<Id>, t: seq<Id>, h: Seg, p: int) returns (q: int)
    requires 0 <= p < |s| && 0 <= h.l && h.r < |s| && Rearranged(s, t, h.l, h.r)
    ensures 0 <= q < |s| && s[q] == t[p]
    ensures if h.l <= p <= h.r then h.l <= q <= h.r else q == p
  {
    if h.l <= p <= h.r {
      assert From(s, h.l, h.r, t[p]);
      q :| h.l <= q <= h.r && s[q] == t[p];
    } else {
      q := p;
    }
  }

  /** The last segment has been sorted. */
  lemma Finished(s: seq<Id>, t: seq<Id>, n: int, segs: seq<Seg>, g: Seg)
    requires Pending(s, n, segs + [g]) && Rearranged(s, t, g.l, g.r) && Descending(t, g.l, g.r)
    ensures Pending(t, n, segs)
  {
    var all := segs + [g];
    forall k | 0 <= k < |segs| ensures Settled(t, n, segs[k]) {
      assert all[k] == segs[k] && all[|segs|] == g;
      SettledStays(s, t, n, segs[k], g);
    }
    forall k, m | 0 <= k < m < |segs| ensures Apart(segs[k], segs[m]) {
      assert all[k] == segs[k] && all[m] == segs[m];
    }
    assert all[|segs|] == g;
    SettledStays(s, t, n, g, g);
    forall p | 1 <= p < n ensures Stepped(t, p) || Covered(segs, p) {
      FinishedPair(s, t, n, segs, g, p);
    }
  }

  lemma FinishedPair(s: seq<Id>, t: seq<Id>, n: int, segs: seq<Seg>, g: Seg, p: int)
    requires Pending(s, n, segs + [g]) && Rearranged(s, t, g.l, g.r) && Descending(t, g.l, g.r) && Settled(t, n, g)
    requires 1 <= p < n
    ensures Stepped(t, p) || Covered(segs, p)
  {
    var all := segs + [g];
    if !Stepped(s, p) {
      var k :| 0 <= k < |all| && Covers(all[k], p);
      if k < |segs| { assert segs[k] == all[k]; }
    }
  }

  /** The last segment has been partitioned into two smaller ones, in either order. */
  lemma Divided(s: seq<Id>, t: seq<Id>, n: int, segs: seq<Seg>, g: Seg, j: int, i: int, a: Seg, b: Seg)
    requires Pending(s, n, segs + [g]) && Rearranged(s, t, g.l, g.r) && Parted(t, g.l, j, i, g.r)
    requires (a == Seg(g.l, j - 1) && b == Seg(i, g.r)) || (a == Seg(i, g.r) && b == Seg(g.l, j - 1))
    ensures Pending(t, n, segs + [a, b])
  {
    var all, after := segs + [g], segs + [a, b];
    assert all[|segs|] == g;
    SettledStays(s, t, n, g, g);
    PartsSettled(t, n, g, j, i);
    forall k | 0 <= k < |after| ensures Settled(t, n, after[k]) {
      if k < |segs| {
        assert all[k] == segs[k];
        SettledStays(s, t, n, segs[k], g);
      }
    }
    forall k, m | 0 <= k < m < |after| ensures Apart(after[k], after[m]) {
      if k < |segs| { assert all[k] == segs[k] && Apart(all[k], all[if m < |segs| then m else |segs|]); }
    }
    forall p | 1 <= p < n ensures Stepped(t, p) || Covered(after, p) {
      DividedPair(s, t, n, segs, g, j, i, a, b, p);
    }
  }

  lemma PartsSettled(t: seq<Id>, n: int, g: Seg, j: int, i: int)
    requires 0 <= n < |t| && Settled(t, n, g) && Parted(t, g.l, j, i, g.r)
    ensures Settled(t, n, Seg(g.l, j - 1)) && Settled(t, n, Seg(i, g.r))
  {
  }

  lemma DividedPair(s: seq<Id>, t: seq<Id>, n: int, segs: seq<Seg>, g: Seg, j: int, i: int, a: Seg, b: Seg, p: int)
    requires Pending(s, n, segs + [g]) && Rearranged(s, t, g.l, g.r) && Parted(t, g.l, j, i, g.r) && Settled(t, n, g)
    requires (a == Seg(g.l, j - 1) && b == Seg(i, g.r)) || (a == Seg(i, g.r) && b == Seg(g.l, j - 1))
    requires 1 <= p < n
    ensures Stepped(t, p) || Covered(segs + [a, b], p)
  {
    var all, after := segs + [g], segs + [a, b];
    assert after[|segs|] == a && after[|segs| + 1] == b;
    if !Stepped(s, p) {
      var k :| 0 <= k < |all| && Covers(all[k], p);
      if k < |segs| {
        assert after[k] == all[k];
      }
    }
  }

  lemma {:induction false} AllInOrder(s: seq<Id>, n: int, p: int, q: int)
    requires Pending(s, n, []) && 1 <= p < q <= n
    ensures s[p] >= s[q]
    decreases q - p
  {
    assert Stepped(s, q - 1);
    if p + 1 < q { AllInOrder(s, n, p, q - 1); }
  }

  // ---------------------------------------------------------------- the stack

  /** n halved d times. */
  function Halved(n: nat, d: nat): nat {
    if d == 0 then n else Halved(n, d - 1) / 2
  }

  lemma HalvedSeven(n: nat, d: nat)
    ensures Halved(n, d + 7) <= Halved(n, d) / 128
  {
    assert Halved(n, d + 2) == Halved(n, d + 1) / 2;
    assert Halved(n, d + 4) == Halved(n, d + 3) / 2;
    assert Halved(n, d + 6) == Halved(n, d + 5) / 2;
  }

  lemma {:induction false} HalvedShrinks(n: nat, d: nat, e: nat)
    requires d <= e
    ensures Halved(n, e) <= Halved(n, d)
    decreases e
  {
    if d < e { HalvedShrinks(n, d, e - 1); }
  }

  /** At depth d the segment at hand has at most n / 2^d elements, so a segment long enough to
      be divided is never deep. */
  lemma ShallowStack(n: nat, d: nat, size: int)
    requires n <= INT_MAX && SMALL < size <= Halved(n, d)
    ensures d < 28
  {
    if d >= 28 {
      HalvedShrinks(n, 28, d);
      HalvedSeven(n, 0);
      HalvedSeven(n, 7);
      HalvedSeven(n, 14);
      HalvedSeven(n, 21);
    }
  }

  /** Each segment on the stack is no longer than n / 2^(its depth). */
  ghost predicate Shallow(segs: seq<Seg>, n: nat) {
    forall k :: 0 <= k < |segs| ==> segs[k].Size() <= Halved(n, k)
  }

  /** The stack array holds these segments: left ends at odd, right ends at even places. */
  ghost predicate Stacked(st: array<int>, segs: seq<Seg>)
    reads st
  {
    && st.Length == STACK && 2 * |segs| < STACK
    && forall k :: 0 <= k < |segs| ==> st[2 * k + 1] == segs[k].l && st[2 * k + 2] == segs[k].r
  }

  /** Dividing the segment at hand, with the smaller part going on. */
  lemma PushShallow(segs: seq<Seg>, g: Seg, big: Seg, small: Seg, n: nat)
    requires Shallow(segs + [g], n) && small.Size() <= big.Size() && small.Size() + big.Size() <= g.Size()
    requires 0 <= small.Size()
    ensures Shallow(segs + [big, small], n)
  {
    var all, after, d := segs + [g], segs + [big, small], |segs|;
    assert all[d] == g;
    forall k | 0 <= k < |after| ensures after[k].Size() <= Halved(n, k) {
      if k < d { assert after[k] == all[k]; }
    }
  }

  lemma LastShallow(segs: seq<Seg>, g: Seg, n: nat)
    requires Shallow(segs + [g], n)
    ensures g.Size() <= Halved(n, |segs|) && Shallow(segs, n)
  {
    var all := segs + [g];
    assert all[|segs|] == g;
    forall k | 0 <= k < |segs| ensures segs[k].Size() <= Halved(n, k) { assert segs[k] == all[k]; }
  }

  lemma LastSettled(s: seq<Id>, n: int, segs: seq<Seg>, g: Seg)
    requires Pending(s, n, segs + [g])
    ensures Settled(s, n, g)
  {
    assert (segs + [g])[|segs|] == g;
  }

  lemma Started(s: seq<Id>, n: nat)
    requires n < |s|
    ensures Pending(s, n, [Seg(1, n)]) && Shallow([Seg(1, n)], n)
  {
    var segs := [Seg(1, n)];
    forall p | 1 <= p < n ensures Covered(segs, p) { assert Covers(segs[0], p); }
  }

  /** What is left to do: every segment counts twice its length and one. */
  ghost function Work(segs: seq<Seg>): int {
    if segs == [] then 0 else Work(segs[..|segs| - 1]) + 2 * segs[|segs| - 1].Size() + 1
  }

  lemma WorkSnoc(segs: seq<Seg>, g: Seg)
    ensures Work(segs + [g]) == Work(segs) + 2 * g.Size() + 1
  {
    assert (segs + [g])[..|segs|] == segs;
  }

  lemma {:induction false} WorkNat(segs: seq<Seg>)
    requires forall k :: 0 <= k < |segs| ==> segs[k].Size() >= 0
    ensures Work(segs) >= 0
  {
    if segs != [] { WorkNat(segs[..|segs| - 1]); }
  }

  lemma PushWork(segs: seq<Seg>, g: Seg, big: Seg, small: Seg)
    requires small.Size() + big.Size() < g.Size()
    ensures Work(segs + [big] + [small]) < Work(segs + [g])
  {
    WorkSnoc(segs, g);
    WorkSnoc(segs, big);
    WorkSnoc(segs + [big], small);
  }

  /** What the main loop keeps: the list is a permutation of the original, and only the
      pending segments are out of order. */
  ghost predicate Sorting(orig: seq<Id>, s: seq<Id>, n: int, segs: seq<Seg>) {
    0 <= n < |s| && Rearranged(orig, s, 1, n) && Pending(s, n, segs) && Shallow(segs, n)
  }

  lemma StartSorting(s: seq<Id>, n: nat)
    requires n < |s|
    ensures Sorting(s, s, n, [] + [Seg(1, n)])
  {
    SelfRearranged(s, 1, n);
    Started(s, n);
    assert [] + [Seg(1, n)] == [Seg(1, n)];
  }

  lemma LastOf(orig: seq<Id>, s: seq<Id>, n: int, segs: seq<Seg>, g: Seg)
    requires Sorting(orig, s, n, segs + [g])
    ensures 1 <= g.l <= g.r + 1 <= n + 1 && g.Size() <= Halved(n, |segs|) && Shallow(segs, n)
    ensures Work(segs + [g]) >= 0 && Work(segs) >= 0 && Work(segs) < Work(segs + [g])
    ensures forall p :: 1 < g.l <= p <= g.r ==> s[g.l - 1] >= s[p]
  {
    LastSettled(s, n, segs, g);
    LastShallow(segs, g, n);
    forall k | 0 <= k < |segs| ensures segs[k].Size() >= 0 { assert Settled(s, n, (segs + [g])[k]); }
    WorkNat(segs);
    WorkSnoc(segs, g);
  }

  method FinishSegment(ids: array<Id>, l: int, ir: int, ghost orig: seq<Id>, ghost n: int, ghost segs: seq<Seg>)
    requires Sorting(orig, ids[..], n, segs + [Seg(l, ir)])
    modifies ids
    ensures Sorting(orig, ids[..], n, segs)
    ensures Work(segs) < Work(segs + [Seg(l, ir)]) && 0 <= Work(segs + [Seg(l, ir)])
  {
    ghost var before := ids[..];
    LastOf(orig, before, n, segs, Seg(l, ir));
    InsertionSort(ids, l, ir);
    RearrangedMore(orig, before, ids[..], 1, n, l, ir);
    Finished(before, ids[..], n, segs, Seg(l, ir));
  }

  /** The part the loop puts on the stack, and the part it goes on with. */
  function Bigger(l: int, j: int, i: int, ir: int): Seg { if ir - i + 1 >= j - l then Seg(i, ir) else Seg(l, j - 1) }
  function Smaller(l: int, j: int, i: int, ir: int): Seg { if ir - i + 1 >= j - l then Seg(l, j - 1) else Seg(i, ir) }

  method DivideSegment(ids: array<Id>, l: int, ir: int, ghost orig: seq<Id>, ghost n: int, ghost segs: seq<Seg>)
    returns (j: int, i: int)
    requires Sorting(orig, ids[..], n, segs + [Seg(l, ir)]) && ir - l >= SMALL && n <= INT_MAX && SumFits(l, ir)
    modifies ids
    ensures l < j < i <= ir && |segs| < 28
    ensures Sorting(orig, ids[..], n, segs + [Bigger(l, j, i, ir)] + [Smaller(l, j, i, ir)])
    ensures Work(segs + [Bigger(l, j, i, ir)] + [Smaller(l, j, i, ir)]) < Work(segs + [Seg(l, ir)])
    ensures 0 <= Work(segs + [Seg(l, ir)])
  {
    ghost var before, g := ids[..], Seg(l, ir);
    LastOf(orig, before, n, segs, g);
    j, i := Partition(ids, l, ir);
    ghost var big, small := Bigger(l, j, i, ir), Smaller(l, j, i, ir);
    RearrangedMore(orig, before, ids[..], 1, n, l, ir);
    ShallowStack(n, |segs|, g.Size());
    Divided(before, ids[..], n, segs, g, j, i, big, small);
    PushShallow(segs, g, big, small, n);
    PushWork(segs, g, big, small);
    assert segs + [big, small] == segs + [big] + [small];
  }

  method Push(istack: array<int>, jstack: int, l: int, r: int, ghost segs: seq<Seg>)
    requires jstack == 2 * |segs| + 2 < STACK && Stacked(istack, segs)
    modifies istack
    ensures Stacked(istack, segs + [Seg(l, r)])
  {
    istack[jstack] := r;
    istack[jstack - 1] := l;
  }

  method Pop(istack: array<int>, jstack: int, ghost segs: seq<Seg>) returns (l: int, r: int)
    requires 0 < jstack == 2 * |segs| && Stacked(istack, segs)
    ensures segs == segs[..|segs| - 1] + [Seg(l, r)] && Stacked(istack, segs[..|segs| - 1])
  {
    r := istack[jstack];
    l := istack[jstack - 1];
    ghost var k := |segs| - 1;
    assert istack[2 * k + 1] == segs[k].l;
  }

  /** The long branch of the main loop: partition, stack the longer part, go on with the other. */
  method Divide(ids: array<Id>, istack: array<int>, jstack: int, l: int, ir: int,
                ghost orig: seq<Id>, ghost n: int, ghost segs: seq<Seg>)
    returns (l': int, ir': int, ghost big: Seg)
    requires ids as object != istack && jstack == 2 * |segs| && Stacked(istack, segs)
    requires Sorting(orig, ids[..], n, segs + [Seg(l, ir)]) && ir - l >= SMALL && n <= INT_MAX && SumFits(l, ir)
    modifies ids, istack
    ensures Stacked(istack, segs + [big])
    ensures Sorting(orig, ids[..], n, segs + [big] + [Seg(l', ir')])
    ensures Work(segs + [big] + [Seg(l', ir')]) < Work(segs + [Seg(l, ir)])
    ensures 0 <= Work(segs + [Seg(l, ir)])
  {
    hide Sorting, Work;
    var j, i := DivideSegment(ids, l, ir, orig, n, segs);
    ghost var cur := ids[..];
    big := Bigger(l, j, i, ir);
    if ir - i + 1 >= j - l {
      Push(istack, jstack + 2, i, ir, segs);
      l', ir' := l, j - 1;
    } else {
      Push(istack, jstack + 2, l, j - 1, segs);
      l', ir' := i, ir;
    }
    assert ids[..] == cur;
  }

  lemma SortedAtEnd(orig: seq<Id>, s: seq<Id>, n: int)
    requires Sorting(orig, s, n, [])
    ensures Descending(s, 1, n)
  {
    forall p, q | 1 <= p < q <= n ensures s[p] >= s[q] { AllInOrder(s, n, p, q); }
  }

  lemma OnlyPermuted(orig: seq<Id>, s: seq<Id>, n: int, segs: seq<Seg>)
    requires Sorting(orig, s, n, segs)
    ensures multiset(s) == multiset(orig) && |s| == |orig|
    ensures forall p :: 0 <= p < |s| && (p == 0 || n < p) ==> s[p] == orig[p]
  {
  }

  /** The ends of the current segment of a list that is not too long. */
  lemma EndsFit(orig: seq<Id>, s: seq<Id>, n: int, segs: seq<Seg>, g: Seg)
    requires Sorting(orig, s, n, segs + [g]) && n <= LONGEST && g.r - g.l >= SMALL
    ensures SumFits(g.l, g.r)
  {
    LastOf(orig, s, n, segs, g);
    SumsFit(n);
  }

  /** mdb_midl_sort: the list becomes a descending permutation of itself and no scan leaves its
      segment. The 64-entry stack suffices for every length an int can hold; the result is not ok,
      where C leaves it undefined, if the sum of a segment's ends exceeds an int, which takes a
      list of more than LONGEST elements. */
  method Sort(ids: array<Id>) returns (ok: bool)
    requires ids.Length > 0 && ids[0] < ids.Length && ids[0] <= INT_MAX
    modifies ids
    ensures multiset(ids[..]) == multiset(old(ids[..])) && ids[0] == old(ids[0])
    ensures forall p :: ids[0] < p < ids.Length ==> ids[p] == old(ids[p])
    ensures ok ==> Descending(ids[..], 1, ids[0])
    ensures ids[0] <= LONGEST ==> ok
  {
    hide Sorting, Work;
    var n: int := ids[0];
    var istack := new int[STACK];
    var l, ir, jstack := 1, n, 0;
    ghost var segs: seq<Seg>, orig, cur := [], ids[..], ids[..];
    StartSorting(orig, n);
    while true
      invariant fresh(istack) && jstack == 2 * |segs| && Stacked(istack, segs)
      invariant ids[..] == cur && Sorting(orig, cur, n, segs + [Seg(l, ir)])
      decreases Work(segs + [Seg(l, ir)])
    {
      if ir - l < SMALL {
        FinishSegment(ids, l, ir, orig, n, segs);
        cur := ids[..];
        if jstack == 0 { break; }
        l, ir := Pop(istack, jstack, segs);
        jstack := jstack - 2;
        segs := segs[..|segs| - 1];
      } else {
        if n <= LONGEST { EndsFit(orig, cur, n, segs, Seg(l, ir)); }
        if !SumFits(l, ir) {
          OnlyPermuted(orig, cur, n, segs + [Seg(l, ir)]);
          return false;
        }
        ghost var big;
        l, ir, big := Divide(ids, istack, jstack, l, ir, orig, n, segs);
        jstack := jstack + 2;
        segs := segs + [big];
        cur := ids[..];
      }
    }
    assert segs == [];
    OnlyPermuted(orig, cur, n, segs);
    SortedAtEnd(orig, cur, n);
    return true;
  }
}
