/**
  Node sizes, and where mdb_page_split cuts a full page.
 */
module SplitPoint {
  import opened Limits

  const NODESIZE: nat := 8
  const INDX: nat := 2          // sizeof(indx_t)
  const PGNO: nat := 8          // sizeof(pgno_t)
  const MAXKEY: nat := 511      // MDB_MAXKEYSIZE
  const EMPTYKEY: nat := NODESIZE + INDX  // a branch node without a key

  /** The smallest page size under which every key of MAXKEY bytes obeys me_nodemax. */
  const MINPAGE: nat := 2048

  /** Page sizes: even, and large enough for the longest keys. */
  predicate PageSize(psize: nat) { psize >= MINPAGE && psize % 2 == 0 }

  function Even(n: nat): nat { if n % 2 == 0 then n else n + 1 }

  /** Maximum free space in an empty page. */
  function PMax(psize: nat): nat
    requires PageSize(psize)
  {
    psize - PAGEHDRSZ
  }

  /** me_nodemax: half a page, rounded down to even, minus the node's index. */
  function NodeMax(psize: nat): nat
    requires PageSize(psize)
  {
    var half := PMax(psize) / 2;
    half - half % 2 - INDX
  }

  function Sum(s: seq<nat>): nat {
    if s == [] then 0 else s[0] + Sum(s[1..])
  }

  lemma {:induction false} SumConcat(a: seq<nat>, b: seq<nat>)
    ensures Sum(a + b) == Sum(a) + Sum(b)
  {
    if a == [] {
      assert a + b == b;
    } else {
      assert (a + b)[1..] == a[1..] + b;
      SumConcat(a[1..], b);
    }
  }

  lemma SumEmpty(s: seq<nat>)
    requires s == []
    ensures Sum(s) == 0
  {
  }

  lemma SumSplit(s: seq<nat>, i: nat)
    requires i <= |s|
    ensures Sum(s) == Sum(s[..i]) + Sum(s[i..])
  {
    assert s == s[..i] + s[i..];
    SumConcat(s[..i], s[i..]);
  }

  lemma SumSnoc(s: seq<nat>, i: nat)
    requires i < |s|
    ensures Sum(s[..i + 1]) == Sum(s[..i]) + s[i]
  {
    assert s[..i + 1] == s[..i] + [s[i]];
    SumConcat(s[..i], [s[i]]);
  }

  lemma SumCons(s: seq<nat>, i: nat)
    requires i < |s|
    ensures Sum(s[i..]) == s[i] + Sum(s[i + 1..])
  {
    assert s[i..] == [s[i]] + s[i + 1..];
  }

  /** The page's nodes with the new one in its place. */
  function With<T>(s: seq<T>, i: nat, x: T): (r: seq<T>)
    requires i <= |s|
    ensures |r| == |s| + 1
    ensures forall j :: 0 <= j < |r| ==> r[j] == if j < i then s[j] else if j == i then x else s[j - 1]
  {
    s[..i] + [x] + s[i..]
  }

  lemma WithSides<T>(s: seq<T>, i: nat, x: T, k: nat)
    requires i <= |s| && k <= |s| + 1
    ensures k <= i ==> With(s, i, x)[..k] == s[..k] && With(s, i, x)[k..] == With(s[k..], i - k, x)
    ensures i < k ==> With(s, i, x)[..k] == With(s[..k - 1], i, x) && With(s, i, x)[k..] == s[k - 1..]
  {
  }

  lemma SumWith(s: seq<nat>, i: nat, x: nat)
    requires i <= |s|
    ensures Sum(With(s, i, x)) == Sum(s) + x
  {
    SumSplit(s, i);
    SumConcat(s[..i] + [x], s[i..]);
    SumConcat(s[..i], [x]);
  }

  // ---------------------------------------------------------------- the search

  function Mid(nkeys: nat): nat { (nkeys + 1) / 2 }

  /** Does the split point get searched for, or is the middle taken unseen? */
  predicate Searches(pmax: nat, nkeys: nat, newindx: nat, nsize: nat) {
    nkeys < 32 || nsize > pmax / 16 || newindx >= nkeys
  }

  /** From the left: the first node that overflows a page, or the last candidate k-1. */
  function ScanUp(all: seq<nat>, pmax: nat, i: nat, k: nat): nat
    requires i < k <= |all|
    decreases k - i
  {
    if Sum(all[..i + 1]) > pmax || i == k - 1 then i else ScanUp(all, pmax, i + 1, k)
  }

  /** From the right: one past the first node that overflows a page, or k+2. */
  function ScanDown(all: seq<nat>, pmax: nat, i: nat, k: nat): nat
    requires k < i < |all|
  {
    if Sum(all[i..]) > pmax || i == k + 1 then i + 1 else ScanDown(all, pmax, i - 1, k)
  }

  /** split_indx: the first node, counting the new one, that moves to the right sibling. */
  function SplitIndex(pmax: nat, leaf: bool, sizes: seq<nat>, newindx: nat, nsize: nat): nat
    requires |sizes| >= 2 && newindx <= |sizes|
  {
    var nkeys, mid := |sizes|, Mid(|sizes|);
    var all := With(sizes, newindx, nsize);
    if !Searches(pmax, nkeys, newindx, nsize) then mid
    else if newindx >= nkeys then ScanUp(all, pmax, 0, nkeys)
    else if newindx <= mid then ScanUp(all, pmax, 0, mid + 1 + if leaf then 1 else 0)
    else ScanDown(all, pmax, nkeys, mid - 1)
  }

  /** The loop stands at i, going up (j = 1) or down (j = -1) towards k, having added up psize
      bytes, and will return r. */
  predicate InScan(all: seq<nat>, pmax: nat, i: int, j: int, k: int, psize: nat, r: nat) {
    if j == 1 then 0 <= i < k <= |all| && psize == Sum(all[..i]) && r == ScanUp(all, pmax, i, k)
    else j == -1 && 0 <= k < i < |all| && psize == Sum(all[i + 1..]) && r == ScanDown(all, pmax, i, k)
  }

  lemma ScanStep(all: seq<nat>, pmax: nat, i: int, j: int, k: int, psize: nat, r: nat)
    requires InScan(all, pmax, i, j, k, psize, r)
    ensures 0 <= i < |all| && i != k && (j == 1 || j == -1) && (k - i) * j > 0
    ensures if psize + all[i] > pmax || i == k - j then r == if j < 0 then i + 1 else i
      else InScan(all, pmax, i + j, j, k, psize + all[i], r)
  {
    if j == 1 { SumSnoc(all, i); } else { SumCons(all, i); }
  }

  lemma ScanStart(pmax: nat, leaf: bool, sizes: seq<nat>, newindx: nat, nsize: nat)
    requires |sizes| >= 2 && newindx <= |sizes| && Searches(pmax, |sizes|, newindx, nsize)
    ensures var all := With(sizes, newindx, nsize);
      var nkeys, mid, r := |sizes|, Mid(|sizes|), SplitIndex(pmax, leaf, sizes, newindx, nsize);
      if newindx >= nkeys then InScan(all, pmax, 0, 1, nkeys, 0, r)
      else if newindx <= mid then InScan(all, pmax, 0, 1, mid + 1 + if leaf then 1 else 0, 0, r)
      else InScan(all, pmax, nkeys, -1, mid - 1, 0, r)
  {
    var all := With(sizes, newindx, nsize);
    assert all[..0] == [] && all[|sizes| + 1..] == [];
  }

  /** The loop of mdb_page_split, its two directions sharing one body. */
  method RunScan(pmax: nat, sizes: seq<nat>, newindx: nat, nsize: nat, start: int, j: int, k: int, ghost r: nat)
    returns (splitIndx: nat)
    requires newindx <= |sizes| && InScan(With(sizes, newindx, nsize), pmax, start, j, k, 0, r)
    ensures splitIndx == r
  {
    hide InScan;
    ghost var all := With(sizes, newindx, nsize);
    var i, psize: nat := start, 0;
    ScanStep(all, pmax, i, j, k, psize, r);
    while i != k
      invariant InScan(all, pmax, i, j, k, psize, r) && i != k
      decreases (k - i) * j
    {
      ScanStep(all, pmax, i, j, k, psize, r);
      psize := psize + if i == newindx then nsize else if i < newindx then sizes[i] else sizes[i - 1];
      if psize > pmax || i == k - j {
        return if j < 0 then i + 1 else i;
      }
      i := i + j;
    }
    assert false;
  }

  /** How mdb_page_split chooses split_indx. */
  method FindSplit(pmax: nat, leaf: bool, sizes: seq<nat>, newindx: nat, nsize: nat) returns (splitIndx: nat)
    requires |sizes| >= 2 && newindx <= |sizes|
    ensures splitIndx == SplitIndex(pmax, leaf, sizes, newindx, nsize)
  {
    var nkeys := |sizes|;
    splitIndx := (nkeys + 1) / 2;
    if nkeys < 32 || nsize > pmax / 16 || newindx >= nkeys {
      ScanStart(pmax, leaf, sizes, newindx, nsize);
      ghost var r := SplitIndex(pmax, leaf, sizes, newindx, nsize);
      if newindx <= splitIndx || newindx >= nkeys {
        var k := if newindx >= nkeys then nkeys else splitIndx + 1 + if leaf then 1 else 0;
        splitIndx := RunScan(pmax, sizes, newindx, nsize, 0, 1, k, r);
      } else {
        splitIndx := RunScan(pmax, sizes, newindx, nsize, nkeys, -1, splitIndx - 1, r);
      }
    }
  }

  // ---------------------------------------------------------------- what the search guarantees

  lemma {:induction false} ScanUpResult(all: seq<nat>, pmax: nat, i: nat, k: nat)
    requires i < k <= |all| && Sum(all[..i]) <= pmax
    ensures var s := ScanUp(all, pmax, i, k);
      && i <= s < k && Sum(all[..s]) <= pmax
      && (s == k - 1 || Sum(all[..s + 1]) > pmax)
    decreases k - i
  {
    if !(Sum(all[..i + 1]) > pmax || i == k - 1) {
      ScanUpResult(all, pmax, i + 1, k);
    }
  }

  lemma {:induction false} ScanDownResult(all: seq<nat>, pmax: nat, i: nat, k: nat)
    requires k < i < |all| && Sum(all[i + 1..]) <= pmax
    ensures var s := ScanDown(all, pmax, i, k);
      && k + 1 < s <= i + 1 && Sum(all[s..]) <= pmax
      && (s == k + 2 || Sum(all[s - 1..]) > pmax)
    decreases i
  {
    if !(Sum(all[i..]) > pmax || i == k + 1) {
      ScanDownResult(all, pmax, i - 1, k);
    }
  }

  /** As many nodes go left as fit, but no more than cap. */
  predicate FillsLeft(pmax: nat, all: seq<nat>, s: nat, cap: nat) {
    s <= cap && s < |all| && Sum(all[..s]) <= pmax && (s == cap || Sum(all[..s + 1]) > pmax)
  }

  /** As many nodes go right as fit, but at least `keep` stay left. */
  predicate FillsRight(pmax: nat, all: seq<nat>, s: nat, keep: nat) {
    keep <= s && 0 < s <= |all| && Sum(all[s..]) <= pmax && (s == keep || Sum(all[s - 1..]) > pmax)
  }

  /** Where mdb_page_split cuts n nodes, the new one among them: with 32 nodes already there and a
      new one of at most a sixteenth of the page, unless it goes in last, in two halves of as many
      nodes; else it fills the page on the new node's side, up to the middle, or the left page if
      the new node goes in last. */
  predicate CutsAt(pmax: nat, leaf: bool, all: seq<nat>, newindx: nat, s: nat)
    requires newindx < |all| && |all| >= 2
  {
    var n := |all|;
    if newindx == n - 1 then FillsLeft(pmax, all, s, n - 2)
    else if n > 32 && 16 * all[newindx] <= pmax then 2 * s <= n < 2 * s + 2
    else if 2 * newindx <= n then FillsLeft(pmax, all, s, if leaf then n / 2 + 1 else n / 2)
    else FillsRight(pmax, all, s, n / 2 + 1)
  }

  /** The split point, without the search. */
  lemma SplitPlace(pmax: nat, leaf: bool, sizes: seq<nat>, newindx: nat, nsize: nat)
    requires |sizes| >= 2 && newindx <= |sizes| && nsize <= pmax
    ensures CutsAt(pmax, leaf, With(sizes, newindx, nsize), newindx, SplitIndex(pmax, leaf, sizes, newindx, nsize))
  {
    hide Sum, ScanUp, ScanDown;
    var all, nkeys, mid := With(sizes, newindx, nsize), |sizes|, Mid(|sizes|);
    SumEmpty(all[..0]);
    SumEmpty(all[nkeys + 1..]);
    if Searches(pmax, nkeys, newindx, nsize) {
      if newindx >= nkeys {
        ScanUpResult(all, pmax, 0, nkeys);
      } else if newindx <= mid {
        ScanUpResult(all, pmax, 0, mid + 1 + if leaf then 1 else 0);
      } else {
        ScanDownResult(all, pmax, nkeys, mid - 1);
      }
    }
  }

  /** A page that obeys me_nodemax and has no room for one more such node. */
  predicate MustSplit(pmax: nat, sizes: seq<nat>, nsize: nat) {
    && (forall i :: 0 <= i < |sizes| ==> 0 < 2 * sizes[i] <= pmax)
    && 0 < 2 * nsize <= pmax
    && Sum(sizes) <= pmax < Sum(sizes) + nsize
  }

  lemma {:induction false} SumBound(s: seq<nat>, half: nat)
    requires forall i :: 0 <= i < |s| ==> s[i] <= half
    ensures Sum(s) <= |s| * half
  {
    if s != [] { SumBound(s[1..], half); }
  }

  /** Any two nodes fit in a page, so a page that must split has at least two already. */
  lemma TwoNodesAtLeast(pmax: nat, sizes: seq<nat>, nsize: nat)
    requires MustSplit(pmax, sizes, nsize)
    ensures |sizes| >= 2
  {
    SumBound(sizes, pmax / 2);
  }

  /** The nodes of a page. On a branch each holds at least an empty key, and nothing is ever
      inserted before slot 0. */
  predicate NodeSizes(leaf: bool, sizes: seq<nat>, newindx: nat, nsize: nat) {
    leaf || (newindx > 0 && nsize >= EMPTYKEY && forall i :: 0 <= i < |sizes| ==> sizes[i] >= EMPTYKEY)
  }

  /** What the right page takes: on a branch its first node loses its key. */
  function RightBytes(leaf: bool, all: seq<nat>, s: nat): nat
    requires s < |all|
  {
    if leaf then Sum(all[s..]) else EMPTYKEY + Sum(all[s + 1..])
  }

  /** Both halves are non-empty and fit in a page. */
  predicate Halves(pmax: nat, leaf: bool, all: seq<nat>, s: nat) {
    0 < s < |all| && Sum(all[..s]) <= pmax && RightBytes(leaf, all, s) <= pmax
  }

  /** Dropping the key only helps. */
  lemma RightBytesBound(leaf: bool, all: seq<nat>, s: nat)
    requires s < |all| && (leaf || all[s] >= EMPTYKEY)
    ensures RightBytes(leaf, all, s) <= Sum(all[s..])
  {
    SumCons(all, s);
  }

  lemma OldLeftFits(pmax: nat, sizes: seq<nat>, newindx: nat, nsize: nat, s: nat)
    requires s <= newindx <= |sizes| && Sum(sizes) <= pmax
    ensures Sum(With(sizes, newindx, nsize)[..s]) <= pmax
  {
    hide Sum, With;
    WithSides(sizes, newindx, nsize, s);
    SumSplit(sizes, s);
  }

  lemma OldRightFits(pmax: nat, sizes: seq<nat>, newindx: nat, nsize: nat, s: nat)
    requires newindx < s <= |sizes| + 1 && Sum(sizes) <= pmax
    ensures Sum(With(sizes, newindx, nsize)[s..]) <= pmax
  {
    hide Sum, With;
    WithSides(sizes, newindx, nsize, s);
    SumSplit(sizes, s - 1);
  }

  /** A half without the new node fits. */
  lemma OldSidesFit(pmax: nat, sizes: seq<nat>, newindx: nat, nsize: nat, s: nat)
    requires newindx <= |sizes| && Sum(sizes) <= pmax && s <= |sizes| + 1
    ensures s <= newindx ==> Sum(With(sizes, newindx, nsize)[..s]) <= pmax
    ensures newindx < s ==> Sum(With(sizes, newindx, nsize)[s..]) <= pmax
  {
    if s <= newindx {
      OldLeftFits(pmax, sizes, newindx, nsize, s);
    } else {
      OldRightFits(pmax, sizes, newindx, nsize, s);
    }
  }

  /** The exact condition under which the split leaves both halves within a page: the split
      point is searched for, or the half that takes the new node in has the room. */
  predicate SplitFits(pmax: nat, leaf: bool, sizes: seq<nat>, newindx: nat, nsize: nat)
    requires newindx <= |sizes| && |sizes| >= 2
  {
    var nkeys, mid := |sizes|, Mid(|sizes|);
    || Searches(pmax, nkeys, newindx, nsize)
    || (if newindx < mid then nsize + Sum(sizes[..mid - 1]) <= pmax
        else if leaf then nsize + Sum(sizes[mid..]) <= pmax
        else newindx == mid || EMPTYKEY + nsize + Sum(sizes[mid + 1..]) <= pmax)
  }

  /** The search stopped early, at a node that overflows the left page. */
  lemma StoppedEarly(pmax: nat, leaf: bool, sizes: seq<nat>, newindx: nat, nsize: nat, s: nat)
    requires MustSplit(pmax, sizes, nsize) && newindx <= |sizes| && s <= |sizes|
    requires NodeSizes(leaf, sizes, newindx, nsize)
    requires var all := With(sizes, newindx, nsize); Sum(all[..s]) <= pmax < Sum(all[..s + 1])
    ensures Halves(pmax, leaf, With(sizes, newindx, nsize), s)
  {
    var all := With(sizes, newindx, nsize);
    SumWith(sizes, newindx, nsize);
    SumSplit(all, s);
    SumSnoc(all, s);
    RightBytesBound(leaf, all, s);
    assert all[s] == nsize || 2 * all[s] <= pmax;
  }

  /** The new node goes in last: the new page gets it and at least one node more. */
  lemma AppendAtEnd(pmax: nat, leaf: bool, sizes: seq<nat>, nsize: nat)
    requires MustSplit(pmax, sizes, nsize) && |sizes| >= 2 && NodeSizes(leaf, sizes, |sizes|, nsize)
    ensures Halves(pmax, leaf, With(sizes, |sizes|, nsize), SplitIndex(pmax, leaf, sizes, |sizes|, nsize))
  {
    var n := |sizes|;
    var all := With(sizes, n, nsize);
    assert all[..0] == [];
    ScanUpResult(all, pmax, 0, n);
    var s := ScanUp(all, pmax, 0, n);
    if s < n - 1 {
      StoppedEarly(pmax, leaf, sizes, n, nsize, s);
    } else {
      assert all[s..] == [sizes[n - 1], nsize];
      assert Sum(all[s..]) == sizes[n - 1] + Sum([nsize]);
      RightBytesBound(leaf, all, s);
    }
  }

  /** A branch page cut at its new node: the key that moves up makes room. */
  lemma CutAtNew(pmax: nat, sizes: seq<nat>, s: nat)
    requires 0 < s <= |sizes| && sizes[0] >= EMPTYKEY && Sum(sizes) <= pmax
    ensures EMPTYKEY + Sum(sizes[s..]) <= pmax
  {
    SumSplit(sizes, s);
    SumCons(sizes[..s], 0);
    assert sizes[..s][0..] == sizes[..s];
  }

  /** The search from the left ran to its end: the left page is the old one's left part. */
  lemma SearchRanOut(pmax: nat, leaf: bool, sizes: seq<nat>, newindx: nat, nsize: nat, s: nat)
    requires MustSplit(pmax, sizes, nsize) && NodeSizes(leaf, sizes, newindx, nsize)
    requires newindx <= s <= |sizes| && 0 < s && (newindx == s ==> !leaf)
    requires Sum(With(sizes, newindx, nsize)[..s]) <= pmax
    ensures Halves(pmax, leaf, With(sizes, newindx, nsize), s)
  {
    hide Sum;
    var all := With(sizes, newindx, nsize);
    if newindx < s {
      OldRightFits(pmax, sizes, newindx, nsize, s);
      RightBytesBound(leaf, all, s);
    } else {
      WithSides(sizes, newindx, nsize, s + 1);
      CutAtNew(pmax, sizes, s);
    }
  }

  /** The new node goes in at or before the middle: the search runs from the left. */
  lemma SearchFromLeft(pmax: nat, leaf: bool, sizes: seq<nat>, newindx: nat, nsize: nat)
    requires MustSplit(pmax, sizes, nsize) && |sizes| >= 2 && NodeSizes(leaf, sizes, newindx, nsize)
    requires Searches(pmax, |sizes|, newindx, nsize) && newindx <= Mid(|sizes|) && newindx < |sizes|
    ensures Halves(pmax, leaf, With(sizes, newindx, nsize), SplitIndex(pmax, leaf, sizes, newindx, nsize))
  {
    hide ScanUp, ScanDown, Sum, Halves;
    var mid := Mid(|sizes|);
    var all := With(sizes, newindx, nsize);
    var k := mid + 1 + if leaf then 1 else 0;
    SumEmpty(all[..0]);
    ScanUpResult(all, pmax, 0, k);
    var s := ScanUp(all, pmax, 0, k);
    if s < k - 1 {
      StoppedEarly(pmax, leaf, sizes, newindx, nsize, s);
    } else {
      SearchRanOut(pmax, leaf, sizes, newindx, nsize, s);
    }
  }

  /** The new node goes in after the middle: the search runs from the right. */
  lemma SearchFromRight(pmax: nat, leaf: bool, sizes: seq<nat>, newindx: nat, nsize: nat)
    requires MustSplit(pmax, sizes, nsize) && Mid(|sizes|) < newindx < |sizes|
    requires Searches(pmax, |sizes|, newindx, nsize) && NodeSizes(leaf, sizes, newindx, nsize)
    ensures Halves(pmax, leaf, With(sizes, newindx, nsize), SplitIndex(pmax, leaf, sizes, newindx, nsize))
  {
    hide ScanUp, ScanDown, Sum, RightBytes;
    var nkeys, mid := |sizes|, Mid(|sizes|);
    var all := With(sizes, newindx, nsize);
    SumEmpty(all[nkeys + 1..]);
    SumCons(all, nkeys);
    ScanDownResult(all, pmax, nkeys, mid - 1);
    var s := ScanDown(all, pmax, nkeys, mid - 1);
    if s > newindx {
      StoppedLate(pmax, sizes, newindx, nsize, s);
    } else {
      OldLeftFits(pmax, sizes, newindx, nsize, s);
    }
    RightBytesBound(leaf, all, s);
  }

  /** The search from the right stopped at a node that overflows the right page. */
  lemma StoppedLate(pmax: nat, sizes: seq<nat>, newindx: nat, nsize: nat, s: nat)
    requires MustSplit(pmax, sizes, nsize) && newindx <= |sizes| && 0 < s <= |sizes| + 1
    requires var all := With(sizes, newindx, nsize); Sum(all[s..]) <= pmax < Sum(all[s - 1..])
    ensures Sum(With(sizes, newindx, nsize)[..s]) <= pmax
  {
    var all := With(sizes, newindx, nsize);
    SumWith(sizes, newindx, nsize);
    SumSplit(all, s);
    SumCons(all, s - 1);
    assert all[s - 1] == nsize || 2 * all[s - 1] <= pmax;
  }

  /** A split point that was searched for always leaves two halves that fit, on leaves and on
      branches. */
  lemma SearchedSplitFits(pmax: nat, leaf: bool, sizes: seq<nat>, newindx: nat, nsize: nat)
    requires MustSplit(pmax, sizes, nsize) && newindx <= |sizes| && NodeSizes(leaf, sizes, newindx, nsize)
    requires Searches(pmax, |sizes|, newindx, nsize)
    ensures |sizes| >= 2
    ensures Halves(pmax, leaf, With(sizes, newindx, nsize), SplitIndex(pmax, leaf, sizes, newindx, nsize))
  {
    TwoNodesAtLeast(pmax, sizes, nsize);
    if newindx >= |sizes| {
      AppendAtEnd(pmax, leaf, sizes, nsize);
    } else if newindx <= Mid(|sizes|) {
      SearchFromLeft(pmax, leaf, sizes, newindx, nsize);
    } else {
      SearchFromRight(pmax, leaf, sizes, newindx, nsize);
    }
  }

  /** What the right page takes when the page is cut in the middle, unseen. */
  lemma MiddleRight(leaf: bool, sizes: seq<nat>, newindx: nat, nsize: nat)
    requires |sizes| >= 2 && Mid(|sizes|) <= newindx <= |sizes|
    ensures var mid := Mid(|sizes|);
      RightBytes(leaf, With(sizes, newindx, nsize), mid) ==
        if leaf then nsize + Sum(sizes[mid..])
        else if newindx == mid then EMPTYKEY + Sum(sizes[mid..])
        else EMPTYKEY + nsize + Sum(sizes[mid + 1..])
  {
    var mid := Mid(|sizes|);
    if leaf {
      WithSides(sizes, newindx, nsize, mid);
      SumWith(sizes[mid..], newindx - mid, nsize);
    } else {
      WithSides(sizes, newindx, nsize, mid + 1);
      if newindx > mid { SumWith(sizes[mid + 1..], newindx - mid - 1, nsize); }
    }
  }

  lemma FixedMidpoint(pmax: nat, leaf: bool, sizes: seq<nat>, newindx: nat, nsize: nat)
    requires MustSplit(pmax, sizes, nsize) && newindx <= |sizes| && |sizes| >= 2
    requires !Searches(pmax, |sizes|, newindx, nsize) && NodeSizes(leaf, sizes, newindx, nsize)
    ensures Halves(pmax, leaf, With(sizes, newindx, nsize), SplitIndex(pmax, leaf, sizes, newindx, nsize))
      <==> SplitFits(pmax, leaf, sizes, newindx, nsize)
  {
    hide Sum;
    var mid := Mid(|sizes|);
    OldSidesFit(pmax, sizes, newindx, nsize, mid);
    if newindx < mid {
      WithSides(sizes, newindx, nsize, mid);
      SumWith(sizes[..mid - 1], newindx, nsize);
      RightBytesBound(leaf, With(sizes, newindx, nsize), mid);
    } else {
      MiddleRight(leaf, sizes, newindx, nsize);
      if !leaf { CutAtNew(pmax, sizes, mid); }
    }
  }

  /** Whenever a page must split, both halves are non-empty and fit exactly when SplitFits. */
  lemma SplitBound(pmax: nat, leaf: bool, sizes: seq<nat>, newindx: nat, nsize: nat)
    requires MustSplit(pmax, sizes, nsize) && newindx <= |sizes| && NodeSizes(leaf, sizes, newindx, nsize)
    ensures |sizes| >= 2
    ensures Halves(pmax, leaf, With(sizes, newindx, nsize), SplitIndex(pmax, leaf, sizes, newindx, nsize))
      <==> SplitFits(pmax, leaf, sizes, newindx, nsize)
  {
    TwoNodesAtLeast(pmax, sizes, nsize);
    if Searches(pmax, |sizes|, newindx, nsize) {
      SearchedSplitFits(pmax, leaf, sizes, newindx, nsize);
    } else {
      FixedMidpoint(pmax, leaf, sizes, newindx, nsize);
    }
  }

  lemma {:induction false} SumAtLeast(s: seq<nat>, least: nat)
    requires forall i :: 0 <= i < |s| ==> s[i] >= least
    ensures Sum(s) >= |s| * least
  {
    if s != [] { SumAtLeast(s[1..], least); }
  }

  /** The largest page without its header on which no split can be refused: the 16 smallest nodes
      take at least as much as a sixteenth of it. */
  const SAFEPMAX: nat := 16 * (16 * EMPTYKEY) + 15

  /** On small pages the middle always does. */
  lemma SmallPageFits(pmax: nat, leaf: bool, sizes: seq<nat>, newindx: nat, nsize: nat)
    requires pmax <= SAFEPMAX && |sizes| >= 2 && newindx <= |sizes| && Sum(sizes) <= pmax
    requires forall i :: 0 <= i < |sizes| ==> sizes[i] >= EMPTYKEY
    ensures SplitFits(pmax, leaf, sizes, newindx, nsize)
  {
    hide Sum;
    if !Searches(pmax, |sizes|, newindx, nsize) {
      var mid := Mid(|sizes|);
      SumSplit(sizes, mid);
      SumSplit(sizes, mid - 1);
      SumAtLeast(sizes[mid - 1..], EMPTYKEY);
      SumAtLeast(sizes[..mid], EMPTYKEY);
      if newindx > mid { SumCons(sizes, mid); }
    }
  }

  function Repeat(n: nat, x: nat): seq<nat> { seq(n, _ => x) }

  lemma {:induction false} SumRepeat(n: nat, x: nat)
    ensures Sum(Repeat(n, x)) == n * x
  {
    if n > 0 {
      assert Repeat(n, x)[1..] == Repeat(n - 1, x);
      SumRepeat(n - 1, x);
    }
  }

  /** The middle taken unseen can overflow although another cut would do: a 4096-byte leaf with 15
      nodes of 258 bytes before 17 of 12 bytes gets a node of 250 bytes at its front. */
  lemma MidpointCanOverflow()
    ensures var sizes := Repeat(15, 258) + Repeat(17, 12);
      && MustSplit(4080, sizes, 250) && !SplitFits(4080, true, sizes, 0, 250)
      && Halves(4080, true, With(sizes, 0, 250), 14)
  {
    hide Sum;
    var left, right := Repeat(15, 258), Repeat(17, 12);
    var sizes := left + right;
    SumRepeat(15, 258);
    SumRepeat(17, 12);
    SumConcat(left, right);
    assert sizes[..15] == left && Mid(|sizes|) == 16;
    WithSides(sizes, 0, 250, 14);
    assert sizes[..13] == Repeat(13, 258);
    SumRepeat(13, 258);
    SumWith(sizes[..13], 0, 250);
    OldRightFits(4080, sizes, 0, 250, 14);
  }
}
