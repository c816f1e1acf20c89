/** Paths from the root of a tree to a page, and where that page's entries stand in the whole. */
module CursorPaths {
  import opened Wrappers
  import opened SplitPoint
  import opened BTree
  import opened BTreeShape
  import opened SortedMap
  import opened BTreeOrder
  import opened BTreeRefines

  predicate OnPath(t: Tree, path: seq<nat>)
    decreases path
  {
    path == [] || (t.Branch? && path[0] < |t.kids| && OnPath(t.kids[path[0]].sub, path[1..]))
  }

  function PageAt(t: Tree, path: seq<nat>): Tree
    requires OnPath(t, path)
    decreases path
  {
    if path == [] then t else PageAt(t.kids[path[0]].sub, path[1..])
  }

  /** The number of entries left of the page. */
  function Before(t: Tree, path: seq<nat>): nat
    requires OnPath(t, path)
    decreases path
  {
    if path == [] then 0 else |KidEnts(t.kids[..path[0]])| + Before(t.kids[path[0]].sub, path[1..])
  }

  lemma KidsSplit(kids: seq<Kid>, i: nat)
    requires i < |kids|
    ensures KidEnts(kids) == KidEnts(kids[..i]) + Ents(kids[i].sub) + KidEnts(kids[i + 1..])
    ensures KidEnts(kids[..i + 1]) == KidEnts(kids[..i]) + Ents(kids[i].sub)
  {
    hide KidEnts, Ents;
    KidsUpTo(kids, i);
    assert kids == kids[..i + 1] + kids[i + 1..];
    KidEntsConcat(kids[..i + 1], kids[i + 1..]);
  }

  lemma KidsUpTo(kids: seq<Kid>, i: nat)
    requires i < |kids|
    ensures KidEnts(kids[..i + 1]) == KidEnts(kids[..i]) + Ents(kids[i].sub)
  {
    hide KidEnts, Ents;
    assert kids[..i + 1] == kids[..i] + [kids[i]];
    KidEntsConcat(kids[..i], [kids[i]]);
    KidEntsOne(kids[i]);
  }

  /** One step further down. */
  lemma {:induction false} Descend(t: Tree, path: seq<nat>, i: nat)
    requires OnPath(t, path) && PageAt(t, path).Branch? && i < |PageAt(t, path).kids|
    ensures OnPath(t, path + [i]) && PageAt(t, path + [i]) == PageAt(t, path).kids[i].sub
    ensures Before(t, path + [i]) == Before(t, path) + |KidEnts(PageAt(t, path).kids[..i])|
    decreases path
  {
    var longer := path + [i];
    if path == [] {
      assert longer[1..] == [];
    } else {
      Descend(t.kids[path[0]].sub, path[1..], i);
      assert longer[1..] == path[1..] + [i];
    }
  }

  /** ... and back up. */
  lemma {:induction false} Ascend(t: Tree, path: seq<nat>)
    requires OnPath(t, path) && path != []
    ensures var up := path[..|path| - 1];
      && OnPath(t, up) && PageAt(t, up).Branch? && path[|path| - 1] < |PageAt(t, up).kids|
      && PageAt(t, path) == PageAt(t, up).kids[path[|path| - 1]].sub
    decreases path
  {
    var up := path[..|path| - 1];
    if |path| > 1 {
      Ascend(t.kids[path[0]].sub, path[1..]);
      assert up[1..] == path[1..][..|path| - 2];
    }
  }

  /** The page's entries are a slice of the tree's. */
  lemma {:induction false} Slice(t: Tree, path: seq<nat>)
    requires OnPath(t, path)
    ensures var b, n := Before(t, path), |Ents(PageAt(t, path))|;
      b + n <= |Ents(t)| && Ents(t)[b..b + n] == Ents(PageAt(t, path))
    decreases path
  {
    hide KidEnts;
    if path != [] {
      var kids, i := t.kids, path[0];
      Slice(kids[i].sub, path[1..]);
      KidsSplit(kids, i);
      var a, m, c := KidEnts(kids[..i]), Ents(kids[i].sub), KidEnts(kids[i + 1..]);
      var b, n := Before(kids[i].sub, path[1..]), |Ents(PageAt(t, path))|;
      MiddleSlice(a, m, c, b, n);
    }
  }

  lemma MiddleSlice(a: seq<Entry>, m: seq<Entry>, c: seq<Entry>, b: nat, n: nat)
    requires b + n <= |m|
    ensures (a + m + c)[|a| + b..|a| + b + n] == m[b..b + n]
  {
  }

  /** Pages at the same depth have the same height. */
  lemma {:induction false} PageShape(psize: nat, t: Tree, d: nat, path: seq<nat>)
    requires PageSize(psize) && Shape(psize, t, d) && OnPath(t, path)
    ensures |path| <= d && Shape(psize, PageAt(t, path), d - |path|)
    decreases path
  {
    if path != [] {
      WeakBranch(psize, t, d);
      KidShape(psize, t.kids, path[0], d);
      PageShape(psize, t.kids[path[0]].sub, d - 1, path[1..]);
    }
  }

  lemma {:induction false} PageOrdered(t: Tree, path: seq<nat>, lo: Bound, hi: Bound) returns (lo': Bound, hi': Bound)
    requires OnPath(t, path) && Ordered(t, lo, hi) && Below(lo, hi)
    ensures Ordered(PageAt(t, path), lo', hi')
    decreases path
  {
    if path == [] {
      lo', hi' := lo, hi;
    } else {
      ChildOrdered(t.kids, path[0], lo, hi);
      lo', hi' := PageOrdered(t.kids[path[0]].sub, path[1..], LoAt(t.kids, path[0], lo), HiAt(t.kids, path[0] + 1, hi));
    }
  }

  // ---------------------------------------------------------------- ranks

  /** In sorted entries, the rank of k is the place where it belongs. */
  lemma {:induction false} RankUnique(es: seq<Entry>, k: real, i: nat)
    requires Sorted(es) && i <= |es| && (i > 0 ==> es[i - 1].0 < k) && (i < |es| ==> k <= es[i].0)
    ensures RankSeq(es, k) == i
  {
    if i > 0 {
      assert es[0].0 < k by { if i > 1 { assert es[0].0 < es[i - 1].0; } }
      RankUnique(es[1..], k, i - 1);
    }
  }

  /** A found key is at its rank. */
  lemma RankFound(es: seq<Entry>, k: real, i: nat)
    requires Sorted(es) && i < |es| && es[i].0 == k
    ensures RankSeq(es, k) == i
  {
    if i > 0 { assert es[i - 1].0 < es[i].0; }
    RankUnique(es, k, i);
  }

  lemma {:induction false} RankHas(es: seq<Entry>, k: real)
    requires Sorted(es)
    ensures var r := RankSeq(es, k);
      GetSeq(es, k) == if r < |es| && es[r].0 == k then Some(es[r].1) else None
  {
    if es != [] && es[0].0 < k {
      RankHas(es[1..], k);
    } else if es != [] && k < es[0].0 {
      SortedTail(es);
      GetAbove(es[1..], k);
    }
  }

  lemma {:induction false} GetAbove(es: seq<Entry>, k: real)
    requires forall e :: e in es ==> k < e.0
    ensures GetSeq(es, k).None?
  {
    if es != [] {
      assert es[0] in es;
      GetAbove(es[1..], k);
    }
  }

  /** The entry at the rank of k is k's own exactly when the map has k. */
  lemma RankIsLookup(es: seq<Entry>, k: real)
    requires Sorted(es)
    ensures var r := RankSeq(es, k);
      && (r < |es| && es[r].0 == k <==> k in Dict(es))
      && (k in Dict(es) ==> es[r].1 == Dict(es)[k])
  {
    RankHas(es, k);
    GetIsLookup(es, k);
  }

  lemma {:induction false} RankSplits(es: seq<Entry>, k: real, i: nat)
    requires Sorted(es) && i < |es|
    ensures es[i].0 < k <==> i < RankSeq(es, k)
  {
    if k <= es[0].0 {
      if i > 0 { assert es[0].0 < es[i].0; }
    } else if i > 0 {
      RankSplits(es[1..], k, i - 1);
    }
  }

  /** MDB_SET_RANGE: the entry at the rank of k is the least key of the map that is not below k. */
  lemma RangeIsLeast(es: seq<Entry>, k: real)
    requires Sorted(es)
    ensures var r, m := RankSeq(es, k), Dict(es);
      && (r < |es| ==> es[r].0 in m && k <= es[r].0 && forall x :: x in m && k <= x ==> es[r].0 <= x)
      && (r == |es| ==> forall x :: x in m ==> x < k)
  {
    var r, m := RankSeq(es, k), Dict(es);
    DictKeys(es);
    if r < |es| { RankSplits(es, k, r); }
    forall x | x in m ensures (r < |es| && k <= x ==> es[r].0 <= x) && (r == |es| ==> x < k) {
      var i :| 0 <= i < |es| && es[i].0 == x;
      RankSplits(es, k, i);
      if r < |es| && r < i { assert es[r].0 < es[i].0; }
    }
  }
}
