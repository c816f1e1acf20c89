/** Delete refines removal from the sorted map, through node moves, merges and root collapse. */
module BTreeDelete {
  import opened Wrappers
  import opened SplitPoint
  import opened BTree
  import opened BTreeShape
  import opened SortedMap
  import opened BTreeOrder
  import opened BTreeRefines

  // ---------------------------------------------------------------- two neighbours

  /** Two neighbouring pages of the same level, split at m. */
  ghost predicate Pair(l: Tree, r: Tree, lo: Bound, m: real, hi: Bound) {
    && l.Leaf? == r.Leaf?
    && (r.Branch? ==> r.kids != [] && Lowest(r.kids[0].sub).Some?)
    && Below(lo, Some(m)) && Below(Some(m), hi)
    && Ordered(l, lo, Some(m)) && Ordered(r, Some(m), hi)
  }

  lemma MergeLeavesOrdered(l: Tree, r: Tree, lo: Bound, m: real, hi: Bound)
    requires Pair(l, r, lo, m, hi) && l.Leaf?
    ensures Ordered(Merge(l, r), lo, hi) && Ents(Merge(l, r)) == Ents(l) + Ents(r)
  {
    LeafEntsConcat(l.nodes, r.nodes);
    SortedConcat(LeafEnts(l.nodes), LeafEnts(r.nodes), lo, m, hi);
  }

  lemma MergeBranchesOrdered(l: Tree, r: Tree, lo: Bound, m: real, hi: Bound)
    requires Pair(l, r, lo, m, hi) && l.Branch?
    ensures Ordered(Merge(l, r), lo, hi) && Ents(Merge(l, r)) == Ents(l) + Ents(r)
  {
    var e := Explicit(r.kids);
    ExplicitOrdered(r.kids, Some(m), hi);
    WidenKidsHi(l.kids, lo, Some(m), Some(e[0].key.rank));
    OrderedConcat(l.kids, e, lo, hi);
    KidEntsConcat(l.kids, e);
  }

  /** mdb_page_merge keeps order and contents. */
  lemma MergeOrdered(l: Tree, r: Tree, lo: Bound, m: real, hi: Bound)
    requires Pair(l, r, lo, m, hi)
    ensures Ordered(Merge(l, r), lo, hi) && Ents(Merge(l, r)) == Ents(l) + Ents(r)
  {
    if l.Leaf? { MergeLeavesOrdered(l, r, lo, m, hi); } else { MergeBranchesOrdered(l, r, lo, m, hi); }
  }

  /** The pages and separator after a move: ordered, and holding es. */
  ghost predicate Moved(p: (Tree, Key, Tree), es: seq<Entry>, lo: Bound, hi: Bound) {
    var m := Some(p.1.rank);
    Below(lo, m) && Below(m, hi) && Ordered(p.0, lo, m) && Ordered(p.2, m, hi) && Ents(p.0) + Ents(p.2) == es
  }

  /** Cutting a list of children in two pages. */
  lemma CutKids(all: seq<Kid>, s: nat, lo: Bound, hi: Bound)
    requires 0 < s < |all| && OrderedKids(all, lo, hi)
    ensures Moved((Branch(all[..s]), all[s].key, Branch(Implicit(all[s..]))), KidEnts(all), lo, hi)
  {
    var a, b := all[..s], all[s..];
    assert all == a + b;
    OrderedConcat(a, b, lo, hi);
    KidEntsConcat(a, b);
    OrderedKidEnts(a, lo, Some(all[s].key.rank));
    OrderedKidEnts(b, Some(all[s].key.rank), hi);
    ImplicitOrdered(b, Some(all[s].key.rank), hi);
  }

  lemma LastFirst(a: seq<Node>, b: seq<Node>)
    requires a != []
    ensures var s := |a| - 1; (a + b)[..s] == a[..s] && (a + b)[s] == a[s] && (a + b)[s..] == [a[s]] + b
  {
  }

  lemma FirstLast(a: seq<Node>, b: seq<Node>)
    requires |b| > 1
    ensures var s := |a| + 1; (a + b)[..s] == a + b[..1] && (a + b)[s] == b[1] && (a + b)[s..] == b[1..]
  {
  }

  lemma CutNodes(all: seq<Node>, s: nat, lo: Bound, hi: Bound)
    requires 0 < s < |all| && Ordered(Leaf(all), lo, hi)
    ensures Moved((Leaf(all[..s]), all[s].key, Leaf(all[s..])), LeafEnts(all), lo, hi)
  {
    LeafPart(all, s, lo, hi);
  }

  lemma MoveRightLeaves(left: Tree, right: Tree, lo: Bound, m: real, hi: Bound)
    requires Pair(left, right, lo, m, hi) && left.Leaf? && |left.nodes| > 1
    ensures Moved(MoveRight(left, right), Ents(left) + Ents(right), lo, hi)
  {
    var s := |left.nodes| - 1;
    MergeLeavesOrdered(left, right, lo, m, hi);
    CutNodes(left.nodes + right.nodes, s, lo, hi);
    LastFirst(left.nodes, right.nodes);
  }

  lemma MoveLeftLeaves(left: Tree, right: Tree, lo: Bound, m: real, hi: Bound)
    requires Pair(left, right, lo, m, hi) && left.Leaf? && |right.nodes| > 1
    ensures Moved(MoveLeft(left, right), Ents(left) + Ents(right), lo, hi)
  {
    var s := |left.nodes| + 1;
    MergeLeavesOrdered(left, right, lo, m, hi);
    CutNodes(left.nodes + right.nodes, s, lo, hi);
    FirstLast(left.nodes, right.nodes);
  }

  lemma MoveRightBranches(left: Tree, right: Tree, lo: Bound, m: real, hi: Bound)
    requires Pair(left, right, lo, m, hi) && left.Branch? && |left.kids| > 1
    ensures Moved(MoveRight(left, right), Ents(left) + Ents(right), lo, hi)
  {
    var e := Explicit(right.kids);
    var all, s := left.kids + e, |left.kids| - 1;
    MergeBranchesOrdered(left, right, lo, m, hi);
    CutKids(all, s, lo, hi);
    assert all[..s] == left.kids[..s] && all[s..] == [left.kids[s]] + e;
  }

  lemma MoveLeftBranches(left: Tree, right: Tree, lo: Bound, m: real, hi: Bound)
    requires Pair(left, right, lo, m, hi) && left.Branch? && |right.kids| > 1
    ensures Moved(MoveLeft(left, right), Ents(left) + Ents(right), lo, hi)
  {
    var e := Explicit(right.kids);
    var all, s := left.kids + e, |left.kids| + 1;
    MergeBranchesOrdered(left, right, lo, m, hi);
    CutKids(all, s, lo, hi);
    assert all[..s] == left.kids + e[..1] && all[s..] == right.kids[1..];
  }

  // ---------------------------------------------------------------- the parent

  /** Children j and j + 1 of an ordered parent. */
  lemma PairOf(kids: seq<Kid>, j: nat, lo: Bound, hi: Bound)
    requires j + 1 < |kids| && OrderedKids(kids, lo, hi)
    requires kids[j].sub.Leaf? == kids[j + 1].sub.Leaf?
    requires var r := kids[j + 1].sub; r.Branch? ==> r.kids != [] && Lowest(r.kids[0].sub).Some?
    ensures Pair(kids[j].sub, kids[j + 1].sub, LoAt(kids, j, lo), kids[j + 1].key.rank, HiAt(kids, j + 2, hi))
  {
    ChildOrdered(kids, j, lo, hi);
    ChildOrdered(kids, j + 1, lo, hi);
  }

  lemma PairEnts(kids: seq<Kid>, j: nat, lo: Bound, hi: Bound)
    requires j + 1 < |kids| && OrderedKids(kids, lo, hi)
    ensures KidEnts(kids) == KidEnts(kids[..j]) + (Ents(kids[j].sub) + Ents(kids[j + 1].sub)) + KidEnts(kids[j + 2..])
  {
    Surroundings(kids, j, j + 2, lo, hi);
    assert kids[j..j + 2] == [kids[j]] + [kids[j + 1]];
    KidEntsConcat([kids[j]], [kids[j + 1]]);
    KidEntsOne(kids[j]);
    KidEntsOne(kids[j + 1]);
  }

  /** Both neighbours replaced by one page with their entries. */
  lemma MergedHolds(kids: seq<Kid>, j: nat, t: Tree, lo: Bound, hi: Bound)
    requires j + 1 < |kids| && OrderedKids(kids, lo, hi) && Below(LoAt(kids, j, lo), HiAt(kids, j + 2, hi))
    requires Ordered(t, LoAt(kids, j, lo), HiAt(kids, j + 2, hi))
    requires Ents(t) == Ents(kids[j].sub) + Ents(kids[j + 1].sub)
    ensures Holds(One(Branch(kids[..j] + [Kid(kids[j].key, t)] + kids[j + 2..])), KidEnts(kids), lo, hi)
  {
    var mid := [Kid(kids[j].key, t)];
    KidEntsOne(mid[0]);
    Splice(kids, j, j + 2, mid, lo, hi);
    PairEnts(kids, j, lo, hi);
    OrderedKidEnts(kids, lo, hi);
    OneHolds(Branch(kids[..j] + mid + kids[j + 2..]), lo, hi);
  }

  lemma PairKids(key: Key, p: (Tree, Key, Tree), es: seq<Entry>, lo: Bound, hi: Bound)
    requires Moved(p, es, lo, hi)
    ensures OrderedKids([Kid(key, p.0), Kid(p.1, p.2)], lo, hi)
    ensures KidEnts([Kid(key, p.0), Kid(p.1, p.2)]) == es
  {
    var a, b := [Kid(key, p.0)], [Kid(p.1, p.2)];
    assert [Kid(key, p.0), Kid(p.1, p.2)] == a + b;
    KidEntsConcat(a, b);
    KidEntsOne(a[0]);
    KidEntsOne(b[0]);
    OrderedConcat(a, b, lo, hi);
  }

  lemma SetPair<T>(s: seq<T>, j: nat, x: T, y: T, z: T)
    requires j + 1 < |s|
    ensures s[j := x][j + 1 := y][j + 1 := z] == s[..j] + [x, z] + s[j + 2..]
  {
  }

  /** Both neighbours replaced by the two pages of a move, and their separator updated. */
  lemma MovedHolds(psize: nat, kids: seq<Kid>, j: nat, p: (Tree, Key, Tree), lo: Bound, hi: Bound)
    requires PageSize(psize) && j + 1 < |kids| && OrderedKids(kids, lo, hi)
    requires Moved(p, Ents(kids[j].sub) + Ents(kids[j + 1].sub), LoAt(kids, j, lo), HiAt(kids, j + 2, hi))
    ensures var after := kids[j := Kid(kids[j].key, p.0)][j + 1 := Kid(kids[j + 1].key, p.2)];
      Holds(UpdateKey(psize, after, j + 1, p.1), KidEnts(kids), lo, hi)
  {
    var after := kids[j := Kid(kids[j].key, p.0)][j + 1 := Kid(kids[j + 1].key, p.2)];
    var mid := [Kid(kids[j].key, p.0), Kid(p.1, p.2)];
    PairKids(kids[j].key, p, Ents(kids[j].sub) + Ents(kids[j + 1].sub), LoAt(kids, j, lo), HiAt(kids, j + 2, hi));
    Splice(kids, j, j + 2, mid, lo, hi);
    PairEnts(kids, j, lo, hi);
    SetPair(kids, j, mid[0], Kid(kids[j + 1].key, p.2), mid[1]);
    UpdateKeyHolds(psize, after, j + 1, p.1, lo, hi);
  }

  // ---------------------------------------------------------------- rebalance

  /** A page of children of uniform height can tell its lowest key. */
  lemma WeakLowest(psize: nat, t: Tree, d: nat)
    requires PageSize(psize) && Weak(psize, t, d)
    ensures t.Leaf? <==> d == 0
    ensures t.Branch? ==> t.kids != [] && Lowest(t.kids[0].sub).Some?
  {
    if t.Branch? {
      KidShape(psize, t.kids, 0, d);
      LowestOk(psize, t.kids[0].sub, d - 1);
    }
  }

  lemma PairOfWeak(psize: nat, kids: seq<Kid>, i: nat, j: nat, d: nat, lo: Bound, hi: Bound)
    requires PageSize(psize) && OneWeak(psize, kids, i, d) && OrderedKids(kids, lo, hi) && j + 1 < |kids|
    ensures Pair(kids[j].sub, kids[j + 1].sub, LoAt(kids, j, lo), kids[j + 1].key.rank, HiAt(kids, j + 2, hi))
  {
    WeakLowest(psize, kids[j].sub, d - 1);
    WeakLowest(psize, kids[j + 1].sub, d - 1);
    PairOf(kids, j, lo, hi);
  }

  lemma MoveHolds(psize: nat, kids: seq<Kid>, d: nat, lo: Bound, hi: Bound)
    requires PageSize(psize) && OneWeak(psize, kids, 0, d) && OrderedKids(kids, lo, hi)
    requires CanGive(psize, kids[1].sub)
    ensures Moved(MoveLeft(kids[0].sub, kids[1].sub), Ents(kids[0].sub) + Ents(kids[1].sub), lo, HiAt(kids, 2, hi))
  {
    var t, right := kids[0].sub, kids[1].sub;
    var m, top := kids[1].key.rank, HiAt(kids, 2, hi);
    PairOfWeak(psize, kids, 0, 0, d, lo, hi);
    if t.Leaf? { MoveLeftLeaves(t, right, lo, m, top); } else { MoveLeftBranches(t, right, lo, m, top); }
  }

  lemma MergeFirstHolds(psize: nat, kids: seq<Kid>, d: nat, lo: Bound, hi: Bound)
    requires PageSize(psize) && OneWeak(psize, kids, 0, d) && OrderedKids(kids, lo, hi)
    ensures Holds(One(Branch([Kid(kids[0].key, Merge(kids[0].sub, kids[1].sub))] + kids[2..])), KidEnts(kids), lo, hi)
  {
    var t, right := kids[0].sub, kids[1].sub;
    PairOfWeak(psize, kids, 0, 0, d, lo, hi);
    MergeOrdered(t, right, lo, kids[1].key.rank, HiAt(kids, 2, hi));
    MergedHolds(kids, 0, Merge(t, right), lo, hi);
    assert kids[..0] + [Kid(kids[0].key, Merge(t, right))] == [Kid(kids[0].key, Merge(t, right))];
  }

  lemma RebalanceLeftmostHolds(psize: nat, kids: seq<Kid>, d: nat, lo: Bound, hi: Bound)
    requires PageSize(psize) && OneWeak(psize, kids, 0, d) && OrderedKids(kids, lo, hi) && !FullEnough(psize, kids[0].sub)
    ensures Rebalance(psize, kids, 0).Shrunk? && Holds(Rebalance(psize, kids, 0).u, KidEnts(kids), lo, hi)
  {
    hide Holds, Moved, UpdateKey, OrderedKids, KidEnts, Merge;
    if CanGive(psize, kids[1].sub) {
      MoveHolds(psize, kids, d, lo, hi);
      MovedHolds(psize, kids, 0, MoveLeft(kids[0].sub, kids[1].sub), lo, hi);
    } else {
      MergeFirstHolds(psize, kids, d, lo, hi);
    }
  }

  lemma RebalanceRestHolds(psize: nat, kids: seq<Kid>, i: nat, d: nat, lo: Bound, hi: Bound)
    requires PageSize(psize) && OneWeak(psize, kids, i, d) && OrderedKids(kids, lo, hi)
    requires i > 0 && !FullEnough(psize, kids[i].sub)
    ensures Rebalance(psize, kids, i).Shrunk? && Holds(Rebalance(psize, kids, i).u, KidEnts(kids), lo, hi)
  {
    var left, t := kids[i - 1].sub, kids[i].sub;
    var from, m, top := LoAt(kids, i - 1, lo), kids[i].key.rank, HiAt(kids, i + 1, hi);
    PairOfWeak(psize, kids, i, i - 1, d, lo, hi);
    if CanGive(psize, left) {
      if t.Leaf? { MoveRightLeaves(left, t, from, m, top); } else { MoveRightBranches(left, t, from, m, top); }
      MovedHolds(psize, kids, i - 1, MoveRight(left, t), lo, hi);
    } else {
      MergeOrdered(left, t, from, m, top);
      MergedHolds(kids, i - 1, Merge(left, t), lo, hi);
    }
  }

  /** mdb_rebalance changes no entry. */
  lemma RebalanceHolds(psize: nat, kids: seq<Kid>, i: nat, d: nat, lo: Bound, hi: Bound)
    requires PageSize(psize) && OneWeak(psize, kids, i, d) && OrderedKids(kids, lo, hi)
    ensures Rebalance(psize, kids, i).Shrunk? && Holds(Rebalance(psize, kids, i).u, KidEnts(kids), lo, hi)
  {
    if FullEnough(psize, kids[i].sub) {
      OrderedKidEnts(kids, lo, hi);
      OneHolds(Branch(kids), lo, hi);
    } else if i == 0 {
      RebalanceLeftmostHolds(psize, kids, d, lo, hi);
    } else {
      RebalanceRestHolds(psize, kids, i, d, lo, hi);
    }
  }

  // ---------------------------------------------------------------- delete

  /** A delete below child i that left it with entries es. */
  lemma AbsorbShrunkHolds(psize: nat, kids: seq<Kid>, i: nat, r: Shrunk, es: seq<Entry>, d: nat, lo: Bound, hi: Bound)
    requires PageSize(psize) && d > 0 && i < |kids| && |kids| >= 2 && BranchOk(psize, kids, d)
    requires r.Shrunk? && ShrunkOk(psize, r, d - 1)
    requires OrderedKids(kids, lo, hi) && Holds(r.u, es, LoAt(kids, i, lo), HiAt(kids, i + 1, hi))
    ensures var q := AbsorbShrunk(psize, kids, i, r);
      q.Shrunk? && Holds(q.u, KidEnts(kids[..i]) + es + KidEnts(kids[i + 1..]), lo, hi)
  {
    match r
    case Shrunk(One(t), true) =>
      WeakAfter(psize, kids, i, t, d);
      SetSubHolds(kids, i, t, es, lo, hi);
      RebalanceHolds(psize, kids[i := Kid(kids[i].key, t)], i, d, lo, hi);
    case Shrunk(u, _) => AbsorbHolds(psize, kids, i, u, es, lo, hi);
  }

  lemma DelLeafSeq(nodes: seq<Node>, k: real)
    requires Sorted(LeafEnts(nodes))
    ensures DelSeq(LeafEnts(nodes), k) == LeafEnts(nodes[..LeafIndex(nodes, k)] + nodes[After(nodes, k)..])
    ensures GetSeq(LeafEnts(nodes), k).Some? <==> Exact(nodes, k)
  {
    var i := LeafIndex(nodes, k);
    var mid := if Exact(nodes, k) then [(k, nodes[i].val)] else [];
    var a, c := LeafEnts(nodes[..i]), LeafEnts(nodes[After(nodes, k)..]);
    AroundLeaf(nodes, k);
    LeafParts(nodes, k);
    DelMiddle(a, mid, c, k);
    GetMiddle(a, mid, c, k);
    assert DelSeq(mid, k) == [];
    assert a + [] == a;
    LeafEntsConcat(nodes[..i], nodes[After(nodes, k)..]);
  }

  lemma DelWithin(es: seq<Entry>, k: real, lo: Bound, hi: Bound)
    requires Sorted(es) && Within(es, lo, hi)
    ensures Sorted(DelSeq(es, k)) && Within(DelSeq(es, k), lo, hi)
  {
    DelKeepsSorted(es, k);
  }

  lemma DelLeafHolds(nodes: seq<Node>, k: real, lo: Bound, hi: Bound)
    requires Ordered(Leaf(nodes), lo, hi) && Below(lo, hi) && Exact(nodes, k)
    ensures var i := LeafIndex(nodes, k);
      Holds(One(Leaf(nodes[..i] + nodes[i + 1..])), DelSeq(LeafEnts(nodes), k), lo, hi)
  {
    var i := LeafIndex(nodes, k);
    DelLeafSeq(nodes, k);
    DelWithin(LeafEnts(nodes), k, lo, hi);
    OneHolds(Leaf(nodes[..i] + nodes[i + 1..]), lo, hi);
  }

  lemma {:induction false} DelAtHolds(psize: nat, t: Tree, k: real, d: nat, lo: Bound, hi: Bound)
    requires PageSize(psize) && Shape(psize, t, d)
    requires Ordered(t, lo, hi) && Below(lo, hi) && AtLeast(k, lo) && Under(k, hi)
    ensures DelAt(psize, t, k).Missing? <==> GetSeq(Ents(t), k).None?
    ensures DelAt(psize, t, k).Shrunk? ==> Holds(DelAt(psize, t, k).u, DelSeq(Ents(t), k), lo, hi)
    decreases d
  {
    match t
    case Leaf(nodes) =>
      DelLeafSeq(nodes, k);
      if Exact(nodes, k) { DelLeafHolds(nodes, k, lo, hi); }
    case Branch(kids) =>
      var i := ChildIndex(kids, k);
      WeakBranch(psize, t, d);
      KidShape(psize, kids, i, d);
      DelAtOk(psize, kids[i].sub, k, d - 1);
      ChildOrdered(kids, i, lo, hi);
      ChildIndexBounds(kids, k, lo, hi);
      ChildAround(kids, k, lo, hi);
      DelAtHolds(psize, kids[i].sub, k, d - 1, LoAt(kids, i, lo), HiAt(kids, i + 1, hi));
      GetMiddle(KidEnts(kids[..i]), Ents(kids[i].sub), KidEnts(kids[i + 1..]), k);
      DelMiddle(KidEnts(kids[..i]), Ents(kids[i].sub), KidEnts(kids[i + 1..]), k);
      var r := DelAt(psize, kids[i].sub, k);
      if r.Shrunk? { AbsorbShrunkHolds(psize, kids, i, r, DelSeq(Ents(kids[i].sub), k), d, lo, hi); }
  }
}
