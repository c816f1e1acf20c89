/**
  The leaf pages of a tree, left to right. Whatever happens to the branch pages above, a put
  changes one leaf or cuts it in two, and a delete changes one leaf and at most one neighbour, by
  rules that speak only of those leaves' bytes and node counts.
 */
module BTreeLeaves {
  import opened Wrappers
  import opened SplitPoint
  import opened BTree
  import opened Refusal
  import opened BTreeShape
  import opened BTreeRefines

  function Leaves(t: Tree): seq<seq<Node>>
    decreases t, 0
  {
    match t
    case Leaf(nodes) => [nodes]
    case Branch(kids) => KidLeaves(kids)
  }

  function KidLeaves(kids: seq<Kid>): seq<seq<Node>>
    decreases kids, 0
  {
    if kids == [] then [] else
      assert kids decreases to kids[0];
      Leaves(kids[0].sub) + KidLeaves(kids[1..])
  }

  lemma {:induction false} KidLeavesConcat(a: seq<Kid>, b: seq<Kid>)
    ensures KidLeaves(a + b) == KidLeaves(a) + KidLeaves(b)
    decreases |a|
  {
    if a == [] {
      assert a + b == b;
    } else {
      assert (a + b)[1..] == a[1..] + b;
      KidLeavesConcat(a[1..], b);
    }
  }

  lemma KidLeavesOne(k: Kid)
    ensures KidLeaves([k]) == Leaves(k.sub)
  {
    assert KidLeaves([k]) == Leaves(k.sub) + KidLeaves([]);
  }

  /** Keys do not matter. */
  lemma {:induction false} KidLeavesSameSubs(a: seq<Kid>, b: seq<Kid>)
    requires |a| == |b| && forall i :: 0 <= i < |a| ==> a[i].sub == b[i].sub
    ensures KidLeaves(a) == KidLeaves(b)
    decreases |a|
  {
    if a != [] { KidLeavesSameSubs(a[1..], b[1..]); }
  }

  lemma KidLeavesThree(a: seq<Kid>, b: seq<Kid>, c: seq<Kid>)
    ensures KidLeaves(a + b + c) == KidLeaves(a) + KidLeaves(b) + KidLeaves(c)
  {
    KidLeavesConcat(a + b, c);
    KidLeavesConcat(a, b);
  }

  // ---------------------------------------------------------------- branch pages keep the leaves

  lemma CutBranchLeaves(psize: nat, all: seq<Kid>, s: nat)
    requires PageSize(psize) && !CutBranch(psize, all, s).Full?
    ensures KidLeaves(Pages(CutBranch(psize, all, s))) == KidLeaves(all)
  {
    hide Leaves, KidLeaves, Fits;
    var u := CutBranch(psize, all, s);
    assert Pages(u) == [Kid(NOKEY, u.left)] + [Kid(u.sep, u.right)];
    KidLeavesConcat([Kid(NOKEY, u.left)], [Kid(u.sep, u.right)]);
    KidLeavesOne(Kid(NOKEY, u.left));
    KidLeavesOne(Kid(u.sep, u.right));
    BranchLeaves(u.left);
    BranchLeaves(u.right);
    assert all == all[..s] + all[s..];
    KidLeavesConcat(all[..s], all[s..]);
    KidLeavesSameSubs(u.right.kids, all[s..]);
  }

  lemma BranchLeaves(t: Tree)
    requires t.Branch?
    ensures Leaves(t) == KidLeaves(t.kids)
  {
  }

  lemma WithLeaves(kids: seq<Kid>, i: nat, kid: Kid)
    requires i <= |kids|
    ensures KidLeaves(With(kids, i, kid)) == KidLeaves(kids[..i]) + Leaves(kid.sub) + KidLeaves(kids[i..])
  {
    hide Leaves, KidLeaves;
    assert With(kids, i, kid) == kids[..i] + [kid] + kids[i..];
    KidLeavesThree(kids[..i], [kid], kids[i..]);
    KidLeavesOne(kid);
  }

  lemma AddKidLeaves(psize: nat, kids: seq<Kid>, i: nat, kid: Kid)
    requires PageSize(psize) && i <= |kids| && !AddKid(psize, kids, i, kid).Full?
    ensures KidLeaves(Pages(AddKid(psize, kids, i, kid))) == KidLeaves(kids[..i]) + Leaves(kid.sub) + KidLeaves(kids[i..])
  {
    hide Leaves, KidLeaves, SplitBranch, KidSizes, Sum, Pages;
    WithLeaves(kids, i, kid);
    if Sum(KidSizes(kids)) + KidSize(kid.key) <= PMax(psize) {
      BranchPage(With(kids, i, kid));
    } else {
      SplitBranchLeaves(psize, kids, i, kid);
    }
  }

  lemma UpdateKeyLeaves(psize: nat, kids: seq<Kid>, i: nat, key: Key)
    requires PageSize(psize) && 0 < i < |kids| && !UpdateKey(psize, kids, i, key).Full?
    ensures KidLeaves(Pages(UpdateKey(psize, kids, i, key))) == KidLeaves(kids)
  {
    hide Leaves, KidLeaves, SplitBranch, KidSizes, Sum, Pages;
    var rest, kid := kids[..i] + kids[i + 1..], Kid(key, kids[i].sub);
    if UpdateKey(psize, kids, i, key) == One(Branch(kids[i := kid])) {
      BranchPage(kids[i := kid]);
      KidLeavesSameSubs(kids[i := kid], kids);
    } else {
      SplitBranchLeaves(psize, rest, i, kid);
      KidLeavesSameSubs(With(rest, i, kid), kids);
    }
  }

  lemma SplitBranchLeaves(psize: nat, kids: seq<Kid>, i: nat, kid: Kid)
    requires PageSize(psize) && i <= |kids| && !SplitBranch(psize, kids, i, kid).Full?
    ensures KidLeaves(Pages(SplitBranch(psize, kids, i, kid))) == KidLeaves(With(kids, i, kid))
  {
    hide Leaves, KidLeaves, CutBranch, SplitIndex, KidSizes, Sum, Pages;
    CutBranchLeaves(psize, With(kids, i, kid), SplitIndex(PMax(psize), false, KidSizes(kids), i, KidSize(kid.key)));
  }

  lemma BranchPage(kids: seq<Kid>)
    ensures KidLeaves(Pages(One(Branch(kids)))) == KidLeaves(kids)
  {
    KidLeavesOne(Kid(NOKEY, Branch(kids)));
    BranchLeaves(Branch(kids));
  }

  /** The parent's leaves after child i became the pages of u. */
  lemma AbsorbLeaves(psize: nat, kids: seq<Kid>, i: nat, u: Outcome)
    requires PageSize(psize) && i < |kids| && !Absorb(psize, kids, i, u).Full?
    ensures !u.Full?
    ensures KidLeaves(Pages(Absorb(psize, kids, i, u))) == KidLeaves(kids[..i]) + KidLeaves(Pages(u)) + KidLeaves(kids[i + 1..])
  {
    hide Leaves, KidLeaves, AddKid;
    match u
    case One(t) =>
      var after := kids[i := Kid(kids[i].key, t)];
      KidLeavesOne(Kid(NOKEY, Branch(after)));
      BranchLeaves(Branch(after));
      assert after == kids[..i] + [Kid(kids[i].key, t)] + kids[i + 1..];
      KidLeavesThree(kids[..i], [Kid(kids[i].key, t)], kids[i + 1..]);
      KidLeavesOne(Kid(kids[i].key, t));
      KidLeavesOne(Kid(NOKEY, t));
    case Two(l, sep, r) =>
      var after := kids[i := Kid(kids[i].key, l)];
      AddKidLeaves(psize, after, i + 1, Kid(sep, r));
      assert after[..i + 1] == kids[..i] + [Kid(kids[i].key, l)] && after[i + 1..] == kids[i + 1..];
      KidLeavesConcat(kids[..i], [Kid(kids[i].key, l)]);
      KidLeavesOne(Kid(kids[i].key, l));
      assert Pages(u) == [Kid(NOKEY, l)] + [Kid(sep, r)];
      KidLeavesConcat([Kid(NOKEY, l)], [Kid(sep, r)]);
      KidLeavesOne(Kid(NOKEY, l));
      KidLeavesOne(Kid(sep, r));
    case Full =>
  }

  // ---------------------------------------------------------------- put

  /** Which leaf, counted from the left, the search for k ends at. */
  function LeafAt(t: Tree, k: real): nat {
    match t
    case Leaf(_) => 0
    case Branch(kids) =>
      if kids == [] then 0 else
        var i := ChildIndex(kids, k);
        |KidLeaves(kids[..i])| + LeafAt(kids[i].sub, k)
  }

  /** The leaf's nodes with the item put in. */
  function PutNodes(psize: nat, nodes: seq<Node>, key: Key, val: Val, reuse: bool): seq<Node>
    requires PageSize(psize)
  {
    var i := LeafIndex(nodes, key.rank);
    if !Exact(nodes, key.rank) then With(nodes, i, MakeNode(psize, key, val))
    else if InPlace(nodes[i], val, reuse) then nodes[i := nodes[i].(val := val)]
    else nodes[i := MakeNode(psize, key, val)]
  }

  /** The leaf itself if its nodes still fit in a page, and else its nodes in two pages, cut where
      mdb_page_split cuts. */
  ghost predicate SplitInto(psize: nat, all: seq<Node>, at: nat, pieces: seq<seq<Node>>)
    requires PageSize(psize) && at < |all|
  {
    if Sum(LeafSizes(all)) <= PMax(psize) then pieces == [all]
    else exists s :: 0 < s < |all| && pieces == [all[..s], all[s..]] && CutsAt(PMax(psize), true, LeafSizes(all), at, s)
  }

  lemma CutLeafLeaves(psize: nat, all: seq<Node>, s: nat)
    requires PageSize(psize) && !CutLeaf(psize, all, s).Full?
    ensures 0 < s < |all| && KidLeaves(Pages(CutLeaf(psize, all, s))) == [all[..s], all[s..]]
  {
    hide Fits;
    var l, r := Kid(NOKEY, Leaf(all[..s])), Kid(all[s].key, Leaf(all[s..]));
    assert [l, r] == [l] + [r];
    KidLeavesConcat([l], [r]);
    KidLeavesOne(l);
    KidLeavesOne(r);
  }

  lemma AddNodeLeaves(psize: nat, nodes: seq<Node>, i: nat, n: Node)
    requires PageSize(psize) && LeafOk(psize, nodes) && NodeOk(psize, n) && i <= |nodes|
    requires !AddNode(psize, nodes, i, n).Full?
    ensures SplitInto(psize, With(nodes, i, n), i, KidLeaves(Pages(AddNode(psize, nodes, i, n))))
  {
    hide Sum, LeafSizes, CutLeaf, SplitIndex, KidLeaves, LeafOk, NodeOk, CutsAt;
    var all := With(nodes, i, n);
    LeafSizesWith(nodes, i, n);
    if Sum(LeafSizes(nodes)) + LeafSize(n) <= PMax(psize) {
      KidLeavesOne(Kid(NOKEY, Leaf(all)));
    } else {
      NodeSizeBound(psize, n);
      var s := SplitIndex(PMax(psize), true, LeafSizes(nodes), i, LeafSize(n));
      SplitLeafOk(psize, nodes, i, n);
      CutLeafLeaves(psize, all, s);
      SplitPlace(PMax(psize), true, LeafSizes(nodes), i, LeafSize(n));
    }
  }

  lemma PutLeafLeaves(psize: nat, nodes: seq<Node>, key: Key, val: Val, reuse: bool)
    requires PageSize(psize) && LeafOk(psize, nodes) && key.size <= MAXKEY
    requires !PutLeaf(psize, nodes, key, val, reuse).Full?
    ensures var all, i := PutNodes(psize, nodes, key, val, reuse), LeafIndex(nodes, key.rank);
      i < |all| && SplitInto(psize, all, i, KidLeaves(Pages(PutLeaf(psize, nodes, key, val, reuse))))
  {
    hide LeafSizes, Sum, SplitInto, KidLeaves, AddNode, NodeOk;
    var i, n := LeafIndex(nodes, key.rank), MakeNode(psize, key, val);
    MakeNodeOk(psize, key, val);
    if !Exact(nodes, key.rank) {
      AddNodeLeaves(psize, nodes, i, n);
    } else if InPlace(nodes[i], val, reuse) {
      SetValOk(psize, nodes, i, val);
      FitsAsIs(psize, nodes[i := nodes[i].(val := val)], i);
    } else {
      var rest := nodes[..i] + nodes[i + 1..];
      WithoutNodeOk(psize, nodes, i);
      AddNodeLeaves(psize, rest, i, n);
      assert With(rest, i, n) == nodes[i := n];
    }
  }

  lemma FitsAsIs(psize: nat, nodes: seq<Node>, i: nat)
    requires PageSize(psize) && Fits(psize, Leaf(nodes)) && i < |nodes|
    ensures SplitInto(psize, nodes, i, KidLeaves(Pages(One(Leaf(nodes)))))
  {
    hide LeafSizes, Sum, KidLeaves;
    KidLeavesOne(Kid(NOKEY, Leaf(nodes)));
  }

  /** The leaves around child i. */
  lemma AroundChild(kids: seq<Kid>, i: nat)
    requires i < |kids|
    ensures KidLeaves(kids) == KidLeaves(kids[..i]) + Leaves(kids[i].sub) + KidLeaves(kids[i + 1..])
  {
    hide Leaves, KidLeaves;
    UpToChild(kids, i);
    assert kids == kids[..i + 1] + kids[i + 1..];
    KidLeavesConcat(kids[..i + 1], kids[i + 1..]);
  }

  lemma UpToChild(kids: seq<Kid>, i: nat)
    requires i < |kids|
    ensures KidLeaves(kids[..i + 1]) == KidLeaves(kids[..i]) + Leaves(kids[i].sub)
  {
    hide Leaves, KidLeaves;
    assert kids[..i + 1] == kids[..i] + [kids[i]];
    KidLeavesConcat(kids[..i], [kids[i]]);
    KidLeavesOne(kids[i]);
  }

  lemma {:induction false} LeafAtBound(psize: nat, t: Tree, k: real, d: nat)
    requires PageSize(psize) && Shape(psize, t, d)
    ensures LeafAt(t, k) < |Leaves(t)|
    decreases d
  {
    if t.Branch? {
      var i := ChildIndex(t.kids, k);
      WeakBranch(psize, t, d);
      KidShape(psize, t.kids, i, d);
      LeafAtBound(psize, t.kids[i].sub, k, d - 1);
      AroundChild(t.kids, i);
    }
  }

  /** Item x replaced by a list, in the middle of a longer list. */
  lemma SpliceInside<T>(a: seq<T>, m: seq<T>, c: seq<T>, x: nat, pieces: seq<T>)
    requires x < |m|
    ensures var all := a + m + c;
      && all[..|a| + x] + pieces + all[|a| + x + 1..] == a + (m[..x] + pieces + m[x + 1..]) + c
      && all[|a| + x] == m[x]
  {
  }

  /** Put below any page changes the one leaf and leaves all others. */
  lemma {:induction false} PutAtLeaves(psize: nat, t: Tree, key: Key, val: Val, reuse: bool, d: nat)
    requires PageSize(psize) && Shape(psize, t, d) && !PutAt(psize, t, key, val, reuse).Full?
    ensures var ls, x := Leaves(t), LeafAt(t, key.rank);
      && x < |ls| && !PutLeaf(psize, ls[x], key, val, reuse).Full? && LeafOk(psize, ls[x])
      && KidLeaves(Pages(PutAt(psize, t, key, val, reuse)))
        == ls[..x] + KidLeaves(Pages(PutLeaf(psize, ls[x], key, val, reuse))) + ls[x + 1..]
    decreases d
  {
    hide PutLeaf, Absorb, LeafOk, KidLeaves, Pages;
    match t
    case Leaf(nodes) =>
      var u := PutLeaf(psize, nodes, key, val, reuse);
      assert [nodes][..0] + KidLeaves(Pages(u)) + [nodes][1..] == KidLeaves(Pages(u));
    case Branch(kids) =>
      var i := ChildIndex(kids, key.rank);
      WeakBranch(psize, t, d);
      KidShape(psize, kids, i, d);
      var sub, u := kids[i].sub, PutAt(psize, kids[i].sub, key, val, reuse);
      AbsorbLeaves(psize, kids, i, u);
      PutAtLeaves(psize, sub, key, val, reuse, d - 1);
      AroundChild(kids, i);
      var x := LeafAt(sub, key.rank);
      SpliceInside(KidLeaves(kids[..i]), Leaves(sub), KidLeaves(kids[i + 1..]), x,
        KidLeaves(Pages(PutLeaf(psize, Leaves(sub)[x], key, val, reuse))));
  }

  function DbLeaves(db: Db): seq<seq<Node>> { if db.None? then [] else Leaves(db.value) }

  lemma RootOfLeaves(u: Outcome)
    requires !u.Full?
    ensures RootOf(u).Ok? && DbLeaves(RootOf(u).db) == KidLeaves(Pages(u))
  {
    match u
    case One(t) => KidLeavesOne(Kid(NOKEY, t));
    case Two(l, sep, r) =>
  }

  /** Put: the leaf that the search ends at gets the item, and is cut in two pages if it no longer
      fits in one, in the place mdb_page_split chooses; every other leaf stays as it is. */
  lemma PutLeaves(psize: nat, t: Tree, key: Key, val: Val, reuse: bool)
    requires PageSize(psize) && DbOk(psize, Some(t)) && key.size <= MAXKEY
    requires Put(psize, Some(t), key, val, reuse).Ok?
    ensures var ls, x := Leaves(t), LeafAt(t, key.rank);
      && x < |ls|
      && var all, at := PutNodes(psize, ls[x], key, val, reuse), LeafIndex(ls[x], key.rank);
      && at < |all|
      && exists pieces ::
           && SplitInto(psize, all, at, pieces)
           && DbLeaves(Put(psize, Some(t), key, val, reuse).db) == ls[..x] + pieces + ls[x + 1..]
  {
    hide KidLeaves, Leaves, SplitInto, PutNodes, PutAt, PutLeaf, Pages;
    var d :| Shape(psize, t, d);
    PutAtLeaves(psize, t, key, val, reuse, d);
    RootOfLeaves(PutAt(psize, t, key, val, reuse));
    PutLeafLeaves(psize, Leaves(t)[LeafAt(t, key.rank)], key, val, reuse);
  }

  // ---------------------------------------------------------------- delete

  /** The leaf x was left with the nodes `rest` by a delete: which leaves, from lo up to hi, are
      replaced by which.  It stays if it still has a node and is at least a quarter full.  Otherwise
      its neighbour, the one to the left unless it is the first leaf of its parent, gives it its
      nearest node if it is at least a quarter full itself and has another one; and if not, the two
      become one leaf. */
  function Refill(pmax: nat, ls: seq<seq<Node>>, x: nat, first: bool, rest: seq<Node>): (r: (nat, seq<seq<Node>>, nat))
    requires HasNeighbour(ls, x, first)
    ensures r.0 <= x < r.2 <= |ls|
  {
    if rest != [] && 4 * Sum(LeafSizes(rest)) >= pmax then (x, [rest], x + 1)
    else if first then
      var nb := ls[x + 1];
      (x, if |nb| > 1 && 4 * Sum(LeafSizes(nb)) >= pmax then [rest + nb[..1], nb[1..]] else [rest + nb], x + 2)
    else
      var nb := ls[x - 1];
      (x - 1, if |nb| > 1 && 4 * Sum(LeafSizes(nb)) >= pmax then [nb[..|nb| - 1], [nb[|nb| - 1]] + rest] else [nb + rest], x + 1)
  }

  predicate HasNeighbour(ls: seq<seq<Node>>, x: nat, first: bool) {
    x < |ls| && if first then x + 1 < |ls| else 0 < x
  }

  /** All leaves after that. */
  function Refilled(pmax: nat, ls: seq<seq<Node>>, x: nat, first: bool, rest: seq<Node>): seq<seq<Node>>
    requires HasNeighbour(ls, x, first)
  {
    var (lo, pieces, hi) := Refill(pmax, ls, x, first, rest);
    ls[..lo] + pieces + ls[hi..]
  }

  lemma DivAtLeast(a: nat, b: nat, c: nat)
    requires b > 0
    ensures a / b >= c <==> a >= c * b
  {
    assert a == b * (a / b) + a % b;
    if a / b >= c { assert b * (a / b) >= b * c; } else { assert b * (a / b) <= b * (c - 1); }
  }

  /** A quarter, in tenths of a percent. */
  lemma LeafFill(psize: nat, nodes: seq<Node>)
    requires PageSize(psize)
    ensures FullEnough(psize, Leaf(nodes)) <==> nodes != [] && 4 * Sum(LeafSizes(nodes)) >= PMax(psize)
    ensures CanGive(psize, Leaf(nodes)) <==> |nodes| > 1 && 4 * Sum(LeafSizes(nodes)) >= PMax(psize)
  {
    hide Sum, LeafSizes;
    DivAtLeast(1000 * Sum(LeafSizes(nodes)), PMax(psize), 250);
  }

  ghost predicate AllLeaves(kids: seq<Kid>) { forall j :: 0 <= j < |kids| ==> kids[j].sub.Leaf? }

  lemma {:induction false} LeafKids(kids: seq<Kid>)
    requires AllLeaves(kids)
    ensures |KidLeaves(kids)| == |kids| && forall j :: 0 <= j < |kids| ==> KidLeaves(kids)[j] == kids[j].sub.nodes
    decreases |kids|
  {
    if kids != [] { LeafKids(kids[1..]); }
  }

  lemma LeafKidsAre(kids: seq<Kid>, ls: seq<seq<Node>>)
    requires AllLeaves(kids) && |kids| == |ls| && forall j :: 0 <= j < |kids| ==> kids[j].sub.nodes == ls[j]
    ensures KidLeaves(kids) == ls
  {
    LeafKids(kids);
  }

  lemma RebalanceFirstLeaf(psize: nat, kids: seq<Kid>)
    requires PageSize(psize) && |kids| >= 2 && AllLeaves(kids) && !FullEnough(psize, kids[0].sub)
    requires !Rebalance(psize, kids, 0).u.Full?
    ensures |KidLeaves(kids)| == |kids|
    ensures KidLeaves(Pages(Rebalance(psize, kids, 0).u)) == Refilled(PMax(psize), KidLeaves(kids), 0, true, kids[0].sub.nodes)
  {
    hide KidLeaves, Leaves, UpdateKey, FullEnough, CanGive, Sum, LeafSizes, Pages;
    var t, nb := kids[0].sub, kids[1].sub;
    LeafKids(kids);
    LeafFill(psize, t.nodes);
    LeafFill(psize, nb.nodes);
    if CanGive(psize, nb) {
      var (l, sep, r) := MoveLeft(t, nb);
      var after := kids[0 := Kid(kids[0].key, l)][1 := Kid(kids[1].key, r)];
      UpdateKeyLeaves(psize, after, 1, sep);
      LeafKidsAre(after, Refilled(PMax(psize), KidLeaves(kids), 0, true, t.nodes));
    } else {
      var after := [Kid(kids[0].key, Merge(t, nb))] + kids[2..];
      BranchPage(after);
      LeafKidsAre(after, Refilled(PMax(psize), KidLeaves(kids), 0, true, t.nodes));
    }
  }

  lemma RebalanceOtherLeaf(psize: nat, kids: seq<Kid>, i: nat)
    requires PageSize(psize) && 0 < i < |kids| && AllLeaves(kids) && !FullEnough(psize, kids[i].sub)
    requires !Rebalance(psize, kids, i).u.Full?
    ensures |KidLeaves(kids)| == |kids|
    ensures KidLeaves(Pages(Rebalance(psize, kids, i).u)) == Refilled(PMax(psize), KidLeaves(kids), i, false, kids[i].sub.nodes)
  {
    hide KidLeaves, Leaves, UpdateKey, FullEnough, CanGive, Sum, LeafSizes, Pages;
    var nb, t := kids[i - 1].sub, kids[i].sub;
    LeafKids(kids);
    LeafFill(psize, t.nodes);
    LeafFill(psize, nb.nodes);
    if CanGive(psize, nb) {
      var (l, sep, r) := MoveRight(nb, t);
      var after := kids[i - 1 := Kid(kids[i - 1].key, l)][i := Kid(kids[i].key, r)];
      UpdateKeyLeaves(psize, after, i, sep);
      LeafKidsAre(after, Refilled(PMax(psize), KidLeaves(kids), i, false, t.nodes));
    } else {
      var after := kids[..i - 1] + [Kid(kids[i - 1].key, Merge(nb, t))] + kids[i + 1..];
      BranchPage(after);
      LeafKidsAre(after, Refilled(PMax(psize), KidLeaves(kids), i, false, t.nodes));
    }
  }

  /** mdb_rebalance on a leaf. */
  lemma RebalanceLeaf(psize: nat, kids: seq<Kid>, i: nat)
    requires PageSize(psize) && i < |kids| && |kids| >= 2 && AllLeaves(kids) && !Rebalance(psize, kids, i).u.Full?
    ensures |KidLeaves(kids)| == |kids|
    ensures KidLeaves(Pages(Rebalance(psize, kids, i).u)) == Refilled(PMax(psize), KidLeaves(kids), i, i == 0, kids[i].sub.nodes)
  {
    hide KidLeaves, Leaves, Rebalance, FullEnough, Sum, LeafSizes, Pages;
    LeafKids(kids);
    if FullEnough(psize, kids[i].sub) {
      LeafFill(psize, kids[i].sub.nodes);
      FullStays(psize, kids, i);
      BranchPage(kids);
      var ls := KidLeaves(kids);
      assert ls == ls[..i] + [ls[i]] + ls[i + 1..];
    } else if i == 0 {
      RebalanceFirstLeaf(psize, kids);
    } else {
      RebalanceOtherLeaf(psize, kids, i);
    }
  }

  lemma FullStays(psize: nat, kids: seq<Kid>, i: nat)
    requires PageSize(psize) && i < |kids| && |kids| >= 2 && FullEnough(psize, kids[i].sub)
    ensures Rebalance(psize, kids, i) == Shrunk(One(Branch(kids)), false)
  {
  }

  // ---------------------------------------------------------------- rebalancing branch pages

  lemma PairLeaves(l: Tree, r: Tree, k: Key, j: Key)
    ensures KidLeaves([Kid(k, l), Kid(j, r)]) == Leaves(l) + Leaves(r)
  {
    hide KidLeaves, Leaves;
    assert [Kid(k, l), Kid(j, r)] == [Kid(k, l)] + [Kid(j, r)];
    KidLeavesConcat([Kid(k, l)], [Kid(j, r)]);
    KidLeavesOne(Kid(k, l));
    KidLeavesOne(Kid(j, r));
  }

  lemma ExplicitLeaves(kids: seq<Kid>)
    ensures KidLeaves(Explicit(kids)) == KidLeaves(kids)
    ensures KidLeaves(Implicit(kids)) == KidLeaves(kids)
  {
    KidLeavesSameSubs(Explicit(kids), kids);
    KidLeavesSameSubs(Implicit(kids), kids);
  }

  lemma MergeLeaves(l: Tree, r: Tree)
    requires l.Branch? && r.Branch?
    ensures Leaves(Merge(l, r)) == Leaves(l) + Leaves(r)
  {
    hide KidLeaves, Explicit;
    KidLeavesConcat(l.kids, Explicit(r.kids));
    ExplicitLeaves(r.kids);
  }

  lemma MoveRightKeeps(l: Tree, r: Tree)
    requires l.Branch? && r.Branch? && l.kids != []
    ensures var p := MoveRight(l, r); Leaves(p.0) + Leaves(p.2) == Leaves(l) + Leaves(r)
  {
    hide KidLeaves, Explicit, Implicit;
    var n := |l.kids| - 1;
    var k, e := l.kids[n], Explicit(r.kids);
    assert l.kids == l.kids[..n] + [k];
    KidLeavesConcat(l.kids[..n], [k]);
    KidLeavesConcat([k], e);
    ExplicitLeaves([k] + e);
    ExplicitLeaves(r.kids);
  }

  lemma MoveLeftKeeps(l: Tree, r: Tree)
    requires l.Branch? && r.Branch? && |r.kids| > 1
    ensures var p := MoveLeft(l, r); Leaves(p.0) + Leaves(p.2) == Leaves(l) + Leaves(r)
  {
    hide KidLeaves, Implicit;
    var e := Explicit(r.kids);
    assert e == e[..1] + r.kids[1..];
    KidLeavesConcat(e[..1], r.kids[1..]);
    KidLeavesConcat(l.kids, e[..1]);
    ExplicitLeaves(r.kids[1..]);
    ExplicitLeaves(r.kids);
  }

  /** Children j and j + 1 replaced by others with the same leaves. */
  lemma ReplacedPair(kids: seq<Kid>, j: nat, mid: seq<Kid>)
    requires j + 1 < |kids| && KidLeaves(mid) == Leaves(kids[j].sub) + Leaves(kids[j + 1].sub)
    ensures KidLeaves(kids[..j] + mid + kids[j + 2..]) == KidLeaves(kids)
  {
    hide KidLeaves, Leaves;
    KidLeavesThree(kids[..j], mid, kids[j + 2..]);
    AroundChild(kids, j);
    assert kids[j + 1..] == [kids[j + 1]] + kids[j + 2..];
    KidLeavesConcat([kids[j + 1]], kids[j + 2..]);
    KidLeavesOne(kids[j + 1]);
  }

  lemma SetPairSplice(kids: seq<Kid>, j: nat, x: Kid, y: Kid)
    requires j + 1 < |kids|
    ensures kids[j := x][j + 1 := y] == kids[..j] + [x, y] + kids[j + 2..]
  {
  }

  lemma MovedLeaves(psize: nat, kids: seq<Kid>, j: nat, p: (Tree, Key, Tree))
    requires PageSize(psize) && j + 1 < |kids| && Leaves(p.0) + Leaves(p.2) == Leaves(kids[j].sub) + Leaves(kids[j + 1].sub)
    ensures var u := UpdateKey(psize, kids[j := Kid(kids[j].key, p.0)][j + 1 := Kid(kids[j + 1].key, p.2)], j + 1, p.1);
      !u.Full? ==> KidLeaves(Pages(u)) == KidLeaves(kids)
  {
    hide KidLeaves, Leaves, UpdateKey, Pages;
    var x, y := Kid(kids[j].key, p.0), Kid(kids[j + 1].key, p.2);
    var after := kids[j := x][j + 1 := y];
    SetPairSplice(kids, j, x, y);
    PairLeaves(p.0, p.2, x.key, y.key);
    ReplacedPair(kids, j, [x, y]);
    if !UpdateKey(psize, after, j + 1, p.1).Full? { UpdateKeyLeaves(psize, after, j + 1, p.1); }
  }

  lemma MergedLeaves(kids: seq<Kid>, j: nat)
    requires j + 1 < |kids| && kids[j].sub.Branch? && kids[j + 1].sub.Branch?
    ensures KidLeaves(Pages(One(Branch(kids[..j] + [Kid(kids[j].key, Merge(kids[j].sub, kids[j + 1].sub))] + kids[j + 2..]))))
      == KidLeaves(kids)
  {
    hide KidLeaves, Leaves, Merge, Pages;
    var m := Kid(kids[j].key, Merge(kids[j].sub, kids[j + 1].sub));
    MergeLeaves(kids[j].sub, kids[j + 1].sub);
    KidLeavesOne(m);
    ReplacedPair(kids, j, [m]);
    BranchPage(kids[..j] + [m] + kids[j + 2..]);
  }

  ghost predicate AllBranches(kids: seq<Kid>) { forall j :: 0 <= j < |kids| ==> kids[j].sub.Branch? }

  /** mdb_rebalance on a branch page moves no leaf. */
  lemma RebalanceBranch(psize: nat, kids: seq<Kid>, i: nat)
    requires PageSize(psize) && i < |kids| && |kids| >= 2 && AllBranches(kids) && !Rebalance(psize, kids, i).u.Full?
    ensures KidLeaves(Pages(Rebalance(psize, kids, i).u)) == KidLeaves(kids)
  {
    hide KidLeaves, Leaves, UpdateKey, FullEnough, MoveLeft, MoveRight, Merge, Fill, Threshold, Pages;
    var j := if i == 0 then 0 else i - 1;
    var l, r := kids[j].sub, kids[j + 1].sub;
    if FullEnough(psize, kids[i].sub) {
      BranchPage(kids);
    } else if i == 0 {
      if CanGive(psize, r) {
        MoveLeftKeeps(l, r);
        MovedLeaves(psize, kids, 0, MoveLeft(l, r));
      } else {
        MergedLeaves(kids, 0);
        assert kids[..0] + [Kid(kids[0].key, Merge(l, r))] == [Kid(kids[0].key, Merge(l, r))];
      }
    } else {
      if CanGive(psize, l) {
        MoveRightKeeps(l, r);
        MovedLeaves(psize, kids, j, MoveRight(l, r));
      } else {
        MergedLeaves(kids, j);
      }
    }
  }

  // ---------------------------------------------------------------- delete, as a whole

  /** Is the leaf that the search for k ends at the first of its parent? */
  predicate FirstOfParent(t: Tree, k: real) {
    match t
    case Leaf(_) => true
    case Branch(kids) =>
      kids == [] ||
        var i := ChildIndex(kids, k);
        if kids[i].sub.Leaf? then i == 0 else FirstOfParent(kids[i].sub, k)
  }

  /** The nodes without that of k. */
  function Dropped(nodes: seq<Node>, k: real): seq<Node>
    requires Exact(nodes, k)
  {
    var i := LeafIndex(nodes, k);
    nodes[..i] + nodes[i + 1..]
  }

  lemma RefillInside(pmax: nat, a: seq<seq<Node>>, m: seq<seq<Node>>, c: seq<seq<Node>>, x: nat, first: bool, rest: seq<Node>)
    requires HasNeighbour(m, x, first)
    ensures var r := Refill(pmax, m, x, first, rest);
      HasNeighbour(a + m + c, |a| + x, first) && Refill(pmax, a + m + c, |a| + x, first, rest) == (|a| + r.0, r.1, |a| + r.2)
  {
    hide Sum, LeafSizes;
    if first { assert (a + m + c)[|a| + x + 1] == m[x + 1]; } else { assert (a + m + c)[|a| + x - 1] == m[x - 1]; }
  }

  lemma InsideSlices<T>(a: seq<T>, m: seq<T>, c: seq<T>, lo: nat, hi: nat)
    requires lo <= |m| && hi <= |m|
    ensures (a + m + c)[..|a| + lo] == a + m[..lo] && (a + m + c)[|a| + hi..] == m[hi..] + c
  {
  }

  lemma RefilledInside(pmax: nat, a: seq<seq<Node>>, m: seq<seq<Node>>, c: seq<seq<Node>>, x: nat, first: bool, rest: seq<Node>)
    requires HasNeighbour(m, x, first)
    ensures HasNeighbour(a + m + c, |a| + x, first)
    ensures Refilled(pmax, a + m + c, |a| + x, first, rest) == a + Refilled(pmax, m, x, first, rest) + c
  {
    hide Refill;
    RefillInside(pmax, a, m, c, x, first, rest);
    var r := Refill(pmax, m, x, first, rest);
    InsideSlices(a, m, c, r.0, r.2);
  }

  /** What the leaf itself held before does not matter. */
  lemma RefilledSame(pmax: nat, ls: seq<seq<Node>>, x: nat, first: bool, rest: seq<Node>, was: seq<Node>)
    requires HasNeighbour(ls, x, first)
    ensures Refilled(pmax, ls[x := was], x, first, rest) == Refilled(pmax, ls, x, first, rest)
  {
    hide Sum, LeafSizes;
    var other, r := ls[x := was], Refill(pmax, ls, x, first, rest);
    assert Refill(pmax, other, x, first, rest) == r;
    assert other[..r.0] == ls[..r.0] && other[r.2..] == ls[r.2..];
  }

  ghost predicate DeletesAt(psize: nat, t: Tree, k: real, after: seq<seq<Node>>)
    requires PageSize(psize)
  {
    var ls, x, first := Leaves(t), LeafAt(t, k), FirstOfParent(t, k);
    HasNeighbour(ls, x, first) && Exact(ls[x], k) && after == Refilled(PMax(psize), ls, x, first, Dropped(ls[x], k))
  }

  /** Just above the leaves. */
  lemma DelAboveLeaf(psize: nat, kids: seq<Kid>, k: real)
    requires PageSize(psize) && |kids| >= 2 && AllLeaves(kids)
    requires var r := DelAt(psize, Branch(kids), k); r.Shrunk? && !r.u.Full?
    ensures DeletesAt(psize, Branch(kids), k, KidLeaves(Pages(DelAt(psize, Branch(kids), k).u)))
  {
    hide KidLeaves, Rebalance, Refilled, Pages;
    var i := ChildIndex(kids, k);
    var nodes := kids[i].sub.nodes;
    assert Exact(nodes, k);
    var rest := Dropped(nodes, k);
    var after := kids[i := Kid(kids[i].key, Leaf(rest))];
    LeafKids(kids);
    LeafKids(after);
    LeafKids(kids[..i]);
    RebalanceLeaf(psize, after, i);
    var ls := KidLeaves(kids);
    assert KidLeaves(after) == ls[i := rest];
    RefilledSame(PMax(psize), ls, i, i == 0, rest, rest);
    assert DelAt(psize, Branch(kids), k) == Rebalance(psize, after, i);
    assert LeafAt(Branch(kids), k) == i && FirstOfParent(Branch(kids), k) == (i == 0);
    assert Leaves(Branch(kids)) == ls;
  }

  /** Higher up. */
  lemma AbsorbShrunkLeaves(psize: nat, kids: seq<Kid>, i: nat, r: Shrunk)
    requires PageSize(psize) && i < |kids| && |kids| >= 2 && r.Shrunk? && AllBranches(kids)
    requires r.u.One? ==> r.u.t.Branch?
    requires r.check ==> r.u.One?
    requires var q := AbsorbShrunk(psize, kids, i, r); q.Shrunk? && !q.u.Full?
    ensures !r.u.Full?
    ensures KidLeaves(Pages(AbsorbShrunk(psize, kids, i, r).u))
      == KidLeaves(kids[..i]) + KidLeaves(Pages(r.u)) + KidLeaves(kids[i + 1..])
  {
    hide KidLeaves, Leaves, Rebalance, Absorb, Pages;
    if r.u.One? && r.check {
      var after := kids[i := Kid(kids[i].key, r.u.t)];
      RebalanceBranch(psize, after, i);
      AroundChild(after, i);
      assert after[..i] == kids[..i] && after[i + 1..] == kids[i + 1..];
      OneLeaves(r.u.t);
    } else {
      AbsorbLeaves(psize, kids, i, r.u);
    }
  }

  lemma OneLeaves(t: Tree)
    ensures KidLeaves(Pages(One(t))) == Leaves(t)
  {
    KidLeavesOne(Kid(NOKEY, t));
  }

  lemma KidsKind(psize: nat, kids: seq<Kid>, d: nat)
    requires PageSize(psize) && KidsOk(psize, kids, d)
    ensures if d == 1 then AllLeaves(kids) else AllBranches(kids)
  {
    forall j | 0 <= j < |kids| ensures kids[j].sub.Leaf? <==> d == 1 { KidShape(psize, kids, j, d); }
  }

  lemma ShrunkKind(psize: nat, r: Shrunk, d: nat)
    requires PageSize(psize) && d > 0 && r.Shrunk? && ShrunkOk(psize, r, d)
    ensures (r.u.One? ==> r.u.t.Branch?) && (r.check ==> r.u.One?)
  {
    match r
    case Shrunk(One(t), true) => assert Weak(psize, t, d);
    case Shrunk(One(t), false) => assert Shape(psize, t, d) && Weak(psize, t, d);
    case Shrunk(_, _) =>
  }

  /** Delete below any page. */
  lemma {:induction false} DelAtLeaves(psize: nat, t: Tree, k: real, d: nat)
    requires PageSize(psize) && Shape(psize, t, d) && d > 0
    requires var r := DelAt(psize, t, k); r.Shrunk? && !r.u.Full?
    ensures DeletesAt(psize, t, k, KidLeaves(Pages(DelAt(psize, t, k).u)))
    decreases d
  {
    hide KidLeaves, Refilled, Pages, AbsorbShrunk, ShrunkOk, Shape;
    WeakBranchOf(psize, t, d);
    var kids, i := t.kids, ChildIndex(t.kids, k);
    KidsKind(psize, kids, d);
    if d == 1 {
      DelAboveLeaf(psize, kids, k);
    } else {
      var sub := kids[i].sub;
      KidShape(psize, kids, i, d);
      var r := DelAt(psize, sub, k);
      assert DelAt(psize, t, k) == AbsorbShrunk(psize, kids, i, r);
      MissingStays(psize, kids, i, r);
      DelAtOk(psize, sub, k, d - 1);
      ShrunkKind(psize, r, d - 1);
      AbsorbShrunkLeaves(psize, kids, i, r);
      DelAtLeaves(psize, sub, k, d - 1);
      AroundChild(kids, i);
      BranchLeaves(t);
      var x, first := LeafAt(sub, k), FirstOfParent(sub, k);
      var a, m, c := KidLeaves(kids[..i]), Leaves(sub), KidLeaves(kids[i + 1..]);
      RefilledInside(PMax(psize), a, m, c, x, first, Dropped(m[x], k));
      assert (a + m + c)[|a| + x] == m[x];
    }
  }

  lemma WeakBranchOf(psize: nat, t: Tree, d: nat)
    requires PageSize(psize) && Shape(psize, t, d) && d > 0
    ensures t.Branch? && |t.kids| >= 2 && KidsOk(psize, t.kids, d)
  {
    WeakBranch(psize, t, d);
  }

  lemma MissingStays(psize: nat, kids: seq<Kid>, i: nat, r: Shrunk)
    requires PageSize(psize) && i < |kids|
    ensures AbsorbShrunk(psize, kids, i, r).Missing? <==> r.Missing?
  {
  }

  lemma RebalanceRootLeaves(psize: nat, t: Tree)
    requires PageSize(psize) && t.Branch? && t.kids != []
    ensures DbLeaves(RebalanceRoot(psize, t)) == Leaves(t)
  {
    if |t.kids| == 1 {
      assert t.kids == [t.kids[0]];
      KidLeavesOne(t.kids[0]);
    }
  }

  /** Delete: on a database of one leaf the leaf loses the node, or goes if it was the last; else
      the leaves are refilled by the rule above, and every other leaf stays as it is. */
  lemma DelLeaves(psize: nat, t: Tree, k: real)
    requires PageSize(psize) && DbOk(psize, Some(t)) && Del(psize, Some(t), k).Deleted? && Del(psize, Some(t), k).r.Ok?
    ensures var after := DbLeaves(Del(psize, Some(t), k).r.db);
      if t.Leaf? then Exact(t.nodes, k) && after == (if |t.nodes| == 1 then [] else [Dropped(t.nodes, k)])
      else DeletesAt(psize, t, k, after)
  {
    hide KidLeaves, DeletesAt, Pages, ShrunkOk;
    var d :| Shape(psize, t, d);
    if t.Branch? {
      var r := DelAt(psize, t, k);
      DelAtOk(psize, t, k, d);
      ShrunkKind(psize, r, d);
      assert !r.u.Full?;
      DelAtLeaves(psize, t, k, d);
      if r.u.One? && r.check {
        WeakKids(psize, r, d);
        RebalanceRootLeaves(psize, r.u.t);
        OneLeaves(r.u.t);
      } else {
        RootOfLeaves(r.u);
      }
    }
  }

  lemma WeakKids(psize: nat, r: Shrunk, d: nat)
    requires PageSize(psize) && d > 0 && r.Shrunk? && r.u.One? && r.check && ShrunkOk(psize, r, d)
    ensures r.u.t.Branch? && r.u.t.kids != []
  {
    ShrunkKind(psize, r, d);
    WeakBranch(psize, r.u.t, d);
  }

  // ---------------------------------------------------------------- the rule at any level

  /** The page has its least number of nodes and `spare` more, and a leaf is at least a quarter full,
      a branch at least a thousandth. */
  predicate Keeps(psize: nat, t: Tree, spare: nat)
    requires PageSize(psize)
  {
    match t
    case Leaf(nodes) => |nodes| >= 1 + spare && 4 * Sum(LeafSizes(nodes)) >= PMax(psize)
    case Branch(kids) => |kids| >= 2 + spare && 1000 * Sum(KidSizes(kids)) >= PMax(psize)
  }

  lemma KeepsIsFull(psize: nat, t: Tree)
    requires PageSize(psize)
    ensures FullEnough(psize, t) <==> Keeps(psize, t, 0)
    ensures CanGive(psize, t) <==> Keeps(psize, t, 1)
  {
    hide Sum, LeafSizes, KidSizes;
    match t
    case Leaf(nodes) => LeafFill(psize, nodes);
    case Branch(kids) => DivAtLeast(1000 * Sum(KidSizes(kids)), PMax(psize), 1);
  }

  /** mdb_rebalance, on leaves and branches: nothing to do, one node moved over from the neighbour,
      or the two pages merged, by the bytes and node counts of the two pages alone. */
  lemma RebalanceRule(psize: nat, kids: seq<Kid>, i: nat)
    requires PageSize(psize) && i < |kids| && |kids| >= 2
    ensures var j := if i == 0 then 0 else i - 1;
      var l, r, q := kids[j].sub, kids[j + 1].sub, Rebalance(psize, kids, i);
      && q.Shrunk?
      && (if Keeps(psize, kids[i].sub, 0) then q.u == One(Branch(kids)) && !q.check
          else if Keeps(psize, if i == 0 then r else l, 1) then
            var p := if i == 0 then MoveLeft(l, r) else MoveRight(l, r);
            && !q.check
            && q.u == UpdateKey(psize, kids[j := Kid(kids[j].key, p.0)][j + 1 := Kid(kids[j + 1].key, p.2)], j + 1, p.1)
          else q.check && q.u == One(Branch(kids[..j] + [Kid(kids[j].key, Merge(l, r))] + kids[j + 2..])))
  {
    hide FullEnough, CanGive, Keeps, Merge, MoveLeft, MoveRight, UpdateKey;
    KeepsIsFull(psize, kids[i].sub);
    if i == 0 {
      KeepsIsFull(psize, kids[1].sub);
      assert kids[..0] + [Kid(kids[0].key, Merge(kids[0].sub, kids[1].sub))] == [Kid(kids[0].key, Merge(kids[0].sub, kids[1].sub))];
    } else {
      KeepsIsFull(psize, kids[i - 1].sub);
    }
  }

  lemma MoveCounts(l: Tree, r: Tree)
    requires l.Leaf? == r.Leaf?
    ensures NumKeys(l) > 0 ==>
      var p := MoveRight(l, r); NumKeys(p.0) == NumKeys(l) - 1 && NumKeys(p.2) == NumKeys(r) + 1
    ensures NumKeys(r) > 1 ==>
      var p := MoveLeft(l, r); NumKeys(p.0) == NumKeys(l) + 1 && NumKeys(p.2) == NumKeys(r) - 1
    ensures NumKeys(Merge(l, r)) == NumKeys(l) + NumKeys(r)
  {
  }
}
