/**
  What put and delete keep of the tree's shape: every leaf is at the same depth, every page
  but the root holds enough nodes, and everything fits in its page.  In particular the merge
  and the node move of mdb_rebalance never overflow a page.
 */
module BTreeShape {
  import opened SplitPoint
  import opened BTree
  import opened Refusal

  /** A leaf node obeys me_nodemax, on an overflow page if need be. */
  predicate NodeOk(psize: nat, n: Node)
    requires PageSize(psize)
  {
    n.key.size <= MAXKEY && (!n.big ==> NODESIZE + n.key.size + n.val.size <= NodeMax(psize))
  }

  ghost predicate LeafOk(psize: nat, nodes: seq<Node>)
    requires PageSize(psize)
  {
    Fits(psize, Leaf(nodes)) && forall n :: n in nodes ==> NodeOk(psize, n)
  }

  /** Slot 0 has no key, and the children are well-shaped. */
  ghost predicate BranchOk(psize: nat, kids: seq<Kid>, d: nat)
    requires PageSize(psize)
    decreases d, 1
  {
    && kids != [] && kids[0].key.size == 0
    && Fits(psize, Branch(kids))
    && KidsOk(psize, kids, d)
  }

  ghost predicate KidsOk(psize: nat, kids: seq<Kid>, d: nat)
    requires PageSize(psize)
    decreases d, 0
  {
    d > 0 && forall kid :: kid in kids ==> kid.key.size <= MAXKEY && Shape(psize, kid.sub, d - 1)
  }

  /** A page at height d above the leaves, with enough nodes. */
  ghost predicate Shape(psize: nat, t: Tree, d: nat)
    requires PageSize(psize)
    decreases d, 3
  {
    Weak(psize, t, d) && NumKeys(t) >= MinKeys(t)
  }

  /** As Shape, but perhaps one node short: a page mdb_rebalance is about to look at. */
  ghost predicate Weak(psize: nat, t: Tree, d: nat)
    requires PageSize(psize)
    decreases d, 2
  {
    match t
    case Leaf(nodes) => d == 0 && LeafOk(psize, nodes)
    case Branch(kids) => d > 0 && BranchOk(psize, kids, d)
  }

  ghost predicate OutcomeOk(psize: nat, u: Outcome, d: nat)
    requires PageSize(psize)
  {
    match u
    case One(t) => Shape(psize, t, d)
    case Two(l, sep, r) => Shape(psize, l, d) && Shape(psize, r, d) && sep.size <= MAXKEY
    case Full => true
  }

  // ---------------------------------------------------------------- sizes

  lemma NodeSizeBound(psize: nat, n: Node)
    requires PageSize(psize) && NodeOk(psize, n)
    ensures 0 < 2 * LeafSize(n) <= PMax(psize)
  {
  }

  /** Data stays in the node exactly as long as two nodes of its size fit in a page. */
  lemma InlineIfTwoFit(psize: nat, key: Key, val: Val)
    requires PageSize(psize)
    ensures MakeNode(psize, key, val).big <==> 2 * LeafSize(Node(key, val, false)) > PMax(psize)
  {
  }

  lemma MakeNodeOk(psize: nat, key: Key, val: Val)
    requires PageSize(psize) && key.size <= MAXKEY
    ensures NodeOk(psize, MakeNode(psize, key, val))
  {
  }

  lemma LeafSizesConcat(a: seq<Node>, b: seq<Node>)
    ensures LeafSizes(a + b) == LeafSizes(a) + LeafSizes(b)
    ensures Sum(LeafSizes(a + b)) == Sum(LeafSizes(a)) + Sum(LeafSizes(b))
  {
    assert LeafSizes(a + b) == LeafSizes(a) + LeafSizes(b);
    SumConcat(LeafSizes(a), LeafSizes(b));
  }

  lemma KidSizesConcat(a: seq<Kid>, b: seq<Kid>)
    ensures KidSizes(a + b) == KidSizes(a) + KidSizes(b)
    ensures Sum(KidSizes(a + b)) == Sum(KidSizes(a)) + Sum(KidSizes(b))
  {
    assert KidSizes(a + b) == KidSizes(a) + KidSizes(b);
    SumConcat(KidSizes(a), KidSizes(b));
  }

  lemma LeafSizesOne(n: Node)
    ensures LeafSizes([n]) == [LeafSize(n)] && Sum(LeafSizes([n])) == LeafSize(n)
  {
    assert LeafSizes([n]) == [LeafSize(n)];
    assert Sum([LeafSize(n)]) == LeafSize(n) + Sum([]);
  }

  lemma KidSizesOne(k: Kid)
    ensures KidSizes([k]) == [KidSize(k.key)] && Sum(KidSizes([k])) == KidSize(k.key)
  {
    assert KidSizes([k]) == [KidSize(k.key)];
    assert Sum([KidSize(k.key)]) == KidSize(k.key) + Sum([]);
  }

  lemma LeafSizesWith(nodes: seq<Node>, i: nat, n: Node)
    requires i <= |nodes|
    ensures LeafSizes(With(nodes, i, n)) == With(LeafSizes(nodes), i, LeafSize(n))
    ensures Sum(LeafSizes(With(nodes, i, n))) == Sum(LeafSizes(nodes)) + LeafSize(n)
  {
    assert LeafSizes(With(nodes, i, n)) == With(LeafSizes(nodes), i, LeafSize(n));
    SumWith(LeafSizes(nodes), i, LeafSize(n));
  }

  lemma KidSizesWith(kids: seq<Kid>, i: nat, k: Kid)
    requires i <= |kids|
    ensures KidSizes(With(kids, i, k)) == With(KidSizes(kids), i, KidSize(k.key))
    ensures Sum(KidSizes(With(kids, i, k))) == Sum(KidSizes(kids)) + KidSize(k.key)
  {
    assert KidSizes(With(kids, i, k)) == With(KidSizes(kids), i, KidSize(k.key));
    SumWith(KidSizes(kids), i, KidSize(k.key));
  }

  /** Only the keys count: replacing subtrees changes no size. */
  lemma KidSizesSameKeys(a: seq<Kid>, b: seq<Kid>)
    requires |a| == |b| && forall i :: 0 <= i < |a| ==> a[i].key == b[i].key
    ensures KidSizes(a) == KidSizes(b)
  {
    assert KidSizes(a) == KidSizes(b);
  }

  // ---------------------------------------------------------------- put, on a leaf

  lemma LeafMustSplit(psize: nat, nodes: seq<Node>, n: Node)
    requires PageSize(psize) && LeafOk(psize, nodes) && NodeOk(psize, n)
    requires Sum(LeafSizes(nodes)) + LeafSize(n) > PMax(psize)
    ensures MustSplit(PMax(psize), LeafSizes(nodes), LeafSize(n))
  {
    NodeSizeBound(psize, n);
    forall i | 0 <= i < |nodes| ensures 0 < 2 * LeafSizes(nodes)[i] <= PMax(psize) {
      NodeSizeBound(psize, nodes[i]);
    }
  }

  lemma CutLeafOk(psize: nat, all: seq<Node>, s: nat)
    requires PageSize(psize) && forall n :: n in all ==> NodeOk(psize, n)
    ensures OutcomeOk(psize, CutLeaf(psize, all, s), 0)
    ensures CutLeaf(psize, all, s).Full? <==> !Halves(PMax(psize), true, LeafSizes(all), s)
  {
    if 0 < s < |all| {
      assert LeafSizes(all[..s]) == LeafSizes(all)[..s];
      assert LeafSizes(all[s..]) == LeafSizes(all)[s..];
      assert all[s] in all;
    }
  }

  lemma SplitLeafOk(psize: nat, nodes: seq<Node>, i: nat, n: Node)
    requires PageSize(psize) && LeafOk(psize, nodes) && NodeOk(psize, n) && i <= |nodes|
    requires Sum(LeafSizes(nodes)) + LeafSize(n) > PMax(psize)
    ensures OutcomeOk(psize, SplitLeaf(psize, nodes, i, n), 0)
    ensures |nodes| >= 2
    ensures SplitLeaf(psize, nodes, i, n).Full? <==> !SplitFits(PMax(psize), true, LeafSizes(nodes), i, LeafSize(n))
  {
    LeafMustSplit(psize, nodes, n);
    SplitBound(PMax(psize), true, LeafSizes(nodes), i, LeafSize(n));
    LeafSizesWith(nodes, i, n);
    assert forall x :: x in With(nodes, i, n) ==> x in nodes || x == n;
    CutLeafOk(psize, With(nodes, i, n), SplitIndex(PMax(psize), true, LeafSizes(nodes), i, LeafSize(n)));
  }

  /** Adding a node to a leaf fails exactly when the split must happen in the middle,
      unsearched, and the halves come out too uneven. */
  lemma AddNodeOk(psize: nat, nodes: seq<Node>, i: nat, n: Node)
    requires PageSize(psize) && LeafOk(psize, nodes) && NodeOk(psize, n) && i <= |nodes|
    ensures OutcomeOk(psize, AddNode(psize, nodes, i, n), 0)
    ensures AddNode(psize, nodes, i, n).Full? <==> Stuck(psize, true, LeafSizes(nodes), i, LeafSize(n))
  {
    if Sum(LeafSizes(nodes)) + LeafSize(n) > PMax(psize) {
      SplitLeafOk(psize, nodes, i, n);
    } else {
      LeafSizesWith(nodes, i, n);
      assert forall x :: x in With(nodes, i, n) ==> x in nodes || x == n;
    }
  }

  lemma WithoutNodeOk(psize: nat, nodes: seq<Node>, i: nat)
    requires PageSize(psize) && LeafOk(psize, nodes) && i < |nodes|
    ensures LeafOk(psize, nodes[..i] + nodes[i + 1..])
  {
    hide LeafSizes, LeafSize, Sum, NodeOk;
    var rest := nodes[..i] + nodes[i + 1..];
    assert nodes == With(rest, i, nodes[i]);
    LeafSizesWith(rest, i, nodes[i]);
    assert forall x :: x in rest ==> x in nodes;
  }

  /** Overwriting the data in place. */
  lemma SetValOk(psize: nat, nodes: seq<Node>, i: nat, val: Val)
    requires PageSize(psize) && LeafOk(psize, nodes) && i < |nodes|
    requires nodes[i].big || val.size == nodes[i].val.size
    ensures LeafOk(psize, nodes[i := nodes[i].(val := val)])
  {
    var after := nodes[i := nodes[i].(val := val)];
    assert LeafSizes(after) == LeafSizes(nodes);
    assert nodes[i] in nodes;
    assert forall x :: x in after ==> x in nodes || x == nodes[i].(val := val);
  }

  lemma PutLeafOk(psize: nat, nodes: seq<Node>, key: Key, val: Val, reuse: bool)
    requires PageSize(psize) && LeafOk(psize, nodes) && key.size <= MAXKEY
    ensures OutcomeOk(psize, PutLeaf(psize, nodes, key, val, reuse), 0)
    ensures PutLeaf(psize, nodes, key, val, reuse).Full? <==> PutLeafStuck(psize, nodes, key, val, reuse)
  {
    var i := LeafIndex(nodes, key.rank);
    MakeNodeOk(psize, key, val);
    if !Exact(nodes, key.rank) {
      AddNodeOk(psize, nodes, i, MakeNode(psize, key, val));
    } else if (nodes[i].big && reuse) || (!nodes[i].big && val.size == nodes[i].val.size) {
      SetValOk(psize, nodes, i, val);
    } else {
      WithoutNodeOk(psize, nodes, i);
      AddNodeOk(psize, nodes[..i] + nodes[i + 1..], i, MakeNode(psize, key, val));
    }
  }

  // ---------------------------------------------------------------- put, on a branch

  lemma KidSizeBound(key: Key)
    requires key.size <= MAXKEY
    ensures 10 <= KidSize(key) <= 522
  {
  }

  predicate KeySizes(sizes: seq<nat>) {
    forall i :: 0 <= i < |sizes| ==> 10 <= sizes[i] <= 522
  }

  lemma KeySizesWith(sizes: seq<nat>, i: nat, nsize: nat)
    requires KeySizes(sizes) && 10 <= nsize <= 522 && i <= |sizes|
    ensures KeySizes(With(sizes, i, nsize))
  {
  }

  /** More than a page of keys is at least four keys. */
  lemma FourKeys(psize: nat, sizes: seq<nat>)
    requires PageSize(psize) && KeySizes(sizes) && Sum(sizes) > PMax(psize)
    ensures |sizes| >= 4
  {
    SumBound(sizes, 522);
  }

  /** A full branch page holds many keys, so a split leaves at least two on each side. */
  lemma BranchHalves(psize: nat, sizes: seq<nat>, i: nat, nsize: nat)
    requires PageSize(psize) && KeySizes(sizes) && 10 <= nsize <= 522 && 0 < i <= |sizes|
    requires sizes[0] == 10 && MustSplit(PMax(psize), sizes, nsize)
    ensures |sizes| >= 4
    ensures var s := SplitIndex(PMax(psize), false, sizes, i, nsize); 2 <= s <= |sizes| - 1
  {
    assert Sum(sizes) == 10 + Sum(sizes[1..]);
    SumBound(sizes[1..], 522);
    KeySizesWith(sizes, i, nsize);
    BranchScan(psize, sizes, i, nsize);
  }

  lemma ScanUpFour(psize: nat, all: seq<nat>, k: nat)
    requires PageSize(psize) && KeySizes(all) && 3 <= k <= |all|
    ensures 2 <= ScanUp(all, PMax(psize), 0, k) < k
  {
    assert all[..0] == [];
    ScanUpResult(all, PMax(psize), 0, k);
    var s := ScanUp(all, PMax(psize), 0, k);
    if s < k - 1 { FourKeys(psize, all[..s + 1]); }
  }

  lemma ScanDownFour(psize: nat, all: seq<nat>, k: nat)
    requires PageSize(psize) && KeySizes(all) && k + 4 <= |all|
    ensures k + 2 <= ScanDown(all, PMax(psize), |all| - 1, k) <= |all| - 2
  {
    assert all[|all|..] == [];
    ScanDownResult(all, PMax(psize), |all| - 1, k);
    var s := ScanDown(all, PMax(psize), |all| - 1, k);
    if s > k + 2 { FourKeys(psize, all[s - 1..]); }
  }

  lemma BranchScan(psize: nat, sizes: seq<nat>, i: nat, nsize: nat)
    requires PageSize(psize) && |sizes| >= 4 && 0 < i <= |sizes| && KeySizes(With(sizes, i, nsize))
    ensures var s := SplitIndex(PMax(psize), false, sizes, i, nsize); 2 <= s <= |sizes| - 1
  {
    var all := With(sizes, i, nsize);
    var nkeys, mid := |sizes|, Mid(|sizes|);
    assert 2 <= mid && mid + 2 <= nkeys;
    if Searches(PMax(psize), nkeys, i, nsize) {
      if i >= nkeys {
        ScanUpFour(psize, all, nkeys);
      } else if i <= mid {
        ScanUpFour(psize, all, mid + 1);
      } else {
        ScanDownFour(psize, all, mid - 1);
      }
    }
  }

  lemma KidSizesOk(kids: seq<Kid>)
    requires kids != [] && kids[0].key.size == 0 && forall k :: k in kids ==> k.key.size <= MAXKEY
    ensures KeySizes(KidSizes(kids)) && KidSizes(kids)[0] == 10
  {
    forall i | 0 <= i < |kids| ensures 10 <= KidSizes(kids)[i] <= 522 {
      assert kids[i] in kids;
      KidSizeBound(kids[i].key);
    }
  }

  lemma BranchMustSplit(psize: nat, kids: seq<Kid>, kid: Kid)
    requires PageSize(psize) && kids != [] && Fits(psize, Branch(kids)) && kids[0].key.size == 0
    requires kid.key.size <= MAXKEY && forall k :: k in kids ==> k.key.size <= MAXKEY
    requires Sum(KidSizes(kids)) + KidSize(kid.key) > PMax(psize)
    ensures KeySizes(KidSizes(kids)) && KidSizes(kids)[0] == 10 && 10 <= KidSize(kid.key) <= 522
    ensures MustSplit(PMax(psize), KidSizes(kids), KidSize(kid.key))
  {
    KidSizesOk(kids);
    KidSizeBound(kid.key);
  }

  lemma CutSizes(all: seq<Kid>, s: nat)
    requires 0 < s < |all|
    ensures Sum(KidSizes(all[..s])) == Sum(KidSizes(all)[..s])
    ensures Sum(KidSizes([Kid(NOKEY, all[s].sub)] + all[s + 1..])) == RightBytes(false, KidSizes(all), s)
  {
    assert KidSizes(all[..s]) == KidSizes(all)[..s];
    assert KidSizes(all[s + 1..]) == KidSizes(all)[s + 1..];
    KidSizesConcat([Kid(NOKEY, all[s].sub)], all[s + 1..]);
    KidSizesOne(Kid(NOKEY, all[s].sub));
  }

  /** The pages made by a cut that fits are well-shaped. */
  lemma CutBranchOk(psize: nat, all: seq<Kid>, s: nat, d: nat)
    requires PageSize(psize) && d > 0 && 2 <= s <= |all| - 2 && all[0].key.size == 0 && KidsOk(psize, all, d)
    ensures OutcomeOk(psize, CutBranch(psize, all, s), d)
    ensures CutBranch(psize, all, s).Full? <==> !Halves(PMax(psize), false, KidSizes(all), s)
  {
    var l, r := all[..s], [Kid(NOKEY, all[s].sub)] + all[s + 1..];
    CutSizes(all, s);
    assert all[s] in all;
    assert forall x :: x in l ==> x in all;
    assert forall x :: x in r ==> x in all || x == Kid(NOKEY, all[s].sub);
    assert KidsOk(psize, l, d) && KidsOk(psize, r, d);
    assert NumKeys(Branch(l)) >= 2 && NumKeys(Branch(r)) >= 2;
  }

  lemma WithKidsOk(psize: nat, kids: seq<Kid>, i: nat, kid: Kid, d: nat)
    requires PageSize(psize) && d > 0 && i <= |kids| && KidsOk(psize, kids, d)
    requires kid.key.size <= MAXKEY && Shape(psize, kid.sub, d - 1)
    ensures KidsOk(psize, With(kids, i, kid), d)
  {
    assert forall x :: x in With(kids, i, kid) ==> x in kids || x == kid;
  }

  lemma SplitBranchOk(psize: nat, kids: seq<Kid>, i: nat, kid: Kid, d: nat)
    requires PageSize(psize) && d > 0 && 0 < i <= |kids| && BranchOk(psize, kids, d)
    requires kid.key.size <= MAXKEY && Shape(psize, kid.sub, d - 1)
    requires Sum(KidSizes(kids)) + KidSize(kid.key) > PMax(psize)
    ensures OutcomeOk(psize, SplitBranch(psize, kids, i, kid), d)
    ensures |kids| >= 2
    ensures SplitBranch(psize, kids, i, kid).Full? <==> !SplitFits(PMax(psize), false, KidSizes(kids), i, KidSize(kid.key))
  {
    hide SplitIndex, Halves, SplitFits, OutcomeOk;
    BranchMustSplit(psize, kids, kid);
    SplitBound(PMax(psize), false, KidSizes(kids), i, KidSize(kid.key));
    KidSizesWith(kids, i, kid);
    BranchHalves(psize, KidSizes(kids), i, KidSize(kid.key));
    WithKidsOk(psize, kids, i, kid, d);
    CutBranchOk(psize, With(kids, i, kid), SplitIndex(PMax(psize), false, KidSizes(kids), i, KidSize(kid.key)), d);
  }

  lemma AddKidOk(psize: nat, kids: seq<Kid>, i: nat, kid: Kid, d: nat)
    requires PageSize(psize) && d > 0 && 0 < i <= |kids| && BranchOk(psize, kids, d)
    requires kid.key.size <= MAXKEY && Shape(psize, kid.sub, d - 1)
    ensures OutcomeOk(psize, AddKid(psize, kids, i, kid), d)
    ensures AddKid(psize, kids, i, kid).Full? <==> Stuck(psize, false, KidSizes(kids), i, KidSize(kid.key))
  {
    if Sum(KidSizes(kids)) + KidSize(kid.key) <= PMax(psize) {
      KidSizesWith(kids, i, kid);
      WithKidsOk(psize, kids, i, kid, d);
      assert NumKeys(Branch(With(kids, i, kid))) >= 2;
      assert BranchOk(psize, With(kids, i, kid), d);
    } else {
      SplitBranchOk(psize, kids, i, kid, d);
    }
  }

  /** Replacing a subtree by a well-shaped one. */
  lemma SetSubOk(psize: nat, kids: seq<Kid>, i: nat, t: Tree, d: nat)
    requires PageSize(psize) && d > 0 && i < |kids| && BranchOk(psize, kids, d) && Shape(psize, t, d - 1)
    ensures BranchOk(psize, kids[i := Kid(kids[i].key, t)], d)
  {
    var after := kids[i := Kid(kids[i].key, t)];
    KidSizesSameKeys(kids, after);
    forall x | x in after ensures x.key.size <= MAXKEY && Shape(psize, x.sub, d - 1) {
      var j :| 0 <= j < |after| && after[j] == x;
      assert kids[j] in kids;
    }
  }

  lemma AbsorbOk(psize: nat, kids: seq<Kid>, i: nat, u: Outcome, d: nat)
    requires PageSize(psize) && d > 0 && i < |kids| && |kids| >= 2 && BranchOk(psize, kids, d)
    requires OutcomeOk(psize, u, d - 1)
    ensures OutcomeOk(psize, Absorb(psize, kids, i, u), d)
    ensures Absorb(psize, kids, i, u).Full? <==> u.Full? || SeparatorStuck(psize, kids, i, u)
  {
    match u
    case One(t) => SetSubOk(psize, kids, i, t, d);
    case Two(l, sep, r) =>
      SetSubOk(psize, kids, i, l, d);
      KidSizesSameKeys(kids, kids[i := Kid(kids[i].key, l)]);
      AddKidOk(psize, kids[i := Kid(kids[i].key, l)], i + 1, Kid(sep, r), d);
    case Full =>
  }

  lemma WeakBranch(psize: nat, t: Tree, d: nat)
    requires PageSize(psize) && Weak(psize, t, d) && t.Branch?
    ensures d > 0 && t.kids != [] && t.kids[0].key.size == 0 && KidsOk(psize, t.kids, d)
    ensures Sum(KidSizes(t.kids)) <= PMax(psize)
  {
    assert BranchOk(psize, t.kids, d);
  }

  lemma BranchShape(psize: nat, kids: seq<Kid>, d: nat)
    requires PageSize(psize) && d > 0 && KidsOk(psize, kids, d) && Sum(KidSizes(kids)) <= PMax(psize)
    requires kids != [] && kids[0].key.size == 0
    ensures BranchOk(psize, kids, d) && Weak(psize, Branch(kids), d)
    ensures |kids| >= 2 ==> Shape(psize, Branch(kids), d)
  {
  }

  lemma JoinKids(psize: nat, a: seq<Kid>, b: seq<Kid>, d: nat)
    requires PageSize(psize) && KidsOk(psize, a, d) && KidsOk(psize, b, d)
    ensures KidsOk(psize, a + b, d)
    ensures Sum(KidSizes(a + b)) == Sum(KidSizes(a)) + Sum(KidSizes(b))
  {
    KidSizesConcat(a, b);
    assert forall x :: x in a + b ==> x in a || x in b;
  }

  lemma KidShape(psize: nat, kids: seq<Kid>, i: nat, d: nat)
    requires PageSize(psize) && KidsOk(psize, kids, d) && i < |kids|
    ensures Shape(psize, kids[i].sub, d - 1) && kids[i].key.size <= MAXKEY
  {
    assert kids[i] in kids;
  }

  lemma {:induction false} PutAtOk(psize: nat, t: Tree, key: Key, val: Val, reuse: bool, d: nat)
    requires PageSize(psize) && Shape(psize, t, d) && key.size <= MAXKEY
    ensures OutcomeOk(psize, PutAt(psize, t, key, val, reuse), d)
    ensures PutAt(psize, t, key, val, reuse).Full? <==> PutStuck(psize, t, key, val, reuse)
    decreases d
  {
    match t
    case Leaf(nodes) => PutLeafOk(psize, nodes, key, val, reuse);
    case Branch(kids) =>
      var i := ChildIndex(kids, key.rank);
      WeakBranch(psize, t, d);
      KidShape(psize, kids, i, d);
      PutAtOk(psize, kids[i].sub, key, val, reuse, d - 1);
      AbsorbOk(psize, kids, i, PutAt(psize, kids[i].sub, key, val, reuse), d);
  }

  // ---------------------------------------------------------------- delete

  ghost predicate ShrunkOk(psize: nat, r: Shrunk, d: nat)
    requires PageSize(psize)
  {
    match r
    case Missing => true
    case Shrunk(One(t), true) => Weak(psize, t, d)
    case Shrunk(u, check) => !check && OutcomeOk(psize, u, d)
  }

  predicate Refused(r: Shrunk) { r.Shrunk? && r.u.Full? }

  lemma {:induction false} LowestOk(psize: nat, t: Tree, d: nat)
    requires PageSize(psize) && Shape(psize, t, d)
    ensures Lowest(t).Some? && Lowest(t).value.size <= MAXKEY
    decreases d
  {
    match t
    case Leaf(nodes) => assert nodes[0] in nodes;
    case Branch(kids) =>
      WeakBranch(psize, t, d);
      KidShape(psize, kids, 0, d);
      LowestOk(psize, kids[0].sub, d - 1);
  }

  /** Writing out the lowest key costs at most one key. */
  lemma ExplicitOk(psize: nat, kids: seq<Kid>, d: nat)
    requires PageSize(psize) && kids != [] && kids[0].key.size == 0 && KidsOk(psize, kids, d)
    ensures |Explicit(kids)| == |kids| && KidsOk(psize, Explicit(kids), d)
    ensures Sum(KidSizes(Explicit(kids))) <= Sum(KidSizes(kids)) + 512
  {
    KidShape(psize, kids, 0, d);
    LowestOk(psize, kids[0].sub, d - 1);
    var e := Explicit(kids);
    assert forall x :: x in e ==> x == e[0] || x in kids;
    assert e[1..] == kids[1..] && e == [e[0]] + e[1..] && kids == [kids[0]] + kids[1..];
    KidSizesConcat([e[0]], e[1..]);
    KidSizesConcat([kids[0]], kids[1..]);
    KidSizesOne(e[0]);
    KidSizesOne(kids[0]);
    KidSizeBound(e[0].key);
  }

  lemma ImplicitSizes(kids: seq<Kid>)
    requires kids != []
    ensures Sum(KidSizes(Implicit(kids))) <= Sum(KidSizes(kids))
  {
    var first, e, rest := [kids[0]], [Kid(NOKEY, kids[0].sub)], kids[1..];
    assert kids == first + rest;
    KidSizesConcat(e, rest);
    KidSizesConcat(first, rest);
    KidSizesOne(e[0]);
    KidSizesOne(first[0]);
  }

  lemma ImplicitOk(psize: nat, kids: seq<Kid>, d: nat)
    requires PageSize(psize) && kids != [] && KidsOk(psize, kids, d)
    ensures var m := Implicit(kids);
      |m| == |kids| && m[0].key.size == 0 && KidsOk(psize, m, d) && Sum(KidSizes(m)) <= Sum(KidSizes(kids))
  {
    KidShape(psize, kids, 0, d);
    ImplicitSizes(kids);
    var e := Implicit(kids);
    assert forall x :: x in e ==> x == e[0] || x in kids;
  }

  lemma DivBelow(a: nat, b: nat, c: nat)
    requires b > 0 && a / b < c
    ensures a < c * b
  {
    assert a == b * (a / b) + a % b;
    assert b * (a / b) <= b * (c - 1);
  }

  /** A leaf that mdb_rebalance must act on is less than a quarter full. */
  lemma SparseLeaf(psize: nat, t: Tree)
    requires PageSize(psize) && t.Leaf? && !FullEnough(psize, t)
    ensures 4 * Used(t) < PMax(psize)
  {
    if Fill(psize, t) < 250 { DivBelow(1000 * Used(t), PMax(psize), 250); }
  }

  /** A leaf that may not give a node away is at most half full. */
  lemma PoorLeaf(psize: nat, t: Tree)
    requires PageSize(psize) && t.Leaf? && LeafOk(psize, t.nodes) && !CanGive(psize, t)
    ensures 2 * Used(t) <= PMax(psize)
  {
    if Fill(psize, t) < 250 {
      DivBelow(1000 * Used(t), PMax(psize), 250);
    } else if |t.nodes| == 1 {
      assert t.nodes == [t.nodes[0]];
      NodeSizeBound(psize, t.nodes[0]);
      LeafSizesOne(t.nodes[0]);
    }
  }

  /** A branch that must be rebalanced, or may not give a node away, is nearly empty. */
  lemma SparseBranch(psize: nat, t: Tree, d: nat)
    requires PageSize(psize) && t.Branch? && Weak(psize, t, d)
    ensures !FullEnough(psize, t) ==> Used(t) <= 10 + PMax(psize) / 1000
    ensures !CanGive(psize, t) ==> Used(t) <= 532 + PMax(psize) / 1000
  {
    var kids := t.kids;
    WeakBranch(psize, t, d);
    if Fill(psize, t) < 1 {
      DivBelow(1000 * Used(t), PMax(psize), 1);
    } else if |kids| == 1 {
      assert kids == [kids[0]];
      KidSizesOne(kids[0]);
    } else if |kids| == 2 {
      assert kids == [kids[0]] + [kids[1]] && kids[1] in kids;
      KidSizesConcat([kids[0]], [kids[1]]);
      KidSizesOne(kids[0]);
      KidSizesOne(kids[1]);
      KidSizeBound(kids[1].key);
    }
  }

  lemma MergeLeaves(psize: nat, dst: Tree, src: Tree)
    requires PageSize(psize) && Weak(psize, dst, 0) && Weak(psize, src, 0)
    requires NumKeys(dst) + NumKeys(src) >= 1
    requires (!FullEnough(psize, dst) && !CanGive(psize, src)) || (!CanGive(psize, dst) && !FullEnough(psize, src))
    ensures Shape(psize, Merge(dst, src), 0)
  {
    LeafSizesConcat(dst.nodes, src.nodes);
    if !FullEnough(psize, dst) && !CanGive(psize, src) {
      SparseLeaf(psize, dst);
      PoorLeaf(psize, src);
    } else {
      SparseLeaf(psize, src);
      PoorLeaf(psize, dst);
    }
    assert forall x :: x in dst.nodes + src.nodes ==> x in dst.nodes || x in src.nodes;
  }

  lemma MergeBranches(psize: nat, dst: Tree, src: Tree, d: nat)
    requires PageSize(psize) && d > 0 && Weak(psize, dst, d) && Weak(psize, src, d)
    requires (!FullEnough(psize, dst) && !CanGive(psize, src)) || (!CanGive(psize, dst) && !FullEnough(psize, src))
    ensures Shape(psize, Merge(dst, src), d)
  {
    SparseBranch(psize, dst, d);
    SparseBranch(psize, src, d);
    WeakBranch(psize, dst, d);
    WeakBranch(psize, src, d);
    ExplicitOk(psize, src.kids, d);
    JoinKids(psize, dst.kids, Explicit(src.kids), d);
    BranchShape(psize, dst.kids + Explicit(src.kids), d);
  }

  /** Whenever mdb_rebalance merges rather than moves, all nodes of the source page, with the
      lowest key written out, fit in the destination page. */
  lemma MergeFits(psize: nat, dst: Tree, src: Tree, d: nat)
    requires PageSize(psize) && Weak(psize, dst, d) && Weak(psize, src, d)
    requires NumKeys(dst) + NumKeys(src) >= 1
    requires (!FullEnough(psize, dst) && !CanGive(psize, src)) || (!CanGive(psize, dst) && !FullEnough(psize, src))
    ensures Shape(psize, Merge(dst, src), d)
  {
    if d == 0 { MergeLeaves(psize, dst, src); } else { MergeBranches(psize, dst, src, d); }
  }

  lemma PartLeaf(psize: nat, all: seq<Node>, a: seq<Node>, b: seq<Node>)
    requires PageSize(psize) && LeafOk(psize, all) && all == a + b
    ensures LeafOk(psize, a) && LeafOk(psize, b)
  {
    LeafSizesConcat(a, b);
    assert forall x :: x in a || x in b ==> x in all;
  }

  lemma MoveRightLeaf(psize: nat, left: Tree, right: Tree)
    requires PageSize(psize) && Shape(psize, left, 0) && Weak(psize, right, 0)
    requires CanGive(psize, left) && !FullEnough(psize, right)
    ensures var (l, sep, r) := MoveRight(left, right);
      Shape(psize, l, 0) && Shape(psize, r, 0) && sep.size <= MAXKEY
  {
    var m := |left.nodes| - 1;
    var n := left.nodes[m];
    assert n in left.nodes;
    assert left.nodes == left.nodes[..m] + [n];
    PartLeaf(psize, left.nodes, left.nodes[..m], [n]);
    PrependLeaf(psize, right, n);
  }

  lemma PrependLeaf(psize: nat, right: Tree, n: Node)
    requires PageSize(psize) && Weak(psize, right, 0) && !FullEnough(psize, right) && NodeOk(psize, n)
    ensures LeafOk(psize, [n] + right.nodes)
  {
    SparseLeaf(psize, right);
    NodeSizeBound(psize, n);
    LeafSizesOne(n);
    LeafSizesConcat([n], right.nodes);
    assert forall x :: x in [n] + right.nodes ==> x == n || x in right.nodes;
  }

  lemma MoveLeftLeaf(psize: nat, left: Tree, right: Tree)
    requires PageSize(psize) && Weak(psize, left, 0) && Shape(psize, right, 0)
    requires !FullEnough(psize, left) && CanGive(psize, right)
    ensures var (l, sep, r) := MoveLeft(left, right);
      Shape(psize, l, 0) && Shape(psize, r, 0) && sep.size <= MAXKEY
  {
    var n := right.nodes[0];
    assert n in right.nodes && right.nodes[1] in right.nodes;
    assert right.nodes[..1] == [n] && right.nodes == [n] + right.nodes[1..];
    PartLeaf(psize, right.nodes, [n], right.nodes[1..]);
    AppendLeaf(psize, left, n);
  }

  /** A poorly filled leaf has room for one more node. */
  lemma AppendLeaf(psize: nat, left: Tree, n: Node)
    requires PageSize(psize) && Weak(psize, left, 0) && !FullEnough(psize, left) && NodeOk(psize, n)
    ensures LeafOk(psize, left.nodes + [n])
  {
    SparseLeaf(psize, left);
    NodeSizeBound(psize, n);
    LeafSizesOne(n);
    LeafSizesConcat(left.nodes, [n]);
    assert forall x :: x in left.nodes + [n] ==> x == n || x in left.nodes;
  }

  lemma PartKids(psize: nat, all: seq<Kid>, a: seq<Kid>, b: seq<Kid>, d: nat)
    requires PageSize(psize) && d > 0 && KidsOk(psize, all, d) && all == a + b
    ensures KidsOk(psize, a, d) && KidsOk(psize, b, d)
    ensures Sum(KidSizes(all)) == Sum(KidSizes(a)) + Sum(KidSizes(b))
  {
    KidSizesConcat(a, b);
    assert forall x :: x in a || x in b ==> x in all;
  }

  lemma MoveRightBranch(psize: nat, left: Tree, right: Tree, d: nat)
    requires PageSize(psize) && d > 0 && Shape(psize, left, d) && Weak(psize, right, d)
    requires CanGive(psize, left) && !FullEnough(psize, right)
    ensures var (l, sep, r) := MoveRight(left, right);
      Shape(psize, l, d) && Shape(psize, r, d) && sep.size <= MAXKEY
  {
    WeakBranch(psize, left, d);
    WeakBranch(psize, right, d);
    var m := |left.kids| - 1;
    var k := left.kids[m];
    assert left.kids == left.kids[..m] + [k];
    PartKids(psize, left.kids, left.kids[..m], [k], d);
    BranchShape(psize, left.kids[..m], d);
    SparseBranch(psize, right, d);
    ExplicitOk(psize, right.kids, d);
    JoinKids(psize, [k], Explicit(right.kids), d);
    GiveOne(psize, k, Explicit(right.kids), d);
  }

  /** A nearly empty page has room for one more node in front. */
  lemma GiveOne(psize: nat, k: Kid, e: seq<Kid>, d: nat)
    requires PageSize(psize) && d > 0 && e != [] && KidsOk(psize, [k] + e, d)
    requires Sum(KidSizes(e)) <= 522 + PMax(psize) / 1000
    ensures Shape(psize, Branch(Implicit([k] + e)), d) && k.key.size <= MAXKEY
  {
    KidShape(psize, [k] + e, 0, d);
    KidSizesConcat([k], e);
    KidSizesOne(k);
    KidSizeBound(k.key);
    ImplicitOk(psize, [k] + e, d);
    BranchShape(psize, Implicit([k] + e), d);
  }

  lemma MoveLeftBranch(psize: nat, left: Tree, right: Tree, d: nat)
    requires PageSize(psize) && d > 0 && Weak(psize, left, d) && Shape(psize, right, d)
    requires !FullEnough(psize, left) && CanGive(psize, right)
    ensures var (l, sep, r) := MoveLeft(left, right);
      Shape(psize, l, d) && Shape(psize, r, d) && sep.size <= MAXKEY
  {
    WeakBranch(psize, left, d);
    WeakBranch(psize, right, d);
    ExplicitOk(psize, right.kids, d);
    var e := Explicit(right.kids);
    assert e[..1] == [e[0]] && e == [e[0]] + e[1..];
    PartKids(psize, e, [e[0]], e[1..], d);
    KidShape(psize, right.kids, 1, d);
    AppendKid(psize, left, e[0], d);
    DropFirst(psize, right.kids, d);
  }

  lemma AppendKid(psize: nat, left: Tree, k: Kid, d: nat)
    requires PageSize(psize) && d > 0 && Weak(psize, left, d) && !FullEnough(psize, left) && KidsOk(psize, [k], d)
    ensures left.Branch? && Shape(psize, Branch(left.kids + [k]), d)
  {
    WeakBranch(psize, left, d);
    KidShape(psize, [k], 0, d);
    SparseBranch(psize, left, d);
    KidSizesOne(k);
    KidSizeBound(k.key);
    JoinKids(psize, left.kids, [k], d);
    BranchShape(psize, left.kids + [k], d);
  }

  lemma DropFirst(psize: nat, kids: seq<Kid>, d: nat)
    requires PageSize(psize) && d > 0 && |kids| > 2 && BranchOk(psize, kids, d)
    ensures Shape(psize, Branch(Implicit(kids[1..])), d)
  {
    assert kids == [kids[0]] + kids[1..];
    PartKids(psize, kids, [kids[0]], kids[1..], d);
    ImplicitOk(psize, kids[1..], d);
    BranchShape(psize, Implicit(kids[1..]), d);
  }

  lemma WithoutKidOk(psize: nat, kids: seq<Kid>, i: nat, d: nat)
    requires PageSize(psize) && d > 0 && 0 < i < |kids| && BranchOk(psize, kids, d)
    ensures var rest := kids[..i] + kids[i + 1..];
      BranchOk(psize, rest, d) && Sum(KidSizes(kids)) == Sum(KidSizes(rest)) + KidSize(kids[i].key)
  {
    hide KidSizes, KidSize, Sum, Shape;
    var rest := kids[..i] + kids[i + 1..];
    assert kids == With(rest, i, kids[i]);
    KidSizesWith(rest, i, kids[i]);
    assert forall x :: x in rest ==> x in kids;
    BranchShape(psize, rest, d);
  }

  lemma UpdateInPlaceOk(psize: nat, kids: seq<Kid>, i: nat, kid: Kid, d: nat)
    requires PageSize(psize) && d > 0 && 0 < i < |kids| && KidsOk(psize, kids, d) && kids[0].key.size == 0
    requires kid.key.size <= MAXKEY && Shape(psize, kid.sub, d - 1)
    requires Sum(KidSizes(kids[..i] + kids[i + 1..])) + KidSize(kid.key) <= PMax(psize)
    ensures Shape(psize, Branch(kids[i := kid]), d)
  {
    var rest := kids[..i] + kids[i + 1..];
    assert kids[i := kid] == With(rest, i, kid);
    KidSizesWith(rest, i, kid);
    assert forall x :: x in kids[i := kid] ==> x in kids || x == kid;
    assert KidsOk(psize, kids[i := kid], d);
    BranchShape(psize, kids[i := kid], d);
  }

  /** The room test of mdb_update_key asks whether the page fits with the new key in it. */
  lemma UpdateTest(psize: nat, kids: seq<Kid>, i: nat, key: Key, restSum: nat)
    requires PageSize(psize) && 0 < i < |kids| && Sum(KidSizes(kids)) <= PMax(psize)
    requires Sum(KidSizes(kids)) == restSum + KidSize(kids[i].key)
    ensures var delta := Even(key.size) - Even(kids[i].key.size);
      (delta > 0 && PMax(psize) - Sum(KidSizes(kids)) < delta) <==> restSum + KidSize(key) > PMax(psize)
  {
    assert KidSize(key) == Even(key.size) + 10 && KidSize(kids[i].key) == Even(kids[i].key.size) + 10;
  }

  lemma UpdateKeyOk(psize: nat, kids: seq<Kid>, i: nat, key: Key, d: nat)
    requires PageSize(psize) && d > 0 && 0 < i < |kids| && BranchOk(psize, kids, d) && key.size <= MAXKEY
    ensures OutcomeOk(psize, UpdateKey(psize, kids, i, key), d)
    ensures UpdateKey(psize, kids, i, key).Full? <==> NewKeyStuck(psize, kids, i, key)
  {
    var rest, kid := kids[..i] + kids[i + 1..], Kid(key, kids[i].sub);
    KidShape(psize, kids, i, d);
    WithoutKidOk(psize, kids, i, d);
    UpdateTest(psize, kids, i, key, Sum(KidSizes(rest)));
    if Sum(KidSizes(rest)) + KidSize(key) > PMax(psize) {
      SplitBranchOk(psize, rest, i, kid, d);
    } else {
      UpdateInPlaceOk(psize, kids, i, kid, d);
    }
  }

  lemma MoveFits(psize: nat, left: Tree, right: Tree, d: nat)
    requires PageSize(psize)
    ensures Shape(psize, left, d) && Weak(psize, right, d) && CanGive(psize, left) && !FullEnough(psize, right) ==>
      var (l, sep, r) := MoveRight(left, right); Shape(psize, l, d) && Shape(psize, r, d) && sep.size <= MAXKEY
    ensures Weak(psize, left, d) && Shape(psize, right, d) && !FullEnough(psize, left) && CanGive(psize, right) ==>
      var (l, sep, r) := MoveLeft(left, right); Shape(psize, l, d) && Shape(psize, r, d) && sep.size <= MAXKEY
  {
    if Shape(psize, left, d) && Weak(psize, right, d) && CanGive(psize, left) && !FullEnough(psize, right) {
      if d == 0 { MoveRightLeaf(psize, left, right); } else { MoveRightBranch(psize, left, right, d); }
    }
    if Weak(psize, left, d) && Shape(psize, right, d) && !FullEnough(psize, left) && CanGive(psize, right) {
      if d == 0 { MoveLeftLeaf(psize, left, right); } else { MoveLeftBranch(psize, left, right, d); }
    }
  }

  /** A parent whose child i may be one node short. */
  ghost predicate OneWeak(psize: nat, kids: seq<Kid>, i: nat, d: nat)
    requires PageSize(psize)
  {
    && d > 0 && i < |kids| && |kids| >= 2 && kids[0].key.size == 0 && Sum(KidSizes(kids)) <= PMax(psize)
    && Weak(psize, kids[i].sub, d - 1)
    && (forall j :: 0 <= j < |kids| ==> kids[j].key.size <= MAXKEY)
    && (forall j :: 0 <= j < |kids| && j != i ==> Shape(psize, kids[j].sub, d - 1))
  }

  /** Two neighbours replaced by the same two after a node move. */
  lemma ReplacePair(psize: nat, kids: seq<Kid>, i: nat, j: nat, l: Tree, r: Tree, d: nat)
    requires PageSize(psize) && (i == j || i == j + 1) && j + 1 < |kids| && OneWeak(psize, kids, i, d)
    requires Shape(psize, l, d - 1) && Shape(psize, r, d - 1)
    ensures BranchOk(psize, kids[j := Kid(kids[j].key, l)][j + 1 := Kid(kids[j + 1].key, r)], d)
  {
    var after := kids[j := Kid(kids[j].key, l)][j + 1 := Kid(kids[j + 1].key, r)];
    KidSizesSameKeys(kids, after);
    forall x | x in after ensures x.key.size <= MAXKEY && Shape(psize, x.sub, d - 1) {
      var m :| 0 <= m < |after| && after[m] == x;
    }
    BranchShape(psize, after, d);
  }

  /** Two neighbours replaced by their merge. */
  lemma ReplaceMerged(psize: nat, kids: seq<Kid>, i: nat, j: nat, t: Tree, d: nat)
    requires PageSize(psize) && (i == j || i == j + 1) && j + 1 < |kids| && OneWeak(psize, kids, i, d)
    requires Shape(psize, t, d - 1)
    ensures Weak(psize, Branch(kids[..j] + [Kid(kids[j].key, t)] + kids[j + 2..]), d)
  {
    hide Shape, KidSizes, Sum;
    var after := kids[..j] + [Kid(kids[j].key, t)] + kids[j + 2..];
    forall x | x in after ensures x.key.size <= MAXKEY && Shape(psize, x.sub, d - 1) {
      var m :| 0 <= m < |after| && after[m] == x;
      assert m < j ==> x == kids[m];
      assert m > j ==> x == kids[m + 1];
    }
    MergedSizes(kids, j, t);
    BranchShape(psize, after, d);
  }

  lemma MergedSizes(kids: seq<Kid>, j: nat, t: Tree)
    requires j + 1 < |kids|
    ensures Sum(KidSizes(kids[..j] + [Kid(kids[j].key, t)] + kids[j + 2..])) <= Sum(KidSizes(kids))
  {
    hide KidSizes, Sum;
    var a, b, k := kids[..j], kids[j + 2..], Kid(kids[j].key, t);
    assert kids == a + [kids[j]] + [kids[j + 1]] + b;
    KidSizesConcat(a + [kids[j]] + [kids[j + 1]], b);
    KidSizesConcat(a + [kids[j]], [kids[j + 1]]);
    KidSizesConcat(a + [k], b);
    KidSizesSameKeys(a + [k], a + [kids[j]]);
  }

  lemma NewKeySameKeys(psize: nat, a: seq<Kid>, b: seq<Kid>, i: nat, key: Key)
    requires PageSize(psize) && 0 < i < |a| == |b| && forall j :: 0 <= j < |a| ==> a[j].key == b[j].key
    ensures NewKeyStuck(psize, a, i, key) <==> NewKeyStuck(psize, b, i, key)
  {
    KidSizesSameKeys(a[..i] + a[i + 1..], b[..i] + b[i + 1..]);
  }

  lemma RebalanceFullOk(psize: nat, kids: seq<Kid>, i: nat, d: nat)
    requires PageSize(psize) && OneWeak(psize, kids, i, d) && FullEnough(psize, kids[i].sub)
    ensures ShrunkOk(psize, Rebalance(psize, kids, i), d) && !Rebalance(psize, kids, i).u.Full?
  {
    var j := if i == 0 then 0 else i - 1;
    ReplacePair(psize, kids, i, j, kids[j].sub, kids[j + 1].sub, d);
    SameKids(kids, j);
  }

  lemma RebalanceLeftmostOk(psize: nat, kids: seq<Kid>, d: nat)
    requires PageSize(psize) && OneWeak(psize, kids, 0, d) && !FullEnough(psize, kids[0].sub)
    ensures ShrunkOk(psize, Rebalance(psize, kids, 0), d)
    ensures Rebalance(psize, kids, 0).u.Full? <==> RebalanceStuck(psize, kids, 0)
  {
    hide BranchOk, LeafOk, Merge, UpdateKey, MoveLeft, MoveRight, NewKeyStuck;
    var t, right := kids[0].sub, kids[1].sub;
    if CanGive(psize, right) {
      var (l, sep, r) := MoveLeft(t, right);
      MoveFits(psize, t, right, d - 1);
      ReplacePair(psize, kids, 0, 0, l, r, d);
      UpdateKeyOk(psize, kids[0 := Kid(kids[0].key, l)][1 := Kid(kids[1].key, r)], 1, sep, d);
      NewKeySameKeys(psize, kids, kids[0 := Kid(kids[0].key, l)][1 := Kid(kids[1].key, r)], 1, sep);
    } else {
      MergeFits(psize, t, right, d - 1);
      ReplaceMerged(psize, kids, 0, 0, Merge(t, right), d);
      assert kids[..0] + [Kid(kids[0].key, Merge(t, right))] == [Kid(kids[0].key, Merge(t, right))];
    }
  }

  lemma RebalanceRestOk(psize: nat, kids: seq<Kid>, i: nat, d: nat)
    requires PageSize(psize) && OneWeak(psize, kids, i, d) && i > 0 && !FullEnough(psize, kids[i].sub)
    ensures ShrunkOk(psize, Rebalance(psize, kids, i), d)
    ensures Rebalance(psize, kids, i).u.Full? <==> RebalanceStuck(psize, kids, i)
  {
    hide BranchOk, LeafOk, Merge, UpdateKey, MoveLeft, MoveRight, NewKeyStuck;
    var left, t := kids[i - 1].sub, kids[i].sub;
    if CanGive(psize, left) {
      var (l, sep, r) := MoveRight(left, t);
      MoveFits(psize, left, t, d - 1);
      ReplacePair(psize, kids, i, i - 1, l, r, d);
      UpdateKeyOk(psize, kids[i - 1 := Kid(kids[i - 1].key, l)][i := Kid(kids[i].key, r)], i, sep, d);
      NewKeySameKeys(psize, kids, kids[i - 1 := Kid(kids[i - 1].key, l)][i := Kid(kids[i].key, r)], i, sep);
    } else {
      MergeFits(psize, left, t, d - 1);
      ReplaceMerged(psize, kids, i, i - 1, Merge(left, t), d);
    }
  }

  lemma RebalanceOk(psize: nat, kids: seq<Kid>, i: nat, d: nat)
    requires PageSize(psize) && OneWeak(psize, kids, i, d)
    ensures ShrunkOk(psize, Rebalance(psize, kids, i), d)
    ensures Rebalance(psize, kids, i).u.Full? <==> RebalanceStuck(psize, kids, i)
  {
    if FullEnough(psize, kids[i].sub) {
      RebalanceFullOk(psize, kids, i, d);
    } else if i == 0 {
      RebalanceLeftmostOk(psize, kids, d);
    } else {
      RebalanceRestOk(psize, kids, i, d);
    }
  }

  lemma SameKids(kids: seq<Kid>, j: nat)
    requires j + 1 < |kids|
    ensures kids[j := Kid(kids[j].key, kids[j].sub)][j + 1 := Kid(kids[j + 1].key, kids[j + 1].sub)] == kids
  {
  }

  lemma WeakAfter(psize: nat, kids: seq<Kid>, i: nat, t: Tree, d: nat)
    requires PageSize(psize) && d > 0 && i < |kids| && |kids| >= 2 && BranchOk(psize, kids, d)
    requires Weak(psize, t, d - 1)
    ensures OneWeak(psize, kids[i := Kid(kids[i].key, t)], i, d)
  {
    var after := kids[i := Kid(kids[i].key, t)];
    KidSizesSameKeys(kids, after);
    forall j | 0 <= j < |kids| ensures after[j].key.size <= MAXKEY && (j != i ==> Shape(psize, after[j].sub, d - 1)) {
      KidShape(psize, kids, j, d);
    }
  }

  lemma AbsorbShrunkOk(psize: nat, kids: seq<Kid>, i: nat, r: Shrunk, d: nat)
    requires PageSize(psize) && d > 0 && i < |kids| && |kids| >= 2 && BranchOk(psize, kids, d)
    requires ShrunkOk(psize, r, d - 1)
    ensures ShrunkOk(psize, AbsorbShrunk(psize, kids, i, r), d)
    ensures Refused(AbsorbShrunk(psize, kids, i, r)) <==> Refused(r) || ShrinkStuck(psize, kids, i, r)
  {
    match r
    case Missing =>
    case Shrunk(One(t), true) =>
      WeakAfter(psize, kids, i, t, d);
      RebalanceOk(psize, kids[i := Kid(kids[i].key, t)], i, d);
    case Shrunk(u, _) => AbsorbOk(psize, kids, i, u, d);
  }

  lemma {:induction false} DelAtOk(psize: nat, t: Tree, k: real, d: nat)
    requires PageSize(psize) && Shape(psize, t, d)
    ensures ShrunkOk(psize, DelAt(psize, t, k), d)
    ensures Refused(DelAt(psize, t, k)) <==> DelStuck(psize, t, k)
    decreases d
  {
    match t
    case Leaf(nodes) => if Exact(nodes, k) { WithoutNodeOk(psize, nodes, LeafIndex(nodes, k)); }
    case Branch(kids) =>
      var i := ChildIndex(kids, k);
      WeakBranch(psize, t, d);
      KidShape(psize, kids, i, d);
      DelAtOk(psize, kids[i].sub, k, d - 1);
      AbsorbShrunkOk(psize, kids, i, DelAt(psize, kids[i].sub, k), d);
  }

  // ---------------------------------------------------------------- whole databases

  /** A database is empty, or a tree of uniform depth whose pages are well filled and fit. */
  ghost predicate DbOk(psize: nat, db: Db)
    requires PageSize(psize)
  {
    db.Some? ==> exists d :: Shape(psize, db.value, d)
  }

  lemma RootOfOk(psize: nat, u: Outcome, d: nat)
    requires PageSize(psize) && OutcomeOk(psize, u, d)
    ensures RootOf(u).Ok? ==> DbOk(psize, RootOf(u).db)
  {
    match u
    case One(t) => assert Shape(psize, t, d);
    case Two(l, sep, r) =>
      var kids := [Kid(NOKEY, l), Kid(sep, r)];
      assert kids == [Kid(NOKEY, l)] + [Kid(sep, r)];
      KidSizesConcat([Kid(NOKEY, l)], [Kid(sep, r)]);
      KidSizesOne(Kid(NOKEY, l));
      KidSizesOne(Kid(sep, r));
      KidSizeBound(sep);
      assert KidsOk(psize, kids, d + 1);
      BranchShape(psize, kids, d + 1);
      assert Shape(psize, Branch(kids), d + 1);
    case Full =>
  }

  /** Put keeps the shape, growing a new root when the old one splits. */
  lemma PutKeepsShape(psize: nat, db: Db, key: Key, val: Val, reuse: bool)
    requires PageSize(psize) && DbOk(psize, db) && key.size <= MAXKEY
    ensures var r := Put(psize, db, key, val, reuse);
      && (r.PageFull? <==> db.Some? && PutStuck(psize, db.value, key, val, reuse))
      && (r.Ok? ==> DbOk(psize, r.db))
  {
    match db
    case None =>
      var n := MakeNode(psize, key, val);
      MakeNodeOk(psize, key, val);
      LeafSizesOne(n);
      NodeSizeBound(psize, n);
      assert Shape(psize, Leaf([n]), 0);
    case Some(t) =>
      var d :| Shape(psize, t, d);
      PutAtOk(psize, t, key, val, reuse, d);
      RootOfOk(psize, PutAt(psize, t, key, val, reuse), d);
  }

  lemma RebalanceRootOk(psize: nat, t: Tree, d: nat)
    requires PageSize(psize) && Weak(psize, t, d)
    ensures DbOk(psize, RebalanceRoot(psize, t))
  {
    if t.Branch? {
      WeakBranch(psize, t, d);
      KidShape(psize, t.kids, 0, d);
      assert |t.kids| == 1 ==> Shape(psize, t.kids[0].sub, d - 1);
    }
    assert NumKeys(t) >= MinKeys(t) ==> Shape(psize, t, d);
  }

  /** Delete keeps the shape, collapsing the root or emptying the database at the end. */
  lemma DelKeepsShape(psize: nat, db: Db, k: real)
    requires PageSize(psize) && DbOk(psize, db)
    ensures var r := Del(psize, db, k);
      && (r.Deleted? && r.r.PageFull? <==> db.Some? && DelStuck(psize, db.value, k))
      && (r.Deleted? && r.r.Ok? ==> DbOk(psize, r.r.db))
  {
    if db.Some? {
      var d :| Shape(psize, db.value, d);
      DelAtOk(psize, db.value, k, d);
      match DelAt(psize, db.value, k)
      case Missing =>
      case Shrunk(One(t), true) => RebalanceRootOk(psize, t, d);
      case Shrunk(u, _) => RootOfOk(psize, u, d);
    }
  }
}
