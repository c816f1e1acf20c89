/**
  The free space of a page in bytes is what the sizes of its nodes leave, so the bytes of a page
  and the sizes the tree reckons with agree on what fits.
 */
module PageRoom {
  import opened Limits
  import opened SplitPoint
  import opened SlottedPage
  import opened PageOps
  import BTree

  /** What each node takes of the page, its offset included. */
  function ByteSizes(nodes: seq<seq<byte>>): (s: seq<nat>)
    ensures |s| == |nodes|
  {
    seq(|nodes|, i requires 0 <= i < |nodes| => Even(|nodes[i]|) + INDX)
  }

  lemma NodeLength(leaf: bool, mem: seq<byte>, p: nat)
    requires Placed(leaf, mem, p, 0)
    ensures Even(|NodeAt(leaf, mem, p)|) == Size(leaf, mem, p)
  {
  }

  lemma ByteSizesSnoc(nodes: seq<seq<byte>>)
    requires nodes != []
    ensures var n := |nodes| - 1;
      Sum(ByteSizes(nodes)) == Sum(ByteSizes(Rest(nodes, n))) + Even(|nodes[n]|) + INDX
  {
    var n := |nodes| - 1;
    assert Rest(nodes, n) == nodes[..n];
    assert ByteSizes(nodes)[..n] == ByteSizes(nodes[..n]) && ByteSizes(nodes)[..n + 1] == ByteSizes(nodes);
    SumSnoc(ByteSizes(nodes), n);
  }

  /** Nodes that tile [upper, end of page) take just that much. */
  lemma {:induction false} TilingSize(leaf: bool, mem: seq<byte>, ptrs: seq<nat>, upper: nat)
    requires Layout(leaf, mem, ptrs, upper) && forall i :: 0 <= i < |ptrs| ==> Placed(leaf, mem, ptrs[i], 0)
    ensures Sum(ByteSizes(Nodes(leaf, mem, ptrs))) == |mem| - upper + INDX * |ptrs|
    decreases |ptrs|
  {
    hide Layout, Size, NodeAt, Used, Closed, Overwrite, Nodes, ShiftAll, Rest, ByteSizes;
    if ptrs == [] {
      NothingTiled(leaf, mem, upper);
    } else {
      var k := |ptrs| - 1;
      LayoutAt(leaf, mem, ptrs, upper, k);
      var q, sz := ptrs[k], Size(leaf, mem, ptrs[k]);
      var mem' := Overwrite(mem, upper + sz, mem[upper..q]);
      MovedUp(mem, mem', upper, q, sz);
      DelLayout(leaf, mem, mem', ptrs, upper, k);
      DelNodes(leaf, mem, mem', ptrs, upper, k);
      RestLength(ptrs, k, q, sz);
      TilingSize(leaf, mem', ShiftAll(Rest(ptrs, k), q, sz), upper + sz);
      NodesFacts(leaf, mem, ptrs, k);
      ByteSizesSnoc(Nodes(leaf, mem, ptrs));
      NodeLength(leaf, mem, q);
    }
  }

  lemma RestLength(ptrs: seq<nat>, k: nat, q: nat, sz: nat)
    requires k < |ptrs|
    ensures |ShiftAll(Rest(ptrs, k), q, sz)| == |ptrs| - 1
  {
  }

  lemma NothingTiled(leaf: bool, mem: seq<byte>, upper: nat)
    requires Layout(leaf, mem, [], upper)
    ensures upper == |mem| && Sum(ByteSizes(Nodes(leaf, mem, []))) == 0
  {
    NotCovered(leaf, mem, upper);
    SumEmpty(ByteSizes(Nodes(leaf, mem, [])));
  }

  lemma NotCovered(leaf: bool, mem: seq<byte>, o: nat)
    ensures !Covered(leaf, mem, [], o)
  {
  }

  /** SIZELEFT is the page without its header less the sizes of its nodes. */
  lemma SizeLeft(page: Page)
    requires page.Valid()
    ensures page.upper - page.lower == page.mem.Length - PAGEHDRSZ - Sum(ByteSizes(page.Contents()))
  {
    hide Layout, Nodes;
    var mem, ptrs := page.mem[..], page.ptrs[..page.NumKeys()];
    LayoutPlaced(page.leaf, mem, ptrs, page.upper);
    TilingSize(page.leaf, mem, ptrs, page.upper);
  }

  // ---------------------------------------------------------------- the tree's sizes

  /** The bytes of a leaf node are those of a node of the tree. */
  predicate IsLeafNode(n: BTree.Node, flags: nat, key: seq<byte>, body: seq<byte>) {
    |key| == n.key.size && (flags % 2 == F_BIGDATA <==> n.big) && Matches(true, n.val.size, flags, body)
  }

  /** mdb_leaf_size and mdb_node_add agree. */
  lemma LeafNodeSize(n: BTree.Node, flags: nat, key: seq<byte>, body: seq<byte>)
    requires IsLeafNode(n, flags, key, body)
    ensures Even(NODESIZE + |key| + |body|) + INDX == BTree.LeafSize(n)
  {
  }

  /** mdb_branch_size and mdb_node_add agree. */
  lemma BranchNodeSize(kid: BTree.Kid, word: nat, flags: nat, key: seq<byte>, body: seq<byte>)
    requires |key| == kid.key.size && Matches(false, word, flags, body)
    ensures Even(NODESIZE + |key| + |body|) + INDX == BTree.KidSize(kid.key)
  {
  }

  /** On a leaf page whose nodes have the sizes of the tree's page, mdb_node_add finds room for a
      node exactly when the tree's page would still fit with it. */
  lemma LeafRoomAgrees(page: Page, nodes: seq<BTree.Node>, n: BTree.Node, flags: nat, key: seq<byte>, body: seq<byte>)
    requires page.Valid() && page.leaf && PageSize(page.mem.Length)
    requires ByteSizes(page.Contents()) == BTree.LeafSizes(nodes) && IsLeafNode(n, flags, key, body)
    ensures Even(NODESIZE + |key| + |body|) + INDX <= page.upper - page.lower <==>
      Sum(BTree.LeafSizes(nodes)) + BTree.LeafSize(n) <= PMax(page.mem.Length)
  {
    SizeLeft(page);
    LeafNodeSize(n, flags, key, body);
  }

  lemma BranchRoomAgrees(page: Page, kids: seq<BTree.Kid>, kid: BTree.Kid, word: nat, flags: nat, key: seq<byte>)
    requires page.Valid() && !page.leaf && PageSize(page.mem.Length)
    requires ByteSizes(page.Contents()) == BTree.KidSizes(kids) && |key| == kid.key.size
    ensures Even(NODESIZE + |key|) + INDX <= page.upper - page.lower <==>
      Sum(BTree.KidSizes(kids)) + BTree.KidSize(kid.key) <= PMax(page.mem.Length)
  {
    SizeLeft(page);
    BranchNodeSize(kid, word, flags, key, []);
  }
}
