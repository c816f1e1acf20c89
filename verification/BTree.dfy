/**
  The B+tree of a database without duplicates: put and delete, with page splits,
  node moves, merges, root growth and root collapse.

  Pages are modelled by value. A key is its place in the key order (any order on
  byte strings embeds in the reals) and its length in bytes; lengths decide when
  pages split and merge, the order decides where things go.
 */
module BTree {
  import opened Wrappers
  import opened SplitPoint

  datatype Key = Key(rank: real, size: nat)

  /** A data item: what it is, and its length in bytes. */
  datatype Val = Val(item: int, size: nat)

  /** A leaf node; big marks F_BIGDATA (the data is on overflow pages). */
  datatype Node = Node(key: Key, val: Val, big: bool)

  /** A branch node; the key of slot 0 is empty and never consulted. */
  datatype Kid = Kid(key: Key, sub: Tree)

  datatype Tree = Leaf(nodes: seq<Node>) | Branch(kids: seq<Kid>)

  const NOKEY := Key(0.0, 0)

  // ---------------------------------------------------------------- sizes

  /** mdb_leaf_size and mdb_node_add agree on when data goes to an overflow page. */
  predicate TooBig(psize: nat, key: Key, val: Val)
    requires PageSize(psize)
  {
    NODESIZE + key.size + val.size > NodeMax(psize)
  }

  function MakeNode(psize: nat, key: Key, val: Val): Node
    requires PageSize(psize)
  {
    Node(key, val, TooBig(psize, key, val))
  }

  /** Bytes a leaf node takes in its page, with its index. */
  function LeafSize(n: Node): nat {
    Even(NODESIZE + n.key.size + if n.big then PGNO else n.val.size) + INDX
  }

  /** Bytes a branch node takes in its page, with its index. */
  function KidSize(key: Key): nat { Even(NODESIZE + key.size) + INDX }

  function LeafSizes(nodes: seq<Node>): (s: seq<nat>)
    ensures |s| == |nodes|
  {
    seq(|nodes|, i requires 0 <= i < |nodes| => LeafSize(nodes[i]))
  }

  function KidSizes(kids: seq<Kid>): (s: seq<nat>)
    ensures |s| == |kids|
  {
    seq(|kids|, i requires 0 <= i < |kids| => KidSize(kids[i].key))
  }

  function Sizes(t: Tree): seq<nat> {
    if t.Leaf? then LeafSizes(t.nodes) else KidSizes(t.kids)
  }

  function NumKeys(t: Tree): nat { if t.Leaf? then |t.nodes| else |t.kids| }

  function Used(t: Tree): nat { Sum(Sizes(t)) }

  predicate Fits(psize: nat, t: Tree)
    requires PageSize(psize)
  {
    Used(t) <= PMax(psize)
  }

  /** PAGEFILL, in tenths of a percent. */
  function Fill(psize: nat, t: Tree): nat
    requires PageSize(psize)
  {
    1000 * Used(t) / PMax(psize)
  }

  // ---------------------------------------------------------------- searching a page

  /** The first node whose key is not less than k. */
  function LeafIndex(nodes: seq<Node>, k: real): (i: nat)
    ensures i <= |nodes|
  {
    if nodes == [] || nodes[0].key.rank >= k then 0 else 1 + LeafIndex(nodes[1..], k)
  }

  predicate Exact(nodes: seq<Node>, k: real) {
    var i := LeafIndex(nodes, k);
    i < |nodes| && nodes[i].key.rank == k
  }

  /** The child to descend into: the last whose separator is not greater than k. */
  function ChildIndex(kids: seq<Kid>, k: real): (i: nat)
    requires |kids| > 0
    ensures i < |kids|
  {
    if |kids| == 1 || k < kids[1].key.rank then 0 else 1 + ChildIndex(kids[1..], k)
  }

  // ---------------------------------------------------------------- splitting

  /** What becomes of a page: itself, a page and a new right sibling with its
      separator, or MDB_PAGE_FULL. */
  datatype Outcome = One(t: Tree) | Two(left: Tree, sep: Key, right: Tree) | Full

  function CutLeaf(psize: nat, all: seq<Node>, s: nat): Outcome
    requires PageSize(psize)
  {
    if !(0 < s < |all|) then Full else
      var l, r := Leaf(all[..s]), Leaf(all[s..]);
      if Fits(psize, l) && Fits(psize, r) then Two(l, all[s].key, r) else Full
  }

  /** The first key of the right branch page moves up into the parent. */
  function CutBranch(psize: nat, all: seq<Kid>, s: nat): Outcome
    requires PageSize(psize)
  {
    if !(0 < s < |all|) then Full else
      var l, r := Branch(all[..s]), Branch([Kid(NOKEY, all[s].sub)] + all[s + 1..]);
      if Fits(psize, l) && Fits(psize, r) then Two(l, all[s].key, r) else Full
  }

  function SplitLeaf(psize: nat, nodes: seq<Node>, i: nat, n: Node): Outcome
    requires PageSize(psize) && i <= |nodes|
  {
    if |nodes| < 2 then Full else
      CutLeaf(psize, With(nodes, i, n), SplitIndex(PMax(psize), true, LeafSizes(nodes), i, LeafSize(n)))
  }

  function SplitBranch(psize: nat, kids: seq<Kid>, i: nat, kid: Kid): Outcome
    requires PageSize(psize) && i <= |kids|
  {
    if |kids| < 2 then Full else
      CutBranch(psize, With(kids, i, kid), SplitIndex(PMax(psize), false, KidSizes(kids), i, KidSize(kid.key)))
  }

  /** mdb_cursor_put, new_sub: add the node if there is room, else split. */
  function AddNode(psize: nat, nodes: seq<Node>, i: nat, n: Node): Outcome
    requires PageSize(psize) && i <= |nodes|
  {
    if Sum(LeafSizes(nodes)) + LeafSize(n) <= PMax(psize) then One(Leaf(With(nodes, i, n)))
    else SplitLeaf(psize, nodes, i, n)
  }

  /** mdb_page_split: give the parent a separator, splitting it if it has no room. */
  function AddKid(psize: nat, kids: seq<Kid>, i: nat, kid: Kid): Outcome
    requires PageSize(psize) && i <= |kids|
  {
    if Sum(KidSizes(kids)) + KidSize(kid.key) <= PMax(psize) then One(Branch(With(kids, i, kid)))
    else SplitBranch(psize, kids, i, kid)
  }

  /** mdb_update_key: replace separator i, by delete-and-split if it no longer fits. */
  function UpdateKey(psize: nat, kids: seq<Kid>, i: nat, key: Key): Outcome
    requires PageSize(psize) && 0 < i < |kids|
  {
    var delta := Even(key.size) - Even(kids[i].key.size);
    if delta > 0 && PMax(psize) - Sum(KidSizes(kids)) < delta then
      SplitBranch(psize, kids[..i] + kids[i + 1..], i, Kid(key, kids[i].sub))
    else One(Branch(kids[i := Kid(key, kids[i].sub)]))
  }

  // ---------------------------------------------------------------- put

  /** The parent's page after child i became `u`. */
  function Absorb(psize: nat, kids: seq<Kid>, i: nat, u: Outcome): Outcome
    requires PageSize(psize) && i < |kids|
  {
    match u
    case One(t) => One(Branch(kids[i := Kid(kids[i].key, t)]))
    case Two(l, sep, r) => AddKid(psize, kids[i := Kid(kids[i].key, l)], i + 1, Kid(sep, r))
    case Full => Full
  }

  /** The leaf step of mdb_cursor_put. `reuse` says that the overflow pages of an existing
      big item are dirty and large enough to be overwritten. */
  function PutLeaf(psize: nat, nodes: seq<Node>, key: Key, val: Val, reuse: bool): Outcome
    requires PageSize(psize)
  {
    var i := LeafIndex(nodes, key.rank);
    if !Exact(nodes, key.rank) then AddNode(psize, nodes, i, MakeNode(psize, key, val))
    else if nodes[i].big && reuse then One(Leaf(nodes[i := nodes[i].(val := val)]))
    else if !nodes[i].big && val.size == nodes[i].val.size then One(Leaf(nodes[i := nodes[i].(val := val)]))
    else AddNode(psize, nodes[..i] + nodes[i + 1..], i, MakeNode(psize, key, val))
  }

  function PutAt(psize: nat, t: Tree, key: Key, val: Val, reuse: bool): Outcome
    requires PageSize(psize)
  {
    match t
    case Leaf(nodes) => PutLeaf(psize, nodes, key, val, reuse)
    case Branch(kids) =>
      if kids == [] then Full else
        var i := ChildIndex(kids, key.rank);
        Absorb(psize, kids, i, PutAt(psize, kids[i].sub, key, val, reuse))
  }

  /** A database: no root page yet, or a root page. */
  type Db = Option<Tree>

  datatype DbResult = Ok(db: Db) | PageFull

  function RootOf(u: Outcome): DbResult {
    match u
    case One(t) => Ok(Some(t))
    case Two(l, sep, r) => Ok(Some(Branch([Kid(NOKEY, l), Kid(sep, r)])))
    case Full => PageFull
  }

  /** mdb_put without MDB_NOOVERWRITE. */
  function Put(psize: nat, db: Db, key: Key, val: Val, reuse: bool): DbResult
    requires PageSize(psize)
  {
    match db
    case None => Ok(Some(Leaf([MakeNode(psize, key, val)])))
    case Some(t) => RootOf(PutAt(psize, t, key, val, reuse))
  }

  // ---------------------------------------------------------------- delete

  /** The lowest key below a page (mdb_page_search_lowest). */
  function Lowest(t: Tree): Option<Key> {
    match t
    case Leaf(nodes) => if nodes == [] then None else Some(nodes[0].key)
    case Branch(kids) => if kids == [] then None else Lowest(kids[0].sub)
  }

  /** A branch page's nodes with the implicit key of slot 0 written out. */
  function Explicit(kids: seq<Kid>): seq<Kid> {
    if kids == [] || Lowest(kids[0].sub).None? then kids
    else [Kid(Lowest(kids[0].sub).value, kids[0].sub)] + kids[1..]
  }

  /** ... and with the key of slot 0 cleared again. */
  function Implicit(kids: seq<Kid>): seq<Kid> {
    if kids == [] then kids else [Kid(NOKEY, kids[0].sub)] + kids[1..]
  }

  function MinKeys(t: Tree): nat { if t.Leaf? then 1 else 2 }

  function Threshold(t: Tree): nat { if t.Leaf? then 250 else 1 }

  predicate FullEnough(psize: nat, t: Tree)
    requires PageSize(psize)
  {
    Fill(psize, t) >= Threshold(t) && NumKeys(t) >= MinKeys(t)
  }

  /** May a neighbour give a node away? */
  predicate CanGive(psize: nat, t: Tree)
    requires PageSize(psize)
  {
    Fill(psize, t) >= Threshold(t) && NumKeys(t) > MinKeys(t)
  }

  /** mdb_page_merge: the nodes of src appended to those of dst. */
  function Merge(dst: Tree, src: Tree): Tree {
    if dst.Leaf? && src.Leaf? then Leaf(dst.nodes + src.nodes)
    else if dst.Branch? && src.Branch? then Branch(dst.kids + Explicit(src.kids))
    else dst
  }

  /** mdb_node_move: the pair of pages after one node moved from left to right, and the new separator. */
  function MoveRight(left: Tree, right: Tree): (Tree, Key, Tree)
    requires NumKeys(left) > 0
  {
    if left.Leaf? && right.Leaf? then
      var n := left.nodes[|left.nodes| - 1];
      (Leaf(left.nodes[..|left.nodes| - 1]), n.key, Leaf([n] + right.nodes))
    else if left.Branch? && right.Branch? then
      var k := left.kids[|left.kids| - 1];
      (Branch(left.kids[..|left.kids| - 1]), k.key, Branch(Implicit([k] + Explicit(right.kids))))
    else (left, NOKEY, right)
  }

  /** ... and after one node moved from right to left. */
  function MoveLeft(left: Tree, right: Tree): (Tree, Key, Tree)
    requires NumKeys(right) > 1
  {
    if left.Leaf? && right.Leaf? then
      (Leaf(left.nodes + right.nodes[..1]), right.nodes[1].key, Leaf(right.nodes[1..]))
    else if left.Branch? && right.Branch? then
      (Branch(left.kids + Explicit(right.kids)[..1]), right.kids[1].key, Branch(Implicit(right.kids[1..])))
    else (left, NOKEY, right)
  }

  /** A page after a delete below it, and whether mdb_rebalance is now called on it. */
  datatype Shrunk = Missing | Shrunk(u: Outcome, check: bool)

  /** mdb_rebalance on child i of a parent with these nodes. */
  function Rebalance(psize: nat, kids: seq<Kid>, i: nat): Shrunk
    requires PageSize(psize) && i < |kids| && |kids| >= 2
  {
    var t := kids[i].sub;
    if FullEnough(psize, t) then Shrunk(One(Branch(kids)), false)
    else if i == 0 then
      var right := kids[1].sub;
      if CanGive(psize, right) then
        var (l, sep, r) := MoveLeft(t, right);
        Shrunk(UpdateKey(psize, kids[0 := Kid(kids[0].key, l)][1 := Kid(kids[1].key, r)], 1, sep), false)
      else
        Shrunk(One(Branch([Kid(kids[0].key, Merge(t, right))] + kids[2..])), true)
    else
      var left := kids[i - 1].sub;
      if CanGive(psize, left) then
        var (l, sep, r) := MoveRight(left, t);
        Shrunk(UpdateKey(psize, kids[i - 1 := Kid(kids[i - 1].key, l)][i := Kid(kids[i].key, r)], i, sep), false)
      else
        Shrunk(One(Branch(kids[..i - 1] + [Kid(kids[i - 1].key, Merge(left, t))] + kids[i + 1..])), true)
  }

  /** The parent's page after a delete below child i. */
  function AbsorbShrunk(psize: nat, kids: seq<Kid>, i: nat, d: Shrunk): Shrunk
    requires PageSize(psize) && i < |kids|
  {
    match d
    case Missing => Missing
    case Shrunk(One(t), true) =>
      if |kids| < 2 then Shrunk(Full, false) else Rebalance(psize, kids[i := Kid(kids[i].key, t)], i)
    case Shrunk(u, _) => Shrunk(Absorb(psize, kids, i, u), false)
  }

  /** mdb_del0: mdb_node_del in the leaf, then mdb_rebalance up the tree. */
  function DelAt(psize: nat, t: Tree, k: real): Shrunk
    requires PageSize(psize)
  {
    match t
    case Leaf(nodes) =>
      var i := LeafIndex(nodes, k);
      if Exact(nodes, k) then Shrunk(One(Leaf(nodes[..i] + nodes[i + 1..])), true) else Missing
    case Branch(kids) =>
      if kids == [] then Missing else
        var i := ChildIndex(kids, k);
        AbsorbShrunk(psize, kids, i, DelAt(psize, kids[i].sub, k))
  }

  /** mdb_rebalance on the root: drop an empty tree, collapse a root with one child. */
  function RebalanceRoot(psize: nat, t: Tree): Db
    requires PageSize(psize)
  {
    if FullEnough(psize, t) then Some(t)
    else if NumKeys(t) == 0 then None
    else if t.Branch? && |t.kids| == 1 then Some(t.kids[0].sub)
    else Some(t)
  }

  datatype DelResult = NotFound | Deleted(r: DbResult)

  /** mdb_del. */
  function Del(psize: nat, db: Db, k: real): DelResult
    requires PageSize(psize)
  {
    match db
    case None => NotFound
    case Some(t) =>
      match DelAt(psize, t, k)
      case Missing => NotFound
      case Shrunk(One(t'), true) => Deleted(Ok(RebalanceRoot(psize, t')))
      case Shrunk(u, _) => Deleted(RootOf(u))
  }

  // ---------------------------------------------------------------- get

  /** mdb_get: the search path of mdb_page_search, then the leaf. */
  function Get(t: Tree, k: real): Option<Val> {
    match t
    case Leaf(nodes) => if Exact(nodes, k) then Some(nodes[LeafIndex(nodes, k)].val) else None
    case Branch(kids) => if kids == [] then None else Get(kids[ChildIndex(kids, k)].sub, k)
  }
}
