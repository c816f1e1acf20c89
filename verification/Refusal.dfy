/**
  When put and delete fail with MDB_PAGE_FULL: some page on the search path has no room, holds
  32 nodes or more, and is cut in the middle without a look at the sizes of the halves.
 */
module Refusal {
  import opened SplitPoint
  import opened BTree

  /** A page takes the new node neither as it is nor by a split. */
  predicate Stuck(psize: nat, leaf: bool, sizes: seq<nat>, newindx: nat, nsize: nat)
    requires PageSize(psize) && newindx <= |sizes|
  {
    Sum(sizes) + nsize > PMax(psize) && |sizes| >= 2 && !SplitFits(PMax(psize), leaf, sizes, newindx, nsize)
  }

  predicate InPlace(node: Node, val: Val, reuse: bool) {
    if node.big then reuse else val.size == node.val.size
  }

  predicate PutLeafStuck(psize: nat, nodes: seq<Node>, key: Key, val: Val, reuse: bool)
    requires PageSize(psize)
  {
    var i, nsize := LeafIndex(nodes, key.rank), LeafSize(MakeNode(psize, key, val));
    if !Exact(nodes, key.rank) then Stuck(psize, true, LeafSizes(nodes), i, nsize)
    else !InPlace(nodes[i], val, reuse) && Stuck(psize, true, LeafSizes(nodes[..i] + nodes[i + 1..]), i, nsize)
  }

  /** The parent of a page that was split has no place for the separator. */
  predicate SeparatorStuck(psize: nat, kids: seq<Kid>, i: nat, u: Outcome)
    requires PageSize(psize) && i < |kids|
  {
    u.Two? && Stuck(psize, false, KidSizes(kids), i + 1, KidSize(u.sep))
  }

  predicate PutStuck(psize: nat, t: Tree, key: Key, val: Val, reuse: bool)
    requires PageSize(psize)
  {
    match t
    case Leaf(nodes) => PutLeafStuck(psize, nodes, key, val, reuse)
    case Branch(kids) =>
      && kids != []
      && var i := ChildIndex(kids, key.rank);
      || PutStuck(psize, kids[i].sub, key, val, reuse)
      || SeparatorStuck(psize, kids, i, PutAt(psize, kids[i].sub, key, val, reuse))
  }

  /** mdb_update_key finds no place for the longer key. */
  predicate NewKeyStuck(psize: nat, kids: seq<Kid>, i: nat, key: Key)
    requires PageSize(psize) && 0 < i < |kids|
  {
    Stuck(psize, false, KidSizes(kids[..i] + kids[i + 1..]), i, KidSize(key))
  }

  /** Moving a node would bring a separator that has no place. */
  predicate RebalanceStuck(psize: nat, kids: seq<Kid>, i: nat)
    requires PageSize(psize) && i < |kids| && |kids| >= 2
  {
    var t := kids[i].sub;
    && !FullEnough(psize, t)
    && if i == 0 then CanGive(psize, kids[1].sub) && NewKeyStuck(psize, kids, 1, MoveLeft(t, kids[1].sub).1)
       else CanGive(psize, kids[i - 1].sub) && NewKeyStuck(psize, kids, i, MoveRight(kids[i - 1].sub, t).1)
  }

  predicate ShrinkStuck(psize: nat, kids: seq<Kid>, i: nat, d: Shrunk)
    requires PageSize(psize) && i < |kids| && |kids| >= 2
  {
    match d
    case Missing => false
    case Shrunk(One(t), true) => RebalanceStuck(psize, kids[i := Kid(kids[i].key, t)], i)
    case Shrunk(u, _) => SeparatorStuck(psize, kids, i, u)
  }

  predicate DelStuck(psize: nat, t: Tree, k: real)
    requires PageSize(psize)
  {
    match t
    case Leaf(_) => false
    case Branch(kids) =>
      && |kids| >= 2
      && var i := ChildIndex(kids, k);
      DelStuck(psize, kids[i].sub, k) || ShrinkStuck(psize, kids, i, DelAt(psize, kids[i].sub, k))
  }
}
