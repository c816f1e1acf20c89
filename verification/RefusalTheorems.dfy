/**
  When no put or delete can be refused, and databases on which one is.
 */
module RefusalTheorems {
  import opened SplitPoint
  import opened BTree
  import opened Refusal
  import opened BTreeShape
  import opened BTreeTheorems

  // ---------------------------------------------------------------- few nodes

  /** Every page on the search path of k holds fewer than 32 nodes. */
  predicate NarrowPath(t: Tree, k: real) {
    match t
    case Leaf(nodes) => |nodes| < 32
    case Branch(kids) => 0 < |kids| < 32 && NarrowPath(kids[ChildIndex(kids, k)].sub, k)
  }

  lemma FewNodesFit(psize: nat, leaf: bool, sizes: seq<nat>, newindx: nat, nsize: nat)
    requires PageSize(psize) && newindx <= |sizes| < 32
    ensures !Stuck(psize, leaf, sizes, newindx, nsize)
  {
  }

  lemma FewInLeaf(psize: nat, nodes: seq<Node>, key: Key, val: Val, reuse: bool)
    requires PageSize(psize) && |nodes| < 32
    ensures !PutLeafStuck(psize, nodes, key, val, reuse)
  {
    hide Stuck;
    var i, nsize := LeafIndex(nodes, key.rank), LeafSize(MakeNode(psize, key, val));
    if Exact(nodes, key.rank) {
      FewNodesFit(psize, true, LeafSizes(nodes[..i] + nodes[i + 1..]), i, nsize);
    } else {
      FewNodesFit(psize, true, LeafSizes(nodes), i, nsize);
    }
  }

  lemma FewSeparators(psize: nat, kids: seq<Kid>, i: nat, u: Outcome)
    requires PageSize(psize) && i < |kids| < 32
    ensures !SeparatorStuck(psize, kids, i, u)
  {
    hide Stuck;
    if u.Two? { FewNodesFit(psize, false, KidSizes(kids), i + 1, KidSize(u.sep)); }
  }

  lemma {:induction false} NarrowPut(psize: nat, t: Tree, key: Key, val: Val, reuse: bool)
    requires PageSize(psize) && NarrowPath(t, key.rank)
    ensures !PutStuck(psize, t, key, val, reuse)
  {
    hide SeparatorStuck, PutLeafStuck, PutAt;
    match t
    case Leaf(nodes) => FewInLeaf(psize, nodes, key, val, reuse);
    case Branch(kids) =>
      var i := ChildIndex(kids, key.rank);
      NarrowPut(psize, kids[i].sub, key, val, reuse);
      FewSeparators(psize, kids, i, PutAt(psize, kids[i].sub, key, val, reuse));
  }

  lemma FewKeys(psize: nat, kids: seq<Kid>, i: nat, key: Key)
    requires PageSize(psize) && 0 < i < |kids| < 32
    ensures !NewKeyStuck(psize, kids, i, key)
  {
    FewNodesFit(psize, false, KidSizes(kids[..i] + kids[i + 1..]), i, KidSize(key));
  }

  lemma FewRebalance(psize: nat, kids: seq<Kid>, i: nat)
    requires PageSize(psize) && i < |kids| && 2 <= |kids| < 32
    ensures !RebalanceStuck(psize, kids, i)
  {
    hide NewKeyStuck;
    var t := kids[i].sub;
    if i == 0 {
      if CanGive(psize, kids[1].sub) { FewKeys(psize, kids, 1, MoveLeft(t, kids[1].sub).1); }
    } else {
      if CanGive(psize, kids[i - 1].sub) { FewKeys(psize, kids, i, MoveRight(kids[i - 1].sub, t).1); }
    }
  }

  lemma FewShrink(psize: nat, kids: seq<Kid>, i: nat, d: Shrunk)
    requires PageSize(psize) && i < |kids| && 2 <= |kids| < 32
    ensures !ShrinkStuck(psize, kids, i, d)
  {
    hide RebalanceStuck, SeparatorStuck;
    if d.Shrunk? {
      if d.u.One? { FewRebalance(psize, kids[i := Kid(kids[i].key, d.u.t)], i); }
      FewSeparators(psize, kids, i, d.u);
    }
  }

  lemma {:induction false} NarrowDel(psize: nat, t: Tree, k: real)
    requires PageSize(psize) && NarrowPath(t, k)
    ensures !DelStuck(psize, t, k)
  {
    hide ShrinkStuck, DelAt;
    if t.Branch? && |t.kids| >= 2 {
      var i := ChildIndex(t.kids, k);
      NarrowDel(psize, t.kids[i].sub, k);
      FewShrink(psize, t.kids, i, DelAt(psize, t.kids[i].sub, k));
    }
  }

  /** An operation whose search path has fewer than 32 nodes on every page is not refused. */
  lemma NarrowIsAccepted(psize: nat, db: Db, op: Op)
    requires PageSize(psize) && DbOk(psize, db) && KeysOk([op])
    requires db.Some? ==> NarrowPath(db.value, if op.PutOp? then op.key.rank else op.k)
    ensures StepDb(psize, db, op).Some?
  {
    StepExact(psize, db, op);
    if db.Some? {
      match op
      case PutOp(key, val, reuse) => NarrowPut(psize, db.value, key, val, reuse);
      case DelOp(k) => NarrowDel(psize, db.value, k);
    }
  }

  // ---------------------------------------------------------------- small pages

  lemma SmallNeverStuck(psize: nat, leaf: bool, sizes: seq<nat>, newindx: nat, nsize: nat)
    requires PageSize(psize) && PMax(psize) <= SAFEPMAX && newindx <= |sizes| && Sum(sizes) <= PMax(psize)
    requires forall i :: 0 <= i < |sizes| ==> sizes[i] >= EMPTYKEY
    ensures !Stuck(psize, leaf, sizes, newindx, nsize)
  {
    if |sizes| >= 2 { SmallPageFits(PMax(psize), leaf, sizes, newindx, nsize); }
  }

  lemma SmallLeaf(psize: nat, nodes: seq<Node>, newindx: nat, nsize: nat)
    requires PageSize(psize) && PMax(psize) <= SAFEPMAX && newindx <= |nodes| && LeafOk(psize, nodes)
    ensures !Stuck(psize, true, LeafSizes(nodes), newindx, nsize)
  {
    SmallNeverStuck(psize, true, LeafSizes(nodes), newindx, nsize);
  }

  lemma SmallBranch(psize: nat, kids: seq<Kid>, newindx: nat, nsize: nat, d: nat)
    requires PageSize(psize) && PMax(psize) <= SAFEPMAX && newindx <= |kids| && BranchOk(psize, kids, d)
    ensures !Stuck(psize, false, KidSizes(kids), newindx, nsize)
  {
    SmallNeverStuck(psize, false, KidSizes(kids), newindx, nsize);
  }

  lemma SmallPutLeaf(psize: nat, nodes: seq<Node>, key: Key, val: Val, reuse: bool)
    requires PageSize(psize) && PMax(psize) <= SAFEPMAX && LeafOk(psize, nodes)
    ensures !PutLeafStuck(psize, nodes, key, val, reuse)
  {
    hide Stuck, LeafOk;
    var i, nsize := LeafIndex(nodes, key.rank), LeafSize(MakeNode(psize, key, val));
    if Exact(nodes, key.rank) {
      WithoutNodeOk(psize, nodes, i);
      SmallLeaf(psize, nodes[..i] + nodes[i + 1..], i, nsize);
    } else {
      SmallLeaf(psize, nodes, i, nsize);
    }
  }

  lemma SmallSeparators(psize: nat, kids: seq<Kid>, i: nat, u: Outcome, d: nat)
    requires PageSize(psize) && PMax(psize) <= SAFEPMAX && i < |kids| && BranchOk(psize, kids, d)
    ensures !SeparatorStuck(psize, kids, i, u)
  {
    hide Stuck, BranchOk;
    if u.Two? { SmallBranch(psize, kids, i + 1, KidSize(u.sep), d); }
  }

  lemma {:induction false} SmallPut(psize: nat, t: Tree, key: Key, val: Val, reuse: bool, d: nat)
    requires PageSize(psize) && PMax(psize) <= SAFEPMAX && Shape(psize, t, d) && key.size <= MAXKEY
    ensures !PutStuck(psize, t, key, val, reuse)
    decreases d
  {
    hide SeparatorStuck, PutLeafStuck, PutAt, LeafOk;
    match t
    case Leaf(nodes) => SmallPutLeaf(psize, nodes, key, val, reuse);
    case Branch(kids) =>
      var i := ChildIndex(kids, key.rank);
      WeakBranch(psize, t, d);
      KidShape(psize, kids, i, d);
      SmallPut(psize, kids[i].sub, key, val, reuse, d - 1);
      SmallSeparators(psize, kids, i, PutAt(psize, kids[i].sub, key, val, reuse), d);
  }

  lemma SmallNewKey(psize: nat, kids: seq<Kid>, i: nat, key: Key, d: nat)
    requires PageSize(psize) && PMax(psize) <= SAFEPMAX && d > 0 && 0 < i < |kids| && BranchOk(psize, kids, d)
    ensures !NewKeyStuck(psize, kids, i, key)
  {
    hide Stuck, BranchOk;
    WithoutKidOk(psize, kids, i, d);
    SmallBranch(psize, kids[..i] + kids[i + 1..], i, KidSize(key), d);
  }

  lemma SmallRebalance(psize: nat, kids: seq<Kid>, i: nat, t: Tree, d: nat)
    requires PageSize(psize) && PMax(psize) <= SAFEPMAX && d > 0 && i < |kids| && |kids| >= 2 && BranchOk(psize, kids, d)
    ensures !RebalanceStuck(psize, kids[i := Kid(kids[i].key, t)], i)
  {
    hide NewKeyStuck, FullEnough, CanGive, BranchOk;
    var after := kids[i := Kid(kids[i].key, t)];
    forall key: Key, j: nat | 0 < j < |kids| ensures !NewKeyStuck(psize, after, j, key) {
      SmallNewKey(psize, kids, j, key, d);
      NewKeySameKeys(psize, kids, after, j, key);
    }
  }

  lemma SmallShrink(psize: nat, kids: seq<Kid>, i: nat, r: Shrunk, d: nat)
    requires PageSize(psize) && PMax(psize) <= SAFEPMAX && d > 0 && i < |kids| && |kids| >= 2 && BranchOk(psize, kids, d)
    ensures !ShrinkStuck(psize, kids, i, r)
  {
    hide RebalanceStuck, SeparatorStuck, BranchOk;
    if r.Shrunk? {
      if r.u.One? { SmallRebalance(psize, kids, i, r.u.t, d); }
      SmallSeparators(psize, kids, i, r.u, d);
    }
  }

  lemma {:induction false} SmallDel(psize: nat, t: Tree, k: real, d: nat)
    requires PageSize(psize) && PMax(psize) <= SAFEPMAX && Shape(psize, t, d)
    ensures !DelStuck(psize, t, k)
    decreases d
  {
    hide ShrinkStuck, DelAt;
    if t.Branch? {
      var i := ChildIndex(t.kids, k);
      WeakBranch(psize, t, d);
      KidShape(psize, t.kids, i, d);
      SmallDel(psize, t.kids[i].sub, k, d - 1);
      SmallShrink(psize, t.kids, i, DelAt(psize, t.kids[i].sub, k), d);
    }
  }

  /** With pages of up to 2591 bytes no run of puts and deletes is ever refused. */
  lemma {:induction false} SmallPagesNeverRefuse(psize: nat, ops: seq<Op>)
    requires PageSize(psize) && PMax(psize) <= SAFEPMAX && KeysOk(ops)
    ensures RunDb(psize, ops).Some? && Refines(psize, RunDb(psize, ops).value, Plain(ops))
  {
    RunRefines(psize, ops);
    if RunDb(psize, ops).None? {
      var n: nat :| RefusedAt(psize, ops, n);
      RunRefines(psize, ops[..n]);
      var t := RunDb(psize, ops[..n]).value.value;
      var d :| Shape(psize, t, d);
      assert ops[n] in ops;
      match ops[n]
      case PutOp(key, val, reuse) => SmallPut(psize, t, key, val, reuse, d);
      case DelOp(k) => SmallDel(psize, t, k, d);
    }
  }
}
