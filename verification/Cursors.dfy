/**
  Cursors: a stack of pages and indices from the root to a leaf.  Moving on, moving to a sibling
  page and searching for a key, with the shortcuts mdb_cursor_set takes from where it stands.
 */
module Cursors {
  import opened Wrappers
  import opened SplitPoint
  import opened BTree
  import opened BTreeShape
  import opened SortedMap
  import opened BTreeOrder
  import opened BTreeRefines
  import opened CursorPaths

  // ---------------------------------------------------------------- mdb_node_search

  /** A leaf's keys rise. */
  ghost predicate Rising(nodes: seq<Node>) {
    forall i, j :: 0 <= i < j < |nodes| ==> nodes[i].key.rank < nodes[j].key.rank
  }

  lemma SortedRising(nodes: seq<Node>)
    requires Sorted(LeafEnts(nodes))
    ensures Rising(nodes)
  {
    var es := LeafEnts(nodes);
    forall i, j | 0 <= i < j < |nodes| ensures nodes[i].key.rank < nodes[j].key.rank { assert es[i].0 < es[j].0; }
  }

  lemma {:induction false} LeafIndexUnique(nodes: seq<Node>, k: real, i: nat)
    requires Rising(nodes) && i <= |nodes|
    requires i > 0 ==> nodes[i - 1].key.rank < k
    requires i < |nodes| ==> k <= nodes[i].key.rank
    ensures LeafIndex(nodes, k) == i
  {
    if i > 0 {
      if i > 1 { assert nodes[0].key.rank < nodes[i - 1].key.rank; }
      LeafIndexUnique(nodes[1..], k, i - 1);
    }
  }

  /** Binary search in a leaf. */
  method SearchLeaf(nodes: seq<Node>, k: real) returns (i: nat, exact: bool)
    requires Sorted(LeafEnts(nodes))
    ensures i == LeafIndex(nodes, k) && exact == Exact(nodes, k)
  {
    hide Sorted, LeafEnts, LeafIndex;
    SortedRising(nodes);
    var low, high, rc := 0, |nodes| - 1, 0;
    i := 0;
    while low <= high
      invariant 0 <= low <= high + 1 <= |nodes|
      invariant low > 0 ==> nodes[low - 1].key.rank < k
      invariant high + 1 < |nodes| ==> k < nodes[high + 1].key.rank
      invariant if rc == 0 then low == 0 && high == |nodes| - 1 && i == 0
        else if rc > 0 then i == low - 1 else i == high + 1 && i < |nodes|
      decreases high - low
    {
      i := (low + high) / 2;
      var nodekey := nodes[i].key.rank;
      rc := if k < nodekey then -1 else if k > nodekey then 1 else 0;
      if rc == 0 {
        if i > 0 { assert nodes[i - 1].key.rank < nodes[i].key.rank; }
        LeafIndexUnique(nodes, k, i);
        return i, true;
      }
      if rc > 0 { low := i + 1; } else { high := i - 1; }
    }
    if rc > 0 { i := i + 1; }
    LeafIndexUnique(nodes, k, i);
    exact := false;
  }

  /** Separators rise from slot 1 on. */
  ghost predicate Separated(kids: seq<Kid>) {
    forall i, j :: 1 <= i < j < |kids| ==> kids[i].key.rank < kids[j].key.rank
  }

  lemma {:induction false} OrderedSeparated(kids: seq<Kid>, lo: Bound, hi: Bound)
    requires kids != [] && OrderedKids(kids, lo, hi)
    ensures Separated(kids)
    ensures |kids| > 1 ==> Below(lo, Some(kids[1].key.rank))
    decreases kids
  {
    if |kids| > 1 {
      var rest := kids[1..];
      OrderedSeparated(rest, Some(kids[1].key.rank), hi);
      forall i, j | 1 <= i < j < |kids| ensures kids[i].key.rank < kids[j].key.rank {
        assert kids[j] == rest[j - 1] && kids[i] == rest[i - 1];
        if i == 1 && j > 2 { assert rest[1].key.rank < rest[j - 1].key.rank; }
      }
    }
  }

  lemma {:induction false} ChildIndexUnique(kids: seq<Kid>, k: real, i: nat)
    requires Separated(kids) && i < |kids|
    requires i > 0 ==> kids[i].key.rank <= k
    requires i + 1 < |kids| ==> k < kids[i + 1].key.rank
    ensures ChildIndex(kids, k) == i
  {
    if i > 0 {
      if i > 1 { assert kids[1].key.rank < kids[i].key.rank; }
      var rest := kids[1..];
      forall a, b | 1 <= a < b < |rest| ensures rest[a].key.rank < rest[b].key.rank {
        assert rest[a] == kids[a + 1] && rest[b] == kids[b + 1];
      }
      ChildIndexUnique(rest, k, i - 1);
    }
  }

  /** Binary search in a branch, from slot 1 on, and the step back of mdb_page_search_root. */
  method SearchBranch(kids: seq<Kid>, k: real) returns (i: nat)
    requires kids != [] && Separated(kids)
    ensures i == ChildIndex(kids, k)
  {
    var low, high, rc, at := 1, |kids| - 1, 0, 0;
    while low <= high
      invariant 1 <= low <= high + 1 <= |kids|
      invariant low > 1 ==> kids[low - 1].key.rank < k
      invariant high + 1 < |kids| ==> k < kids[high + 1].key.rank
      invariant if rc == 0 then low == 1 && high == |kids| - 1 && at == 0
        else if rc > 0 then at == low - 1 else at == high + 1 && at < |kids|
      decreases high - low
    {
      at := (low + high) / 2;
      var nodekey := kids[at].key.rank;
      rc := if k < nodekey then -1 else if k > nodekey then 1 else 0;
      if rc == 0 {
        if at + 1 < |kids| { assert kids[at].key.rank < kids[at + 1].key.rank; }
        ChildIndexUnique(kids, k, at);
        return at;
      }
      if rc > 0 { low := at + 1; } else { high := at - 1; }
    }
    if rc > 0 { at := at + 1; }
    // not exact: past the end means the last child, else one back
    if rc == 0 {
      i := 0;
    } else if at >= |kids| {
      i := |kids| - 1;
    } else {
      i := at - 1;
    }
    ChildIndexUnique(kids, k, i);
  }

  // ---------------------------------------------------------------- the stack

  /** The pages of a stack follow its indices down from the root. */
  ghost predicate Stacked(root: Tree, pg: seq<Tree>, ki: seq<nat>) {
    && |pg| == |ki| > 0
    && forall j :: 0 <= j < |pg| ==> OnPath(root, ki[..j]) && pg[j] == PageAt(root, ki[..j])
  }

  lemma PopStack(root: Tree, pg: seq<Tree>, ki: seq<nat>)
    requires Stacked(root, pg, ki) && |pg| > 1
    ensures var n := |pg| - 1;
      && Stacked(root, pg[..n], ki[..n])
      && pg[n - 1].Branch? && ki[n - 1] < |pg[n - 1].kids| && pg[n] == pg[n - 1].kids[ki[n - 1]].sub
      && OnPath(root, ki[..n]) && OnPath(root, ki[..n - 1])
      && Before(root, ki[..n]) == Before(root, ki[..n - 1]) + |KidEnts(pg[n - 1].kids[..ki[n - 1]])|
  {
    var n := |pg| - 1;
    forall j | 0 <= j < n ensures OnPath(root, ki[..n][..j]) && pg[..n][j] == PageAt(root, ki[..n][..j]) {
      assert ki[..n][..j] == ki[..j];
    }
    Ascend(root, ki[..n]);
    assert ki[..n][..n - 1] == ki[..n - 1] && ki[..n] == ki[..n - 1] + [ki[n - 1]];
    Descend(root, ki[..n - 1], ki[n - 1]);
  }

  /** mdb_cursor_push of the child that the top index points to. */
  lemma PushStack(root: Tree, pg: seq<Tree>, ki: seq<nat>, k: nat)
    requires Stacked(root, pg, ki)
    requires var top := |pg| - 1; pg[top].Branch? && ki[top] < |pg[top].kids|
    ensures var top := |pg| - 1;
      && Stacked(root, pg + [pg[top].kids[ki[top]].sub], ki + [k])
      && OnPath(root, ki[..top]) && OnPath(root, ki)
      && Before(root, ki) == Before(root, ki[..top]) + |KidEnts(pg[top].kids[..ki[top]])|
  {
    var top := |pg| - 1;
    var pg', ki' := pg + [pg[top].kids[ki[top]].sub], ki + [k];
    assert ki == ki[..top] + [ki[top]];
    Descend(root, ki[..top], ki[top]);
    forall j | 0 <= j < |pg'| ensures OnPath(root, ki'[..j]) && pg'[j] == PageAt(root, ki'[..j]) {
      assert j <= top ==> ki'[..j] == ki[..j];
      assert ki'[..top + 1] == ki;
    }
  }

  /** Replacing the top index changes no page. */
  lemma SetTop(root: Tree, pg: seq<Tree>, ki: seq<nat>, k: nat)
    requires Stacked(root, pg, ki)
    ensures var top := |pg| - 1; Stacked(root, pg, ki[top := k]) && ki[top := k][..top] == ki[..top]
  {
    var top := |pg| - 1;
    forall j | 0 <= j < |pg| ensures ki[top := k][..j] == ki[..j] { }
  }

  /** Where the top page's entries begin and end in the whole. */
  ghost function From(root: Tree, pg: seq<Tree>, ki: seq<nat>): nat
    requires Stacked(root, pg, ki)
  {
    Before(root, ki[..|pg| - 1])
  }

  ghost function To(root: Tree, pg: seq<Tree>, ki: seq<nat>): nat
    requires Stacked(root, pg, ki)
  {
    From(root, pg, ki) + |Ents(pg[|pg| - 1])|
  }

  class Cursor {
    const root: Tree
    ghost const psize: nat
    ghost const depth: nat
    var pg: seq<Tree>
    var ki: seq<nat>
    var init: bool
    var eof: bool
    var del: bool    // C_DEL: the node the cursor stood on was deleted, it now stands on the next one

    /** The tree is a well-formed database. */
    ghost predicate Sound()
      reads this
    {
      PageSize(psize) && Shape(psize, root, depth) && Ordered(root, None, None)
    }

    /** mdb_cursor_sibling: the stack moves to the neighbouring page of the same level, if any. */
    method Sibling(moveRight: bool) returns (ok: bool)
      requires Sound() && Stacked(root, pg, ki)
      modifies this`pg, this`ki
      ensures Stacked(root, pg, ki) && |pg| == old(|pg|)
      ensures !ok ==> pg == old(pg) && ki == old(ki)
      ensures moveRight && ok ==> From(root, pg, ki) == old(To(root, pg, ki)) && ki[|ki| - 1] == 0
      ensures moveRight && !ok ==> To(root, pg, ki) == |Ents(root)|
      ensures !moveRight && ok ==> To(root, pg, ki) == old(From(root, pg, ki)) && ki[|ki| - 1] + 1 == NumKeys(pg[|pg| - 1])
      ensures !moveRight && !ok ==> From(root, pg, ki) == 0
      decreases |pg|
    {
      hide Stacked, Ordered, OnPath, PageAt, KidEnts, From, Shape;
      ghost var pg0, ki0 := pg, ki;
      StackSize(root, pg, ki);
      if |pg| < 2 {
        OnlyRoot(root, pg, ki);
        return false;
      }
      var n := |pg| - 1;
      var topPage, topKi := pg[n], ki[n];
      FromChild(root, pg, ki);
      pg, ki := pg[..n], ki[..n];
      ghost var pg1, ki1 := pg, ki;
      var top := n - 1;
      KidLens(pg[top].kids, ki[top]);
      if (if moveRight then ki[top] + 1 >= NumKeys(pg[top]) else ki[top] == 0) {
        ok := Sibling(moveRight);
        if !ok {
          pg, ki := pg + [topPage], ki + [topKi];
          assert pg == pg0 && ki == ki0;
          return;
        }
        StackSize(root, pg, ki);
        SameLevel(psize, root, depth, pg1, ki1, pg, ki);
      } else {
        var k := if moveRight then ki[top] + 1 else ki[top] - 1;
        if !moveRight { KidLens(pg[top].kids, k); }
        SetTop(root, pg, ki, k);
        FromSetTop(root, pg, ki, k);
        ki := ki[top := k];
      }
      KidLens(pg[top].kids, ki[top]);
      PushSide(moveRight);
      ok := true;
    }

    /** mdb_cursor_push of the child at the top index, at its first or its last node. */
    method PushSide(first: bool)
      requires Sound() && Stacked(root, pg, ki) && pg[|pg| - 1].Branch? && ki[|ki| - 1] < |pg[|pg| - 1].kids|
      modifies this`pg, this`ki
      ensures Stacked(root, pg, ki) && |pg| == old(|pg|) + 1
      ensures pg[|pg| - 1] == old(pg[|pg| - 1].kids[ki[|ki| - 1]].sub)
      ensures if first then ki[|ki| - 1] == 0 else ki[|ki| - 1] + 1 == NumKeys(pg[|pg| - 1])
      ensures From(root, pg, ki) == old(From(root, pg, ki)) + |KidEnts(old(pg[|pg| - 1].kids[..ki[|ki| - 1]]))|
    {
      hide Stacked, Ordered, OnPath, PageAt, KidEnts, From, Shape;
      StackSize(root, pg, ki);
      var top := |pg| - 1;
      var mp := pg[top].kids[ki[top]].sub;
      ChildKeys(psize, root, depth, pg, ki);
      var k: nat := if first then 0 else NumKeys(mp) - 1;
      FromPush(root, pg, ki, mp, k);
      pg, ki := pg + [mp], ki + [k];
      StackSize(root, pg, ki);
    }

    /** The cursor stands on a leaf of the tree, perhaps just past its last node. */
    ghost predicate OnLeaf()
      reads this
    {
      Stacked(root, pg, ki) && pg[|pg| - 1].Leaf? && ki[|ki| - 1] <= |pg[|pg| - 1].nodes|
    }

    ghost predicate Valid()
      reads this
    {
      && Sound()
      && (init ==> OnLeaf() && (eof ==> To(root, pg, ki) == |Ents(root)|) && (del && !eof ==> OnNode()))
    }

    /** ... and in fact on a node. */
    ghost predicate OnNode()
      reads this
    {
      OnLeaf() && ki[|ki| - 1] < |pg[|pg| - 1].nodes|
    }

    /** The place of the cursor among all entries. */
    ghost function Pos(): nat
      requires OnLeaf()
      reads this
    {
      From(root, pg, ki) + ki[|ki| - 1]
    }

    /** A cursor that has not been positioned yet. */
    constructor (root: Tree, ghost psize: nat, ghost depth: nat)
      requires PageSize(psize) && Shape(psize, root, depth) && Ordered(root, None, None)
      ensures Valid() && !init && !del && this.root == root
    {
      this.root, this.psize, this.depth := root, psize, depth;
      pg, ki, init, eof, del := [root], [0], false, false, false;
    }

    /** A cursor as mdb_cursor_del0 leaves it: on the node after the deleted one. */
    constructor AfterDelete(root: Tree, pg: seq<Tree>, ki: seq<nat>, ghost psize: nat, ghost depth: nat)
      requires PageSize(psize) && Shape(psize, root, depth) && Ordered(root, None, None)
      requires Stacked(root, pg, ki) && pg[|pg| - 1].Leaf? && ki[|ki| - 1] < |pg[|pg| - 1].nodes|
      ensures Valid() && init && !eof && del && this.root == root && this.pg == pg && this.ki == ki
    {
      this.root, this.psize, this.depth := root, psize, depth;
      this.pg, this.ki, init, eof, del := pg, ki, true, false, true;
    }

    /** Push child i of the branch page on top. */
    method Push(i: nat)
      requires Sound() && Stacked(root, pg, ki) && pg[|pg| - 1].Branch? && i < |pg[|pg| - 1].kids|
      modifies this`pg, this`ki
      ensures Stacked(root, pg, ki) && |pg| == old(|pg|) + 1 <= depth + 1
      ensures pg[|pg| - 1] == old(pg[|pg| - 1]).kids[i].sub && ki[|ki| - 1] == 0
      ensures From(root, pg, ki) == old(From(root, pg, ki)) + |KidEnts(old(pg[|pg| - 1]).kids[..i])|
    {
      hide Stacked, Ordered, OnPath, PageAt, KidEnts, From, Shape;
      StackSize(root, pg, ki);
      FromSetTop(root, pg, ki, i);
      ki := ki[|ki| - 1 := i];
      var mp := pg[|pg| - 1].kids[i].sub;
      FromPush(root, pg, ki, mp, 0);
      pg, ki := pg + [mp], ki + [0];
      StackHeight(psize, root, depth, pg, ki);
    }

    /** mdb_page_search: down from the root to the leaf where k belongs. */
    method PageSearch(k: real)
      requires Sound() && !del
      modifies this`pg, this`ki, this`init, this`eof
      ensures Valid() && init && !eof && ki[|ki| - 1] == 0
      ensures Between(root, From(root, pg, ki), To(root, pg, ki), k)
    {
      hide Stacked, Ordered, OrderedKids, OnPath, PageAt, KidEnts, From, Shape, Ents;
      pg, ki := [root], [0];
      RootStack(root);
      ghost var lo: Bound, hi: Bound := None, None;
      while pg[|pg| - 1].Branch?
        invariant |pg| == |ki| > 0 && Stacked(root, pg, ki) && |pg| <= depth + 1 && ki[|ki| - 1] == 0
        invariant Between(root, From(root, pg, ki), To(root, pg, ki), k)
        invariant Ordered(pg[|pg| - 1], lo, hi) && Below(lo, hi) && AtLeast(k, lo) && Under(k, hi)
        decreases depth + 1 - |pg|
      {
        var kids := pg[|pg| - 1].kids;
        BranchKids(pg[|pg| - 1], lo, hi);
        var i := SearchBranch(kids, k);
        DescendAround(root, pg, ki, kids, k, i, lo, hi);
        Push(i);
        StackSize(root, pg, ki);
        lo, hi := LoAt(kids, i, lo), HiAt(kids, i + 1, hi);
      }
      init, eof := true, false;
    }

    /** What mdb_cursor_set must answer for k: with SET_RANGE the first entry not below k, otherwise
        the entry of k. Found or not, it stands where k belongs: mdb_cursor_put inserts there. */
    ghost predicate Answers(k: real, range: bool, found: bool)
      reads this
    {
      var es, r := Ents(root), RankSeq(Ents(root), k);
      && (found <==> r < |es| && (range || es[r].0 == k))
      && init && OnLeaf() && Pos() == r && (found ==> !eof && OnNode())
    }

    /** The tail of mdb_cursor_set (set2): search the leaf, and go on to the next one for SET_RANGE. */
    method SetOnPage(k: real, range: bool) returns (found: bool)
      requires Valid() && init && !eof && !del && Between(root, From(root, pg, ki), To(root, pg, ki), k)
      modifies this`pg, this`ki, this`eof
      ensures Valid() && Answers(k, range, found)
    {
      hide Stacked, Ordered, OrderedKids, OnPath, PageAt, KidEnts, From, Shape, Ents, RankSeq, Sorted, LeafIndex;
      StackSize(root, pg, ki);
      var top := |pg| - 1;
      var nodes := pg[top].nodes;
      LeafSorted(root, pg, ki);
      LeafFilled(psize, root, depth, pg, ki);
      var i, exact := SearchLeaf(nodes, k);
      LeafRank(root, pg, ki, nodes, k);
      FromSetTop(root, pg, ki, i);
      ki := ki[top := i];
      if !range && !exact {
        return false;
      }
      if i >= |nodes| {
        ghost var pg0, ki0 := pg, ki;
        var ok := Sibling(true);
        StackSize(root, pg, ki);
        if !ok {
          eof := true;
          return false;
        }
        LeafAgain(psize, root, depth, pg, ki, pg0, ki0);
      }
      found := true;
    }

    /** The loop over the parents: does any of them have a page to the right? */
    method LastPage() returns (last: bool)
      requires Sound() && Stacked(root, pg, ki)
      ensures last ==> To(root, pg, ki) == |Ents(root)|
      ensures |pg| == 1 ==> last
    {
      hide Ordered, OnPath, PageAt, KidEnts, Shape;
      var i, top := 0, |pg| - 1;
      while i < top
        invariant 0 <= i <= top
        invariant forall j :: 0 <= j < i ==> ki[j] + 1 >= NumKeys(pg[j])
      {
        if ki[i] + 1 < NumKeys(pg[i]) { return false; }
        i := i + 1;
      }
      NothingRight(root, pg, ki);
      last := true;
    }

    /** mdb_cursor_get with MDB_SET or MDB_SET_RANGE, that is mdb_cursor_set: whatever shortcut the cursor takes from where it stands, the answer is the
        one a search from the root gives. */
    method Set(k: real, range: bool) returns (found: bool)
      requires Valid()
      modifies this
      ensures Valid() && Answers(k, range, found) && !del
    {
      hide Stacked, Ordered, OrderedKids, OnPath, PageAt, KidEnts, From, Shape, Ents, RankSeq, Sorted, LeafIndex;
      del := false;
      if init {
        StackSize(root, pg, ki);
        var top := |pg| - 1;
        var nodes := pg[top].nodes;
        LeafFilled(psize, root, depth, pg, ki);
        LeafSorted(root, pg, ki);
        TreeSorted(root);
        if k == nodes[0].key.rank {
          MoveTo(0, k);
          return true;
        }
        if k > nodes[0].key.rank {
          var nkeys := |nodes|;
          if nkeys > 1 {
            if k == nodes[nkeys - 1].key.rank {
              MoveTo(nkeys - 1, k);
              return true;
            }
            if k < nodes[nkeys - 1].key.rank {
              if ki[top] < nkeys {
                if k == nodes[ki[top]].key.rank {
                  MoveTo(ki[top], k);
                  return true;
                }
              }
              eof := false;
              InsidePage(root, pg, ki, nodes, k);
              found := SetOnPage(k, range);
              return;
            }
          }
          var last := LastPage();
          if last {
            PastLast(k);
            return false;
          }
        }
        if top == 0 {
          found := BeforeFirst(k, range);
          return;
        }
      }
      PageSearch(k);
      found := SetOnPage(k, range);
    }

    /** There is no page to the right and all keys are smaller: stand behind the last node. */
    method PastLast(k: real)
      requires Valid() && init && !del && To(root, pg, ki) == |Ents(root)|
      requires var nodes := pg[|pg| - 1].nodes; |nodes| > 0 && nodes[|nodes| - 1].key.rank < k
      modifies this`ki
      ensures Valid() && Answers(k, true, false) && Answers(k, false, false)
    {
      hide Stacked, Ordered, OrderedKids, OnPath, PageAt, KidEnts, From, Shape, Ents, RankSeq, Sorted;
      StackSize(root, pg, ki);
      var top := |pg| - 1;
      var nodes := pg[top].nodes;
      AboveAll(root, pg, ki, nodes, k);
      EntryOf(root, pg, ki, nodes, 0);
      FromSetTop(root, pg, ki, |nodes|);
      ki := ki[top := |nodes|];
    }

    /** The root is the only page and all keys are larger: stand on the first node. */
    method BeforeFirst(k: real, range: bool) returns (found: bool)
      requires Valid() && init && !del && |pg| == 1
      requires var nodes := pg[0].nodes; |nodes| > 0 && k < nodes[0].key.rank
      modifies this`ki, this`eof
      ensures Valid() && Answers(k, range, found)
    {
      hide Stacked, Ordered, OrderedKids, OnPath, PageAt, KidEnts, From, Shape, Ents, RankSeq, Sorted;
      StackSize(root, pg, ki);
      BelowAll(root, pg, ki, pg[0].nodes, k);
      FromSetTop(root, pg, ki, 0);
      ki := ki[0 := 0];
      if range { eof := false; }
      found := range;
    }

    /** set1: node i of the page is the one. */
    method MoveTo(i: nat, k: real)
      requires Valid() && init && i < |pg[|pg| - 1].nodes| && pg[|pg| - 1].nodes[i].key.rank == k
      modifies this`ki, this`eof
      ensures Valid() && Answers(k, true, true) && Answers(k, false, true)
    {
      hide Stacked, Ordered, OrderedKids, OnPath, PageAt, KidEnts, From, Shape, Ents, RankSeq, Sorted;
      StackSize(root, pg, ki);
      var top := |pg| - 1;
      FoundRank(root, pg, ki, pg[top].nodes, i, k);
      FromSetTop(root, pg, ki, i);
      ki := ki[top := i];
      eof := false;
    }

    /** mdb_cursor_get with MDB_FIRST, that is mdb_cursor_first. */
    method First()
      requires Sound()
      modifies this`pg, this`ki, this`init, this`eof, this`del
      ensures Valid() && init && !eof && !del && OnNode() && Pos() == 0
    {
      hide Stacked, Ordered, OrderedKids, OnPath, PageAt, KidEnts, From, Shape, Ents;
      pg, ki := [root], [0];
      RootStack(root);
      while pg[|pg| - 1].Branch?
        invariant |pg| == |ki| > 0 && Stacked(root, pg, ki) && |pg| <= depth + 1 && ki[|ki| - 1] == 0
        invariant From(root, pg, ki) == 0
        decreases depth + 1 - |pg|
      {
        SameLevel(psize, root, depth, pg, ki, pg, ki);
        KidLens(pg[|pg| - 1].kids, 0);
        Push(0);
        StackSize(root, pg, ki);
      }
      LeafFilled(psize, root, depth, pg, ki);
      init, eof, del := true, false, false;
    }

    /** The entry the cursor stands on. */
    method Current() returns (e: Entry)
      requires Valid() && init && OnNode()
      ensures Pos() < |Ents(root)| && e == Ents(root)[Pos()]
    {
      hide Stacked, Ordered, KidEnts, From, Shape, Ents;
      StackSize(root, pg, ki);
      var n := pg[|pg| - 1].nodes[ki[|ki| - 1]];
      EntryOf(root, pg, ki, pg[|pg| - 1].nodes, ki[|ki| - 1]);
      e := (n.key.rank, n.val);
    }

    /** Where mdb_cursor_next goes: one further, unless the cursor already is past its page or was
        left on the next node by a delete. */
    ghost function NextPos(): nat
      requires OnLeaf()
      reads this
    {
      if del && !(eof && ki[|ki| - 1] + 1 >= |pg[|pg| - 1].nodes|) then Pos()
      else if OnNode() then Pos() + 1 else Pos()
    }

    /** mdb_cursor_get with MDB_NEXT, that is mdb_cursor_next. */
    method Next() returns (found: bool)
      requires Valid()
      modifies this`pg, this`ki, this`init, this`eof, this`del
      ensures Valid() && init && !del
      ensures found ==> !eof && OnNode()
      ensures old(init) ==> (found <==> old(NextPos()) < |Ents(root)|)
      ensures found ==> Pos() == if old(init) then old(NextPos()) else 0
      ensures !old(init) ==> found
      ensures !found ==> pg == old(pg) && ki == old(ki)
    {
      hide Stacked, Ordered, OrderedKids, OnPath, PageAt, KidEnts, From, Shape, Ents;
      if !init {
        First();
        return true;
      }
      StackSize(root, pg, ki);
      var top := |pg| - 1;
      LeafFilled(psize, root, depth, pg, ki);
      EntryOf(root, pg, ki, pg[top].nodes, |pg[top].nodes| - 1);
      if eof {
        if ki[top] + 1 >= |pg[top].nodes| {
          del := false;
          return false;
        }
        eof := false;
      }
      if del {
        del := false;
        return true;
      }
      if ki[top] + 1 >= |pg[top].nodes| {
        ghost var pg0, ki0 := pg, ki;
        var ok := Sibling(true);
        StackSize(root, pg, ki);
        if !ok {
          eof := true;
          return false;
        }
        LeafAgain(psize, root, depth, pg, ki, pg0, ki0);
      } else {
        FromSetTop(root, pg, ki, ki[top] + 1);
        ki := ki[top := ki[top] + 1];
      }
      found := true;
    }

    /** A whole scan, first and then next until it fails, visits exactly the tree's entries in order. */
    method Scan() returns (out: seq<Entry>)
      requires Valid()
      modifies this`pg, this`ki, this`init, this`eof, this`del
      ensures Valid() && out == Ents(root)
    {
      hide Stacked, Ordered, KidEnts, From, Shape, Ents;
      First();
      var e := Current();
      out := [e];
      var more := Next();
      while more
        invariant Valid() && init && !del && |out| <= |Ents(root)| && out == Ents(root)[..|out|]
        invariant more ==> OnNode() && Pos() == |out|
        invariant !more ==> |out| == |Ents(root)|
        decreases |Ents(root)| - |out|, more
      {
        e := Current();
        out := out + [e];
        more := Next();
      }
    }
  }

  lemma TreeSorted(root: Tree)
    requires Ordered(root, None, None)
    ensures Sorted(Ents(root))
  {
    OrderedEnts(root, None, None);
  }

  lemma LeafSorted(root: Tree, pg: seq<Tree>, ki: seq<nat>)
    requires Ordered(root, None, None) && Stacked(root, pg, ki) && pg[|pg| - 1].Leaf?
    ensures Sorted(LeafEnts(pg[|pg| - 1].nodes))
  {
    hide KidEnts;
    var lo, hi := PageOrdered(root, ki[..|pg| - 1], None, None);
  }

  lemma LeafFilled(psize: nat, root: Tree, d: nat, pg: seq<Tree>, ki: seq<nat>)
    requires PageSize(psize) && Shape(psize, root, d) && Stacked(root, pg, ki) && pg[|pg| - 1].Leaf?
    ensures |pg[|pg| - 1].nodes| > 0
  {
    hide KidEnts;
    PageShape(psize, root, d, ki[..|pg| - 1]);
  }

  /** The entry of the tree that node i of the leaf on top holds. */
  lemma EntryOf(root: Tree, pg: seq<Tree>, ki: seq<nat>, nodes: seq<Node>, i: nat)
    requires Stacked(root, pg, ki) && pg[|pg| - 1] == Leaf(nodes) && i < |nodes|
    ensures From(root, pg, ki) + |nodes| == To(root, pg, ki) <= |Ents(root)|
    ensures Ents(root)[From(root, pg, ki) + i] == (nodes[i].key.rank, nodes[i].val)
  {
    hide KidEnts;
    var b := From(root, pg, ki);
    Slice(root, ki[..|pg| - 1]);
    assert Ents(root)[b + i] == Ents(root)[b..b + |nodes|][i];
  }

  lemma FoundRank(root: Tree, pg: seq<Tree>, ki: seq<nat>, nodes: seq<Node>, i: nat, k: real)
    requires Ordered(root, None, None) && Stacked(root, pg, ki) && pg[|pg| - 1] == Leaf(nodes)
    requires i < |nodes| && nodes[i].key.rank == k
    ensures var r := RankSeq(Ents(root), k); r == From(root, pg, ki) + i < |Ents(root)| && Ents(root)[r].0 == k
  {
    hide KidEnts, Stacked, Ordered, From, Ents, RankSeq, Sorted;
    TreeSorted(root);
    EntryOf(root, pg, ki, nodes, i);
    RankFound(Ents(root), k, From(root, pg, ki) + i);
  }

  /** The rank of k, from the search in the leaf where it belongs. */
  lemma LeafRank(root: Tree, pg: seq<Tree>, ki: seq<nat>, nodes: seq<Node>, k: real)
    requires Ordered(root, None, None) && Stacked(root, pg, ki) && pg[|pg| - 1] == Leaf(nodes)
    requires Between(root, From(root, pg, ki), To(root, pg, ki), k) && |nodes| > 0
    ensures var r, i, es := RankSeq(Ents(root), k), LeafIndex(nodes, k), Ents(root);
      && r == From(root, pg, ki) + i
      && (Exact(nodes, k) <==> r < |es| && es[r].0 == k)
      && (i < |nodes| ==> r < |es|) && (i == |nodes| ==> r == To(root, pg, ki))
  {
    hide KidEnts, Stacked, Ordered, From, Ents, RankSeq, Sorted, LeafIndex;
    TreeSorted(root);
    var i, b, es := LeafIndex(nodes, k), From(root, pg, ki), Ents(root);
    LeafIndexBelow(nodes, k);
    EntryOf(root, pg, ki, nodes, 0);
    if i > 0 { EntryOf(root, pg, ki, nodes, i - 1); }
    if i < |nodes| { EntryOf(root, pg, ki, nodes, i); }
    RankUnique(es, k, b + i);
  }

  /** After moving to a sibling the cursor is on a leaf again, and on a node of it. */
  lemma LeafAgain(psize: nat, root: Tree, d: nat, pg: seq<Tree>, ki: seq<nat>, pg0: seq<Tree>, ki0: seq<nat>)
    requires PageSize(psize) && Shape(psize, root, d) && Stacked(root, pg, ki) && Stacked(root, pg0, ki0)
    requires |pg| == |pg0| && pg0[|pg| - 1].Leaf?
    ensures pg[|pg| - 1].Leaf? && |pg[|pg| - 1].nodes| > 0 && From(root, pg, ki) < |Ents(root)|
  {
    hide KidEnts, Stacked, Ordered, From, Ents, Shape;
    StackSize(root, pg, ki);
    StackSize(root, pg0, ki0);
    SameLevel(psize, root, d, pg0, ki0, pg, ki);
    LeafFilled(psize, root, d, pg, ki);
    EntryOf(root, pg, ki, pg[|pg| - 1].nodes, 0);
  }

  /** No parent has a page to the right: the leaf is the last one. */
  lemma {:induction false} NothingRight(root: Tree, pg: seq<Tree>, ki: seq<nat>)
    requires Stacked(root, pg, ki)
    requires forall j :: 0 <= j < |pg| - 1 ==> ki[j] + 1 >= NumKeys(pg[j])
    ensures To(root, pg, ki) == |Ents(root)|
    decreases |pg|
  {
    hide KidEnts, From, Stacked;
    StackSize(root, pg, ki);
    if |pg| == 1 {
      OnlyRoot(root, pg, ki);
    } else {
      var n := |pg| - 1;
      FromChild(root, pg, ki);
      KidLens(pg[n - 1].kids, ki[n - 1]);
      NothingRight(root, pg[..n], ki[..n]);
    }
  }

  /** k lies strictly between the first and the last key of the page. */
  lemma InsidePage(root: Tree, pg: seq<Tree>, ki: seq<nat>, nodes: seq<Node>, k: real)
    requires Ordered(root, None, None) && Stacked(root, pg, ki) && pg[|pg| - 1] == Leaf(nodes)
    requires |nodes| > 0 && nodes[0].key.rank < k < nodes[|nodes| - 1].key.rank
    ensures Between(root, From(root, pg, ki), To(root, pg, ki), k)
  {
    hide KidEnts, Stacked, Ordered, From, Ents, RankSeq;
    TreeSorted(root);
    var b, n, es := From(root, pg, ki), |nodes|, Ents(root);
    EntryOf(root, pg, ki, nodes, 0);
    EntryOf(root, pg, ki, nodes, n - 1);
    forall j | 0 <= j < b ensures es[j].0 < k { assert es[j].0 < es[b].0; }
    forall j | b + n <= j < |es| ensures k < es[j].0 { assert es[b + n - 1].0 < es[j].0; }
  }

  lemma AboveAll(root: Tree, pg: seq<Tree>, ki: seq<nat>, nodes: seq<Node>, k: real)
    requires Ordered(root, None, None) && Stacked(root, pg, ki) && pg[|pg| - 1] == Leaf(nodes)
    requires |nodes| > 0 && nodes[|nodes| - 1].key.rank < k && To(root, pg, ki) == |Ents(root)|
    ensures RankSeq(Ents(root), k) == |Ents(root)|
  {
    hide KidEnts, Stacked, Ordered, From, Ents, RankSeq, Sorted;
    TreeSorted(root);
    EntryOf(root, pg, ki, nodes, |nodes| - 1);
    RankUnique(Ents(root), k, |Ents(root)|);
  }

  lemma BelowAll(root: Tree, pg: seq<Tree>, ki: seq<nat>, nodes: seq<Node>, k: real)
    requires Ordered(root, None, None) && Stacked(root, pg, ki) && |pg| == 1 && pg[0] == Leaf(nodes)
    requires |nodes| > 0 && k < nodes[0].key.rank
    ensures RankSeq(Ents(root), k) == 0 == From(root, pg, ki) && |Ents(root)| > 0 && Ents(root)[0].0 != k
  {
    hide KidEnts, Stacked, Ordered, From, Ents, RankSeq, Sorted;
    TreeSorted(root);
    OnlyRoot(root, pg, ki);
    EntryOf(root, pg, ki, nodes, 0);
    RankUnique(Ents(root), k, 0);
  }

  /** Entries before `from` are below k, entries from `to` on above it. */
  ghost predicate Between(root: Tree, from: nat, to: nat, k: real) {
    && from <= to <= |Ents(root)|
    && (forall j :: 0 <= j < from ==> Ents(root)[j].0 < k)
    && (forall j :: to <= j < |Ents(root)| ==> k < Ents(root)[j].0)
  }

  lemma RootStack(root: Tree)
    ensures Stacked(root, [root], [0]) && From(root, [root], [0]) == 0
    ensures forall k :: Between(root, 0, |Ents(root)|, k)
  {
    var ki: seq<nat> := [0];
    assert ki[..0] == [];
  }

  lemma StackHeight(psize: nat, root: Tree, d: nat, pg: seq<Tree>, ki: seq<nat>)
    requires PageSize(psize) && Shape(psize, root, d) && Stacked(root, pg, ki)
    ensures |pg| <= d + 1
  {
    PageShape(psize, root, d, ki[..|pg| - 1]);
  }

  lemma BranchKids(t: Tree, lo: Bound, hi: Bound)
    requires t.Branch? && Ordered(t, lo, hi)
    ensures t.kids != [] && Separated(t.kids) && OrderedKids(t.kids, lo, hi)
  {
    OrderedSeparated(t.kids, lo, hi);
  }

  /** Going down to the child for k keeps everything else on its side. */
  lemma DescendAround(root: Tree, pg: seq<Tree>, ki: seq<nat>, kids: seq<Kid>, k: real, i: nat, lo: Bound, hi: Bound)
    requires Stacked(root, pg, ki) && pg[|pg| - 1] == Branch(kids) && kids != [] && OrderedKids(kids, lo, hi)
    requires AtLeast(k, lo) && Under(k, hi) && i == ChildIndex(kids, k)
    requires Between(root, From(root, pg, ki), To(root, pg, ki), k)
    ensures var b := From(root, pg, ki) + |KidEnts(kids[..i])|; Between(root, b, b + |Ents(kids[i].sub)|, k)
    ensures Ordered(kids[i].sub, LoAt(kids, i, lo), HiAt(kids, i + 1, hi)) && Below(LoAt(kids, i, lo), HiAt(kids, i + 1, hi))
    ensures AtLeast(k, LoAt(kids, i, lo)) && Under(k, HiAt(kids, i + 1, hi))
  {
    hide OrderedKids, Ordered, KidEnts, ChildIndex;
    ChildOrdered(kids, i, lo, hi);
    ChildIndexBounds(kids, k, lo, hi);
    ChildAround(kids, k, lo, hi);
    Slice(root, ki[..|pg| - 1]);
    NarrowAround(Ents(root), From(root, pg, ki), KidEnts(kids[..i]), Ents(kids[i].sub), KidEnts(kids[i + 1..]), k);
  }

  lemma NarrowAround(es: seq<Entry>, b: nat, a: seq<Entry>, m: seq<Entry>, c: seq<Entry>, k: real)
    requires b + |a + m + c| <= |es| && es[b..b + |a + m + c|] == a + m + c && Around(a, c, k)
    requires forall j :: 0 <= j < b ==> es[j].0 < k
    requires forall j :: b + |a + m + c| <= j < |es| ==> k < es[j].0
    ensures forall j :: 0 <= j < b + |a| ==> es[j].0 < k
    ensures forall j :: b + |a| + |m| <= j < |es| ==> k < es[j].0
  {
    var all := a + m + c;
    forall j | b <= j < b + |a| ensures es[j].0 < k { assert es[j] == es[b..b + |all|][j - b] && all[j - b] in a; }
    forall j | b + |a| + |m| <= j < b + |all| ensures k < es[j].0 {
      assert es[j] == es[b..b + |all|][j - b] && all[j - b] in c;
    }
  }

  lemma StackSize(root: Tree, pg: seq<Tree>, ki: seq<nat>)
    requires Stacked(root, pg, ki)
    ensures |pg| == |ki| > 0
  {
  }

  lemma OnlyRoot(root: Tree, pg: seq<Tree>, ki: seq<nat>)
    requires Stacked(root, pg, ki) && |pg| == 1
    ensures From(root, pg, ki) == 0 && To(root, pg, ki) == |Ents(root)|
  {
    assert ki[..0] == [];
  }

  /** The number of entries under the first children. */
  lemma KidLens(kids: seq<Kid>, i: nat)
    requires i < |kids|
    ensures |KidEnts(kids[..i + 1])| == |KidEnts(kids[..i])| + |Ents(kids[i].sub)|
    ensures |KidEnts(kids[..0])| == 0
    ensures i + 1 == |kids| ==> KidEnts(kids[..i + 1]) == KidEnts(kids)
  {
    KidsSplit(kids, i);
    assert kids[..0] == [];
    if i + 1 == |kids| { assert kids[..i + 1] == kids; }
  }

  /** The page on top, seen from its parent. */
  lemma FromChild(root: Tree, pg: seq<Tree>, ki: seq<nat>)
    requires Stacked(root, pg, ki) && |pg| > 1
    ensures var n := |pg| - 1;
      && Stacked(root, pg[..n], ki[..n])
      && pg[n - 1].Branch? && ki[n - 1] < |pg[n - 1].kids| && pg[n] == pg[n - 1].kids[ki[n - 1]].sub
      && From(root, pg, ki) == From(root, pg[..n], ki[..n]) + |KidEnts(pg[n - 1].kids[..ki[n - 1]])|
  {
    hide KidEnts, OnPath, PageAt, Before;
    PopStack(root, pg, ki);
    var n := |pg| - 1;
    assert ki[..n][..n - 1] == ki[..n - 1];
  }

  lemma FromSetTop(root: Tree, pg: seq<Tree>, ki: seq<nat>, k: nat)
    requires Stacked(root, pg, ki)
    ensures |ki| == |pg| > 0 && Stacked(root, pg, ki[|pg| - 1 := k])
    ensures From(root, pg, ki[|pg| - 1 := k]) == From(root, pg, ki)
  {
    SetTop(root, pg, ki, k);
  }

  lemma FromPush(root: Tree, pg: seq<Tree>, ki: seq<nat>, mp: Tree, k: nat)
    requires Stacked(root, pg, ki)
    requires var top := |pg| - 1; pg[top].Branch? && ki[top] < |pg[top].kids| && mp == pg[top].kids[ki[top]].sub
    ensures Stacked(root, pg + [mp], ki + [k])
    ensures From(root, pg + [mp], ki + [k]) == From(root, pg, ki) + |KidEnts(pg[|pg| - 1].kids[..ki[|pg| - 1]])|
  {
    hide KidEnts, OnPath, PageAt, Before;
    PushStack(root, pg, ki, k);
    assert (ki + [k])[..|pg|] == ki;
  }

  /** The pages on top of two stacks of the same height are at the same level of the tree. */
  lemma SameLevel(psize: nat, root: Tree, d: nat, pg: seq<Tree>, ki: seq<nat>, pg': seq<Tree>, ki': seq<nat>)
    requires PageSize(psize) && Shape(psize, root, d) && Stacked(root, pg, ki) && Stacked(root, pg', ki') && |pg| == |pg'|
    ensures pg[|pg| - 1].Branch? == pg'[|pg| - 1].Branch?
    ensures NumKeys(pg'[|pg| - 1]) > 0
  {
    hide KidEnts, BranchOk, LeafOk;
    var top := |pg| - 1;
    PageShape(psize, root, d, ki[..top]);
    PageShape(psize, root, d, ki'[..top]);
  }

  lemma ChildKeys(psize: nat, root: Tree, d: nat, pg: seq<Tree>, ki: seq<nat>)
    requires PageSize(psize) && Shape(psize, root, d) && Stacked(root, pg, ki)
    requires var top := |pg| - 1; pg[top].Branch? && ki[top] < |pg[top].kids|
    ensures NumKeys(pg[|pg| - 1].kids[ki[|pg| - 1]].sub) > 0
  {
    hide KidEnts, BranchOk, LeafOk;
    var top := |pg| - 1;
    Descend(root, ki[..top], ki[top]);
    PageShape(psize, root, d, ki[..top] + [ki[top]]);
  }
}
