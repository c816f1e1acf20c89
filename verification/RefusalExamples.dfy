/**
  Databases with pages of 4096 bytes on which a put, or a delete, fails with MDB_PAGE_FULL
  although the page could have been cut elsewhere.
 */
module RefusalExamples {
  import opened Wrappers
  import opened SplitPoint
  import opened BTree
  import opened Refusal
  import opened BTreeShape
  import opened SortedMap
  import opened BTreeOrder
  import opened BTreeTheorems

  // ---------------------------------------------------------------- a put

  /** Thirty-two puts in ascending order: 15 items of 258 bytes, then 17 of 12. */
  function FillingOp(i: nat): Op {
    PutOp(Key(i as real, 2), Val(0, if i < 15 then 246 else 0), false)
  }

  function Filling(): seq<Op> { seq(32, i requires 0 <= i < 32 => FillingOp(i)) }

  function FilledNode(i: nat): Node {
    Node(FillingOp(i).key, FillingOp(i).val, false)
  }

  /** The nodes the puts leave in the only leaf. */
  function Filled(): seq<Node> { seq(32, i requires 0 <= i < 32 => FilledNode(i)) }

  const LAST: Op := PutOp(Key(-1.0, 2), Val(0, 238), false)

  lemma FilledSizes()
    ensures LeafSizes(Filled()) == Repeat(15, 258) + Repeat(17, 12)
    ensures Sum(LeafSizes(Filled())) == 4074
  {
    assert LeafSizes(Filled()) == Repeat(15, 258) + Repeat(17, 12);
    SumRepeat(15, 258);
    SumRepeat(17, 12);
    SumConcat(Repeat(15, 258), Repeat(17, 12));
  }

  lemma {:induction false} LeafIndexEnd(nodes: seq<Node>, k: real)
    requires forall i :: 0 <= i < |nodes| ==> nodes[i].key.rank < k
    ensures LeafIndex(nodes, k) == |nodes|
  {
    if nodes != [] { LeafIndexEnd(nodes[1..], k); }
  }

  /** The first n puts fill the leaf without a split. */
  lemma {:induction false} FillLeaf(n: nat)
    requires n <= 32
    ensures RunDb(4096, Filling()[..n]) == Some(if n == 0 then None else Some(Leaf(Filled()[..n])))
  {
    if n > 0 {
      hide Sum, LeafSizes;
      var ops, nodes := Filling()[..n], Filled()[..n - 1];
      assert ops[..n - 1] == Filling()[..n - 1] && ops[n - 1] == FillingOp(n - 1);
      FillLeaf(n - 1);
      assert Filled()[..n] == nodes + [FilledNode(n - 1)];
      assert MakeNode(4096, FillingOp(n - 1).key, FillingOp(n - 1).val) == FilledNode(n - 1);
      if n == 1 {
        assert nodes == [] && Filled()[..1] == [FilledNode(0)];
      } else {
        LeafIndexEnd(nodes, (n - 1) as real);
        RoomLeft(n);
        assert With(nodes, n - 1, FilledNode(n - 1)) == Filled()[..n];
      }
    }
  }

  lemma RoomLeft(n: nat)
    requires 0 < n <= 32
    ensures Sum(LeafSizes(Filled()[..n - 1])) + LeafSize(FilledNode(n - 1)) <= PMax(4096)
  {
    var nodes := Filled();
    FilledSizes();
    assert nodes == nodes[..n - 1] + [nodes[n - 1]] + nodes[n..];
    LeafSizesConcat(nodes[..n - 1] + [nodes[n - 1]], nodes[n..]);
    LeafSizesConcat(nodes[..n - 1], [nodes[n - 1]]);
    LeafSizesOne(nodes[n - 1]);
  }

  lemma FilledOk()
    ensures LeafOk(4096, Filled())
  {
    FilledSizes();
    forall x | x in Filled() ensures NodeOk(4096, x) {
      var i :| 0 <= i < 32 && Filled()[i] == x;
    }
  }

  function LastNode(): Node { Node(LAST.key, LAST.val, false) }

  lemma LastNodeOk()
    ensures MakeNode(4096, LAST.key, LAST.val) == LastNode() && NodeOk(4096, LastNode()) && LeafSize(LastNode()) == 250
  {
  }

  lemma LastIsRefused()
    ensures AddNode(4096, Filled(), 0, LastNode()).Full?
  {
    hide AddNode, SplitFits, LeafSizes, LeafSize, Filled, NodeOk, LeafOk, LastNode, Sum, MustSplit, Repeat, Halves, With;
    FilledSizes();
    FilledOk();
    LastNodeOk();
    MidpointCanOverflow();
    AddNodeOk(4096, Filled(), 0, LastNode());
  }

  lemma CutElsewhere()
    ensures CutLeaf(4096, With(Filled(), 0, LastNode()), 14).Two?
  {
    hide SplitFits, LeafSizes, LeafSize, Filled, NodeOk, LastNode, Sum, MustSplit, Repeat, Halves, Fits;
    var nodes, n := Filled(), LastNode();
    FilledSizes();
    FilledOk();
    LastNodeOk();
    MidpointCanOverflow();
    LeafSizesWith(nodes, 0, n);
    assert forall x :: x in With(nodes, 0, n) ==> x in nodes || x == n;
    CutLeafOk(4096, With(nodes, 0, n), 14);
  }

  /** A run of puts the last of which is refused: the new page is cut in the middle, at 16, where
      the left half would not fit. Cut at 14, both halves would. */
  lemma PutCanBeRefused()
    ensures RunDb(4096, Filling()) == Some(Some(Leaf(Filled())))
    ensures RunDb(4096, Filling() + [LAST]).None?
    ensures CutLeaf(4096, With(Filled(), 0, MakeNode(4096, LAST.key, LAST.val)), 14).Two?
  {
    hide AddNode, CutLeaf, With, LeafSizes;
    var all := Filling() + [LAST];
    FillLeaf(32);
    assert Filling()[..32] == Filling() && Filled()[..32] == Filled();
    assert all[..32] == Filling() && all[32] == LAST;
    LastNodeOk();
    LastIsRefused();
    CutElsewhere();
  }

  // ---------------------------------------------------------------- a delete

  /** A leaf of one short item, under its own key as separator. */
  function Single(j: nat, ksize: nat): Kid {
    Kid(Key(j as real, ksize), Leaf([Node(Key(j as real, ksize), Val(0, 0), false)]))
  }

  function Singles(start: nat, n: nat, ksize: nat): (s: seq<Kid>)
    ensures |s| == n && forall m :: 0 <= m < n ==> s[m] == Single(start + m, ksize)
  {
    seq(n, m requires 0 <= m < n => Single(start + m, ksize))
  }

  /** The right neighbour of the leaf that becomes empty; its second key is long. */
  function Giver(): Tree {
    Leaf([Node(Key(1.0, 2), Val(0, 1100), false), Node(Key(1.5, 244), Val(0, 0), false)])
  }

  function Front(): seq<Kid> {
    [Kid(NOKEY, Leaf([Node(Key(0.0, 2), Val(0, 0), false)])), Kid(Key(1.0, 2), Giver())]
  }

  /** 15 long separators, then 17 short ones. */
  function Back(): seq<Kid> { Singles(2, 15, 246) + Singles(17, 17, 2) }

  function Crowded(): Tree { Branch(Front() + Back()) }

  lemma SinglesSizes(start: nat, n: nat, ksize: nat)
    ensures KidSizes(Singles(start, n, ksize)) == Repeat(n, KidSize(Key(0.0, ksize)))
  {
    assert KidSizes(Singles(start, n, ksize)) == Repeat(n, KidSize(Key(0.0, ksize)));
  }

  lemma BackSizes()
    ensures KidSizes(Back()) == Repeat(15, 256) + Repeat(17, 12)
    ensures Sum(KidSizes(Back())) == 4044
  {
    SinglesSizes(2, 15, 246);
    SinglesSizes(17, 17, 2);
    KidSizesConcat(Singles(2, 15, 246), Singles(17, 17, 2));
    SumRepeat(15, 256);
    SumRepeat(17, 12);
  }

  lemma SmallLeafShape(n: Node)
    requires NodeOk(4096, n)
    ensures Shape(4096, Leaf([n]), 0)
  {
    LeafSizesOne(n);
    NodeSizeBound(4096, n);
  }

  lemma SinglesOk(start: nat, n: nat, ksize: nat)
    requires ksize <= 246
    ensures KidsOk(4096, Singles(start, n, ksize), 1)
  {
    hide Shape;
    forall x | x in Singles(start, n, ksize) ensures x.key.size <= MAXKEY && Shape(4096, x.sub, 0) {
      var m :| 0 <= m < n && Singles(start, n, ksize)[m] == x;
      SmallLeafShape(Single(start + m, ksize).sub.nodes[0]);
    }
  }

  lemma GiverOk()
    ensures Shape(4096, Giver(), 0) && CanGive(4096, Giver())
  {
    var a, b := Node(Key(1.0, 2), Val(0, 1100), false), Node(Key(1.5, 244), Val(0, 0), false);
    assert Giver().nodes == [a] + [b];
    LeafSizesConcat([a], [b]);
    LeafSizesOne(a);
    LeafSizesOne(b);
  }

  lemma CrowdedOk()
    ensures Shape(4096, Crowded(), 1)
  {
    hide Shape, KidSizes, Sum;
    var a, b := Front()[0], Front()[1];
    assert Front() == [a] + [b];
    KidSizesConcat([a], [b]);
    KidSizesOne(a);
    KidSizesOne(b);
    SmallLeafShape(a.sub.nodes[0]);
    GiverOk();
    SinglesOk(2, 15, 246);
    SinglesOk(17, 17, 2);
    JoinKids(4096, Singles(2, 15, 246), Singles(17, 17, 2), 1);
    BackSizes();
    JoinKids(4096, Front(), Back(), 1);
    BranchShape(4096, Front() + Back(), 1);
  }

  lemma {:induction false} SinglesOrdered(start: nat, n: nat, ksize: nat, hi: Bound)
    requires n > 0 && Below(Some((start + n - 1) as real), hi)
    ensures OrderedKids(Singles(start, n, ksize), Some(start as real), hi)
    decreases n
  {
    var s := Singles(start, n, ksize);
    SingleOrdered(start, ksize, if n == 1 then hi else Some((start + 1) as real));
    if n > 1 {
      SinglesOrdered(start + 1, n - 1, ksize, hi);
      assert s[1..] == Singles(start + 1, n - 1, ksize);
    }
  }

  lemma SingleOrdered(j: nat, ksize: nat, hi: Bound)
    requires Below(Some(j as real), hi)
    ensures Ordered(Single(j, ksize).sub, Some(j as real), hi)
  {
    assert LeafEnts(Single(j, ksize).sub.nodes) == [(j as real, Val(0, 0))];
  }

  lemma CrowdedOrdered()
    ensures Ordered(Crowded(), None, None)
  {
    hide Singles;
    SinglesOrdered(2, 15, 246, Some(17.0));
    SinglesOrdered(17, 17, 2, None);
    assert Singles(2, 15, 246)[0].key.rank == 2.0 && Singles(17, 17, 2)[0].key.rank == 17.0;
    OrderedConcat(Singles(2, 15, 246), Singles(17, 17, 2), Some(2.0), None);
    FrontOrdered();
    assert Back()[0].key.rank == 2.0;
    OrderedConcat(Front(), Back(), None, None);
  }

  lemma FrontOrdered()
    ensures OrderedKids(Front(), None, Some(2.0))
  {
    SingleOrdered(0, 2, Some(1.0));
    assert Ordered(Front()[0].sub, None, Some(1.0)) by {
      assert LeafEnts(Front()[0].sub.nodes) == [(0.0, Val(0, 0))];
    }
    assert LeafEnts(Giver().nodes) == [(1.0, Val(0, 1100)), (1.5, Val(0, 0))];
    assert Front()[1..] == [Front()[1]];
  }

  /** The parent's other nodes once the emptied leaf has taken the short key from its neighbour,
      and the node that has to go between them. */
  function Others(): seq<Kid> { [Kid(NOKEY, Leaf(Giver().nodes[..1]))] + Back() }
  function NewKid(): Kid { Kid(Key(1.5, 244), Leaf(Giver().nodes[1..])) }

  lemma OthersSizes()
    ensures KidSizes(Others()) == [10] + (Repeat(15, 256) + Repeat(17, 12)) && KidSize(NewKid().key) == 254
  {
    hide Back;
    var first := Kid(NOKEY, Leaf(Giver().nodes[..1]));
    BackSizes();
    KidSizesConcat([first], Back());
    KidSizesOne(first);
  }

  /** The branch page has no room for the longer separator; cut in the middle, at 17, the left
      half would not fit, cut at 15 both would. */
  lemma MiddleOfOthers()
    ensures var sizes := [10] + (Repeat(15, 256) + Repeat(17, 12));
      && Stuck(4096, false, sizes, 1, 254) && Halves(4080, false, With(sizes, 1, 254), 15)
  {
    hide Sum;
    var long, short := Repeat(15, 256), Repeat(17, 12);
    var sizes := [10] + (long + short);
    SumRepeat(15, 256);
    SumRepeat(17, 12);
    SumConcat(long, short);
    SumCons(sizes, 0);
    assert sizes[0..] == sizes && sizes[1..] == long + short;
    assert sizes[..16] == [10] + long;
    SumCons([10] + long, 0);
    assert ([10] + long)[0..] == [10] + long && ([10] + long)[1..] == long;
    var all := With(sizes, 1, 254);
    SumWith(sizes, 1, 254);
    SumSplit(all, 16);
    SumSnoc(all, 15);
    WithSides(sizes, 1, 254, 16);
    assert sizes[..15] == ([10] + long)[..15];
    SumSnoc([10] + long, 15);
    assert ([10] + long)[..16] == [10] + long;
    SumWith(sizes[..15], 1, 254);
  }

  /** Deleting the only item of the first leaf moves an item there from its neighbour, and the
      neighbour's new separator has no place. */
  lemma DelCanBeRefused()
    ensures DbOk(4096, Some(Crowded())) && DbOrdered(Some(Crowded()))
    ensures Del(4096, Some(Crowded()), 0.0) == Deleted(PageFull)
    ensures CutBranch(4096, With(Others(), 1, NewKid()), 15).Two?
  {
    CrowdedOk();
    CrowdedOrdered();
    CrowdedStuck();
    DelKeepsShape(4096, Some(Crowded()), 0.0);
    OtherCut();
  }

  lemma CrowdedStuck()
    ensures DelStuck(4096, Crowded(), 0.0)
  {
    hide Stuck, Sum, KidSizes, CanGive;
    var kids := Front() + Back();
    var empty := Leaf([]);
    assert kids[0].sub.nodes[..0] + kids[0].sub.nodes[1..] == [];
    assert DelAt(4096, kids[0].sub, 0.0) == Shrunk(One(empty), true);
    var after := kids[0 := Kid(kids[0].key, empty)];
    GiverOk();
    OthersSizes();
    MiddleOfOthers();
    KidSizesSameKeys(after[..1] + after[2..], Others());
  }

  lemma OtherCut()
    ensures CutBranch(4096, With(Others(), 1, NewKid()), 15).Two?
  {
    OthersSizes();
    MiddleOfOthers();
    KidSizesWith(Others(), 1, NewKid());
    CutSizes(With(Others(), 1, NewKid()), 15);
  }
}
