/** Put, delete and get refine the sorted map. */
module BTreeRefines {
  import opened Wrappers
  import opened SplitPoint
  import opened BTree
  import opened SortedMap
  import opened BTreeOrder

  /** The pages an outcome leaves in the place of one page. */
  function Pages(u: Outcome): seq<Kid>
    requires !u.Full?
  {
    match u
    case One(t) => [Kid(NOKEY, t)]
    case Two(l, sep, r) => [Kid(NOKEY, l), Kid(sep, r)]
  }

  /** Unless the page was full, the pages are ordered within [lo, hi) and hold exactly es. */
  ghost predicate Holds(u: Outcome, es: seq<Entry>, lo: Bound, hi: Bound) {
    u.Full? || (OrderedKids(Pages(u), lo, hi) && KidEnts(Pages(u)) == es)
  }

  lemma OneHolds(t: Tree, lo: Bound, hi: Bound)
    ensures Holds(One(t), Ents(t), lo, hi) <==> Below(lo, hi) && Ordered(t, lo, hi)
  {
    KidEntsOne(Kid(NOKEY, t));
  }

  lemma TwoHolds(l: Tree, sep: Key, r: Tree, lo: Bound, hi: Bound)
    ensures var m := Some(sep.rank);
      Holds(Two(l, sep, r), Ents(l) + Ents(r), lo, hi) <==>
        Below(lo, m) && Below(m, hi) && Ordered(l, lo, m) && Ordered(r, m, hi)
  {
    var p, a, b := [Kid(NOKEY, l), Kid(sep, r)], [Kid(NOKEY, l)], [Kid(sep, r)];
    assert p == a + b;
    KidEntsConcat(a, b);
    KidEntsOne(a[0]);
    KidEntsOne(b[0]);
    OrderedConcat(a, b, lo, hi);
  }

  // ---------------------------------------------------------------- splits keep the contents

  /** The part of sorted entries below entry s. */
  lemma PartBelow(es: seq<Entry>, s: nat, lo: Bound, hi: Bound)
    requires 0 < s < |es| && Sorted(es) && Within(es, lo, hi)
    ensures Sorted(es[..s]) && Within(es[..s], lo, Some(es[s].0)) && Below(lo, Some(es[s].0))
  {
    assert es[0] in es;
    forall e | e in es[..s] ensures AtLeast(e.0, lo) && e.0 < es[s].0 {
      var i :| 0 <= i < s && es[i] == e;
    }
  }

  /** ... and the part from entry s on. */
  lemma PartAbove(es: seq<Entry>, s: nat, lo: Bound, hi: Bound)
    requires 0 < s < |es| && Sorted(es) && Within(es, lo, hi)
    ensures Sorted(es[s..]) && Within(es[s..], Some(es[s].0), hi) && Below(Some(es[s].0), hi)
  {
    assert es[s] in es;
    forall e | e in es[s..] ensures es[s].0 <= e.0 && Under(e.0, hi) {
      var i :| s <= i < |es| && es[i] == e;
    }
  }

  lemma LeafTwo(nodes: seq<Node>, i: nat)
    requires i <= |nodes|
    ensures LeafEnts(nodes[..i]) == LeafEnts(nodes)[..i] && LeafEnts(nodes[i..]) == LeafEnts(nodes)[i..]
    ensures LeafEnts(nodes) == LeafEnts(nodes[..i]) + LeafEnts(nodes[i..])
  {
    assert nodes == nodes[..i] + nodes[i..];
    LeafEntsConcat(nodes[..i], nodes[i..]);
  }

  lemma LeafPart(nodes: seq<Node>, s: nat, lo: Bound, hi: Bound)
    requires 0 < s < |nodes| && Sorted(LeafEnts(nodes)) && Within(LeafEnts(nodes), lo, hi)
    ensures var m := Some(nodes[s].key.rank);
      && Below(lo, m) && Below(m, hi)
      && Ordered(Leaf(nodes[..s]), lo, m) && Ordered(Leaf(nodes[s..]), m, hi)
      && LeafEnts(nodes) == LeafEnts(nodes[..s]) + LeafEnts(nodes[s..])
  {
    LeafTwo(nodes, s);
    PartBelow(LeafEnts(nodes), s, lo, hi);
    PartAbove(LeafEnts(nodes), s, lo, hi);
  }

  lemma CutLeafHolds(psize: nat, all: seq<Node>, s: nat, lo: Bound, hi: Bound)
    requires PageSize(psize) && Sorted(LeafEnts(all)) && Within(LeafEnts(all), lo, hi)
    ensures Holds(CutLeaf(psize, all, s), LeafEnts(all), lo, hi)
  {
    if 0 < s < |all| {
      LeafPart(all, s, lo, hi);
      TwoHolds(Leaf(all[..s]), all[s].key, Leaf(all[s..]), lo, hi);
    }
  }

  lemma CutBranchHolds(psize: nat, all: seq<Kid>, s: nat, lo: Bound, hi: Bound)
    requires PageSize(psize) && all != [] && OrderedKids(all, lo, hi)
    ensures Holds(CutBranch(psize, all, s), KidEnts(all), lo, hi)
  {
    if 0 < s < |all| {
      var a, b := all[..s], all[s..];
      assert all == a + b;
      OrderedConcat(a, b, lo, hi);
      KidEntsConcat(a, b);
      OrderedKidEnts(a, lo, Some(all[s].key.rank));
      OrderedKidEnts(b, Some(all[s].key.rank), hi);
      ImplicitOrdered(b, Some(all[s].key.rank), hi);
      assert Implicit(b) == [Kid(NOKEY, all[s].sub)] + all[s + 1..];
      TwoHolds(Branch(a), all[s].key, Branch(Implicit(b)), lo, hi);
    }
  }

  lemma AddNodeHolds(psize: nat, nodes: seq<Node>, i: nat, n: Node, lo: Bound, hi: Bound)
    requires PageSize(psize) && i <= |nodes| && Below(lo, hi)
    requires var es := LeafEnts(With(nodes, i, n)); Sorted(es) && Within(es, lo, hi)
    ensures Holds(AddNode(psize, nodes, i, n), LeafEnts(With(nodes, i, n)), lo, hi)
  {
    OneHolds(Leaf(With(nodes, i, n)), lo, hi);
    if |nodes| >= 2 {
      CutLeafHolds(psize, With(nodes, i, n), SplitIndex(PMax(psize), true, LeafSizes(nodes), i, LeafSize(n)), lo, hi);
    }
  }

  lemma SplitBranchHolds(psize: nat, kids: seq<Kid>, i: nat, kid: Kid, lo: Bound, hi: Bound)
    requires PageSize(psize) && i <= |kids| && OrderedKids(With(kids, i, kid), lo, hi)
    ensures Holds(SplitBranch(psize, kids, i, kid), KidEnts(With(kids, i, kid)), lo, hi)
  {
    if |kids| >= 2 {
      CutBranchHolds(psize, With(kids, i, kid), SplitIndex(PMax(psize), false, KidSizes(kids), i, KidSize(kid.key)), lo, hi);
    }
  }

  lemma AddKidHolds(psize: nat, kids: seq<Kid>, i: nat, kid: Kid, lo: Bound, hi: Bound)
    requires PageSize(psize) && i <= |kids| && OrderedKids(With(kids, i, kid), lo, hi)
    ensures Holds(AddKid(psize, kids, i, kid), KidEnts(With(kids, i, kid)), lo, hi)
  {
    OrderedKidEnts(With(kids, i, kid), lo, hi);
    OneHolds(Branch(With(kids, i, kid)), lo, hi);
    SplitBranchHolds(psize, kids, i, kid, lo, hi);
  }

  lemma UpdateKeyHolds(psize: nat, kids: seq<Kid>, i: nat, key: Key, lo: Bound, hi: Bound)
    requires PageSize(psize) && 0 < i < |kids| && OrderedKids(kids[i := Kid(key, kids[i].sub)], lo, hi)
    ensures Holds(UpdateKey(psize, kids, i, key), KidEnts(kids[i := Kid(key, kids[i].sub)]), lo, hi)
  {
    var after, rest := kids[i := Kid(key, kids[i].sub)], kids[..i] + kids[i + 1..];
    assert after == With(rest, i, Kid(key, kids[i].sub));
    OrderedKidEnts(after, lo, hi);
    OneHolds(Branch(after), lo, hi);
    SplitBranchHolds(psize, rest, i, Kid(key, kids[i].sub), lo, hi);
  }

  // ---------------------------------------------------------------- descending

  lemma {:induction false} ChildIndexBounds(kids: seq<Kid>, k: real, lo: Bound, hi: Bound)
    requires kids != [] && OrderedKids(kids, lo, hi) && AtLeast(k, lo) && Under(k, hi)
    ensures var i := ChildIndex(kids, k);
      AtLeast(k, LoAt(kids, i, lo)) && Under(k, HiAt(kids, i + 1, hi))
  {
    if |kids| > 1 && kids[1].key.rank <= k {
      ChildIndexBounds(kids[1..], k, Some(kids[1].key.rank), hi);
    }
  }

  lemma ChildOrdered(kids: seq<Kid>, i: nat, lo: Bound, hi: Bound)
    requires i < |kids| && OrderedKids(kids, lo, hi)
    ensures Below(LoAt(kids, i, lo), HiAt(kids, i + 1, hi))
    ensures Ordered(kids[i].sub, LoAt(kids, i, lo), HiAt(kids, i + 1, hi))
    ensures KidEnts(kids) == KidEnts(kids[..i]) + Ents(kids[i].sub) + KidEnts(kids[i + 1..])
  {
    Focus(kids, i, i + 1, lo, hi);
    Surroundings(kids, i, i + 1, lo, hi);
    assert kids[i..i + 1] == [kids[i]];
    KidEntsOne(kids[i]);
  }

  /** Everything left of the child is below k, everything right of it above. */
  lemma ChildAround(kids: seq<Kid>, k: real, lo: Bound, hi: Bound)
    requires kids != [] && OrderedKids(kids, lo, hi) && AtLeast(k, lo) && Under(k, hi)
    ensures var i := ChildIndex(kids, k); Around(KidEnts(kids[..i]), KidEnts(kids[i + 1..]), k)
  {
    var i := ChildIndex(kids, k);
    ChildIndexBounds(kids, k, lo, hi);
    Surroundings(kids, i, i + 1, lo, hi);
    if i == 0 { assert kids[..i] == []; }
    if i + 1 == |kids| { assert kids[i + 1..] == []; }
  }

  /** A child replaced by one page ... */
  lemma SetSubHolds(kids: seq<Kid>, i: nat, t: Tree, es: seq<Entry>, lo: Bound, hi: Bound)
    requires i < |kids| && OrderedKids(kids, lo, hi)
    requires Holds(One(t), es, LoAt(kids, i, lo), HiAt(kids, i + 1, hi))
    ensures OrderedKids(kids[i := Kid(kids[i].key, t)], lo, hi)
    ensures KidEnts(kids[i := Kid(kids[i].key, t)]) == KidEnts(kids[..i]) + es + KidEnts(kids[i + 1..])
  {
    var mid := [Kid(kids[i].key, t)];
    KidEntsOne(mid[0]);
    KidEntsOne(Kid(NOKEY, t));
    Splice(kids, i, i + 1, mid, lo, hi);
    assert kids[i := mid[0]] == kids[..i] + mid + kids[i + 1..];
  }

  /** ... or two pages with a new separator between them. */
  lemma SetTwoHolds(kids: seq<Kid>, i: nat, l: Tree, sep: Key, r: Tree, es: seq<Entry>, lo: Bound, hi: Bound)
    requires i < |kids| && OrderedKids(kids, lo, hi)
    requires Holds(Two(l, sep, r), es, LoAt(kids, i, lo), HiAt(kids, i + 1, hi))
    ensures var after := With(kids[i := Kid(kids[i].key, l)], i + 1, Kid(sep, r));
      OrderedKids(after, lo, hi) && KidEnts(after) == KidEnts(kids[..i]) + es + KidEnts(kids[i + 1..])
  {
    var mid := [Kid(kids[i].key, l), Kid(sep, r)];
    assert mid[1..] == Pages(Two(l, sep, r))[1..];
    Splice(kids, i, i + 1, mid, lo, hi);
    InsertAfter(kids, i, mid[0], mid[1]);
  }

  lemma InsertAfter<T>(s: seq<T>, i: nat, x: T, y: T)
    requires i < |s|
    ensures With(s[i := x], i + 1, y) == s[..i] + [x, y] + s[i + 1..]
  {
  }

  /** The parent absorbs whatever its child became. */
  lemma AbsorbHolds(psize: nat, kids: seq<Kid>, i: nat, u: Outcome, es: seq<Entry>, lo: Bound, hi: Bound)
    requires PageSize(psize) && i < |kids| && OrderedKids(kids, lo, hi)
    requires Holds(u, es, LoAt(kids, i, lo), HiAt(kids, i + 1, hi))
    ensures Holds(Absorb(psize, kids, i, u), KidEnts(kids[..i]) + es + KidEnts(kids[i + 1..]), lo, hi)
  {
    match u
    case One(t) =>
      SetSubHolds(kids, i, t, es, lo, hi);
      OrderedKidEnts(kids, lo, hi);
      OneHolds(Branch(kids[i := Kid(kids[i].key, t)]), lo, hi);
    case Two(l, sep, r) =>
      SetTwoHolds(kids, i, l, sep, r, es, lo, hi);
      AddKidHolds(psize, kids[i := Kid(kids[i].key, l)], i + 1, Kid(sep, r), lo, hi);
    case Full =>
  }

  // ---------------------------------------------------------------- put

  lemma {:induction false} LeafIndexBelow(nodes: seq<Node>, k: real)
    ensures var i := LeafIndex(nodes, k);
      && (forall j :: 0 <= j < i ==> nodes[j].key.rank < k)
      && (i < |nodes| ==> k <= nodes[i].key.rank)
  {
    if nodes != [] && nodes[0].key.rank < k {
      var rest := nodes[1..];
      LeafIndexBelow(rest, k);
      forall j | 0 < j < LeafIndex(nodes, k) ensures nodes[j].key.rank < k { assert nodes[j] == rest[j - 1]; }
    }
  }

  lemma LeafIndexAround(nodes: seq<Node>, k: real)
    requires Sorted(LeafEnts(nodes))
    ensures forall j :: 0 <= j < LeafIndex(nodes, k) ==> nodes[j].key.rank < k
    ensures forall j :: After(nodes, k) <= j < |nodes| ==> k < nodes[j].key.rank
  {
    LeafIndexBelow(nodes, k);
    var es, i := LeafEnts(nodes), LeafIndex(nodes, k);
    forall j | After(nodes, k) <= j < |nodes| ensures k < nodes[j].key.rank {
      if i < j { assert es[i].0 < es[j].0; }
    }
  }

  /** A leaf's entries around index i. */
  lemma LeafThree(nodes: seq<Node>, i: nat)
    requires i < |nodes|
    ensures LeafEnts(nodes) == LeafEnts(nodes[..i]) + [(nodes[i].key.rank, nodes[i].val)] + LeafEnts(nodes[i + 1..])
  {
    var es := LeafEnts(nodes);
    LeafTwo(nodes, i + 1);
    LeafTwo(nodes, i);
    assert es[..i + 1] == es[..i] + [es[i]];
  }

  lemma BelowLeaf(nodes: seq<Node>, i: nat, k: real)
    requires i <= |nodes| && forall j :: 0 <= j < i ==> nodes[j].key.rank < k
    ensures forall e :: e in LeafEnts(nodes[..i]) ==> e.0 < k
  {
    var a := LeafEnts(nodes[..i]);
    forall e | e in a ensures e.0 < k { var x :| 0 <= x < |a| && a[x] == e; }
  }

  lemma AboveLeaf(nodes: seq<Node>, i: nat, k: real)
    requires i <= |nodes| && forall j :: i <= j < |nodes| ==> k < nodes[j].key.rank
    ensures forall e :: e in LeafEnts(nodes[i..]) ==> k < e.0
  {
    var c := LeafEnts(nodes[i..]);
    forall e | e in c ensures k < e.0 { var x :| 0 <= x < |c| && c[x] == e; assert nodes[i + x] == nodes[i..][x]; }
  }

  /** Where the entries above key k begin, given where the page search for it ends. */
  function After(nodes: seq<Node>, k: real): (j: nat)
    ensures LeafIndex(nodes, k) <= j <= |nodes|
  {
    if Exact(nodes, k) then LeafIndex(nodes, k) + 1 else LeafIndex(nodes, k)
  }

  lemma AroundLeaf(nodes: seq<Node>, k: real)
    requires Sorted(LeafEnts(nodes))
    ensures Around(LeafEnts(nodes[..LeafIndex(nodes, k)]), LeafEnts(nodes[After(nodes, k)..]), k)
  {
    LeafIndexAround(nodes, k);
    BelowLeaf(nodes, LeafIndex(nodes, k), k);
    AboveLeaf(nodes, After(nodes, k), k);
  }

  /** The entries of a leaf, located by the page search for k. */
  lemma LeafParts(nodes: seq<Node>, k: real)
    requires Sorted(LeafEnts(nodes))
    ensures var i := LeafIndex(nodes, k);
      var mid := if Exact(nodes, k) then [(k, nodes[i].val)] else [];
      LeafEnts(nodes) == LeafEnts(nodes[..i]) + mid + LeafEnts(nodes[After(nodes, k)..])
  {
    var i := LeafIndex(nodes, k);
    if Exact(nodes, k) {
      LeafThree(nodes, i);
    } else {
      LeafTwo(nodes, i);
      assert LeafEnts(nodes[..i]) + [] == LeafEnts(nodes[..i]);
    }
  }

  lemma LeafPutSeq(nodes: seq<Node>, k: real, v: Val)
    requires Sorted(LeafEnts(nodes))
    ensures PutSeq(LeafEnts(nodes), k, v)
         == LeafEnts(nodes[..LeafIndex(nodes, k)]) + [(k, v)] + LeafEnts(nodes[After(nodes, k)..])
  {
    var i := LeafIndex(nodes, k);
    var mid := if Exact(nodes, k) then [(k, nodes[i].val)] else [];
    AroundLeaf(nodes, k);
    LeafParts(nodes, k);
    PutMiddle(LeafEnts(nodes[..i]), mid, LeafEnts(nodes[After(nodes, k)..]), k, v);
    assert PutSeq(mid, k, v) == [(k, v)];
  }

  lemma PutWithin(es: seq<Entry>, k: real, v: Val, lo: Bound, hi: Bound)
    requires Sorted(es) && Within(es, lo, hi) && AtLeast(k, lo) && Under(k, hi)
    ensures Sorted(PutSeq(es, k, v)) && Within(PutSeq(es, k, v), lo, hi)
  {
    PutKeepsSorted(es, k, v);
  }

  lemma WithEnts(nodes: seq<Node>, i: nat, n: Node)
    requires i <= |nodes|
    ensures LeafEnts(With(nodes, i, n)) == LeafEnts(nodes[..i]) + [(n.key.rank, n.val)] + LeafEnts(nodes[i..])
  {
    WithParts(nodes, i, n);
    LeafThree(With(nodes, i, n), i);
  }

  /** Inserting a node next to its place, in a leaf that held no such key or lost it. */
  lemma PutNodeHolds(psize: nat, rest: seq<Node>, i: nat, n: Node, es: seq<Entry>, lo: Bound, hi: Bound)
    requires PageSize(psize) && i <= |rest| && Below(lo, hi)
    requires es == LeafEnts(rest[..i]) + [(n.key.rank, n.val)] + LeafEnts(rest[i..])
    requires Sorted(es) && Within(es, lo, hi)
    ensures Holds(AddNode(psize, rest, i, n), es, lo, hi)
  {
    WithEnts(rest, i, n);
    AddNodeHolds(psize, rest, i, n, lo, hi);
  }

  lemma SetValHolds(nodes: seq<Node>, i: nat, val: Val, es: seq<Entry>, lo: Bound, hi: Bound)
    requires i < |nodes| && Below(lo, hi) && Sorted(es) && Within(es, lo, hi)
    requires es == LeafEnts(nodes[..i]) + [(nodes[i].key.rank, val)] + LeafEnts(nodes[i + 1..])
    ensures Holds(One(Leaf(nodes[i := nodes[i].(val := val)])), es, lo, hi)
  {
    var after := nodes[i := nodes[i].(val := val)];
    LeafThree(after, i);
    assert after[..i] == nodes[..i] && after[i + 1..] == nodes[i + 1..];
    OneHolds(Leaf(after), lo, hi);
  }

  lemma PutLeafHolds(psize: nat, nodes: seq<Node>, key: Key, val: Val, reuse: bool, lo: Bound, hi: Bound)
    requires PageSize(psize) && Ordered(Leaf(nodes), lo, hi) && Below(lo, hi)
    requires AtLeast(key.rank, lo) && Under(key.rank, hi)
    ensures Holds(PutLeaf(psize, nodes, key, val, reuse), PutSeq(LeafEnts(nodes), key.rank, val), lo, hi)
  {
    var i, k := LeafIndex(nodes, key.rank), key.rank;
    var n, es := MakeNode(psize, key, val), PutSeq(LeafEnts(nodes), k, val);
    LeafPutSeq(nodes, k, val);
    PutWithin(LeafEnts(nodes), k, val, lo, hi);
    if Exact(nodes, k) {
      var rest := nodes[..i] + nodes[i + 1..];
      assert rest[..i] == nodes[..i] && rest[i..] == nodes[i + 1..];
      PutNodeHolds(psize, rest, i, n, es, lo, hi);
      SetValHolds(nodes, i, val, es, lo, hi);
    } else {
      PutNodeHolds(psize, nodes, i, n, es, lo, hi);
    }
  }

  lemma WithParts<T>(s: seq<T>, i: nat, x: T)
    requires i <= |s|
    ensures With(s, i, x)[..i] == s[..i] && With(s, i, x)[i] == x && With(s, i, x)[i + 1..] == s[i..]
  {
  }

  lemma {:induction false} PutAtHolds(psize: nat, t: Tree, key: Key, val: Val, reuse: bool, lo: Bound, hi: Bound)
    requires PageSize(psize) && Ordered(t, lo, hi) && Below(lo, hi) && AtLeast(key.rank, lo) && Under(key.rank, hi)
    ensures Holds(PutAt(psize, t, key, val, reuse), PutSeq(Ents(t), key.rank, val), lo, hi)
    decreases t
  {
    match t
    case Leaf(nodes) => PutLeafHolds(psize, nodes, key, val, reuse, lo, hi);
    case Branch(kids) =>
      var i := ChildIndex(kids, key.rank);
      ChildOrdered(kids, i, lo, hi);
      ChildIndexBounds(kids, key.rank, lo, hi);
      ChildAround(kids, key.rank, lo, hi);
      PutMiddle(KidEnts(kids[..i]), Ents(kids[i].sub), KidEnts(kids[i + 1..]), key.rank, val);
      PutAtHolds(psize, kids[i].sub, key, val, reuse, LoAt(kids, i, lo), HiAt(kids, i + 1, hi));
      AbsorbHolds(psize, kids, i, PutAt(psize, kids[i].sub, key, val, reuse),
                  PutSeq(Ents(kids[i].sub), key.rank, val), lo, hi);
  }

  // ---------------------------------------------------------------- get

  lemma GetLeafRefines(nodes: seq<Node>, k: real)
    requires Sorted(LeafEnts(nodes))
    ensures Get(Leaf(nodes), k) == GetSeq(LeafEnts(nodes), k)
  {
    var i := LeafIndex(nodes, k);
    var mid := if Exact(nodes, k) then [(k, nodes[i].val)] else [];
    AroundLeaf(nodes, k);
    LeafParts(nodes, k);
    GetMiddle(LeafEnts(nodes[..i]), mid, LeafEnts(nodes[After(nodes, k)..]), k);
  }

  lemma {:induction false} GetRefines(t: Tree, k: real, lo: Bound, hi: Bound)
    requires Ordered(t, lo, hi) && AtLeast(k, lo) && Under(k, hi)
    ensures Get(t, k) == GetSeq(Ents(t), k)
    decreases t
  {
    match t
    case Leaf(nodes) => GetLeafRefines(nodes, k);
    case Branch(kids) =>
      var i := ChildIndex(kids, k);
      ChildOrdered(kids, i, lo, hi);
      ChildIndexBounds(kids, k, lo, hi);
      ChildAround(kids, k, lo, hi);
      GetMiddle(KidEnts(kids[..i]), Ents(kids[i].sub), KidEnts(kids[i + 1..]), k);
      GetRefines(kids[i].sub, k, LoAt(kids, i, lo), HiAt(kids, i + 1, hi));
  }
}
