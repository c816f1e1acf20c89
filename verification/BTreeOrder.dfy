/**
  The tree is a sorted map: put, delete and get agree with the sorted sequence of entries
  through splits, node moves, merges, root growth and root collapse.
 */
module BTreeOrder {
  import opened Wrappers
  import opened BTree
  import opened SortedMap

  // ---------------------------------------------------------------- contents and order

  function LeafEnts(nodes: seq<Node>): (es: seq<Entry>)
    ensures |es| == |nodes|
    ensures forall i :: 0 <= i < |nodes| ==> es[i] == (nodes[i].key.rank, nodes[i].val)
  {
    if nodes == [] then [] else [(nodes[0].key.rank, nodes[0].val)] + LeafEnts(nodes[1..])
  }

  /** The entries of a tree, left to right. */
  function Ents(t: Tree): seq<Entry>
    decreases t, 0
  {
    match t
    case Leaf(nodes) => LeafEnts(nodes)
    case Branch(kids) => KidEnts(kids)
  }

  function KidEnts(kids: seq<Kid>): seq<Entry>
    decreases kids, 0
  {
    if kids == [] then [] else
      assert kids decreases to kids[0];
      Ents(kids[0].sub) + KidEnts(kids[1..])
  }

  /** Entries sorted and within [lo, hi), separators telling the children apart. */
  ghost predicate Ordered(t: Tree, lo: Bound, hi: Bound)
    decreases t, 0
  {
    match t
    case Leaf(nodes) => Sorted(LeafEnts(nodes)) && Within(LeafEnts(nodes), lo, hi)
    case Branch(kids) => kids != [] && OrderedKids(kids, lo, hi)
  }

  /** The key of the first kid is implicit: lo stands for it. */
  ghost predicate OrderedKids(kids: seq<Kid>, lo: Bound, hi: Bound)
    requires kids != []
    decreases kids, 0
  {
    assert kids decreases to kids[0];
    if |kids| == 1 then Below(lo, hi) && Ordered(kids[0].sub, lo, hi)
    else
      var m := Some(kids[1].key.rank);
      Below(lo, m) && Ordered(kids[0].sub, lo, m) && OrderedKids(kids[1..], m, hi)
  }

  lemma {:induction false} LeafEntsConcat(a: seq<Node>, b: seq<Node>)
    ensures LeafEnts(a + b) == LeafEnts(a) + LeafEnts(b)
  {
  }

  lemma {:induction false} KidEntsConcat(a: seq<Kid>, b: seq<Kid>)
    ensures KidEnts(a + b) == KidEnts(a) + KidEnts(b)
    decreases a
  {
    if a == [] {
      assert a + b == b;
    } else {
      assert (a + b)[1..] == a[1..] + b;
      KidEntsConcat(a[1..], b);
    }
  }

  lemma KidEntsOne(k: Kid)
    ensures KidEnts([k]) == Ents(k.sub)
  {
    assert KidEnts([k]) == Ents(k.sub) + KidEnts([]);
  }

  lemma {:induction false} OrderedEnts(t: Tree, lo: Bound, hi: Bound)
    requires Ordered(t, lo, hi)
    ensures Sorted(Ents(t)) && Within(Ents(t), lo, hi)
    decreases t, 1
  {
    if t.Branch? { OrderedKidEnts(t.kids, lo, hi); }
  }

  lemma {:induction false} OrderedKidEnts(kids: seq<Kid>, lo: Bound, hi: Bound)
    requires kids != [] && OrderedKids(kids, lo, hi)
    ensures Sorted(KidEnts(kids)) && Within(KidEnts(kids), lo, hi) && Below(lo, hi)
    decreases kids, 1
  {
    assert kids decreases to kids[0];
    if |kids| == 1 {
      OrderedEnts(kids[0].sub, lo, hi);
      assert kids == [kids[0]];
      KidEntsOne(kids[0]);
    } else {
      var m := kids[1].key.rank;
      OrderedEnts(kids[0].sub, lo, Some(m));
      OrderedKidEnts(kids[1..], Some(m), hi);
      SortedConcat(Ents(kids[0].sub), KidEnts(kids[1..]), lo, m, hi);
    }
  }

  // ---------------------------------------------------------------- cutting and pasting

  /** A list of children is ordered iff both parts are, around the second's first key. */
  lemma {:induction false} OrderedConcat(a: seq<Kid>, b: seq<Kid>, lo: Bound, hi: Bound)
    requires a != [] && b != []
    ensures var m := Some(b[0].key.rank);
      OrderedKids(a + b, lo, hi) <==> OrderedKids(a, lo, m) && OrderedKids(b, m, hi)
    decreases a
  {
    assert (a + b)[1..] == a[1..] + b;
    if |a| == 1 {
      assert a[1..] + b == b;
    } else {
      OrderedConcat(a[1..], b, Some(a[1].key.rank), hi);
    }
  }

  function LoAt(kids: seq<Kid>, i: nat, lo: Bound): Bound
    requires i < |kids|
  {
    if i == 0 then lo else Some(kids[i].key.rank)
  }

  function HiAt(kids: seq<Kid>, i: nat, hi: Bound): Bound
    requires i <= |kids|
  {
    if i == |kids| then hi else Some(kids[i].key.rank)
  }

  /** Part of an ordered list is ordered between its own separators. */
  lemma Focus(kids: seq<Kid>, a: nat, b: nat, lo: Bound, hi: Bound)
    requires a < b <= |kids| && OrderedKids(kids, lo, hi)
    ensures OrderedKids(kids[a..b], LoAt(kids, a, lo), HiAt(kids, b, hi))
  {
    var rest := kids[a..];
    if a > 0 {
      assert kids == kids[..a] + rest;
      OrderedConcat(kids[..a], rest, lo, hi);
    } else {
      assert rest == kids;
    }
    if b < |kids| {
      assert rest == kids[a..b] + kids[b..];
      OrderedConcat(kids[a..b], kids[b..], LoAt(kids, a, lo), hi);
    } else {
      assert kids[a..b] == rest;
    }
  }

  /** Replacing part of the list by another list that is ordered between the same separators. */
  lemma Splice(kids: seq<Kid>, a: nat, b: nat, mid: seq<Kid>, lo: Bound, hi: Bound)
    requires a < b <= |kids| && OrderedKids(kids, lo, hi)
    requires mid != [] && mid[0].key == kids[a].key
    requires OrderedKids(mid, LoAt(kids, a, lo), HiAt(kids, b, hi))
    ensures OrderedKids(kids[..a] + mid + kids[b..], lo, hi)
    ensures KidEnts(kids[..a] + mid + kids[b..]) == KidEnts(kids[..a]) + KidEnts(mid) + KidEnts(kids[b..])
  {
    var tail := mid + kids[b..];
    if b < |kids| {
      Focus(kids, b, |kids|, lo, hi);
      assert kids[b..|kids|] == kids[b..];
      OrderedConcat(mid, kids[b..], LoAt(kids, a, lo), hi);
    } else {
      assert tail == mid;
    }
    assert kids[..a] + mid + kids[b..] == kids[..a] + tail;
    if a > 0 {
      Focus(kids, 0, a, lo, hi);
      assert kids[0..a] == kids[..a];
      OrderedConcat(kids[..a], tail, lo, hi);
    } else {
      assert kids[..a] + tail == tail;
    }
    KidEntsConcat(kids[..a], tail);
    KidEntsConcat(mid, kids[b..]);
  }

  lemma ThreeParts(kids: seq<Kid>, a: nat, b: nat)
    requires a <= b <= |kids|
    ensures KidEnts(kids) == KidEnts(kids[..a]) + KidEnts(kids[a..b]) + KidEnts(kids[b..])
  {
    assert kids == kids[..b] + kids[b..] && kids[..b] == kids[..a] + kids[a..b];
    KidEntsConcat(kids[..b], kids[b..]);
    KidEntsConcat(kids[..a], kids[a..b]);
  }

  /** The entries left and right of part [a, b) of the list. */
  lemma Surroundings(kids: seq<Kid>, a: nat, b: nat, lo: Bound, hi: Bound)
    requires a < b <= |kids| && OrderedKids(kids, lo, hi)
    ensures KidEnts(kids) == KidEnts(kids[..a]) + KidEnts(kids[a..b]) + KidEnts(kids[b..])
    ensures a > 0 ==> forall e :: e in KidEnts(kids[..a]) ==> e.0 < kids[a].key.rank
    ensures b < |kids| ==> forall e :: e in KidEnts(kids[b..]) ==> kids[b].key.rank <= e.0
  {
    ThreeParts(kids, a, b);
    if a > 0 {
      Focus(kids, 0, a, lo, hi);
      assert kids[0..a] == kids[..a];
      OrderedKidEnts(kids[..a], lo, Some(kids[a].key.rank));
    }
    if b < |kids| {
      Focus(kids, b, |kids|, lo, hi);
      assert kids[b..|kids|] == kids[b..];
      OrderedKidEnts(kids[b..], Some(kids[b].key.rank), hi);
    }
  }

  // ---------------------------------------------------------------- widening and narrowing

  predicate NotAbove(hi: Bound, wider: Bound) { wider.Some? ==> hi.Some? && hi.value <= wider.value }

  lemma {:induction false} WidenHi(t: Tree, lo: Bound, hi: Bound, wider: Bound)
    requires Ordered(t, lo, hi) && NotAbove(hi, wider)
    ensures Ordered(t, lo, wider)
    decreases t, 1
  {
    if t.Branch? { WidenKidsHi(t.kids, lo, hi, wider); }
  }

  lemma {:induction false} WidenKidsHi(kids: seq<Kid>, lo: Bound, hi: Bound, wider: Bound)
    requires kids != [] && OrderedKids(kids, lo, hi) && NotAbove(hi, wider)
    ensures OrderedKids(kids, lo, wider)
    decreases kids, 1
  {
    assert kids decreases to kids[0];
    if |kids| == 1 {
      WidenHi(kids[0].sub, lo, hi, wider);
    } else {
      WidenKidsHi(kids[1..], Some(kids[1].key.rank), hi, wider);
    }
  }

  /** The lowest key can serve as the tree's separator. */
  lemma {:induction false} NarrowLo(t: Tree, lo: Bound, hi: Bound)
    requires Ordered(t, lo, hi) && Lowest(t).Some?
    ensures Ordered(t, Some(Lowest(t).value.rank), hi)
    ensures AtLeast(Lowest(t).value.rank, lo) && Under(Lowest(t).value.rank, hi)
    decreases t
  {
    match t
    case Leaf(nodes) =>
      var es := LeafEnts(nodes);
      assert es[0] in es;
      forall e | e in es ensures nodes[0].key.rank <= e.0 {
        var i :| 0 <= i < |es| && es[i] == e;
      }
    case Branch(kids) =>
      if |kids| == 1 {
        NarrowLo(kids[0].sub, lo, hi);
      } else {
        NarrowLo(kids[0].sub, lo, Some(kids[1].key.rank));
        OrderedKidEnts(kids[1..], Some(kids[1].key.rank), hi);
      }
  }

  lemma ExplicitOrdered(kids: seq<Kid>, lo: Bound, hi: Bound)
    requires kids != [] && OrderedKids(kids, lo, hi) && Lowest(kids[0].sub).Some?
    ensures var e := Explicit(kids);
      && e != [] && OrderedKids(e, Some(e[0].key.rank), hi) && KidEnts(e) == KidEnts(kids)
      && AtLeast(e[0].key.rank, lo) && Under(e[0].key.rank, hi)
  {
    var e := Explicit(kids);
    assert e[1..] == kids[1..];
    if |kids| == 1 {
      NarrowLo(kids[0].sub, lo, hi);
    } else {
      NarrowLo(kids[0].sub, lo, Some(kids[1].key.rank));
      OrderedKidEnts(kids[1..], Some(kids[1].key.rank), hi);
    }
  }

  /** The key of slot 0 does not matter. */
  lemma ImplicitOrdered(kids: seq<Kid>, lo: Bound, hi: Bound)
    requires kids != [] && OrderedKids(kids, lo, hi)
    ensures OrderedKids(Implicit(kids), lo, hi) && KidEnts(Implicit(kids)) == KidEnts(kids)
  {
    assert Implicit(kids)[1..] == kids[1..];
  }
}
