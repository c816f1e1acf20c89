/**
  mdb_drop0: free all pages of a database, level by level from the leaves up, by listing overflow
  runs from the leaves and child page numbers from the branches.
 */
module DropDb {
  import opened PageTree

  /** All leaves at depth d, and no branch without children. */
  ghost predicate Uniform(t: Page, d: nat)
    decreases t
  {
    match t
    case Leaf(_, _) => d == 0
    case Branch(_, kids) => d > 0 && kids != [] && forall k :: k in kids ==> Uniform(k.sub, d - 1)
  }

  /** The overflow pages of a leaf. */
  function Overflow(items: seq<Item>): seq<nat> {
    if items == [] then [] else
      Overflow(items[..|items| - 1]) +
        var it := items[|items| - 1]; if it.Big? then Run(it.no, it.pages) else []
  }

  /** The pages that belong to this database (a sub-database's pages are its own). */
  function OwnNos(t: Page): seq<nat>
    decreases t, 0
  {
    match t
    case Leaf(no, items) => Overflow(items) + [no]
    case Branch(no, kids) => OwnKids(kids) + [no]
  }

  function OwnKids(kids: seq<Kid>): seq<nat>
    decreases kids, 0
  {
    if kids == [] then [] else
      assert kids decreases to kids[0];
      OwnNos(kids[0].sub) + OwnKids(kids[1..])
  }

  // ---------------------------------------------------------------- levels

  /** The pages at depth j, left to right: what mdb_cursor_sibling walks along. */
  function Level(t: Page, j: nat): seq<Page>
    decreases t, 0
  {
    if j == 0 then [t] else if t.Leaf? then [] else KidsLevel(t.kids, j - 1)
  }

  function KidsLevel(kids: seq<Kid>, j: nat): seq<Page>
    decreases kids, 0
  {
    if kids == [] then [] else
      assert kids decreases to kids[0];
      Level(kids[0].sub, j) + KidsLevel(kids[1..], j)
  }

  function PageNos(ps: seq<Page>): seq<nat> {
    if ps == [] then [] else PageNos(ps[..|ps| - 1]) + [ps[|ps| - 1].no]
  }

  function KidNumbers(kids: seq<Kid>): seq<nat> {
    if kids == [] then [] else KidNumbers(kids[..|kids| - 1]) + [kids[|kids| - 1].sub.no]
  }

  /** What a pass along a level of branches lists. */
  function ChildNos(ps: seq<Page>): seq<nat> {
    if ps == [] then [] else
      var p := ps[|ps| - 1];
      ChildNos(ps[..|ps| - 1]) + if p.Branch? then KidNumbers(p.kids) else []
  }

  /** What a pass along the leaves lists. */
  function LeavesOverflow(ps: seq<Page>): seq<nat> {
    if ps == [] then [] else
      var p := ps[|ps| - 1];
      LeavesOverflow(ps[..|ps| - 1]) + if p.Leaf? then Overflow(p.items) else []
  }

  lemma {:induction false} PageNosConcat(a: seq<Page>, b: seq<Page>)
    ensures PageNos(a + b) == PageNos(a) + PageNos(b)
  {
    if b == [] {
      assert a + b == a;
    } else {
      PageNosConcat(a, b[..|b| - 1]);
      assert (a + b)[..|a + b| - 1] == a + b[..|b| - 1];
    }
  }

  lemma {:induction false} ChildNosConcat(a: seq<Page>, b: seq<Page>)
    ensures ChildNos(a + b) == ChildNos(a) + ChildNos(b)
  {
    hide KidNumbers;
    if b == [] {
      assert a + b == a;
    } else {
      ChildNosConcat(a, b[..|b| - 1]);
      assert (a + b)[|a + b| - 1] == b[|b| - 1];
      assert (a + b)[..|a + b| - 1] == a + b[..|b| - 1];
    }
  }

  lemma {:induction false} LeavesOverflowConcat(a: seq<Page>, b: seq<Page>)
    ensures LeavesOverflow(a + b) == LeavesOverflow(a) + LeavesOverflow(b)
  {
    hide Overflow;
    if b == [] {
      assert a + b == a;
    } else {
      LeavesOverflowConcat(a, b[..|b| - 1]);
      assert (a + b)[|a + b| - 1] == b[|b| - 1];
      assert (a + b)[..|a + b| - 1] == a + b[..|b| - 1];
    }
  }

  /** The children of one level are the pages of the next. */
  lemma {:induction false} ChildrenOfLevel(t: Page, j: nat)
    ensures ChildNos(Level(t, j)) == PageNos(Level(t, j + 1))
    decreases t, 1
  {
    if j == 0 {
      assert ChildNos([t]) == ChildNos([]) + if t.Branch? then KidNumbers(t.kids) else [];
      if t.Branch? { KidsFirstLevel(t.kids); }
    } else if t.Branch? {
      ChildrenOfKids(t.kids, j - 1);
    }
  }

  lemma {:induction false} KidsFirstLevel(kids: seq<Kid>)
    ensures PageNos(KidsLevel(kids, 0)) == KidNumbers(kids)
    decreases |kids|
  {
    if kids != [] {
      var n := |kids| - 1;
      KidsFirstLevel(kids[..n]);
      KidsLevelSnoc(kids, 0);
      PageNosConcat(KidsLevel(kids[..n], 0), [kids[n].sub]);
      assert PageNos([kids[n].sub]) == PageNos([]) + [kids[n].sub.no];
    }
  }

  lemma {:induction false} KidsLevelSnoc(kids: seq<Kid>, j: nat)
    requires kids != []
    ensures KidsLevel(kids, j) == KidsLevel(kids[..|kids| - 1], j) + Level(kids[|kids| - 1].sub, j)
    decreases |kids|
  {
    var n := |kids| - 1;
    if n == 0 {
      assert kids[1..] == [] && kids[..0] == [];
    } else {
      KidsLevelSnoc(kids[1..], j);
      assert kids[1..][..n - 1] == kids[..n][1..];
    }
  }

  lemma {:induction false} ChildrenOfKids(kids: seq<Kid>, j: nat)
    ensures ChildNos(KidsLevel(kids, j)) == PageNos(KidsLevel(kids, j + 1))
    decreases kids, 1
  {
    if kids != [] {
      assert kids decreases to kids[0];
      ChildrenOfLevel(kids[0].sub, j);
      ChildrenOfKids(kids[1..], j);
      ChildNosConcat(Level(kids[0].sub, j), KidsLevel(kids[1..], j));
      PageNosConcat(Level(kids[0].sub, j + 1), KidsLevel(kids[1..], j + 1));
    }
  }

  // ---------------------------------------------------------------- adding the levels up

  /** The page numbers of the levels 0 .. j. */
  ghost function Bag(t: Page, j: nat): multiset<nat> {
    multiset(PageNos(Level(t, j))) + if j == 0 then multiset{} else Bag(t, j - 1)
  }

  ghost function KidsBag(kids: seq<Kid>, j: nat): multiset<nat> {
    multiset(PageNos(KidsLevel(kids, j))) + if j == 0 then multiset{} else KidsBag(kids, j - 1)
  }

  lemma Regroup(a: multiset<nat>, b: multiset<nat>, c: multiset<nat>, d: multiset<nat>)
    ensures (a + b) + (c + d) == (a + c) + (b + d)
  {
  }

  lemma {:induction false} KidsBagCons(kids: seq<Kid>, j: nat)
    requires kids != []
    ensures KidsBag(kids, j) == Bag(kids[0].sub, j) + KidsBag(kids[1..], j)
  {
    hide PageNos, Level;
    var t, rest := kids[0].sub, kids[1..];
    PageNosConcat(Level(t, j), KidsLevel(rest, j));
    if j > 0 {
      KidsBagCons(kids, j - 1);
      Regroup(multiset(PageNos(Level(t, j))), multiset(PageNos(KidsLevel(rest, j))), Bag(t, j - 1), KidsBag(rest, j - 1));
    }
  }

  lemma {:induction false} BagOfBranch(t: Page, j: nat)
    requires t.Branch?
    ensures Bag(t, j) == multiset{t.no} + if j == 0 then multiset{} else KidsBag(t.kids, j - 1)
  {
    if j == 0 {
      BagTop(t);
    } else {
      BagOfBranch(t, j - 1);
      BagStep(t, j);
    }
  }

  lemma BagStep(t: Page, j: nat)
    requires t.Branch? && j > 0
    requires Bag(t, j - 1) == multiset{t.no} + if j == 1 then multiset{} else KidsBag(t.kids, j - 2)
    ensures Bag(t, j) == multiset{t.no} + KidsBag(t.kids, j - 1)
  {
    hide PageNos, KidsLevel;
  }

  lemma {:induction false} KidsBagEmpty(j: nat)
    ensures KidsBag([], j) == multiset{}
  {
    if j > 0 { KidsBagEmpty(j - 1); }
  }

  /** Every page of the database is a page of some level or an overflow page of some leaf, once. */
  lemma {:induction false} LevelsPartition(t: Page, d: nat)
    requires Uniform(t, d)
    ensures multiset(OwnNos(t)) == multiset(LeavesOverflow(Level(t, d))) + Bag(t, d)
    decreases t, 1
  {
    match t
    case Leaf(no, items) =>
      assert LeavesOverflow([t]) == LeavesOverflow([]) + Overflow(items);
      assert PageNos([t]) == PageNos([]) + [no];
    case Branch(no, kids) =>
      KidsPartition(kids, d - 1);
      BagOfBranch(t, d);
  }

  lemma {:induction false} KidsPartition(kids: seq<Kid>, d: nat)
    requires forall k :: k in kids ==> Uniform(k.sub, d)
    ensures multiset(OwnKids(kids)) == multiset(LeavesOverflow(KidsLevel(kids, d))) + KidsBag(kids, d)
    decreases kids, 1
  {
    if kids == [] {
      KidsBagEmpty(d);
    } else {
      assert kids decreases to kids[0];
      LevelsPartition(kids[0].sub, d);
      KidsPartition(kids[1..], d);
      KidsBagCons(kids, d);
      LeavesOverflowConcat(Level(kids[0].sub, d), KidsLevel(kids[1..], d));
    }
  }

  // ---------------------------------------------------------------- the passes

  lemma {:induction false} LevelKind(t: Page, d: nat, j: nat)
    requires Uniform(t, d) && j <= d
    ensures forall p :: p in Level(t, j) ==> p.Leaf? == (j == d)
    decreases t, 1
  {
    if j > 0 { KidsKind(t.kids, d - 1, j - 1); }
  }

  lemma {:induction false} KidsKind(kids: seq<Kid>, d: nat, j: nat)
    requires (forall k :: k in kids ==> Uniform(k.sub, d)) && j <= d
    ensures forall p :: p in KidsLevel(kids, j) ==> p.Leaf? == (j == d)
    decreases kids, 1
  {
    if kids != [] {
      assert kids decreases to kids[0];
      LevelKind(kids[0].sub, d, j);
      KidsKind(kids[1..], d, j);
    }
  }

  /** One leaf: list its overflow runs, stopping once md_overflow_pages is used up. */
  method ListRuns(items: seq<Item>, left0: nat) returns (out: seq<nat>, left: nat)
    requires |Overflow(items)| <= left0
    ensures out == Overflow(items) && left == left0 - |out|
  {
    hide Run;
    out, left := [], left0;
    var k := 0;
    assert items[..0] == [];
    while k < |items| && left > 0
      invariant 0 <= k <= |items| && out == Overflow(items[..k]) && left == left0 - |out|
    {
      assert items[..k + 1][..k] == items[..k];
      OverflowPrefix(items, k + 1);
      if items[k].Big? {
        var run := Run(items[k].no, items[k].pages);
        RunLength(items[k].no, items[k].pages);
        out := out + run;
        left := left - |run|;
      }
      k := k + 1;
    }
    OverflowPrefix(items, k);
    if k == |items| { assert items[..k] == items; }
  }

  lemma RunLength(no: nat, n: nat)
    ensures |Run(no, n)| == n
  {
  }

  /** The leaf pass: leaf after leaf, until all overflow pages have been listed. */
  method FreeOverflow(leaves: seq<Page>, overflowPages: nat) returns (freed: seq<nat>)
    requires overflowPages == |LeavesOverflow(leaves)| && forall p :: p in leaves ==> p.Leaf?
    ensures freed == LeavesOverflow(leaves)
  {
    hide Overflow;
    freed := [];
    var left, i := overflowPages, 0;
    assert leaves[..0] == [];
    while i < |leaves| && left > 0
      invariant 0 <= i <= |leaves| && freed == LeavesOverflow(leaves[..i]) && left == overflowPages - |freed|
    {
      OverflowBound(leaves, i);
      assert leaves[..i + 1][..i] == leaves[..i];
      var out;
      out, left := ListRuns(leaves[i].items, left);
      freed := freed + out;
      i := i + 1;
    }
    LeavesPrefix(leaves, i);
    if i == |leaves| { assert leaves[..i] == leaves; }
  }

  lemma {:induction false} OverflowPrefix(items: seq<Item>, k: nat)
    requires k <= |items|
    ensures Overflow(items[..k]) <= Overflow(items)
    decreases |items| - k
  {
    if k == |items| {
      assert items[..k] == items;
    } else {
      OverflowPrefix(items, k + 1);
      assert items[..k + 1][..k] == items[..k];
    }
  }

  lemma {:induction false} LeavesPrefix(leaves: seq<Page>, i: nat)
    requires i <= |leaves|
    ensures LeavesOverflow(leaves[..i]) <= LeavesOverflow(leaves)
    decreases |leaves| - i
  {
    if i == |leaves| {
      assert leaves[..i] == leaves;
    } else {
      LeavesPrefix(leaves, i + 1);
      assert leaves[..i + 1][..i] == leaves[..i];
    }
  }

  /** What one leaf lists is part of the whole. */
  lemma OverflowBound(leaves: seq<Page>, i: nat)
    requires i < |leaves| && leaves[i].Leaf?
    ensures LeavesOverflow(leaves[..i]) + Overflow(leaves[i].items) <= LeavesOverflow(leaves)
  {
    LeavesPrefix(leaves, i + 1);
    assert leaves[..i + 1][..i] == leaves[..i];
  }

  /** A pass along a level of branch pages: list their children. */
  method FreeChildren(pages: seq<Page>) returns (freed: seq<nat>)
    requires forall p :: p in pages ==> p.Branch?
    ensures freed == ChildNos(pages)
  {
    freed := [];
    var i := 0;
    while i < |pages|
      invariant 0 <= i <= |pages| && freed == ChildNos(pages[..i])
    {
      var kids := pages[i].kids;
      assert pages[..i + 1][..i] == pages[..i];
      var k := 0;
      assert kids[..0] == [];
      while k < |kids|
        invariant 0 <= k <= |kids| && freed == ChildNos(pages[..i]) + KidNumbers(kids[..k])
      {
        assert kids[..k + 1][..k] == kids[..k];
        freed := freed + [kids[k].sub.no];
        k := k + 1;
      }
      assert kids[..k] == kids;
      i := i + 1;
    }
    assert pages[..i] == pages;
  }

  lemma BagTop(t: Page)
    ensures Bag(t, 0) == multiset{t.no}
  {
    assert PageNos([t]) == PageNos([]) + [t.no];
  }

  /** One pass moves one level from what is left to what is listed. */
  lemma PassCounts(t: Page, j: nat, freed: seq<nat>, pass: seq<nat>, total: multiset<nat>)
    requires j > 0 && multiset(freed) + Bag(t, j) == total && pass == ChildNos(Level(t, j - 1))
    ensures multiset(freed + pass) + Bag(t, j - 1) == total
  {
    hide ChildNos, PageNos, Level;
    ChildrenOfLevel(t, j - 1);
  }

  /** mdb_drop0: every page of the database is freed exactly once. */
  method Drop(t: Page, d: nat, overflowPages: nat) returns (freed: seq<nat>)
    requires Uniform(t, d) && overflowPages == |LeavesOverflow(Level(t, d))|
    ensures multiset(freed) == multiset(OwnNos(t))
  {
    hide Level, OwnNos, Uniform, Bag, ChildNos, LeavesOverflow;
    LevelsPartition(t, d);
    freed := [];
    ghost var total := multiset(OwnNos(t));
    if overflowPages > 0 {
      LevelKind(t, d, d);
      freed := FreeOverflow(Level(t, d), overflowPages);
    }
    assert freed == LeavesOverflow(Level(t, d));
    // the pass along depth level - 1 lists the pages of depth level
    var level := d;
    while level > 0
      invariant 0 <= level <= d && multiset(freed) + Bag(t, level) == total
    {
      LevelKind(t, d, level - 1);
      var pass := FreeChildren(Level(t, level - 1));
      PassCounts(t, level, freed, pass, total);
      freed := freed + pass;
      level := level - 1;
    }
    BagTop(t);
    freed := freed + [t.no];
  }

  // ---------------------------------------------------------------- sub-databases apart

  /** The pages of the sub-databases whose records the leaves hold. */
  function SubNos(t: Page): seq<nat>
    decreases t, 0
  {
    match t
    case Leaf(_, items) => ItemsSubNos(items)
    case Branch(_, kids) => KidsSubNos(kids)
  }

  function ItemsSubNos(items: seq<Item>): seq<nat>
    decreases items, 0
  {
    if items == [] then [] else
      (if items[0].Sub? && items[0].root.Some? then Nos(items[0].root.value) else []) + ItemsSubNos(items[1..])
  }

  function KidsSubNos(kids: seq<Kid>): seq<nat>
    decreases kids, 0
  {
    if kids == [] then [] else
      assert kids decreases to kids[0];
      SubNos(kids[0].sub) + KidsSubNos(kids[1..])
  }

  lemma OverflowSnoc(items: seq<Item>)
    requires items != []
    ensures var n := |items| - 1;
      Overflow(items) == Overflow(items[..n]) + if items[n].Big? then Run(items[n].no, items[n].pages) else []
  {
    hide Run;
  }

  lemma {:induction false} OverflowCons(items: seq<Item>)
    requires items != []
    ensures Overflow(items) == (if items[0].Big? then Run(items[0].no, items[0].pages) else []) + Overflow(items[1..])
    decreases |items|
  {
    hide Run, Overflow;
    var n := |items| - 1;
    OverflowSnoc(items);
    if n == 0 {
      assert items[..0] == [] && items[1..] == [];
      OverflowNil();
    } else {
      OverflowCons(items[..n]);
      OverflowSnoc(items[1..]);
      assert items[..n][1..] == items[1..][..n - 1] && items[1..][n - 1] == items[n];
    }
  }

  lemma OverflowNil()
    ensures Overflow([]) == []
  {
  }

  lemma {:induction false} ItemsApart(items: seq<Item>)
    ensures multiset(ItemsNos(items)) == multiset(Overflow(items)) + multiset(ItemsSubNos(items))
    decreases |items|
  {
    if items != [] {
      hide Run, Nos;
      ItemsApart(items[1..]);
      OverflowCons(items);
    }
  }

  /** All pages below a root are the pages of the database itself, which a drop frees, and those of
      its sub-databases, each once. */
  lemma {:induction false} OwnAndSub(t: Page)
    ensures multiset(Nos(t)) == multiset(OwnNos(t)) + multiset(SubNos(t))
    decreases t, 1
  {
    match t
    case Leaf(_, items) => ItemsApart(items);
    case Branch(_, kids) => OwnAndSubKids(kids);
  }

  lemma {:induction false} OwnAndSubKids(kids: seq<Kid>)
    ensures multiset(KidsNos(kids)) == multiset(OwnKids(kids)) + multiset(KidsSubNos(kids))
    decreases kids, 1
  {
    if kids != [] {
      assert kids decreases to kids[0];
      OwnAndSub(kids[0].sub);
      OwnAndSubKids(kids[1..]);
    }
  }
}
