/** Databases as trees of numbered pages, with overflow runs and sub-databases. */
module PageTree {
  import opened Wrappers

  datatype Page = Leaf(no: nat, items: seq<Item>) | Branch(no: nat, kids: seq<Kid>)

  datatype Kid = Kid(key: int, sub: Page)

  /** A leaf node: plain data, data on a run of overflow pages, or the record of a sub-database. */
  datatype Item = Small(key: int, val: int) | Big(key: int, no: nat, pages: nat, val: int) | Sub(key: int, root: Option<Page>)

  /** The page numbers no .. no + n - 1. */
  function Run(no: nat, n: nat): (r: seq<nat>)
    ensures |r| == n && forall i :: 0 <= i < n ==> r[i] == no + i
  {
    seq(n, i requires 0 <= i < n => no + i)
  }

  lemma RunConcat(no: nat, a: nat, b: nat)
    ensures Run(no, a) + Run(no + a, b) == Run(no, a + b)
  {
  }

  /** All page numbers of a tree, each page after everything below it. */
  function Nos(t: Page): seq<nat>
    decreases t, 0
  {
    match t
    case Leaf(no, items) => ItemsNos(items) + [no]
    case Branch(no, kids) => KidsNos(kids) + [no]
  }

  function ItemNos(it: Item): seq<nat>
    decreases it, 0
  {
    match it
    case Small(_, _) => []
    case Big(_, no, pages, _) => Run(no, pages)
    case Sub(_, root) => if root.None? then [] else Nos(root.value)
  }

  function ItemsNos(items: seq<Item>): seq<nat>
    decreases items, 0
  {
    if items == [] then [] else
      assert items decreases to items[0];
      ItemNos(items[0]) + ItemsNos(items[1..])
  }

  function KidsNos(kids: seq<Kid>): seq<nat>
    decreases kids, 0
  {
    if kids == [] then [] else
      assert kids decreases to kids[0];
      Nos(kids[0].sub) + KidsNos(kids[1..])
  }

  /** Number of pages. */
  function Count(t: Page): nat { |Nos(t)| }

  // ---------------------------------------------------------------- md_ counters

  /** What md_branch_pages and md_leaf_pages, added up over the database and its sub-databases, count. */
  function NodePages(t: Page): nat
    decreases t, 0
  {
    match t
    case Leaf(_, items) => 1 + ItemsNodePages(items)
    case Branch(_, kids) => 1 + KidsNodePages(kids)
  }

  function ItemsNodePages(items: seq<Item>): nat
    decreases items, 0
  {
    if items == [] then 0 else
      assert items decreases to items[0];
      (if items[0].Sub? && items[0].root.Some? then NodePages(items[0].root.value) else 0) + ItemsNodePages(items[1..])
  }

  function KidsNodePages(kids: seq<Kid>): nat
    decreases kids, 0
  {
    if kids == [] then 0 else
      assert kids decreases to kids[0];
      NodePages(kids[0].sub) + KidsNodePages(kids[1..])
  }

  /** ... and md_overflow_pages. */
  function OverflowPages(t: Page): nat
    decreases t, 0
  {
    match t
    case Leaf(_, items) => ItemsOverflowPages(items)
    case Branch(_, kids) => KidsOverflowPages(kids)
  }

  function ItemsOverflowPages(items: seq<Item>): nat
    decreases items, 0
  {
    if items == [] then 0 else
      assert items decreases to items[0];
      (match items[0]
       case Small(_, _) => 0
       case Big(_, _, pages, _) => pages
       case Sub(_, root) => if root.None? then 0 else OverflowPages(root.value)) + ItemsOverflowPages(items[1..])
  }

  function KidsOverflowPages(kids: seq<Kid>): nat
    decreases kids, 0
  {
    if kids == [] then 0 else
      assert kids decreases to kids[0];
      OverflowPages(kids[0].sub) + KidsOverflowPages(kids[1..])
  }

  /** The page numbers of a database are as many as its counters say. */
  lemma {:induction false} CountIsCounters(t: Page)
    ensures Count(t) == NodePages(t) + OverflowPages(t)
    decreases t, 1
  {
    match t
    case Leaf(_, items) => ItemsCounters(items);
    case Branch(_, kids) => KidsCounters(kids);
  }

  lemma {:induction false} ItemsCounters(items: seq<Item>)
    ensures |ItemsNos(items)| == ItemsNodePages(items) + ItemsOverflowPages(items)
    decreases items, 1
  {
    if items != [] {
      assert items decreases to items[0];
      if items[0].Sub? && items[0].root.Some? { CountIsCounters(items[0].root.value); }
      ItemsCounters(items[1..]);
    }
  }

  lemma {:induction false} KidsCounters(kids: seq<Kid>)
    ensures |KidsNos(kids)| == KidsNodePages(kids) + KidsOverflowPages(kids)
    decreases kids, 1
  {
    if kids != [] {
      assert kids decreases to kids[0];
      CountIsCounters(kids[0].sub);
      KidsCounters(kids[1..]);
    }
  }

  // ---------------------------------------------------------------- renaming

  /** The tree with every page number erased: what it means, whatever its pages are called. */
  function Strip(t: Page): Page
    decreases t, 0
  {
    match t
    case Leaf(_, items) => Leaf(0, StripItems(items))
    case Branch(_, kids) => Branch(0, StripKids(kids))
  }

  function StripItem(it: Item): Item
    decreases it, 0
  {
    match it
    case Small(_, _) => it
    case Big(key, _, pages, val) => Big(key, 0, pages, val)
    case Sub(key, root) => Sub(key, if root.None? then None else Some(Strip(root.value)))
  }

  function StripItems(items: seq<Item>): (r: seq<Item>)
    ensures |r| == |items|
    decreases items, 0
  {
    if items == [] then [] else
      assert items decreases to items[0];
      [StripItem(items[0])] + StripItems(items[1..])
  }

  function StripKids(kids: seq<Kid>): (r: seq<Kid>)
    ensures |r| == |kids|
    decreases kids, 0
  {
    if kids == [] then [] else
      assert kids decreases to kids[0];
      [Kid(kids[0].key, Strip(kids[0].sub))] + StripKids(kids[1..])
  }
}
