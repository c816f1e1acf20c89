/**
  Copying a database with compaction: mdb_env_cwalk renumbers pages consecutively, children before
  their parent, with an explicit stack; mdb_env_copyfd1 predicts the number of the new root.
 */
module CompactCopy {
  import opened Wrappers
  import opened PageTree

  // ---------------------------------------------------------------- the copy, as a function

  /** A copied part and the next free page number. */
  datatype Done<T> = Done(it: T, next: nat)

  function Copy(t: Page, next: nat): Done<Page>
    decreases t, 0
  {
    match t
    case Leaf(_, items) => var d := CopyItems(items, next); Done(Leaf(d.next, d.it), d.next + 1)
    case Branch(_, kids) => var d := CopyKids(kids, next); Done(Branch(d.next, d.it), d.next + 1)
  }

  function CopyItem(it: Item, next: nat): Done<Item>
    decreases it, 0
  {
    match it
    case Small(_, _) => Done(it, next)
    case Big(key, _, pages, val) => Done(Big(key, next, pages, val), next + pages)
    case Sub(key, root) =>
      if root.None? then Done(it, next)
      else var d := Copy(root.value, next); Done(Sub(key, Some(d.it)), d.next)
  }

  function CopyItems(items: seq<Item>, next: nat): Done<seq<Item>>
    decreases items, 0
  {
    if items == [] then Done([], next) else
      assert items decreases to items[0];
      var d := CopyItem(items[0], next);
      var e := CopyItems(items[1..], d.next);
      Done([d.it] + e.it, e.next)
  }

  function CopyKids(kids: seq<Kid>, next: nat): Done<seq<Kid>>
    decreases kids, 0
  {
    if kids == [] then Done([], next) else
      assert kids decreases to kids[0];
      var d := Copy(kids[0].sub, next);
      var e := CopyKids(kids[1..], d.next);
      Done([Kid(kids[0].key, d.it)] + e.it, e.next)
  }

  // ---------------------------------------------------------------- numbering

  /** The pages of the copy are numbered next, next + 1, ... in post-order, without gaps. */
  lemma {:induction false} CopyNumbers(t: Page, next: nat)
    ensures next < Copy(t, next).next
    ensures Nos(Copy(t, next).it) == Run(next, Copy(t, next).next - next)
    ensures Copy(t, next).it.no == Copy(t, next).next - 1
    decreases t, 1
  {
    match t
    case Leaf(_, items) =>
      CopyItemsNumbers(items, next);
      RunConcat(next, CopyItems(items, next).next - next, 1);
    case Branch(_, kids) =>
      CopyKidsNumbers(kids, next);
      RunConcat(next, CopyKids(kids, next).next - next, 1);
  }

  lemma {:induction false} CopyItemsNumbers(items: seq<Item>, next: nat)
    ensures next <= CopyItems(items, next).next
    ensures ItemsNos(CopyItems(items, next).it) == Run(next, CopyItems(items, next).next - next)
    decreases items, 1
  {
    if items != [] {
      assert items decreases to items[0];
      CopyItemNumbers(items[0], next);
      var d := CopyItem(items[0], next);
      CopyItemsNumbers(items[1..], d.next);
      var e := CopyItems(items[1..], d.next);
      assert ([d.it] + e.it)[1..] == e.it;
      RunConcat(next, d.next - next, e.next - d.next);
    }
  }

  lemma {:induction false} CopyItemNumbers(it: Item, next: nat)
    ensures next <= CopyItem(it, next).next
    ensures ItemNos(CopyItem(it, next).it) == Run(next, CopyItem(it, next).next - next)
    decreases it, 1
  {
    if it.Sub? && it.root.Some? { CopyNumbers(it.root.value, next); }
  }

  lemma {:induction false} CopyKidsNumbers(kids: seq<Kid>, next: nat)
    ensures next <= CopyKids(kids, next).next
    ensures KidsNos(CopyKids(kids, next).it) == Run(next, CopyKids(kids, next).next - next)
    decreases kids, 1
  {
    if kids != [] {
      assert kids decreases to kids[0];
      CopyNumbers(kids[0].sub, next);
      var d := Copy(kids[0].sub, next);
      CopyKidsNumbers(kids[1..], d.next);
      var e := CopyKids(kids[1..], d.next);
      assert ([Kid(kids[0].key, d.it)] + e.it)[1..] == e.it;
      RunConcat(next, d.next - next, e.next - d.next);
    }
  }

  // ---------------------------------------------------------------- meaning

  /** The copy is the original up to page numbers, and uses as many pages. */
  lemma {:induction false} CopyMeaning(t: Page, next: nat)
    ensures Strip(Copy(t, next).it) == Strip(t) && Copy(t, next).next == next + Count(t)
    decreases t, 1
  {
    match t
    case Leaf(_, items) => CopyItemsMeaning(items, next);
    case Branch(_, kids) => CopyKidsMeaning(kids, next);
  }

  lemma {:induction false} CopyItemMeaning(it: Item, next: nat)
    ensures StripItem(CopyItem(it, next).it) == StripItem(it) && CopyItem(it, next).next == next + |ItemNos(it)|
    decreases it, 1
  {
    if it.Sub? && it.root.Some? { CopyMeaning(it.root.value, next); }
  }

  lemma {:induction false} CopyItemsMeaning(items: seq<Item>, next: nat)
    ensures StripItems(CopyItems(items, next).it) == StripItems(items) && CopyItems(items, next).next == next + |ItemsNos(items)|
    decreases items, 1
  {
    if items != [] {
      assert items decreases to items[0];
      CopyItemMeaning(items[0], next);
      var d := CopyItem(items[0], next);
      CopyItemsMeaning(items[1..], d.next);
      assert ([d.it] + CopyItems(items[1..], d.next).it)[1..] == CopyItems(items[1..], d.next).it;
    }
  }

  lemma {:induction false} CopyKidsMeaning(kids: seq<Kid>, next: nat)
    ensures StripKids(CopyKids(kids, next).it) == StripKids(kids) && CopyKids(kids, next).next == next + |KidsNos(kids)|
    decreases kids, 1
  {
    if kids != [] {
      assert kids decreases to kids[0];
      CopyMeaning(kids[0].sub, next);
      var d := Copy(kids[0].sub, next);
      CopyKidsMeaning(kids[1..], d.next);
      assert ([Kid(kids[0].key, d.it)] + CopyKids(kids[1..], d.next).it)[1..] == CopyKids(kids[1..], d.next).it;
    }
  }

  // ---------------------------------------------------------------- the walk with its stack

  /** Branch pages have children, and sub-databases nest at most d deep. */
  ghost predicate Sound(t: Page, d: nat)
    decreases t
  {
    match t
    case Leaf(_, items) => forall it :: it in items && it.Sub? && it.root.Some? ==> d > 0 && Sound(it.root.value, d - 1)
    case Branch(_, kids) => kids != [] && forall kid :: kid in kids ==> Sound(kid.sub, d)
  }

  /** Branch pages have children. */
  ghost predicate Filled(t: Page) {
    match t
    case Leaf(_, items) => forall it :: it in items && it.Sub? && it.root.Some? ==> Filled(it.root.value)
    case Branch(_, kids) => kids != [] && forall kid :: kid in kids ==> Filled(kid.sub)
  }

  lemma {:induction false} SoundDeeper(t: Page, d: nat, e: nat)
    requires Sound(t, d) && d <= e
    ensures Sound(t, e)
    decreases t
  {
    match t
    case Leaf(_, items) =>
      forall it | it in items && it.Sub? && it.root.Some? ensures Sound(it.root.value, e - 1) {
        SoundDeeper(it.root.value, d - 1, e - 1);
      }
    case Branch(_, kids) => forall kid | kid in kids ensures Sound(kid.sub, e) { SoundDeeper(kid.sub, d, e); }
  }

  /** Every database has a nesting depth. */
  lemma {:induction false} SomeDepth(t: Page) returns (d: nat)
    requires Filled(t)
    ensures Sound(t, d)
    decreases t, 0
  {
    match t
    case Leaf(no, items) => d := ItemsDepth(items);
    case Branch(no, kids) => d := KidsDepth(kids);
  }

  lemma {:induction false} ItemsDepth(items: seq<Item>) returns (d: nat)
    requires forall it :: it in items && it.Sub? && it.root.Some? ==> Filled(it.root.value)
    ensures forall it :: it in items && it.Sub? && it.root.Some? ==> d > 0 && Sound(it.root.value, d - 1)
    decreases items, 0
  {
    d := 0;
    if items != [] {
      assert items decreases to items[0];
      var e := ItemsDepth(items[1..]);
      d := e;
      var it := items[0];
      if it.Sub? && it.root.Some? {
        var f := SomeDepth(it.root.value);
        d := if f + 1 > e then f + 1 else e;
        SoundDeeper(it.root.value, f, d - 1);
      }
      forall x | x in items[1..] && x.Sub? && x.root.Some? ensures Sound(x.root.value, d - 1) {
        SoundDeeper(x.root.value, e - 1, d - 1);
      }
      assert items == [it] + items[1..];
    }
  }

  lemma {:induction false} KidsDepth(kids: seq<Kid>) returns (d: nat)
    requires forall kid :: kid in kids ==> Filled(kid.sub)
    ensures forall kid :: kid in kids ==> Sound(kid.sub, d)
    decreases kids, 0
  {
    d := 0;
    if kids != [] {
      assert kids decreases to kids[0];
      var e := KidsDepth(kids[1..]);
      var f := SomeDepth(kids[0].sub);
      d := if f > e then f else e;
      SoundDeeper(kids[0].sub, f, d);
      forall kid | kid in kids[1..] ensures Sound(kid.sub, d) { SoundDeeper(kid.sub, e, d); }
      assert kids == [kids[0]] + kids[1..];
    }
  }

  /** The stacked pages are branches, each with the index of the child being copied. */
  predicate Frames(pg: seq<Page>, ki: seq<nat>) {
    |pg| == |ki| && forall j :: 0 <= j < |pg| ==> pg[j].Branch? && ki[j] < |pg[j].kids|
  }

  /** The page with child i replaced (SETPGNO in the writable copy). */
  function SetKid(p: Page, i: nat, child: Page): (r: Page)
    requires p.Branch? && i < |p.kids|
    ensures r.Branch? && |r.kids| == |p.kids|
  {
    p.(kids := p.kids[i := Kid(p.kids[i].key, child)])
  }

  /** What the walk ends with once `child` has been written and the stacked pages remain. */
  ghost function Close(pg: seq<Page>, ki: seq<nat>, child: Done<Page>): Done<Page>
    requires Frames(pg, ki)
    decreases |pg|, 1
  {
    if pg == [] then child else
      var n := |pg| - 1;
      Finish(pg[..n], ki[..n], SetKid(pg[n], ki[n], child.it), ki[n] + 1, child.next)
  }

  /** ... and once the first i children of p, under the stacked pages, have been written. */
  ghost function Finish(pg: seq<Page>, ki: seq<nat>, p: Page, i: nat, next: nat): Done<Page>
    requires Frames(pg, ki) && p.Branch? && i <= |p.kids|
    decreases |pg|, 2
  {
    var d := CopyKids(p.kids[i..], next);
    Close(pg, ki, Done(Branch(d.next, p.kids[..i] + d.it), d.next + 1))
  }

  lemma PushFrames(pg: seq<Page>, ki: seq<nat>, p: Page, i: nat)
    requires Frames(pg, ki) && p.Branch? && i < |p.kids|
    ensures Frames(pg + [p], ki + [i])
    ensures (pg + [p])[..|pg|] == pg && (ki + [i])[..|pg|] == ki
  {
  }

  /** Going down into child i. */
  lemma Enter(pg: seq<Page>, ki: seq<nat>, p: Page, i: nat, next: nat)
    requires Frames(pg, ki) && p.Branch? && i < |p.kids|
    ensures Frames(pg + [p], ki + [i])
    ensures Finish(pg, ki, p, i, next) == Close(pg + [p], ki + [i], Copy(p.kids[i].sub, next))
  {
    hide Copy;
    PushFrames(pg, ki, p, i);
    var d := Copy(p.kids[i].sub, next);
    var q := SetKid(p, i, d.it);
    assert p.kids[i..][0] == p.kids[i] && p.kids[i..][1..] == p.kids[i + 1..];
    assert q.kids[i + 1..] == p.kids[i + 1..];
    var e := CopyKids(p.kids[i + 1..], d.next);
    assert p.kids[..i] + ([Kid(p.kids[i].key, d.it)] + e.it) == q.kids[..i + 1] + e.it;
  }

  /** A branch to be copied is a branch none of whose children has been. */
  lemma EnterFirst(pg: seq<Page>, ki: seq<nat>, p: Page, next: nat)
    requires Frames(pg, ki) && p.Branch?
    ensures Close(pg, ki, Copy(p, next)) == Finish(pg, ki, p, 0, next)
  {
    assert p.kids[0..] == p.kids;
    var d := CopyKids(p.kids, next);
    assert p.kids[..0] + d.it == d.it;
  }

  /** A branch all of whose children have been copied is written next. */
  lemma Leave(pg: seq<Page>, ki: seq<nat>, p: Page, next: nat)
    requires Frames(pg, ki) && p.Branch?
    ensures Finish(pg, ki, p, |p.kids|, next) == Close(pg, ki, Done(Branch(next, p.kids), next + 1))
  {
    var n := |p.kids|;
    assert p.kids[n..] == [];
    assert p.kids[..n] + [] == p.kids;
  }

  lemma {:induction false} CloseLater(pg: seq<Page>, ki: seq<nat>, child: Done<Page>)
    requires Frames(pg, ki)
    ensures child.next <= Close(pg, ki, child).next
    decreases |pg|
  {
    if pg != [] {
      var n := |pg| - 1;
      var p := SetKid(pg[n], ki[n], child.it);
      CopyKidsNumbers(p.kids[ki[n] + 1..], child.next);
      var d := CopyKids(p.kids[ki[n] + 1..], child.next);
      CloseLater(pg[..n], ki[..n], Done(Branch(d.next, p.kids[..ki[n] + 1] + d.it), d.next + 1));
    }
  }

  /** The children still to be visited are in order. */
  ghost predicate Ahead(pg: seq<Page>, ki: seq<nat>, d: nat)
    requires Frames(pg, ki)
  {
    forall j, k :: 0 <= j < |pg| && ki[j] < k < |pg[j].kids| ==> Sound(pg[j].kids[k].sub, d)
  }

  ghost predicate KidsAhead(p: Page, i: nat, d: nat)
    requires p.Branch?
  {
    forall k :: i <= k < |p.kids| ==> Sound(p.kids[k].sub, d)
  }

  lemma SoundKids(p: Page, d: nat)
    requires Sound(p, d) && p.Branch?
    ensures p.kids != [] && KidsAhead(p, 0, d)
  {
    forall k | 0 <= k < |p.kids| ensures Sound(p.kids[k].sub, d) { assert p.kids[k] in p.kids; }
  }

  /** Down to the first leaf below mp. */
  method ToFirstLeaf(pg0: seq<Page>, ki0: seq<nat>, mp0: Page, next: nat, ghost d: nat) returns (pg: seq<Page>, ki: seq<nat>, mp: Page)
    requires Frames(pg0, ki0) && Ahead(pg0, ki0, d) && Sound(mp0, d)
    ensures Frames(pg, ki) && Ahead(pg, ki, d) && Sound(mp, d) && mp.Leaf?
    ensures Close(pg, ki, Copy(mp, next)) == Close(pg0, ki0, Copy(mp0, next))
  {
    hide Copy, Close, Finish, Sound;
    pg, ki, mp := pg0, ki0, mp0;
    while mp.Branch?
      invariant Frames(pg, ki) && Ahead(pg, ki, d) && Sound(mp, d)
      invariant Close(pg, ki, Copy(mp, next)) == Close(pg0, ki0, Copy(mp0, next))
      decreases mp
    {
      SoundKids(mp, d);
      EnterFirst(pg, ki, mp, next);
      Enter(pg, ki, mp, 0, next);
      pg, ki := pg + [mp], ki + [0];
      mp := mp.kids[0].sub;
    }
  }

  /** The leaf's overflow runs and sub-databases, in order. */
  method WalkItems(items: seq<Item>, next0: nat, ghost d: nat) returns (out: seq<Item>, next: nat)
    requires forall it :: it in items && it.Sub? && it.root.Some? ==> d > 0 && Sound(it.root.value, d - 1)
    ensures Done(out, next) == CopyItems(items, next0)
    decreases d, 0
  {
    hide Copy, Sound;
    out, next := [], next0;
    var i := 0;
    assert items[0..] == items && [] + CopyItems(items, next0).it == CopyItems(items, next0).it;
    while i < |items|
      invariant 0 <= i <= |items|
      invariant var rest := CopyItems(items[i..], next);
        Done(out + rest.it, rest.next) == CopyItems(items, next0)
    {
      var it := items[i];
      assert it in items && items[i..][0] == it && items[i..][1..] == items[i + 1..];
      ghost var rest := CopyItems(items[i..], next);
      ghost var one := CopyItem(it, next);
      ghost var more := CopyItems(items[i + 1..], one.next);
      assert out + rest.it == out + [one.it] + more.it;
      match it {
        case Small(_, _) =>
        case Big(key, _, pages, val) =>
          it := Big(key, next, pages, val);
          next := next + pages;
        case Sub(key, root) =>
          if root.Some? {
            var newRoot;
            newRoot, next := CWalk(root.value, next, d - 1);
            it := Sub(key, Some(newRoot));
          }
      }
      out := out + [it];
      i := i + 1;
    }
    assert items[|items|..] == [];
    assert out + [] == out;
  }

  /** mdb_env_cwalk: depth first with an explicit stack, writing each page after its children. */
  method CWalk(t: Page, next0: nat, ghost d: nat) returns (root: Page, next: nat)
    requires Sound(t, d)
    ensures Done(root, next) == Copy(t, next0)
    decreases d, 1
  {
    hide Copy, Close, Finish, Sound, CopyItems;
    ghost var want := Copy(t, next0);
    CloseEmpty(want);
    next := next0;
    var at: nat := 0;
    var pg: seq<Page>, ki: seq<nat>, mp := ToFirstLeaf([], [], t, next, d);
    CopyLater(mp, next);
    CloseLater(pg, ki, Copy(mp, next));
    while true
      invariant Frames(pg, ki) && Ahead(pg, ki, d) && next <= want.next
      invariant mp.Leaf? ==> Sound(mp, d) && want == Close(pg, ki, Copy(mp, next))
      invariant mp.Branch? ==> at < |mp.kids| && KidsAhead(mp, at + 1, d) && want == Finish(pg, ki, mp, at + 1, next)
      decreases want.next - next, if mp.Leaf? then 0 else 1
    {
      var page;
      if mp.Leaf? {
        LeafStep(mp, next, d);
        var items;
        items, next := WalkItems(mp.items, next, d);
        page := Leaf(next, items);
        next := next + 1;
      } else {
        at := at + 1;
        if at < |mp.kids| {
          Enter(pg, ki, mp, at, next);
          StillAhead(pg, ki, mp, at, d);
          pg, ki, mp := ToFirstLeaf(pg + [mp], ki + [at], mp.kids[at].sub, next, d);
          continue;
        }
        Leave(pg, ki, mp, next);
        page := Branch(next, mp.kids);
        next := next + 1;
      }
      assert want == Close(pg, ki, Done(page, next));
      CloseLater(pg, ki, Done(page, next));
      if pg == [] {
        CloseEmpty(Done(page, next));
        return page, next;
      }
      Up(pg, ki, page, next, d);
      at := ki[|ki| - 1];
      mp := SetKid(pg[|pg| - 1], at, page);
      pg, ki := pg[..|pg| - 1], ki[..|ki| - 1];
    }
  }

  /** The walk from a database's root. */
  method CopyDatabase(t: Page, next0: nat) returns (root: Page, next: nat)
    requires Filled(t)
    ensures Done(root, next) == Copy(t, next0)
  {
    ghost var d := SomeDepth(t);
    root, next := CWalk(t, next0, d);
  }

  lemma CopyLater(t: Page, next: nat)
    ensures next < Copy(t, next).next
  {
    CopyNumbers(t, next);
  }

  lemma CloseEmpty(child: Done<Page>)
    ensures Close([], [], child) == child
  {
  }

  lemma LeafStep(mp: Page, next: nat, d: nat)
    requires mp.Leaf? && Sound(mp, d)
    ensures var e := CopyItems(mp.items, next); Copy(mp, next) == Done(Leaf(e.next, e.it), e.next + 1) && next <= e.next
    ensures forall it :: it in mp.items && it.Sub? && it.root.Some? ==> d > 0 && Sound(it.root.value, d - 1)
  {
    CopyItemsNumbers(mp.items, next);
  }

  lemma StillAhead(pg: seq<Page>, ki: seq<nat>, p: Page, i: nat, d: nat)
    requires Frames(pg, ki) && Ahead(pg, ki, d) && p.Branch? && i < |p.kids| && KidsAhead(p, i, d)
    ensures Frames(pg + [p], ki + [i]) && Ahead(pg + [p], ki + [i], d) && Sound(p.kids[i].sub, d)
  {
    hide Sound;
    PushFrames(pg, ki, p, i);
  }

  /** The written page's number goes into its parent, which is on top again. */
  lemma Up(pg: seq<Page>, ki: seq<nat>, page: Page, next: nat, d: nat)
    requires Frames(pg, ki) && Ahead(pg, ki, d) && pg != []
    ensures var n := |pg| - 1;
      var p := SetKid(pg[n], ki[n], page);
      && Frames(pg[..n], ki[..n]) && Ahead(pg[..n], ki[..n], d) && KidsAhead(p, ki[n] + 1, d)
      && Close(pg, ki, Done(page, next)) == Finish(pg[..n], ki[..n], p, ki[n] + 1, next)
  {
    hide Sound;
  }

  // ---------------------------------------------------------------- the copied environment

  /** mdb_env_copyfd1 with a non-empty main database: the root it predicts from the page counts is
      the root the walk arrives at exactly when no page is leaked or counted twice. */
  lemma PredictedRoot(t: Page, nextPgno: nat, freecount: nat)
    ensures Copy(t, 2).it.no == nextPgno - 1 - freecount <==> Count(t) + freecount + 2 == nextPgno
  {
    CopyNumbers(t, 2);
    CopyMeaning(t, 2);
  }

  /** The compacted file: same database, pages 2 .. root in use, none free. */
  lemma CompactedFile(t: Page)
    ensures var c := Copy(t, 2).it;
      Strip(c) == Strip(t) && Nos(c) == Run(2, Count(t)) && c.no == 1 + Count(t)
  {
    CopyNumbers(t, 2);
    CopyMeaning(t, 2);
  }
}
