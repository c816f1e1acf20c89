/**
  After mdb_page_merge: the loop that adjusts every other tracked cursor, so that each still
  designates the same node at every level.
 */
module CursorFixup {
  type PageId = nat

  /** What a node leads to: a child page, or a data item. */
  datatype Payload = Child(id: PageId) | Item(item: int)

  /** The nodes of every page. */
  type Pages = map<PageId, seq<Payload>>

  /** mc_pg and mc_ki, from the root down. */
  datatype Cursor = Cursor(pg: seq<PageId>, ki: seq<nat>)

  /** Every index is a node of its page and leads to the next page of the stack. */
  predicate Tracks(pages: Pages, c: Cursor) {
    && |c.pg| == |c.ki| > 0
    && (forall l :: 0 <= l < |c.pg| ==> c.pg[l] in pages && c.ki[l] < |pages[c.pg[l]]|)
    && (forall l :: 0 <= l < |c.pg| - 1 ==> pages[c.pg[l]][c.ki[l]] == Child(c.pg[l + 1]))
  }

  /** The node a cursor designates at level l. */
  function Designated(pages: Pages, c: Cursor, l: nat): Payload
    requires Tracks(pages, c) && l < |c.pg|
  {
    pages[c.pg[l]][c.ki[l]]
  }

  /** A merge about to happen: dst and src are neighbours under parent, which alone leads to them. */
  datatype Merge = Merge(parent: PageId, at: nat, dst: PageId, src: PageId)

  predicate CanMerge(pages: Pages, m: Merge) {
    && m.parent in pages && m.dst in pages && m.src in pages
    && m.parent != m.dst && m.parent != m.src && m.dst != m.src
    && m.at + 1 < |pages[m.parent]|
    && pages[m.parent][m.at] == Child(m.dst) && pages[m.parent][m.at + 1] == Child(m.src)
    && (forall q, i :: q in pages && 0 <= i < |pages[q]| && pages[q][i] == Child(m.src) ==> q == m.parent && i == m.at + 1)
    && (forall q, i :: q in pages && 0 <= i < |pages[q]| && pages[q][i] == Child(m.dst) ==> q == m.parent && i == m.at)
  }

  /** The pages afterwards: src's nodes appended to dst's, src unlinked from the parent and gone. */
  function Merged(pages: Pages, m: Merge): Pages
    requires CanMerge(pages, m)
  {
    var ps := pages[m.parent];
    (pages - {m.src})[m.parent := ps[..m.at + 1] + ps[m.at + 2..]][m.dst := pages[m.dst] + pages[m.src]]
  }

  /** What a node leading to src leads to afterwards. */
  function Renamed(m: Merge, p: Payload): Payload { if p == Child(m.src) then Child(m.dst) else p }

  /** The adjustment of one cursor; `top` is the level of the merged pages, nkeys what dst had. */
  function Adjusted(m: Merge, top: nat, nkeys: nat, c: Cursor): Cursor
    requires top > 0 && |c.pg| == |c.ki|
  {
    if |c.pg| < top + 1 then c
    else if c.pg[top] == m.src then Cursor(c.pg[top := m.dst], c.ki[top := c.ki[top] + nkeys][top - 1 := m.at])
    else if c.pg[top - 1] == m.parent && c.ki[top - 1] > m.at + 1 then Cursor(c.pg, c.ki[top - 1 := c.ki[top - 1] - 1])
    else c
  }

  /** The merged pages are at level top of every cursor that visits them, and only there. */
  predicate AtLevel(m: Merge, top: nat, c: Cursor) {
    && top > 0
    && (forall l :: 0 <= l < |c.pg| && (c.pg[l] == m.src || c.pg[l] == m.dst) ==> l == top)
    && (forall l :: 0 <= l < |c.pg| && c.pg[l] == m.parent ==> l == top - 1)
  }

  /** The pages after a merge, one by one. */
  lemma MergedPages(pages: Pages, m: Merge, q: PageId)
    requires CanMerge(pages, m) && q in pages && q != m.src
    ensures q in Merged(pages, m)
    ensures q == m.dst ==> Merged(pages, m)[q] == pages[m.dst] + pages[m.src]
    ensures q == m.parent ==> Merged(pages, m)[q] == pages[q][..m.at + 1] + pages[q][m.at + 2..]
    ensures q != m.dst && q != m.parent ==> Merged(pages, m)[q] == pages[q]
  {
  }

  /** Only the parent leads to src. */
  lemma NotSource(pages: Pages, m: Merge, q: PageId, i: nat)
    requires CanMerge(pages, m) && q in pages && i < |pages[q]| && !(q == m.parent && i == m.at + 1)
    ensures Renamed(m, pages[q][i]) == pages[q][i]
  {
  }

  /** What the adjustment promises for one level. */
  ghost predicate Kept(pages: Pages, m: Merge, top: nat, c: Cursor, l: nat)
    requires CanMerge(pages, m) && Tracks(pages, c) && top > 0 && l < |c.pg|
  {
    var c', pages' := Adjusted(m, top, |pages[m.dst]|, c), Merged(pages, m);
    && |c'.pg| == |c'.ki| == |c.pg|
    && c'.pg[l] == (if c.pg[l] == m.src then m.dst else c.pg[l])
    && c'.pg[l] in pages' && c'.ki[l] < |pages'[c'.pg[l]]|
    && pages'[c'.pg[l]][c'.ki[l]] == Renamed(m, Designated(pages, c, l))
  }

  lemma TopKept(pages: Pages, m: Merge, top: nat, c: Cursor)
    requires CanMerge(pages, m) && Tracks(pages, c) && AtLevel(m, top, c) && top < |c.pg|
    ensures Kept(pages, m, top, c, top)
  {
    hide CanMerge, Merged;
    var q := c.pg[top];
    Present(pages, m);
    MergedPages(pages, m, if q == m.src then m.dst else q);
    NotSource(pages, m, q, c.ki[top]);
  }

  lemma Present(pages: Pages, m: Merge)
    requires CanMerge(pages, m)
    ensures m.dst in pages && m.src in pages && m.parent in pages && m.dst != m.src && m.parent != m.src
  {
  }

  lemma ParentKept(pages: Pages, m: Merge, top: nat, c: Cursor)
    requires CanMerge(pages, m) && Tracks(pages, c) && AtLevel(m, top, c) && top < |c.pg|
    ensures Kept(pages, m, top, c, top - 1)
  {
    var q, k := c.pg[top - 1], c.ki[top - 1];
    assert pages[q][k] == Child(c.pg[top]);
    MergedPages(pages, m, q);
    if q == m.parent && k != m.at + 1 { NotSource(pages, m, q, k); }
  }

  lemma OtherKept(pages: Pages, m: Merge, top: nat, c: Cursor, l: nat)
    requires CanMerge(pages, m) && Tracks(pages, c) && AtLevel(m, top, c) && top < |c.pg|
    requires l < |c.pg| && l != top && l != top - 1
    ensures Kept(pages, m, top, c, l)
  {
    MergedPages(pages, m, c.pg[l]);
    NotSource(pages, m, c.pg[l], c.ki[l]);
  }

  /** Tracked cursors survive a merge: after the adjustment every level still designates the same
      node (a node that led to src now leads to dst), and the stack still hangs together. */
  lemma CursorSurvives(pages: Pages, m: Merge, top: nat, c: Cursor)
    requires CanMerge(pages, m) && Tracks(pages, c) && AtLevel(m, top, c) && top < |c.pg|
    ensures forall l :: 0 <= l < |c.pg| ==> Kept(pages, m, top, c, l)
    ensures Tracks(Merged(pages, m), Adjusted(m, top, |pages[m.dst]|, c))
  {
    hide CanMerge, Merged;
    Present(pages, m);
    forall l | 0 <= l < |c.pg| ensures Kept(pages, m, top, c, l) {
      if l == top {
        TopKept(pages, m, top, c);
      } else if l == top - 1 {
        ParentKept(pages, m, top, c);
      } else {
        OtherKept(pages, m, top, c, l);
      }
    }
    StillLinked(pages, m, top, c);
  }

  lemma StillLinked(pages: Pages, m: Merge, top: nat, c: Cursor)
    requires CanMerge(pages, m) && Tracks(pages, c) && top > 0
    requires forall l :: 0 <= l < |c.pg| ==> Kept(pages, m, top, c, l)
    ensures Tracks(Merged(pages, m), Adjusted(m, top, |pages[m.dst]|, c))
  {
    hide CanMerge, Merged;
    Present(pages, m);
    var c', pages' := Adjusted(m, top, |pages[m.dst]|, c), Merged(pages, m);
    assert Kept(pages, m, top, c, 0);
    forall l | 0 <= l < |c'.pg| ensures c'.pg[l] in pages' && c'.ki[l] < |pages'[c'.pg[l]]| {
      assert Kept(pages, m, top, c, l);
    }
    forall l | 0 <= l < |c'.pg| - 1 ensures pages'[c'.pg[l]][c'.ki[l]] == Child(c'.pg[l + 1]) {
      assert Kept(pages, m, top, c, l) && Kept(pages, m, top, c, l + 1);
    }
  }

  /** The fix-up loop over the tracked cursors; `own` is the cursor doing the merge, if tracked. */
  method FixUp(cursors: array<Cursor>, own: int, m: Merge, top: nat, nkeys: nat)
    requires top > 0 && forall i :: 0 <= i < cursors.Length ==> |cursors[i].pg| == |cursors[i].ki|
    modifies cursors
    ensures forall i :: 0 <= i < cursors.Length ==>
      cursors[i] == if i == own then old(cursors[i]) else Adjusted(m, top, nkeys, old(cursors[i]))
  {
    var i := 0;
    while i < cursors.Length
      invariant 0 <= i <= cursors.Length
      invariant forall j :: 0 <= j < i ==>
        cursors[j] == if j == own then old(cursors[j]) else Adjusted(m, top, nkeys, old(cursors[j]))
      invariant forall j :: i <= j < cursors.Length ==> cursors[j] == old(cursors[j])
    {
      var c := cursors[i];
      if i != own && |c.pg| >= top + 1 {
        if c.pg[top] == m.src {
          c := c.(pg := c.pg[top := m.dst], ki := c.ki[top := c.ki[top] + nkeys]);
          c := c.(ki := c.ki[top - 1 := m.at]);
        } else if c.pg[top - 1] == m.parent && c.ki[top - 1] > m.at + 1 {
          c := c.(ki := c.ki[top - 1 := c.ki[top - 1] - 1]);
        }
        cursors[i] := c;
      }
      i := i + 1;
    }
  }
}
