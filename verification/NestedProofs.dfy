/** Every step of a nested transaction keeps the lists in order and its ancestors' view intact. */
module NestedProofs {
  import opened NestedTxn

  // ---------------------------------------------------------------- the top of the stack

  lemma TopOfStack(outer: seq<Level>, t: Level)
    ensures (outer + [t])[..|outer|] == outer && (outer + [t])[|outer|] == t
    ensures StackOk(outer + [t]) <==> StackOk(outer) && TopOk(outer, t)
    ensures VisibleDirty(outer + [t]) == VisibleDirty(outer) - t.spill + t.dirty.Keys
    ensures forall p :: Unused(outer + [t], p) <==>
      Unused(outer, p) && p !in t.dirty && p !in t.spill && p !in t.tree
    ensures forall p :: Spilled(outer + [t], p) <==> Spilled(outer, p) || p in t.spill
  {
    var stack := outer + [t];
    assert stack[..|outer|] == outer;
    forall p ensures Unused(stack, p) <==> Unused(outer, p) && p !in t.dirty && p !in t.spill && p !in t.tree {
      UnusedTop(outer, t, p);
    }
    forall p ensures Spilled(stack, p) <==> Spilled(outer, p) || p in t.spill { SpilledTop(outer, t, p); }
  }

  lemma UnusedTop(outer: seq<Level>, t: Level, p: Pgno)
    ensures Unused(outer + [t], p) <==> Unused(outer, p) && p !in t.dirty && p !in t.spill && p !in t.tree
  {
    var stack := outer + [t];
    assert stack[|outer|] == t;
    if Unused(stack, p) {
      forall i | 0 <= i < |outer| ensures p !in outer[i].dirty && p !in outer[i].spill && p !in outer[i].tree {
        assert stack[i] == outer[i];
      }
    }
  }

  lemma SpilledTop(outer: seq<Level>, t: Level, p: Pgno)
    ensures Spilled(outer + [t], p) <==> Spilled(outer, p) || p in t.spill
  {
    var stack := outer + [t];
    assert stack[|outer|] == t;
    if Spilled(outer, p) {
      var i :| 0 <= i < |outer| && p in outer[i].spill;
      assert stack[i] == outer[i];
    }
  }

  lemma Parts(s: State)
    requires Inv(s)
    ensures s.stack == s.Outer() + [s.Top()] && StackOk(s.Outer()) && TopOk(s.Outer(), s.Top())
  {
    hide TopOk, FreshFor;
  }

  /** A step that changes only the innermost transaction. */
  lemma TopStep(s: State, t: Level, disk: map<Pgno, Content>, pg: PgState)
    requires Inv(s) && TopOk(s.Outer(), t) && FreshFor(s.Outer() + [t], pg.head, t.next)
    ensures Inv(State(s.Outer() + [t], disk, pg))
  {
    TopOfStack(s.Outer(), t);
  }

  // ---------------------------------------------------------------- allocation

  lemma FreshParts(outer: seq<Level>, t: Level, q: Pgno)
    requires Unused(outer + [t], q)
    ensures q !in t.dirty && q !in t.spill && q !in t.tree && Unused(outer, q)
    ensures q !in VisibleDirty(outer + [t])
  {
    TopOfStack(outer, t);
    UnusedInvisible(outer, q);
  }

  lemma {:induction false} UnusedInvisible(stack: seq<Level>, q: Pgno)
    requires Unused(stack, q)
    ensures q !in VisibleDirty(stack)
  {
    if stack != [] { UnusedInvisible(stack[..|stack| - 1], q); }
  }

  lemma {:induction false} LooseIsDirty(stack: seq<Level>, i: nat)
    requires StackOk(stack) && i < |stack|
    ensures stack[i].loose <= stack[i].dirty.Keys
  {
    if i < |stack| - 1 { LooseIsDirty(stack[..|stack| - 1], i); }
  }

  lemma VisibleTop(outer: seq<Level>, t: Level)
    ensures VisibleDirty(outer + [t]) == VisibleDirty(outer) - t.spill + t.dirty.Keys
  {
    assert (outer + [t])[..|outer|] == outer;
  }

  /** One more visible dirty page takes one more slot. */
  lemma RoomLess(outer: seq<Level>, t: Level, u: Level, q: Pgno)
    requires RoomOk(outer, t) && t.room > 0 && u.room == t.room - 1
    requires q !in VisibleDirty(outer + [t]) && VisibleDirty(outer + [u]) == VisibleDirty(outer + [t]) + {q}
    ensures RoomOk(outer, u)
  {
  }

  lemma SavedSame(outer: seq<Level>, t: Level, u: Level)
    requires SavedOk(outer, t) && t.next <= u.next && u.saved == t.saved
    ensures SavedOk(outer, u)
  {
    hide FreshFor;
  }

  lemma RoomSame(outer: seq<Level>, t: Level, outer': seq<Level>, u: Level)
    requires RoomOk(outer, t) && u.room == t.room && VisibleDirty(outer' + [u]) == VisibleDirty(outer + [t])
    ensures RoomOk(outer', u)
  {
  }

  lemma RoomMore(outer: seq<Level>, t: Level, u: Level, q: Pgno)
    requires RoomOk(outer, t) && u.room == t.room + 1
    requires q !in VisibleDirty(outer + [u]) && VisibleDirty(outer + [t]) == VisibleDirty(outer + [u]) + {q}
    ensures RoomOk(outer, u)
  {
  }

  lemma FreshRoom(outer: seq<Level>, t: Level, u: Level, q: Pgno)
    requires RoomOk(outer, t) && t.room > 0 && u.room == t.room - 1 && Unused(outer + [t], q)
    requires u.dirty.Keys == t.dirty.Keys + {q} && u.spill == t.spill
    ensures RoomOk(outer, u)
  {
    FreshParts(outer, t, q);
    VisibleTop(outer, t);
    VisibleTop(outer, u);
    assert VisibleDirty(outer + [u]) == VisibleDirty(outer + [t]) + {q};
    RoomLess(outer, t, u, q);
  }

  /** Pages added to a transaction's lists or tree that no ancestor keeps as loose. */
  lemma MoreLists(outer: seq<Level>, t: Level, u: Level, q: Pgno)
    requires ListsOk(outer, t) && forall i :: 0 <= i < |outer| ==> q !in outer[i].loose
    requires u.dirty.Keys == t.dirty.Keys + {q} && u.spill == t.spill - {q} && u.tree <= t.tree + {q}
    requires u.loose == t.loose - {q}
    ensures ListsOk(outer, u)
  {
  }

  lemma ShelterMore(outer: seq<Level>, pages: set<Pgno>, q: Pgno)
    requires Sheltered(outer, pages) && Sheltered(outer, {q})
    ensures Sheltered(outer, pages + {q})
  {
  }

  lemma SheltersUnused(outer: seq<Level>, q: Pgno)
    requires Unused(outer, q)
    ensures Sheltered(outer, {q})
  {
  }

  /** Taking a page that nobody uses. */
  lemma TakeFresh(outer: seq<Level>, t: Level, head: set<Pgno>, q: Pgno, c: Content, gone: set<Pgno>, freed: seq<Pgno>)
    requires StackOk(outer) && TopOk(outer, t) && Unused(outer + [t], q) && t.room > 0 && q !in t.loose
    ensures TopOk(outer, Taken(t, head, q, c, gone, freed))
  {
    hide RoomOk, Sheltered, FreshFor, StackOk, Unused;
    var u := Taken(t, head, q, c, gone, freed);
    FreshParts(outer, t, q);
    FreshRoom(outer, t, u, q);
    forall i | 0 <= i < |outer| ensures q !in outer[i].loose {
      LooseIsDirty(outer, i);
      LooseUsed(outer, i, q);
    }
    MoreLists(outer, t, u, q);
    SheltersUnused(outer, q);
    ShelterMore(outer, t.dirty.Keys + t.spill, q);
    assert u.dirty.Keys + u.spill == t.dirty.Keys + t.spill + {q};
  }

  lemma LooseUsed(outer: seq<Level>, i: nat, q: Pgno)
    requires i < |outer| && Unused(outer, q)
    ensures q !in outer[i].dirty
  {
  }

  /** Changes that leave the key sets of the lists alone. */
  lemma SameLists(outer: seq<Level>, t: Level, u: Level)
    requires TopOk(outer, t) && u.dirty.Keys == t.dirty.Keys && u.spill == t.spill && u.room == t.room
    requires u.loose <= t.dirty.Keys && u.loose !! u.tree && u.tree <= t.tree + t.dirty.Keys
    requires u.next == t.next && u.saved == t.saved
    ensures TopOk(outer, u)
  {
    hide Sheltered, FreshFor, VisibleDirty, Spilled;
    VisibleTop(outer, t);
    VisibleTop(outer, u);
  }

  /** The page state stays fresh when the transaction's new page leaves it. */
  lemma FreshLess(outer: seq<Level>, t: Level, u: Level, head: set<Pgno>, q: Pgno)
    requires FreshFor(outer + [t], head, t.next) && t.next <= u.next && q < u.next
    requires u.dirty.Keys <= t.dirty.Keys + {q} && u.spill <= t.spill + {q} && u.tree <= t.tree + {q}
    ensures FreshFor(outer + [u], head - {q}, u.next)
  {
    forall p: Pgno | p in head - {q} || p >= u.next ensures Unused(outer + [u], p) {
      assert Unused(outer + [t], p);
      UnusedTop(outer, t, p);
      UnusedTop(outer, u, p);
    }
  }

  /** ... and when it uses no page that it did not use before. */
  lemma FreshSame(outer: seq<Level>, t: Level, u: Level, head: set<Pgno>)
    requires FreshFor(outer + [t], head, t.next) && u.next == t.next
    requires u.dirty.Keys + u.spill + u.tree <= t.dirty.Keys + t.spill + t.tree
    ensures FreshFor(outer + [u], head, u.next)
  {
    forall p: Pgno | p in head || p >= u.next ensures Unused(outer + [u], p) {
      assert Unused(outer + [t], p);
      UnusedTop(outer, t, p);
      UnusedTop(outer, u, p);
      assert p !in u.dirty.Keys + u.spill + u.tree;
    }
  }

  lemma TakeKeeps(s: State, q: Pgno, c: Content, gone: set<Pgno>, freed: seq<Pgno>)
    requires Inv(s) && CanTake(s, q)
    ensures Inv(Take(s, q, c, gone, freed))
  {
    hide TopOk, StackOk, FreshFor, Unused;
    Parts(s);
    var outer, t := s.Outer(), s.Top();
    var u := Taken(t, s.pg.head, q, c, gone, freed);
    if q in t.loose {
      LooseTop(outer, t);
      SameLists(outer, t, u);
      FreshSame(outer, t, u, s.pg.head);
      TopStep(s, u, s.disk, s.pg);
    } else {
      FreshPage(s, q);
      TakeFresh(outer, t, s.pg.head, q, c, gone, freed);
      FreshLess(outer, t, u, s.pg.head, q);
      TopStep(s, u, s.disk, s.pg.(head := s.pg.head - {q}));
    }
  }

  lemma LooseTop(outer: seq<Level>, t: Level)
    requires TopOk(outer, t)
    ensures t.loose <= t.dirty.Keys && t.loose !! t.tree && t.dirty.Keys !! t.spill
  {
  }

  lemma FreshPage(s: State, q: Pgno)
    requires Inv(s) && (q in s.pg.head || q == s.Top().next)
    ensures Unused(s.stack, q) && q <= s.Top().next && (q in s.pg.head ==> q < s.Top().next)
  {
  }

  // ---------------------------------------------------------------- copies of known pages

  lemma {:induction false} KnownSheltered(stack: seq<Level>, p: Pgno)
    requires StackOk(stack) && Known(stack, p)
    ensures Sheltered(stack, {p})
  {
    hide RoomOk, ListsOk, SavedOk;
    var n := |stack| - 1;
    var outer, t := stack[..n], stack[n];
    if p in t.dirty || p in t.spill {
      ShelterPart(outer, t.dirty.Keys + t.spill, p);
    } else {
      KnownBelow(stack, p);
      KnownSheltered(outer, p);
    }
    assert stack == outer + [t];
    ShelterAbove(outer, t, p);
  }

  lemma ShelterPart(outer: seq<Level>, pages: set<Pgno>, p: Pgno)
    requires Sheltered(outer, pages) && p in pages
    ensures Sheltered(outer, {p})
  {
  }

  lemma ShelterAbove(outer: seq<Level>, t: Level, p: Pgno)
    requires Sheltered(outer, {p}) && Known(outer + [t], p)
    ensures Sheltered(outer + [t], {p})
  {
    var stack := outer + [t];
    forall k | 0 <= k < |stack| && p in stack[k].tree ensures Known(stack[..k + 1], p) {
      if k == |outer| {
        assert stack[..k + 1] == stack;
      } else {
        assert stack[..k + 1] == outer[..k + 1] && outer[k] == stack[k];
      }
    }
  }

  lemma KnownBelow(stack: seq<Level>, p: Pgno)
    requires Known(stack, p)
    ensures var n := |stack| - 1;
      n >= 0 && (p in stack[n].dirty || p in stack[n].spill || Known(stack[..n], p))
  {
    var n := |stack| - 1;
    var i :| 0 <= i < |stack| && (p in stack[i].dirty || p in stack[i].spill);
    if i < n { assert stack[..n][i] == stack[i]; }
  }

  lemma {:induction false} VisibleKnown(stack: seq<Level>, p: Pgno)
    requires p in VisibleDirty(stack)
    ensures Known(stack, p)
  {
    var n := |stack| - 1;
    if p in stack[n].dirty {
    } else {
      VisibleKnown(stack[..n], p);
      var i :| 0 <= i < n && (p in stack[..n][i].dirty || p in stack[..n][i].spill);
      assert stack[i] == stack[..n][i];
    }
  }

  lemma SpilledKnown(stack: seq<Level>, p: Pgno)
    requires Spilled(stack, p)
    ensures Known(stack, p)
  {
    var i :| 0 <= i < |stack| && p in stack[i].spill;
  }

  /** A page the stack knows may join the innermost lists. */
  lemma ShelterKnown(outer: seq<Level>, t: Level, p: Pgno)
    requires StackOk(outer) && TopOk(outer, t) && Known(outer + [t], p)
    ensures Sheltered(outer, t.dirty.Keys + t.spill + {p})
  {
    hide StackOk;
    KnownBelow(outer + [t], p);
    assert (outer + [t])[..|outer|] == outer;
    if p in t.dirty || p in t.spill {
      assert t.dirty.Keys + t.spill + {p} == t.dirty.Keys + t.spill;
    } else {
      KnownSheltered(outer, p);
      ShelterMore(outer, t.dirty.Keys + t.spill, p);
    }
  }

  lemma LooseElsewhere(outer: seq<Level>, t: Level, p: Pgno)
    requires TopOk(outer, t) && p in t.tree
    ensures forall i :: 0 <= i < |outer| ==> p !in outer[i].loose
  {
  }

  lemma CopyVisible(outer: seq<Level>, t: Level, u: Level, p: Pgno)
    requires p in VisibleDirty(outer + [t]) && u.dirty.Keys == t.dirty.Keys + {p} && u.spill == t.spill
    ensures VisibleDirty(outer + [u]) == VisibleDirty(outer + [t])
    ensures p !in t.dirty ==> p !in t.spill
  {
    VisibleTop(outer, t);
    VisibleTop(outer, u);
  }

  lemma UnspillVisible(outer: seq<Level>, t: Level, u: Level, p: Pgno)
    requires p !in VisibleDirty(outer + [t]) && u.dirty.Keys == t.dirty.Keys + {p} && u.spill == t.spill - {p}
    ensures VisibleDirty(outer + [u]) == VisibleDirty(outer + [t]) + {p} && p !in t.dirty
  {
    VisibleTop(outer, t);
    VisibleTop(outer, u);
  }

  lemma CopyTop(outer: seq<Level>, t: Level, p: Pgno, c: Content)
    requires StackOk(outer) && TopOk(outer, t) && p in t.tree && p in VisibleDirty(outer + [t]) && p !in t.dirty
    ensures TopOk(outer, t.(dirty := t.dirty[p := c]))
  {
    hide StackOk, Sheltered, SavedOk, Spilled, RoomOk, ListsOk, VisibleDirty, Known;
    var u := t.(dirty := t.dirty[p := c]);
    LooseTop(outer, t);
    CopyVisible(outer, t, u, p);
    SavedSame(outer, t, u);
    RoomSame(outer, t, outer, u);
    LooseElsewhere(outer, t, p);
    MoreLists(outer, t, u, p);
    VisibleKnown(outer + [t], p);
    ShelterKnown(outer, t, p);
    assert u.dirty.Keys + u.spill == t.dirty.Keys + t.spill + {p};
  }

  lemma CopyKeeps(s: State, p: Pgno)
    requires Inv(s) && Enabled(s, Copy(p))
    ensures Inv(Apply(s, Copy(p)))
  {
    hide TopOk, StackOk, FreshFor, VisibleDirty;
    Parts(s);
    var t, c := s.Top(), View(s.stack, s.disk, p);
    CopyTop(s.Outer(), t, p, c);
    FreshSame(s.Outer(), t, t.(dirty := t.dirty[p := c]), s.pg.head);
    TopStep(s, t.(dirty := t.dirty[p := c]), s.disk, s.pg);
  }

  lemma UnspillTop(outer: seq<Level>, t: Level, u: Level, p: Pgno)
    requires StackOk(outer) && TopOk(outer, t) && p in t.tree && t.room > 0
    requires p !in VisibleDirty(outer + [t]) && Spilled(outer + [t], p)
    requires u.dirty.Keys == t.dirty.Keys + {p} && u.spill == t.spill - {p} && u.room == t.room - 1
    requires u.loose == t.loose && u.tree == t.tree && u.next == t.next && u.saved == t.saved
    ensures TopOk(outer, u)
  {
    hide StackOk, Sheltered, SavedOk, Spilled, RoomOk, ListsOk, VisibleDirty, Known;
    LooseTop(outer, t);
    UnspillVisible(outer, t, u, p);
    SavedSame(outer, t, u);
    RoomLess(outer, t, u, p);
    LooseElsewhere(outer, t, p);
    MoreLists(outer, t, u, p);
    SpilledKnown(outer + [t], p);
    ShelterKnown(outer, t, p);
    assert u.dirty.Keys + u.spill == t.dirty.Keys + t.spill + {p};
  }

  lemma UnspillKeeps(s: State, p: Pgno)
    requires Inv(s) && Enabled(s, Unspill(p))
    ensures Inv(Apply(s, Unspill(p)))
  {
    hide TopOk, StackOk, FreshFor, VisibleDirty, Spilled;
    Parts(s);
    var t, c := s.Top(), View(s.stack, s.disk, p);
    var u := t.(dirty := t.dirty[p := c], spill := t.spill - {p}, room := t.room - 1);
    UnspillTop(s.Outer(), t, u, p);
    FreshSame(s.Outer(), t, u, s.pg.head);
    TopStep(s, u, s.disk, s.pg);
  }

  lemma SpillLists(outer: seq<Level>, t: Level, u: Level, p: Pgno)
    requires ListsOk(outer, t) && p in t.dirty && p !in t.loose && !Spilled(outer, p)
    requires u.dirty.Keys == t.dirty.Keys - {p} && u.spill == t.spill + {p} && u.loose == t.loose && u.tree == t.tree
    ensures ListsOk(outer, u)
  {
    hide Spilled;
  }

  lemma SpillTop(outer: seq<Level>, t: Level, p: Pgno)
    requires TopOk(outer, t) && p in t.dirty && p !in t.loose && !Spilled(outer, p)
    ensures TopOk(outer, t.(dirty := t.dirty - {p}, spill := t.spill + {p}, room := t.room + 1))
  {
    hide Sheltered, RoomOk, ListsOk, Spilled, VisibleDirty, SavedOk;
    var u := t.(dirty := t.dirty - {p}, spill := t.spill + {p}, room := t.room + 1);
    VisibleTop(outer, t);
    VisibleTop(outer, u);
    LooseTop(outer, t);
    assert VisibleDirty(outer + [t]) == VisibleDirty(outer + [u]) + {p};
    RoomMore(outer, t, u, p);
    SpillLists(outer, t, u, p);
    SavedSame(outer, t, u);
    assert u.dirty.Keys + u.spill == t.dirty.Keys + t.spill;
  }

  lemma SpillKeeps(s: State, p: Pgno)
    requires Inv(s) && Enabled(s, Spill(p))
    ensures Inv(Apply(s, Spill(p)))
  {
    hide TopOk, StackOk, FreshFor, VisibleDirty, Spilled;
    Parts(s);
    var t := s.Top();
    var u := t.(dirty := t.dirty - {p}, spill := t.spill + {p}, room := t.room + 1);
    SpillTop(s.Outer(), t, p);
    FreshSame(s.Outer(), t, u, s.pg.head);
    TopStep(s, u, s.disk[p := t.dirty[p]], s.pg);
  }

  // ---------------------------------------------------------------- the remaining steps

  lemma PlainKeeps(s: State, step: Step)
    requires Inv(s) && Enabled(s, step) && (step.Write? || step.Loosen? || step.FreePage?)
    ensures Inv(Apply(s, step))
  {
    hide TopOk, StackOk, FreshFor, VisibleDirty, Spilled;
    Parts(s);
    var t := s.Top();
    LooseTop(s.Outer(), t);
    var u := match step
      case Write(p, c) => t.(dirty := t.dirty[p := c])
      case Loosen(p) => t.(loose := t.loose + {p}, tree := t.tree - {p})
      case FreePage(p) => t.(tree := t.tree - {p}, freed := t.freed + [p]);
    SameLists(s.Outer(), t, u);
    FreshSame(s.Outer(), t, u, s.pg.head);
    TopStep(s, u, s.disk, s.pg);
  }

  lemma GiveBackLists(t: Level, p: Pgno)
    requires ListsOk([], t) && p in t.tree
    ensures ListsOk([], Without(t, p)) && t.dirty.Keys !! t.spill
  {
    hide Spilled;
  }

  lemma GiveBackRoom(t: Level, p: Pgno)
    requires RoomOk([], t) && t.dirty.Keys !! t.spill && (p in t.dirty || p in t.spill)
    ensures RoomOk([], Without(t, p))
  {
    hide RoomOk, VisibleDirty;
    var u := Without(t, p);
    VisibleTop([], t);
    VisibleTop([], u);
    VisibleNone();
    if p in t.dirty {
      RoomMore([], t, u, p);
    } else {
      RoomSame([], t, [], u);
    }
  }

  lemma VisibleNone()
    ensures VisibleDirty([]) == {}
  {
  }

  lemma GiveBackTop(t: Level, p: Pgno)
    requires TopOk([], t) && p in t.tree && (p in t.dirty || p in t.spill)
    ensures TopOk([], Without(t, p))
  {
    hide Sheltered, RoomOk, ListsOk, Without;
    GiveBackLists(t, p);
    GiveBackRoom(t, p);
    NobodyToShelter(Without(t, p).dirty.Keys + Without(t, p).spill);
  }

  lemma NobodyToShelter(pages: set<Pgno>)
    ensures Sheltered([], pages)
  {
  }

  /** The page is nobody's any more. */
  lemma GiveBackFresh(t: Level, head: set<Pgno>, p: Pgno)
    requires FreshFor([] + [t], head, t.next) && p in t.tree
    ensures FreshFor([] + [Without(t, p)], head + {p}, t.next)
  {
    var u := Without(t, p);
    if p >= t.next { UnusedTop([], t, p); }
    forall q: Pgno | q in head + {p} || q >= t.next ensures Unused([] + [u], q) {
      if q != p { assert Unused([] + [t], q); }
      UnusedTop([], t, q);
      UnusedTop([], u, q);
    }
  }

  lemma GiveBackKeeps(s: State, p: Pgno)
    requires Inv(s) && Enabled(s, GiveBack(p))
    ensures Inv(Apply(s, GiveBack(p)))
  {
    hide TopOk, StackOk, FreshFor, VisibleDirty, Spilled;
    Parts(s);
    var t := s.Top();
    assert s.Outer() == [];
    GiveBackTop(t, p);
    GiveBackFresh(t, s.pg.head, p);
    TopStep(s, Without(t, p), s.disk, s.pg.(head := s.pg.head + {p}));
  }

  /** Every write transaction starts in order. */
  lemma InitInv(s: State)
    requires Init(s)
    ensures Inv(s)
  {
    var t := s.Top();
    assert s.stack == [] + [t];
    VisibleTop([], t);
    NobodyToShelter(t.dirty.Keys + t.spill);
    forall p: Pgno | p >= t.next ensures Unused(s.stack, p) { UnusedTop([], t, p); }
  }

  lemma FetchKeeps(s: State, pages: set<Pgno>, last: nat)
    requires Inv(s) && Enabled(s, Fetch(pages, last))
    ensures Inv(Apply(s, Fetch(pages, last)))
  {
    hide StackOk, TopOk;
  }

  lemma BeginLists(outer: seq<Level>, t: Level, u: Level)
    requires ListsOk(outer, t) && u.dirty == map[] && u.spill == {} && u.loose == {} && u.tree == t.tree
    ensures ListsOk(outer + [t], u)
  {
    hide Spilled;
    var stack := outer + [t];
    forall i | 0 <= i < |stack| ensures stack[i].loose !! u.dirty.Keys + u.spill + u.tree {
      if i < |outer| { assert stack[i] == outer[i]; } else { assert stack[i] == t; }
    }
  }

  lemma BeginTop(outer: seq<Level>, t: Level, pg: PgState)
    requires TopOk(outer, t) && FreshFor(outer + [t], pg.head, t.next)
    ensures TopOk(outer + [t], Level(map[], {}, [], {}, t.next, t.room, t.tree, pg))
  {
    hide FreshFor, RoomOk, ListsOk, Known;
    var stack, u := outer + [t], Level(map[], {}, [], {}, t.next, t.room, t.tree, pg);
    VisibleTop(stack, u);
    assert VisibleDirty(stack + [u]) == VisibleDirty(stack);
    RoomSame(outer, t, stack, u);
    BeginLists(outer, t, u);
    assert stack[|outer|] == t;
  }

  lemma BeginKeeps(s: State)
    requires Inv(s)
    ensures Inv(Apply(s, Begin))
  {
    hide TopOk, StackOk, FreshFor, VisibleDirty;
    Parts(s);
    var t := s.Top();
    var u := Level(map[], {}, [], {}, t.next, t.room, t.tree, s.pg);
    BeginTop(s.Outer(), t, s.pg);
    TopOfStack(s.stack, u);
    BeginFresh(s.Outer(), t, u, s.pg.head);
  }

  lemma BeginFresh(outer: seq<Level>, t: Level, u: Level, head: set<Pgno>)
    requires FreshFor(outer + [t], head, t.next) && u.next == t.next && u.dirty == map[] && u.spill == {} && u.tree == t.tree
    ensures FreshFor(outer + [t] + [u], head, u.next)
  {
    forall p: Pgno | p in head || p >= u.next ensures Unused(outer + [t] + [u], p) {
      UnusedTop(outer, t, p);
      UnusedTop(outer + [t], u, p);
    }
  }

  lemma AbortKeeps(s: State)
    requires Inv(s) && s.Depth() > 1
    ensures Inv(Apply(s, Abort))
  {
    hide TopOk, StackOk, FreshFor;
    Parts(s);
    SavedTop(s.Outer(), s.Top());
  }

  lemma SavedTop(outer: seq<Level>, t: Level)
    requires TopOk(outer, t) && outer != []
    ensures FreshFor(outer, t.saved.head, outer[|outer| - 1].next) && outer[|outer| - 1].next <= t.next
  {
    hide RoomOk, ListsOk, Sheltered, FreshFor;
  }

  // ---------------------------------------------------------------- commit of a child

  lemma MergedVisible(outer: seq<Level>, parent: Level, child: Level)
    requires child.dirty.Keys !! child.spill
    ensures VisibleDirty(outer + [Merged(parent, child)]) == VisibleDirty(outer + [parent] + [child])
  {
    VisibleTop(outer + [parent], child);
    VisibleTop(outer, parent);
    VisibleTop(outer, Merged(parent, child));
  }

  lemma MergedLists(outer: seq<Level>, parent: Level, child: Level)
    requires ListsOk(outer, parent) && ListsOk(outer + [parent], child)
    ensures ListsOk(outer, Merged(parent, child))
  {
    hide Spilled;
    var m := Merged(parent, child);
    assert (outer + [parent])[|outer|] == parent;
    forall i | 0 <= i < |outer| ensures outer[i].loose !! m.dirty.Keys + m.spill + m.tree {
      assert (outer + [parent])[i] == outer[i];
    }
    forall p | p in m.spill ensures !Spilled(outer, p) { SpilledTop(outer, parent, p); }
  }

  lemma ShelterBelow(outer: seq<Level>, parent: Level, pages: set<Pgno>)
    requires Sheltered(outer + [parent], pages)
    ensures Sheltered(outer, pages)
  {
    var stack := outer + [parent];
    forall k, p | 0 <= k < |outer| && p in pages && p in outer[k].tree ensures Known(outer[..k + 1], p) {
      assert stack[k] == outer[k] && stack[..k + 1] == outer[..k + 1];
    }
  }

  lemma MergedTop(outer: seq<Level>, parent: Level, child: Level)
    requires TopOk(outer, parent) && TopOk(outer + [parent], child)
    ensures TopOk(outer, Merged(parent, child))
  {
    hide VisibleDirty, ListsOk, FreshFor, Known;
    var m := Merged(parent, child);
    ListsApart(outer + [parent], child);
    MergedVisible(outer, parent, child);
    MergedLists(outer, parent, child);
    ShelterBelow(outer, parent, child.dirty.Keys + child.spill);
    assert m.dirty.Keys + m.spill <= parent.dirty.Keys + parent.spill + (child.dirty.Keys + child.spill);
    assert (outer + [parent])[|outer|] == parent;
  }

  lemma ListsApart(outer: seq<Level>, t: Level)
    requires ListsOk(outer, t)
    ensures t.dirty.Keys !! t.spill
  {
  }

  lemma MergedFresh(outer: seq<Level>, parent: Level, child: Level, head: set<Pgno>)
    requires FreshFor(outer + [parent] + [child], head, child.next)
    ensures FreshFor(outer + [Merged(parent, child)], head, child.next)
  {
    forall p: Pgno | p in head || p >= child.next ensures Unused(outer + [Merged(parent, child)], p) {
      UnusedTop(outer + [parent], child, p);
      UnusedTop(outer, parent, p);
      UnusedTop(outer, Merged(parent, child), p);
    }
  }

  /** The three parts of the stack at a commit. */
  lemma CommitParts(s: State) returns (outer: seq<Level>, parent: Level, child: Level)
    requires Inv(s) && s.Depth() > 1
    ensures s.stack == outer + [parent] + [child] && outer == s.Outer()[..|s.stack| - 2]
    ensures parent == s.stack[|s.stack| - 2] && child == s.Top()
    ensures StackOk(outer) && TopOk(outer, parent) && TopOk(outer + [parent], child)
  {
    hide TopOk, FreshFor;
    Parts(s);
    var n := |s.stack|;
    outer, parent, child := s.Outer()[..n - 2], s.stack[n - 2], s.Top();
    assert s.Outer() == outer + [parent];
    TopOfStack(outer, parent);
  }

  lemma CommitKeeps(s: State)
    requires Inv(s) && s.Depth() > 1
    ensures Inv(Apply(s, Commit))
  {
    hide TopOk, StackOk, FreshFor;
    var outer, parent, child := CommitParts(s);
    MergedTop(outer, parent, child);
    MergedFresh(outer, parent, child, s.pg.head);
    TopOfStack(outer, Merged(parent, child));
  }

  /** Every step keeps the invariant; in particular dirty_room stays exact at every level. */
  lemma StepKeeps(s: State, step: Step)
    requires Inv(s) && Enabled(s, step)
    ensures Inv(Apply(s, step))
  {
    hide Inv;
    InvStack(s);
    match step
    case Fetch(pages, last) => FetchKeeps(s, pages, last);
    case Alloc(q, c) => TakeKeeps(s, q, c, {}, []);
    case Touch(p, q) => TakeKeeps(s, q, View(s.stack, s.disk, p), {p}, [p]);
    case Copy(p) => CopyKeeps(s, p);
    case Unspill(p) => UnspillKeeps(s, p);
    case Spill(p) => SpillKeeps(s, p);
    case GiveBack(p) => GiveBackKeeps(s, p);
    case Begin => BeginKeeps(s);
    case Abort => AbortKeeps(s);
    case Commit => CommitKeeps(s);
    case _ => PlainKeeps(s, step);
  }

  lemma InvStack(s: State)
    requires Inv(s)
    ensures s.stack != []
  {
  }
}
