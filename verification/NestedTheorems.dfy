/** What nested transactions promise: isolation of the parent, exact abort, and commit by view. */
module NestedTheorems {
  import opened Limits
  import opened NestedTxn
  import opened NestedProofs

  // ---------------------------------------------------------------- views

  lemma ViewTop(outer: seq<Level>, t: Level, disk: map<Pgno, Content>, p: Pgno)
    ensures View(outer + [t], disk, p) ==
      if p in t.spill then OnDisk(disk, p) else if p in t.dirty then t.dirty[p] else View(outer, disk, p)
  {
    assert (outer + [t])[..|outer|] == outer;
  }

  /** Writing page q to the map matters only to those who look for q there. */
  lemma {:induction false} ViewOther(stack: seq<Level>, disk: map<Pgno, Content>, q: Pgno, c: Content, p: Pgno)
    requires p != q
    ensures View(stack, disk[q := c], p) == View(stack, disk, p)
  {
    if stack != [] { ViewOther(stack[..|stack| - 1], disk, q, c, p); }
  }

  lemma {:induction false} ViewOfDirty(stack: seq<Level>, disk: map<Pgno, Content>, c: Content, p: Pgno)
    requires Known(stack, p) && !Spilled(stack, p)
    ensures View(stack, disk[p := c], p) == View(stack, disk, p)
  {
    var n := |stack| - 1;
    KnownBelow(stack, p);
    assert stack == stack[..n] + [stack[n]];
    SpilledTop(stack[..n], stack[n], p);
    if p !in stack[n].dirty { ViewOfDirty(stack[..n], disk, c, p); }
  }

  /** Committing a child makes the parent see exactly what the child saw. */
  lemma CommitKeepsView(outer: seq<Level>, parent: Level, child: Level, disk: map<Pgno, Content>, p: Pgno)
    requires child.dirty.Keys !! child.spill
    ensures View(outer + [Merged(parent, child)], disk, p) == View(outer + [parent] + [child], disk, p)
  {
    ViewTop(outer + [parent], child, disk, p);
    ViewTop(outer, parent, disk, p);
    ViewTop(outer, Merged(parent, child), disk, p);
  }

  // ---------------------------------------------------------------- one step

  lemma SpilledPrefix(stack: seq<Level>, d: nat, p: Pgno)
    requires d <= |stack| && Spilled(stack[..d], p)
    ensures Spilled(stack, p)
  {
    var i :| 0 <= i < d && p in stack[..d][i].spill;
    assert stack[i] == stack[..d][i];
  }

  /** Spilling overwrites a page in the map, yet every ancestor that has the page in its tree has
      its own copy in a dirty list. */
  lemma SpillIsolated(s: State, q: Pgno, k: nat, p: Pgno)
    requires Inv(s) && Enabled(s, Spill(q)) && k + 1 < |s.stack| && p in s.stack[k].tree
    ensures View(s.stack[..k + 1], s.disk[q := s.Top().dirty[q]], p) == View(s.stack[..k + 1], s.disk, p)
  {
    hide StackOk, FreshFor;
    var c := s.Top().dirty[q];
    if p != q {
      ViewOther(s.stack[..k + 1], s.disk, q, c, p);
    } else {
      Parts(s);
      var outer := s.Outer();
      assert outer[..k + 1] == s.stack[..k + 1];
      TopShelters(outer, s.Top(), k, q);
      if Spilled(outer[..k + 1], q) { SpilledPrefix(outer, k + 1, q); }
      ViewOfDirty(outer[..k + 1], s.disk, c, q);
    }
  }

  lemma TopShelters(outer: seq<Level>, t: Level, k: nat, q: Pgno)
    requires TopOk(outer, t) && k < |outer| && q in t.dirty && q in outer[k].tree
    ensures Known(outer[..k + 1], q)
  {
    hide RoomOk, ListsOk, SavedOk, Known;
    assert q in t.dirty.Keys + t.spill;
  }

  /** The parents are blocked: a working step changes nothing but the innermost transaction. */
  lemma WorkingIsLocal(s: State, step: Step)
    requires Inv(s) && Enabled(s, step) && Working(step)
    ensures var t := Apply(s, step);
      && |t.stack| == |s.stack| && t.stack[..|s.stack| - 1] == s.stack[..|s.stack| - 1]
      && t.Top().saved == s.Top().saved
      && (!step.Spill? ==> t.disk == s.disk)
  {
    hide StackOk, FreshFor, VisibleDirty, View;
  }

  /** What an ancestor's tree looks like is the same before and after. */
  ghost predicate SameViews(s: State, t: State, d: nat) {
    && d <= |s.stack| && d <= |t.stack| && s.stack[..d] == t.stack[..d]
    && forall k, p :: 0 <= k < d && p in s.stack[k].tree ==>
      View(s.stack[..k + 1], s.disk, p) == View(t.stack[..k + 1], t.disk, p)
  }

  lemma PrefixOf(a: seq<Level>, b: seq<Level>, d: nat, e: nat)
    requires e <= d <= |a| && d <= |b| && a[..d] == b[..d]
    ensures a[..e] == b[..e] && (forall i :: 0 <= i < d ==> a[i] == b[i])
  {
    assert a[..e] == a[..d][..e] && b[..e] == b[..d][..e];
    forall i | 0 <= i < d ensures a[i] == b[i] { assert a[..d][i] == b[..d][i]; }
  }

  /** A child's touches, allocations, frees and spills leave every ancestor's view unchanged. */
  lemma WorkingIsIsolated(s: State, step: Step)
    requires Inv(s) && Enabled(s, step) && Working(step)
    ensures SameViews(s, Apply(s, step), |s.stack| - 1)
  {
    hide Inv, View;
    InvStack(s);
    WorkingIsLocal(s, step);
    var t, d := Apply(s, step), |s.stack| - 1;
    forall k, p | 0 <= k < d && p in s.stack[k].tree
      ensures View(s.stack[..k + 1], s.disk, p) == View(t.stack[..k + 1], t.disk, p)
    {
      PrefixOf(s.stack, t.stack, d, k + 1);
      if step.Spill? { SpillIsolated(s, step.p, k, p); }
    }
  }

  /** Relocating a page between the map and the lists does not change what the transaction sees. */
  lemma RelocationKeepsOwnView(s: State, step: Step, p: Pgno)
    requires Inv(s) && Enabled(s, step) && (step.Copy? || step.Unspill? || step.Spill?)
    ensures var t := Apply(s, step); View(t.stack, t.disk, p) == View(s.stack, s.disk, p)
  {
    hide StackOk, FreshFor, VisibleDirty, Known, Spilled, TopOk, View;
    Parts(s);
    LooseTop(s.Outer(), s.Top());
    match step
    case Spill(q) => SpillOwnView(s.Outer(), s.Top(), s.disk, q, p);
    case Copy(q) =>
      var c := View(s.stack, s.disk, q);
      CopyVisible(s.Outer(), s.Top(), s.Top().(dirty := s.Top().dirty[q := c]), q);
      CopyOwnView(s.Outer(), s.Top(), s.disk, q, s.Top().spill, s.Top().room, p);
    case Unspill(q) => CopyOwnView(s.Outer(), s.Top(), s.disk, q, s.Top().spill - {q}, s.Top().room - 1, p);
  }

  lemma SpillOwnView(outer: seq<Level>, t: Level, disk: map<Pgno, Content>, q: Pgno, p: Pgno)
    requires q in t.dirty && t.dirty.Keys !! t.spill
    ensures var u := t.(dirty := t.dirty - {q}, spill := t.spill + {q}, room := t.room + 1);
      View(outer + [u], disk[q := t.dirty[q]], p) == View(outer + [t], disk, p)
  {
    hide View;
    var u := t.(dirty := t.dirty - {q}, spill := t.spill + {q}, room := t.room + 1);
    ViewTop(outer, t, disk, p);
    ViewTop(outer, u, disk[q := t.dirty[q]], p);
    if p != q { ViewOther(outer, disk, q, t.dirty[q], p); }
  }

  /** Keeping in the dirty list what was seen anyway. */
  lemma CopyOwnView(outer: seq<Level>, t: Level, disk: map<Pgno, Content>, q: Pgno, spill: set<Pgno>, room: int, p: Pgno)
    requires t.dirty.Keys !! t.spill && spill <= t.spill && t.spill - {q} <= spill && q !in spill
    ensures View(outer + [t.(dirty := t.dirty[q := View(outer + [t], disk, q)], spill := spill, room := room)], disk, p)
         == View(outer + [t], disk, p)
  {
    hide View;
    var u := t.(dirty := t.dirty[q := View(outer + [t], disk, q)], spill := spill, room := room);
    ViewTop(outer, t, disk, p);
    ViewTop(outer, u, disk, p);
  }

  /** Touching a clean page gives it a new number and the old contents. */
  lemma TouchMovesPage(s: State, p: Pgno, q: Pgno)
    requires Inv(s) && Enabled(s, Touch(p, q))
    ensures var t := Apply(s, Touch(p, q));
      View(t.stack, t.disk, q) == View(s.stack, s.disk, p) && q in t.Top().tree && t.Top().freed == s.Top().freed + [p]
  {
    hide StackOk, FreshFor, VisibleDirty, Spilled, Known;
    Parts(s);
    var t := Apply(s, Touch(p, q));
    ViewTop(s.Outer(), t.Top(), t.disk, q);
    if q in s.Top().loose { LooseTop(s.Outer(), s.Top()); } else { FreshPage(s, q); UnusedTop(s.Outer(), s.Top(), q); }
  }

  // ---------------------------------------------------------------- whole runs

  ghost predicate IsRun(states: seq<State>, steps: seq<Step>) {
    && |states| == |steps| + 1 && Inv(states[0])
    && forall i :: 0 <= i < |steps| ==> Follows(states, steps, i)
  }

  ghost predicate Follows(states: seq<State>, steps: seq<Step>, i: nat)
    requires i < |steps| && i + 1 < |states|
  {
    states[i].stack != [] && Enabled(states[i], steps[i]) && states[i + 1] == Apply(states[i], steps[i])
  }

  lemma {:induction false} RunInv(states: seq<State>, steps: seq<Step>, i: nat)
    requires IsRun(states, steps) && i < |states|
    ensures Inv(states[i])
  {
    hide Inv, Enabled, Apply;
    if i > 0 {
      RunInv(states, steps, i - 1);
      assert Follows(states, steps, i - 1);
      StepKeeps(states[i - 1], steps[i - 1]);
    }
  }

  lemma SameViewsTrans(s: State, t: State, u: State, d: nat)
    requires SameViews(s, t, d) && SameViews(t, u, d)
    ensures SameViews(s, u, d)
  {
    hide View;
    PrefixOf(s.stack, t.stack, d, d);
    PrefixOf(t.stack, u.stack, d, d);
  }

  lemma SameViewsNarrow(s: State, t: State, d: nat, e: nat)
    requires SameViews(s, t, d) && e <= d
    ensures SameViews(s, t, e)
  {
    hide View;
    PrefixOf(s.stack, t.stack, d, e);
  }

  lemma OthersAreLocal(s: State, step: Step, d: nat)
    requires s.stack != [] && Enabled(s, step) && !Working(step) && d < |s.stack| && d < |Apply(s, step).stack|
    ensures var t := Apply(s, step);
      t.disk == s.disk && t.stack[..d] == s.stack[..d] && (d > 0 ==> t.stack[d].saved == s.stack[d].saved)
  {
    hide View, VisibleDirty;
  }

  /** A step that leaves more than d transactions open does not disturb the outermost d. */
  lemma StepIsIsolated(s: State, step: Step, d: nat)
    requires Inv(s) && Enabled(s, step) && d < |s.stack| && d < |Apply(s, step).stack|
    ensures SameViews(s, Apply(s, step), d)
    ensures d > 0 ==> Apply(s, step).stack[d].saved == s.stack[d].saved
  {
    hide Inv, View, VisibleDirty, Apply, Enabled;
    InvStack(s);
    var t := Apply(s, step);
    if Working(step) {
      WorkingIsIsolated(s, step);
      WorkingIsLocal(s, step);
      SameViewsNarrow(s, t, |s.stack| - 1, d);
      if d < |s.stack| - 1 { PrefixOf(s.stack, t.stack, |s.stack| - 1, d); }
    } else {
      OthersAreLocal(s, step, d);
      forall k, p | 0 <= k < d && p in s.stack[k].tree
        ensures View(s.stack[..k + 1], s.disk, p) == View(t.stack[..k + 1], t.disk, p)
      {
        PrefixOf(s.stack, t.stack, d, k + 1);
      }
    }
  }

  /** While more than d transactions stay open, the outermost d keep their state and their view,
      and the child's saved page state stays what it was. */
  lemma {:induction false} AncestorsUndisturbed(states: seq<State>, steps: seq<Step>, i: nat, j: nat, d: nat)
    requires IsRun(states, steps) && i <= j < |states| && d > 0
    requires forall n :: i <= n <= j ==> d < |states[n].stack|
    ensures SameViews(states[i], states[j], d)
    ensures states[j].stack[d].saved == states[i].stack[d].saved
  {
    hide Inv, View, Enabled, Apply;
    if i < j {
      AncestorsUndisturbed(states, steps, i, j - 1, d);
      RunInv(states, steps, j - 1);
      assert Follows(states, steps, j - 1);
      StepIsIsolated(states[j - 1], steps[j - 1], d);
      SameViewsTrans(states[i], states[j - 1], states[j], d);
    }
  }

  /** Begin a child at state i, let it and its own children do anything, abort it at state j: the
      ancestors' transactions, me_pgstate and every page they can see are exactly as before. */
  lemma AbortRestores(states: seq<State>, steps: seq<Step>, i: nat, j: nat)
    requires IsRun(states, steps) && i < j < |steps| && steps[i] == Begin && steps[j] == Abort
    requires |states[j].stack| == |states[i].stack| + 1
    requires forall n :: i < n <= j ==> |states[i].stack| < |states[n].stack|
    ensures states[j + 1].stack == states[i].stack && states[j + 1].pg == states[i].pg
    ensures SameViews(states[i], states[j + 1], |states[i].stack|)
  {
    hide Inv, View;
    var d := |states[i].stack|;
    assert Follows(states, steps, i) && Follows(states, steps, j);
    AncestorsUndisturbed(states, steps, i + 1, j, d);
    assert states[i + 1].stack[..d] == states[i].stack && states[j + 1].stack == states[j].stack[..d];
    assert states[i].stack[..d] == states[i].stack && states[j + 1].stack[..d] == states[j + 1].stack;
    forall k, p | 0 <= k < d && p in states[i].stack[k].tree
      ensures View(states[i].stack[..k + 1], states[i].disk, p) == View(states[j + 1].stack[..k + 1], states[j + 1].disk, p)
    {
      PrefixOf(states[i].stack, states[i + 1].stack, d, k + 1);
      PrefixOf(states[j].stack, states[j + 1].stack, d, k + 1);
    }
  }

  /** Commit: the parent's view and tree become the child's, and its room the child's. */
  lemma CommitHandsOver(s: State, p: Pgno)
    requires Inv(s) && |s.stack| > 1
    ensures var t := Apply(s, Commit);
      && Inv(t) && View(t.stack, t.disk, p) == View(s.stack, s.disk, p)
      && t.Top().tree == s.Top().tree && t.Top().room == s.Top().room && t.pg == s.pg
  {
    hide Inv, StackOk, FreshFor, VisibleDirty, View;
    CommitKeeps(s);
    var outer, parent, child := CommitParts(s);
    LooseTop(outer + [parent], child);
    CommitKeepsView(outer, parent, child, s.disk, p);
  }

  /** The merged dirty list always fits, and with a single ancestor its length can be read off
      the child's room. */
  lemma MergedListFits(s: State)
    requires Inv(s) && |s.stack| > 1
    ensures var m := Merged(s.stack[|s.stack| - 2], s.Top());
      && |m.dirty.Keys| <= UM_MAX
      && (|s.stack| == 2 ==> |m.dirty.Keys| == UM_MAX - s.Top().room)
  {
    hide StackOk, ListsOk, Sheltered, SavedOk, FreshFor;
    var outer, parent, child := CommitParts(s);
    var m := Merged(parent, child);
    MergedTop(outer, parent, child);
    VisibleTop(outer, m);
    SubsetSize(m.dirty.Keys, VisibleDirty(outer + [m]));
    if |s.stack| == 2 { assert outer == [] && VisibleDirty(outer + [m]) == m.dirty.Keys; }
  }

  lemma {:induction false} SubsetSize(a: set<Pgno>, b: set<Pgno>)
    requires a <= b
    ensures |a| <= |b|
  {
    if a != {} {
      var x :| x in a;
      SubsetSize(a - {x}, b - {x});
    }
  }
}
