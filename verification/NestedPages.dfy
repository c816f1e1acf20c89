/**
  Pages and contents through nested transactions: no page is lost or duplicated by any step, begin
  and commit included, and each step changes what the transaction sees exactly where it says.
 */
module NestedPages {
  import opened NestedTxn
  import opened NestedProofs
  import opened NestedTheorems

  // ---------------------------------------------------------------- where pages are

  function FreedBag(stack: seq<Level>): multiset<Pgno> {
    if stack == [] then multiset{} else FreedBag(stack[..|stack| - 1]) + multiset(stack[|stack| - 1].freed)
  }

  function LooseBag(stack: seq<Level>): multiset<Pgno> {
    if stack == [] then multiset{} else LooseBag(stack[..|stack| - 1]) + multiset(stack[|stack| - 1].loose)
  }

  /** The pages at hand, each counted as often as it occurs: the innermost tree, what any open
      transaction has freed or loosened, and me_pghead. */
  function Pages(s: State): multiset<Pgno>
    requires s.stack != []
  {
    multiset(s.Top().tree) + FreedBag(s.stack) + LooseBag(s.stack) + multiset(s.pg.head)
  }

  /** The pages a step brings in: from freeDB records, or new at the end of the map. */
  function Gained(s: State, step: Step): multiset<Pgno>
    requires s.stack != []
  {
    match step
    case Fetch(pages, _) => multiset(pages - s.pg.head)
    case Alloc(q, _) => NewPage(s, q)
    case Touch(_, q) => NewPage(s, q)
    case _ => multiset{}
  }

  function NewPage(s: State, q: Pgno): multiset<Pgno>
    requires s.stack != []
  {
    if q in s.Top().loose || q in s.pg.head then multiset{} else multiset{q}
  }

  lemma BagsTop(outer: seq<Level>, t: Level)
    ensures FreedBag(outer + [t]) == FreedBag(outer) + multiset(t.freed)
    ensures LooseBag(outer + [t]) == LooseBag(outer) + multiset(t.loose)
  {
    assert (outer + [t])[..|outer|] == outer;
  }

  function OwnBag(t: Level, head: set<Pgno>): multiset<Pgno> {
    multiset(t.tree) + multiset(t.freed) + multiset(t.loose) + multiset(head)
  }

  lemma PagesSplit(s: State)
    requires s.stack != []
    ensures Pages(s) == OwnBag(s.Top(), s.pg.head) + (FreedBag(s.Outer()) + LooseBag(s.Outer()))
  {
    hide FreedBag, LooseBag;
    assert s.stack == s.Outer() + [s.Top()];
    BagsTop(s.Outer(), s.Top());
  }

  /** A step inside the innermost transaction, by what becomes of its parts. */
  lemma PartsConserve(s: State, t: Level, pg: PgState, gained: multiset<Pgno>)
    requires s.stack != [] && OwnBag(t, pg.head) == OwnBag(s.Top(), s.pg.head) + gained
    ensures Pages(s.WithTop(t).(pg := pg)) == Pages(s) + gained
  {
    hide OwnBag, Pages;
    var u := s.WithTop(t).(pg := pg);
    assert u.Outer() == s.Outer() && u.Top() == t;
    PagesSplit(s);
    PagesSplit(u);
  }

  lemma SwapBag(a: set<Pgno>, gone: set<Pgno>, q: Pgno)
    requires q !in a && gone <= a
    ensures multiset(a - gone + {q}) + multiset(gone) == multiset(a) + multiset{q}
  {
  }

  lemma LessBag(a: set<Pgno>, q: Pgno)
    ensures multiset(a) == multiset(a - {q}) + if q in a then multiset{q} else multiset{}
  {
  }

  /** (tree - gone + q) + (freed + gone) + (rest - q) is tree + freed + rest. */
  lemma TakeSum(tree: multiset<Pgno>, tree': multiset<Pgno>, freed: multiset<Pgno>, gone: multiset<Pgno>,
                a: multiset<Pgno>, a': multiset<Pgno>, b: multiset<Pgno>, q: multiset<Pgno>, new': multiset<Pgno>)
    requires tree' + gone == tree + q && a' + q == a + new'
    ensures tree' + (freed + gone) + a' + b == tree + freed + a + b + new'
    ensures tree' + (freed + gone) + b + a' == tree + freed + b + a + new'
  {
    forall p
      ensures (tree' + (freed + gone) + a' + b)[p] == (tree + freed + a + b + new')[p]
      ensures (tree' + (freed + gone) + b + a')[p] == (tree + freed + b + a + new')[p]
    {
      assert (tree' + gone)[p] == (tree + q)[p] && (a' + q)[p] == (a + new')[p];
    }
  }

  lemma TakeBag(t: Level, head: set<Pgno>, q: Pgno, c: Content, gone: set<Pgno>, freed: seq<Pgno>)
    requires q !in t.tree && gone <= t.tree && multiset(gone) == multiset(freed)
    ensures OwnBag(Taken(t, head, q, c, gone, freed), if q in t.loose then head else head - {q})
      == OwnBag(t, head) + if q in t.loose || q in head then multiset{} else multiset{q}
  {
    var one := multiset{q};
    SwapBag(t.tree, gone, q);
    assert multiset(t.freed + freed) == multiset(t.freed) + multiset(freed);
    LessBag(t.loose, q);
    LessBag(head, q);
    if q in t.loose {
      TakeSum(multiset(t.tree), multiset(t.tree - gone + {q}), multiset(t.freed), multiset(freed),
        multiset(t.loose), multiset(t.loose - {q}), multiset(head), one, multiset{});
    } else {
      TakeSum(multiset(t.tree), multiset(t.tree - gone + {q}), multiset(t.freed), multiset(freed),
        multiset(head), multiset(head - {q}), multiset(t.loose), one, if q in head then multiset{} else one);
    }
  }

  lemma TakeConserves(s: State, q: Pgno, c: Content, gone: set<Pgno>, freed: seq<Pgno>)
    requires Inv(s) && CanTake(s, q) && gone <= s.Top().tree && multiset(gone) == multiset(freed)
    ensures Pages(Take(s, q, c, gone, freed)) == Pages(s) + NewPage(s, q)
  {
    hide StackOk, FreshFor, VisibleDirty, OwnBag, Pages, Taken;
    Parts(s);
    var t := s.Top();
    LooseTop(s.Outer(), t);
    if q !in t.loose { FreshPage(s, q); UnusedTop(s.Outer(), t, q); }
    TakeBag(t, s.pg.head, q, c, gone, freed);
    PartsConserve(s, Taken(t, s.pg.head, q, c, gone, freed),
      if q in t.loose then s.pg else s.pg.(head := s.pg.head - {q}), NewPage(s, q));
  }

  lemma LoosenBag(t: Level, head: set<Pgno>, p: Pgno)
    requires p in t.tree && p !in t.loose
    ensures OwnBag(t.(loose := t.loose + {p}, tree := t.tree - {p}), head) == OwnBag(t, head)
  {
    assert multiset(t.loose + {p}) == multiset(t.loose) + multiset{p};
    assert multiset(t.tree) == multiset(t.tree - {p}) + multiset{p};
  }

  lemma FreeBag(t: Level, head: set<Pgno>, p: Pgno)
    requires p in t.tree
    ensures OwnBag(t.(tree := t.tree - {p}, freed := t.freed + [p]), head) == OwnBag(t, head)
  {
    assert multiset(t.tree) == multiset(t.tree - {p}) + multiset{p};
    assert multiset(t.freed + [p]) == multiset(t.freed) + multiset{p};
  }

  lemma GiveBackBag(t: Level, head: set<Pgno>, p: Pgno)
    requires p in t.tree && p !in head
    ensures OwnBag(Without(t, p), head + {p}) == OwnBag(t, head)
  {
    assert multiset(t.tree) == multiset(t.tree - {p}) + multiset{p};
    assert multiset(head + {p}) == multiset(head) + multiset{p};
  }

  lemma FetchBag(t: Level, head: set<Pgno>, pages: set<Pgno>)
    ensures OwnBag(t, head + pages) == OwnBag(t, head) + multiset(pages - head)
  {
    assert multiset(head + pages) == multiset(head) + multiset(pages - head);
  }

  lemma TreeNotAtHand(s: State, p: Pgno)
    requires Inv(s) && p in s.Top().tree
    ensures p !in s.Top().loose && p !in s.pg.head && p < s.Top().next
  {
    hide StackOk, FreshFor;
    Parts(s);
    LooseTop(s.Outer(), s.Top());
    UnusedTop(s.Outer(), s.Top(), p);
    NotFresh(s, p);
  }

  lemma NotFresh(s: State, p: Pgno)
    requires Inv(s) && !Unused(s.stack, p)
    ensures p !in s.pg.head && p < s.Top().next
  {
  }

  lemma MoveConserves(s: State, step: Step)
    requires Inv(s) && Enabled(s, step) && (step.Loosen? || step.FreePage? || step.GiveBack? || step.Fetch?)
    ensures Pages(Apply(s, step)) == Pages(s) + Gained(s, step)
  {
    hide Inv, VisibleDirty, Spilled, Pages, OwnBag, Without;
    InvStack(s);
    var t := s.Top();
    match step
    case Loosen(p) =>
      TreeNotAtHand(s, p);
      LoosenBag(t, s.pg.head, p);
      PartsConserve(s, t.(loose := t.loose + {p}, tree := t.tree - {p}), s.pg, multiset{});
    case FreePage(p) =>
      FreeBag(t, s.pg.head, p);
      PartsConserve(s, t.(tree := t.tree - {p}, freed := t.freed + [p]), s.pg, multiset{});
    case GiveBack(p) =>
      TreeNotAtHand(s, p);
      GiveBackBag(t, s.pg.head, p);
      PartsConserve(s, Without(t, p), s.pg.(head := s.pg.head + {p}), multiset{});
    case Fetch(pages, last) =>
      FetchBag(t, s.pg.head, pages);
      PartsConserve(s, t, PgState(s.pg.head + pages, last), multiset(pages - s.pg.head));
      assert s.WithTop(t).stack == s.stack;
  }

  lemma StillTop(s: State, step: Step)
    requires s.stack != [] && Enabled(s, step) && (step.Copy? || step.Unspill? || step.Write? || step.Spill?)
    ensures var t, top := Apply(s, step), s.Top();
      && t.stack != [] && t.stack == s.Outer() + [t.Top()] && t.pg == s.pg
      && t.Top().tree == top.tree && t.Top().freed == top.freed && t.Top().loose == top.loose
  {
    hide View, VisibleDirty, Spilled;
  }

  lemma StillConserves(s: State, step: Step)
    requires s.stack != [] && Enabled(s, step) && (step.Copy? || step.Unspill? || step.Write? || step.Spill?)
    ensures Apply(s, step).stack != [] && Pages(Apply(s, step)) == Pages(s)
  {
    hide Apply, Enabled, FreedBag, LooseBag, Pages;
    StillTop(s, step);
    BagsTop(s.Outer(), s.Top());
    BagsTop(s.Outer(), Apply(s, step).Top());
    assert s.stack == s.Outer() + [s.Top()];
    SamePages(s, Apply(s, step));
  }

  /** A child starts with its parent's tree. */
  lemma BeginConserves(s: State)
    requires s.stack != []
    ensures Pages(Apply(s, Begin)) == Pages(s)
  {
    BagsTop(s.stack, Apply(s, Begin).Top());
  }

  lemma MergedBags(outer: seq<Level>, parent: Level, child: Level)
    requires parent.loose !! child.loose
    ensures FreedBag(outer + [Merged(parent, child)]) == FreedBag(outer + [parent] + [child])
    ensures LooseBag(outer + [Merged(parent, child)]) == LooseBag(outer + [parent] + [child])
  {
    hide FreedBag, LooseBag;
    BagsTop(outer + [parent], child);
    BagsTop(outer, parent);
    BagsTop(outer, Merged(parent, child));
    assert multiset(parent.loose + child.loose) == multiset(parent.loose) + multiset(child.loose);
    assert multiset(parent.freed + child.freed) == multiset(parent.freed) + multiset(child.freed);
  }

  lemma LooseApart(outer: seq<Level>, parent: Level, child: Level)
    requires TopOk(outer + [parent], child)
    ensures parent.loose !! child.loose
  {
    hide RoomOk, Sheltered, SavedOk, Spilled;
    assert (outer + [parent])[|outer|] == parent;
  }

  lemma CommitIs(s: State, outer: seq<Level>, parent: Level, child: Level)
    requires s.stack == outer + [parent] + [child]
    ensures Apply(s, Commit) == s.(stack := outer + [Merged(parent, child)])
  {
    hide Merged, View, VisibleDirty;
    assert s.Outer()[..|s.stack| - 2] == outer;
  }

  /** ... and hands everything over when it commits. */
  lemma CommitConserves(s: State)
    requires Inv(s) && s.Depth() > 1
    ensures Apply(s, Commit).stack != [] && Pages(Apply(s, Commit)) == Pages(s)
  {
    hide Inv, FreedBag, LooseBag, TopOk, StackOk, Merged, Apply, Enabled;
    var outer, parent, child := CommitParts(s);
    LooseApart(outer, parent, child);
    MergedBags(outer, parent, child);
    MergedTree(parent, child);
    CommitIs(s, outer, parent, child);
    SamePages(s, s.(stack := outer + [Merged(parent, child)]));
  }

  lemma SamePages(s: State, t: State)
    requires s.stack != [] && t.stack != [] && s.pg == t.pg && s.Top().tree == t.Top().tree
    requires FreedBag(s.stack) == FreedBag(t.stack) && LooseBag(s.stack) == LooseBag(t.stack)
    ensures Pages(s) == Pages(t)
  {
    hide FreedBag, LooseBag;
  }

  lemma MergedTree(parent: Level, child: Level)
    ensures Merged(parent, child).tree == child.tree
  {
  }

  /** Every step but an abort keeps each page just as often as it was there, plus what it brings in. */
  lemma StepConserves(s: State, step: Step)
    requires Inv(s) && Enabled(s, step) && !step.Abort?
    ensures Apply(s, step).stack != [] && Pages(Apply(s, step)) == Pages(s) + Gained(s, step)
  {
    hide Inv, Pages;
    InvStack(s);
    match step
    case Alloc(q, c) => TakeConserves(s, q, c, {}, []);
    case Touch(p, q) => TakeConserves(s, q, View(s.stack, s.disk, p), {p}, [p]);
    case Begin => BeginConserves(s);
    case Commit => CommitConserves(s);
    case Loosen(_) => MoveConserves(s, step);
    case FreePage(_) => MoveConserves(s, step);
    case GiveBack(_) => MoveConserves(s, step);
    case Fetch(_, _) => MoveConserves(s, step);
    case _ => StillConserves(s, step);
  }

  // ---------------------------------------------------------------- over runs

  /** The transaction that is innermost at state i stays open up to state j. */
  ghost predicate StaysOpen(states: seq<State>, i: nat, j: nat)
    requires i <= j < |states|
  {
    forall n :: i <= n <= j ==> |states[n].stack| >= |states[i].stack|
  }

  /** The last state before j with at most d transactions open. */
  lemma {:induction false} LastBelow(states: seq<State>, i: nat, j: nat, d: nat) returns (m: nat)
    requires i < j < |states| && |states[i].stack| <= d
    ensures i <= m < j && |states[m].stack| <= d && forall n :: m < n < j ==> |states[n].stack| > d
    decreases j
  {
    if |states[j - 1].stack| <= d { m := j - 1; } else { m := LastBelow(states, i, j - 1, d); }
  }

  lemma OneDeeper(s: State, step: Step)
    requires s.stack != [] && Enabled(s, step)
    ensures |Apply(s, step).stack| <= |s.stack| + 1
    ensures |Apply(s, step).stack| == |s.stack| + 1 ==> step == Begin
    ensures step.Abort? ==> |Apply(s, step).stack| == |s.stack| - 1 && |s.stack| > 1
  {
    hide View, VisibleDirty, Merged;
  }

  /** An aborted child leaves the pages as they were when it began. */
  lemma AbortedChild(states: seq<State>, steps: seq<Step>, i: nat, j: nat) returns (m: nat)
    requires IsRun(states, steps) && i <= j < |steps| && StaysOpen(states, i, j + 1) && steps[j].Abort?
    ensures i <= m < j && StaysOpen(states, i, m) && states[m].stack != []
    ensures states[j + 1].stack == states[m].stack && states[j + 1].pg == states[m].pg
  {
    hide Inv, Enabled, Apply, View, VisibleDirty;
    assert Follows(states, steps, j);
    OneDeeper(states[j], steps[j]);
    var d := |states[j].stack| - 1;
    m := LastBelow(states, i, j, d);
    assert Follows(states, steps, m);
    OneDeeper(states[m], steps[m]);
    assert |states[m + 1].stack| == d + 1 by { assert m + 1 == j || |states[m + 1].stack| > d; }
    AbortRestores(states, steps, m, j);
  }

  /** No page is lost: while a transaction stays open, through any begins, commits and aborts inside
      it, every page it had at hand stays at hand, as often as before. */
  lemma {:induction false} NothingLost(states: seq<State>, steps: seq<Step>, i: nat, j: nat)
    requires IsRun(states, steps) && i <= j < |states| && StaysOpen(states, i, j)
    ensures states[i].stack != [] && states[j].stack != [] && Pages(states[i]) <= Pages(states[j])
    decreases j
  {
    hide Inv, Enabled, Apply, Pages;
    RunInv(states, steps, i);
    RunInv(states, steps, j);
    InvStack(states[i]);
    InvStack(states[j]);
    if i < j {
      assert Follows(states, steps, j - 1);
      if steps[j - 1].Abort? {
        var m := AbortedChild(states, steps, i, j - 1);
        NothingLost(states, steps, i, m);
        SamePages(states[m], states[j]);
      } else {
        NothingLost(states, steps, i, j - 1);
        RunInv(states, steps, j - 1);
        StepConserves(states[j - 1], steps[j - 1]);
      }
    }
  }

  lemma SameOuter(states: seq<State>, steps: seq<Step>, i: nat, j: nat)
    requires IsRun(states, steps) && i <= j < |states| && StaysOpen(states, i, j) && |states[j].stack| == |states[i].stack|
    ensures states[i].stack != [] && states[j].stack != [] && states[i].Outer() == states[j].Outer()
  {
    hide Inv, Enabled, Apply, View;
    RunInv(states, steps, i);
    InvStack(states[i]);
    var d := |states[i].stack| - 1;
    if d > 0 { AncestorsUndisturbed(states, steps, i, j, d); }
  }

  /** Begin, anything, commit: every page of the parent's tree, every page the parent had freed or
      loosened, and me_pghead, are afterwards in the parent's tree, its freed list, its loose pages
      or me_pghead; and so is everything the child had at hand in any state k in between. */
  lemma CommitKeepsPages(states: seq<State>, steps: seq<Step>, i: nat, j: nat, k: nat)
    requires IsRun(states, steps) && i < k <= j < |steps| && steps[i] == Begin && steps[j] == Commit
    requires |states[j].stack| == |states[i].stack| + 1 == |states[k].stack|
    requires forall n :: i < n <= j ==> |states[i].stack| < |states[n].stack|
    ensures states[i].stack != [] && states[k].stack != [] && states[j + 1].stack != []
    ensures OwnBag(states[i].Top(), states[i].pg.head) <= OwnBag(states[j + 1].Top(), states[j + 1].pg.head)
    ensures Pages(states[k]) <= Pages(states[j + 1])
  {
    hide Inv, Pages, OwnBag, Enabled;
    assert Follows(states, steps, j);
    assert |states[j + 1].stack| == |states[i].stack| by { CommitShrinks(states[j]); }
    NothingLost(states, steps, i, j + 1);
    SameOuter(states, steps, i, j + 1);
    PagesSplit(states[i]);
    PagesSplit(states[j + 1]);
    var outer := FreedBag(states[i].Outer()) + LooseBag(states[i].Outer());
    Cancel(OwnBag(states[i].Top(), states[i].pg.head), OwnBag(states[j + 1].Top(), states[j + 1].pg.head), outer);
    NothingLost(states, steps, k, j);
    RunInv(states, steps, j);
    StepConserves(states[j], Commit);
  }

  lemma Cancel(a: multiset<Pgno>, b: multiset<Pgno>, c: multiset<Pgno>)
    requires a + c <= b + c
    ensures a <= b
  {
    forall p ensures a[p] <= b[p] { assert (a + c)[p] <= (b + c)[p]; }
  }

  lemma CommitShrinks(s: State)
    requires s.stack != [] && Enabled(s, Commit)
    ensures |Apply(s, Commit).stack| == |s.stack| - 1
  {
  }

  /** Where a page at hand is. */
  lemma AtHand(t: Level, head: set<Pgno>, p: Pgno)
    ensures p in OwnBag(t, head) <==> p in t.tree || p in t.freed || p in t.loose || p in head
  {
  }

  // ---------------------------------------------------------------- contents

  /** The page the step puts something into, if any, and what. */
  function Stored(s: State, step: Step): (Pgno, Content)
    requires step.Alloc? || step.Touch? || step.Write?
  {
    match step
    case Alloc(q, c) => (q, c)
    case Touch(p, q) => (q, View(s.stack, s.disk, p))
    case Write(p, c) => (p, c)
  }

  lemma DirtyTop(outer: seq<Level>, t: Level, u: Level, disk: map<Pgno, Content>, q: Pgno, c: Content, p: Pgno)
    requires u.dirty == t.dirty[q := c] && u.spill == t.spill && q !in t.spill
    ensures View(outer + [u], disk, p) == if p == q then c else View(outer + [t], disk, p)
  {
    hide View;
    ViewTop(outer, t, disk, p);
    ViewTop(outer, u, disk, p);
  }

  lemma StoringNotSpilled(s: State, step: Step)
    requires Inv(s) && Enabled(s, step) && (step.Alloc? || step.Touch? || step.Write?)
    ensures Stored(s, step).0 !in s.Top().spill
  {
    hide StackOk, FreshFor, VisibleDirty, View, Spilled;
    Parts(s);
    LooseTop(s.Outer(), s.Top());
    if !step.Write? && Stored(s, step).0 !in s.Top().loose {
      FreshPage(s, Stored(s, step).0);
      UnusedTop(s.Outer(), s.Top(), Stored(s, step).0);
    }
  }

  lemma StoringSees(s: State, step: Step, p: Pgno)
    requires Inv(s) && Enabled(s, step) && (step.Alloc? || step.Touch? || step.Write?)
    ensures var t, put := Apply(s, step), Stored(s, step);
      View(t.stack, t.disk, p) == if p == put.0 then put.1 else View(s.stack, s.disk, p)
  {
    hide Inv, VisibleDirty, View, Spilled;
    InvStack(s);
    StoringNotSpilled(s, step);
    var t := Apply(s, step);
    assert s.stack == s.Outer() + [s.Top()] && t.stack == s.Outer() + [t.Top()];
    DirtyTop(s.Outer(), s.Top(), t.Top(), s.disk, Stored(s, step).0, Stored(s, step).1, p);
  }

  lemma AgreeSees(outer: seq<Level>, t: Level, u: Level, disk: map<Pgno, Content>, p: Pgno)
    requires (p in u.spill <==> p in t.spill) && (p in u.dirty <==> p in t.dirty)
    requires p in t.dirty ==> u.dirty[p] == t.dirty[p]
    ensures View(outer + [u], disk, p) == View(outer + [t], disk, p)
  {
    hide View;
    ViewTop(outer, t, disk, p);
    ViewTop(outer, u, disk, p);
  }

  lemma RetiringTop(s: State, step: Step, p: Pgno)
    requires s.stack != [] && Enabled(s, step) && (step.Loosen? || step.FreePage? || step.GiveBack? || step.Fetch?)
    requires step.GiveBack? ==> p != step.p
    ensures var t, top := Apply(s, step), s.Top();
      && t.stack != [] && t.stack == s.Outer() + [t.Top()] && t.disk == s.disk
      && (p in t.Top().spill <==> p in top.spill) && (p in t.Top().dirty <==> p in top.dirty)
      && (p in top.dirty ==> t.Top().dirty[p] == top.dirty[p])
  {
    hide VisibleDirty, View, Spilled, Unused, CanTake;
    assert s.stack == s.Outer() + [s.Top()];
  }

  lemma RetiringSees(s: State, step: Step, p: Pgno)
    requires s.stack != [] && Enabled(s, step) && (step.Loosen? || step.FreePage? || step.GiveBack? || step.Fetch?)
    requires step.GiveBack? ==> p != step.p
    ensures var t := Apply(s, step); View(t.stack, t.disk, p) == View(s.stack, s.disk, p)
  {
    hide View, Apply, Enabled;
    RetiringTop(s, step, p);
    assert s.stack == s.Outer() + [s.Top()];
    AgreeSees(s.Outer(), s.Top(), Apply(s, step).Top(), s.disk, p);
  }

  /** A step changes what the transaction sees of the page it puts something into, and of no other;
      a child that begins sees what its parent sees. */
  lemma StepSees(s: State, step: Step, p: Pgno)
    requires Inv(s) && Enabled(s, step) && !step.Abort? && (step.GiveBack? ==> p != step.p)
    ensures var t := Apply(s, step);
      View(t.stack, t.disk, p) ==
        if (step.Alloc? || step.Touch? || step.Write?) && p == Stored(s, step).0 then Stored(s, step).1
        else View(s.stack, s.disk, p)
  {
    hide Inv, VisibleDirty, View, Spilled, Apply, Enabled;
    InvStack(s);
    if step.Alloc? || step.Touch? || step.Write? {
      StoringSees(s, step, p);
    } else if step.Copy? || step.Unspill? || step.Spill? {
      RelocationKeepsOwnView(s, step, p);
    } else if step.Begin? {
      BeginSees(s, p);
    } else if step.Commit? {
      OneDeeper(s, step);
      CommitNeedsParent(s);
      CommitHandsOver(s, p);
    } else {
      RetiringSees(s, step, p);
    }
  }

  lemma CommitNeedsParent(s: State)
    requires s.stack != [] && Enabled(s, Commit)
    ensures |s.stack| > 1
  {
  }

  lemma BeginSees(s: State, p: Pgno)
    requires s.stack != []
    ensures var t := Apply(s, Begin); View(t.stack, t.disk, p) == View(s.stack, s.disk, p)
    ensures Apply(s, Begin).Top().tree == s.Top().tree
  {
    hide View;
    ViewTop(s.stack, Apply(s, Begin).Top(), s.disk, p);
  }

  // ---------------------------------------------------------------- what may be used again

  /** A loosened page can be allocated again at once, even with no dirty room left; one given back
      as soon as there is room; but a page freed, or replaced by a touch, not before the commit. */
  lemma Reusable(s: State, step: Step, p: Pgno)
    requires Inv(s) && Enabled(s, step) && Apply(s, step).stack != []
    ensures step == Loosen(p) ==> CanTake(Apply(s, step), p)
    ensures step == GiveBack(p) && Apply(s, step).Top().room > 0 ==> CanTake(Apply(s, step), p)
    ensures step == FreePage(p) || (step.Touch? && step.p == p) ==> !CanTake(Apply(s, step), p)
  {
    hide Inv, VisibleDirty, View, Spilled;
    InvStack(s);
    if step == FreePage(p) || (step.Touch? && step.p == p) { TreeNotAtHand(s, p); }
  }

  /** No freeDB record is fetched twice: me_pglast moves on. */
  lemma FetchMovesOn(s: State, pages: set<Pgno>, last: nat, more: set<Pgno>, next: nat)
    requires s.stack != [] && Enabled(s, Fetch(pages, last)) && Enabled(Apply(s, Fetch(pages, last)), Fetch(more, next))
    ensures last < next
  {
  }
}
