/**
  What a commit commits: the snapshot holds, page by page, what the steps of its transaction put
  there, and the rest of the snapshot it started from.
 */
module ProtocolContent {
  import opened Wrappers
  import opened Protocol
  import opened ProtocolSafety
  import opened ProtocolTheorems

  /** The step puts something into page q. */
  predicate Sets(step: Step, q: Pgno) {
    match step
    case NewPages(lo, n, _, _) => lo <= q < lo + n
    case Touch(_, new', _) => q == new'
    case Write(p, _) => q == p
    case _ => false
  }

  /** The step takes page q out of the transaction's trees. */
  predicate Drops(step: Step, q: Pgno) {
    match step
    case Touch(p, _, _) => q == p
    case Loosen(p) => q == p
    case FreePage(p) => q == p
    case ReturnRun(lo, n) => lo <= q < lo + n
    case _ => false
  }

  function Seen(s: State, p: Pgno): Option<Content> {
    if s.writer.Some? && p in s.writer.value.view then Some(s.writer.value.view[p]) else None
  }

  /** What it puts there: the given content, or for a touched page what the transaction saw at the
      old number. */
  function Put(s: State, step: Step): Option<Content> {
    match step
    case NewPages(_, _, _, c) => Some(c)
    case Touch(p, _, _) => Seen(s, p)
    case Write(_, c) => Some(c)
    case _ => None
  }

  predicate EndsTxn(step: Step) { step.Begin? || step.Publish? || step.Abort? || step.WriterDies? || step.Crash? }

  lemma NewPagesSees(s: State, step: Step, q: Pgno)
    requires Enabled(s, step) && step.NewPages?
    ensures s.writer.Some? && Apply(s, step).writer.Some?
    ensures Seen(Apply(s, step), q) == if Sets(step, q) then Put(s, step) else if Drops(step, q) then None else Seen(s, q)
    ensures Sets(step, q) ==> Put(s, step).Some?
  {
    hide CanTake;
  }

  lemma TouchSees(s: State, step: Step, q: Pgno)
    requires Enabled(s, step) && step.Touch?
    ensures s.writer.Some? && Apply(s, step).writer.Some?
    ensures Seen(Apply(s, step), q) == if Sets(step, q) then Put(s, step) else if Drops(step, q) then None else Seen(s, q)
    ensures Sets(step, q) ==> Put(s, step).Some?
  {
    hide CanTake, Range;
  }

  lemma AllocatorSees(s: State, step: Step, q: Pgno)
    requires Inv(s) && Enabled(s, step) && ByAllocator(step)
    ensures s.writer.Some? && Apply(s, step).writer.Some?
    ensures Seen(Apply(s, step), q) == if Sets(step, q) then Put(s, step) else if Drops(step, q) then None else Seen(s, q)
    ensures Sets(step, q) ==> Put(s, step).Some?
  {
    hide Inv, Listed, CanTake;
    if step.NewPages? {
      NewPagesSees(s, step, q);
    } else if step.Touch? {
      TouchSees(s, step, q);
    }
  }

  lemma OtherSees(s: State, step: Step, q: Pgno)
    requires Enabled(s, step) && !ByAllocator(step) && !EndsTxn(step) && s.writer.Some?
    ensures Apply(s, step).writer.Some? && Seen(Apply(s, step), q) == Seen(s, q)
    ensures !Sets(step, q) && !Drops(step, q)
  {
  }

  // ---------------------------------------------------------------- over a transaction

  /** The steps b + 1 .. n - 1 belong to the transaction that step b begins. */
  ghost predicate InTxn(steps: seq<Step>, b: nat, n: nat) {
    b < n <= |steps| && steps[b].Begin? && forall m :: b < m < n ==> !EndsTxn(steps[m])
  }

  /** Step k is the last of the transaction to put something into page q, and q was not dropped since. */
  ghost predicate LastSets(steps: seq<Step>, b: nat, n: nat, k: nat, q: Pgno)
    requires n <= |steps|
  {
    b < k < n && Sets(steps[k], q) && forall m :: k < m < n ==> !Sets(steps[m], q) && !Drops(steps[m], q)
  }

  /** Step k drops page q, and nothing was put there since. */
  ghost predicate LastDrops(steps: seq<Step>, b: nat, n: nat, k: nat, q: Pgno)
    requires n <= |steps|
  {
    b < k < n && Drops(steps[k], q) && !Sets(steps[k], q) && forall m :: k < m < n ==> !Sets(steps[m], q)
  }

  ghost predicate LeftAlone(steps: seq<Step>, b: nat, n: nat, q: Pgno)
    requires n <= |steps|
  {
    forall m :: b < m < n ==> !Sets(steps[m], q) && !Drops(steps[m], q)
  }

  /** The image holds page q exactly as the steps say, starting from the snapshot `base`. */
  /** The image holds page q exactly as the steps say, starting from the snapshot `base`. */
  ghost predicate AsTold(states: seq<State>, steps: seq<Step>, b: nat, n: nat, base: Snapshot, found: Option<Content>, q: Pgno)
    requires n <= |steps| < |states|
  {
    && (forall k :: b < k < n && LastSets(steps, b, n, k, q) ==> found.Some? && found == Put(states[k], steps[k]))
    && (forall k :: b < k < n && LastDrops(steps, b, n, k, q) ==> found.None?)
    && (LeftAlone(steps, b, n, q) ==> found == At(base.image, q))
  }

  function At(image: map<Pgno, Content>, q: Pgno): Option<Content> { if q in image then Some(image[q]) else None }

  lemma BeginSees(s: State, step: Step, q: Pgno)
    requires Inv(s) && Enabled(s, step) && step.Begin?
    ensures var t := Apply(s, step); t.writer.Some? && Seen(t, q) == At(s.log[|s.log| - 1].image, q)
  {
    NewestMeta(s);
  }

  lemma LastSetsStep(steps: seq<Step>, b: nat, n: nat, k: nat, q: Pgno)
    requires b < n < |steps| && LastSets(steps, b, n + 1, k, q)
    ensures if k == n then Sets(steps[n], q) else LastSets(steps, b, n, k, q) && !Sets(steps[n], q) && !Drops(steps[n], q)
  {
    hide Sets, Drops;
  }

  lemma LastDropsStep(steps: seq<Step>, b: nat, n: nat, k: nat, q: Pgno)
    requires b < n < |steps| && LastDrops(steps, b, n + 1, k, q)
    ensures !Sets(steps[n], q) && if k == n then Drops(steps[n], q) else LastDrops(steps, b, n, k, q)
  {
    hide Sets, Drops;
  }

  lemma LeftAloneStep(steps: seq<Step>, b: nat, n: nat, q: Pgno)
    requires b < n < |steps| && LeftAlone(steps, b, n + 1, q)
    ensures LeftAlone(steps, b, n, q) && !Sets(steps[n], q) && !Drops(steps[n], q)
  {
    hide Sets, Drops;
  }

  /** One more step, and what is found afterwards. */
  lemma AsToldStep(states: seq<State>, steps: seq<Step>, b: nat, n: nat, base: Snapshot, found: Option<Content>,
                   after: Option<Content>, q: Pgno)
    requires b < n < |steps| < |states| && AsTold(states, steps, b, n, base, found, q)
    requires after == if Sets(steps[n], q) then Put(states[n], steps[n]) else if Drops(steps[n], q) then None else found
    requires Sets(steps[n], q) ==> Put(states[n], steps[n]).Some?
    ensures AsTold(states, steps, b, n + 1, base, after, q)
  {
    hide Sets, Drops, Put, At, LastSets, LastDrops, LeftAlone;
    var e := n + 1;
    forall k | b < k < e && LastSets(steps, b, e, k, q) ensures after.Some? && after == Put(states[k], steps[k]) {
      LastSetsStep(steps, b, n, k, q);
    }
    forall k | b < k < e && LastDrops(steps, b, e, k, q) ensures after.None? { LastDropsStep(steps, b, n, k, q); }
    if LeftAlone(steps, b, e, q) { LeftAloneStep(steps, b, n, q); }
  }

  lemma AsToldStart(states: seq<State>, steps: seq<Step>, b: nat, base: Snapshot, q: Pgno)
    requires b < |steps| < |states|
    ensures AsTold(states, steps, b, b + 1, base, At(base.image, q), q)
  {
    hide Sets, Drops, Put, At;
  }

  lemma {:induction false} TxnSees(states: seq<State>, steps: seq<Step>, b: nat, n: nat, q: Pgno)
    requires IsRun(states, steps) && InTxn(steps, b, n)
    ensures |states[b].log| > 0 && states[n].writer.Some?
    ensures AsTold(states, steps, b, n, states[b].log[|states[b].log| - 1], Seen(states[n], q), q)
    decreases n
  {
    hide Apply, Enabled, Init, Inv, Sets, Drops, Put, Seen, At, AsTold;
    RunInv(states, steps, n - 1);
    if n == b + 1 {
      BeginSees(states[b], steps[b], q);
      SomeLog(states[b]);
      AsToldStart(states, steps, b, states[b].log[|states[b].log| - 1], q);
    } else {
      TxnSees(states, steps, b, n - 1, q);
      var s, step := states[n - 1], steps[n - 1];
      if ByAllocator(step) { AllocatorSees(s, step, q); } else { OtherSees(s, step, q); }
      AsToldStep(states, steps, b, n - 1, states[b].log[|states[b].log| - 1], Seen(s, q), Seen(states[n], q), q);
    }
  }

  lemma SomeLog(s: State)
    requires Inv(s)
    ensures |s.log| > 0
  {
  }

  /** The snapshot that a transaction commits holds each page as the last step that put something
      there left it: the content written, or for a touched page what the transaction saw at the old
      number; dropped pages are gone, and all others are those of the snapshot it started from. */
  lemma CommittedContent(states: seq<State>, steps: seq<Step>, b: nat, w: nat, q: Pgno)
    requires IsRun(states, steps) && InTxn(steps, b, w) && w < |steps| && steps[w].WriteMeta?
    ensures |states[b].log| > 0 && |states[w + 1].log| == |states[w].log| + 1
    ensures var base, m := states[b].log[|states[b].log| - 1], states[w + 1].log[|states[w].log|];
      AsTold(states, steps, b, w, base, At(m.image, q), q)
  {
    hide Init, Sets, Drops, Inv, AsTold;
    TxnSees(states, steps, b, w, q);
  }

  // ---------------------------------------------------------------- what a sync is for

  lemma WrittenStep(s: State, step: Step, p: Pgno)
    requires Enabled(s, step) && !step.Sync? && !step.Crash?
    ensures p in s.unsynced ==> p in Apply(s, step).unsynced
    ensures step == Flush(p) || step == Spill(p) ==> p in Apply(s, step).unsynced
  {
  }

  lemma {:induction false} WrittenStays(states: seq<State>, steps: seq<Step>, a: nat, n: nat, p: Pgno)
    requires IsRun(states, steps) && a < n < |states| && (steps[a] == Flush(p) || steps[a] == Spill(p))
    requires forall m :: a < m < n ==> !steps[m].Sync? && !steps[m].Crash?
    ensures p in states[n].unsynced
    decreases n
  {
    hide Enabled, Apply, Init;
    if n > a + 1 { WrittenStays(states, steps, a, n - 1, p); }
    WrittenStep(states[n - 1], steps[n - 1], p);
  }

  /** A page written and not synced since may hold anything after a crash. */
  lemma WrittenMayBeLost(states: seq<State>, steps: seq<Step>, a: nat, n: nat, p: Pgno, c: Content)
    requires IsRun(states, steps) && a < n < |states| && (steps[a] == Flush(p) || steps[a] == Spill(p))
    requires forall m :: a < m < n ==> !steps[m].Sync? && !steps[m].Crash?
    ensures CanCrash(states[n], states[n].disk[p := c])
  {
    hide Enabled, Apply, Init;
    WrittenStays(states, steps, a, n, p);
    RunInv(states, steps, n);
  }
}
