/** The promises of the protocol, over whole runs. */
module ProtocolTheorems {
  import opened Wrappers
  import opened Protocol
  import opened ProtocolSafety

  /** A run: any interleaving of the steps of readers, writers and crashes. */
  ghost predicate IsRun(states: seq<State>, steps: seq<Step>) {
    && |states| == |steps| + 1
    && Init(states[0])
    && forall i :: 0 <= i < |steps| ==> Enabled(states[i], steps[i]) && states[i + 1] == Apply(states[i], steps[i])
  }

  lemma {:induction false} RunInv(states: seq<State>, steps: seq<Step>, n: nat)
    requires IsRun(states, steps) && n < |states|
    ensures Inv(states[n])
  {
    if n == 0 {
      InitInv(states[0]);
    } else {
      RunInv(states, steps, n - 1);
      StepKeeps(states[n - 1], steps[n - 1]);
    }
  }

  /** Snapshot isolation: at every moment of every run, the pages a reader can reach
      hold exactly what one transaction, no older than the id in its slot, committed. */
  lemma SnapshotIsolation(states: seq<State>, steps: seq<Step>, n: nat, i: nat)
    requires IsRun(states, steps) && n < |states|
    requires i < |states[n].slots| && states[n].slots[i].reader.Reading?
    ensures var s := states[n]; var r := s.slots[i].reader;
      && r.v <= r.snap.id < |s.log| && r.snap == s.log[r.snap.id]
      && Holds(s.disk, r.snap.image)
      && s.slots[i].txnid == Some(r.v)
  {
    RunInv(states, steps, n);
    var s := states[n];
    assert SnapOk(s.disk, s.log, s.slots[i]) && SlotOk(s.slots[i]);
  }

  /** The pages a step hands out to the writer, takes over for it, or writes to the file. */
  function TakenBy(s: State, step: Step): set<Pgno>
    requires Enabled(s, step)
  {
    match step
    case Fetch(k) => s.writer.value.free[k]
    case NewPages(lo, n, _, _) => Range(lo, n)
    case Touch(_, q, _) => {q}
    case Write(p, _) => {p}
    case Spill(p) => {p}
    case Flush(p) => {p}
    case _ => {}
  }

  lemma OwnedUnseen(s: State, p: Pgno)
    requires Inv(s) && s.writer.Some? && !s.writer.value.phase.MetaWritten? && p in s.writer.value.dirty
    ensures Unseen(s.metas, s.slots, {p})
  {
    UnseenUnion(s.metas, s.slots, Owned(s.writer.value), {}, {p});
  }

  lemma FetchUnseen(s: State, k: TxnId)
    requires Inv(s) && CanFetch(s, k)
    ensures Unseen(s.metas, s.slots, s.writer.value.free[k])
  {
    RecordUnseen(s, k);
  }

  lemma TakenUnseen(s: State, step: Step)
    requires Inv(s) && Enabled(s, step)
    ensures Unseen(s.metas, s.slots, TakenBy(s, step))
  {
    hide Inv, Unseen;
    match step
    case Fetch(k) => FetchUnseen(s, k);
    case NewPages(lo, m, src, _) => TakeUnseen(s, Range(lo, m), src);
    case Touch(_, q, src) => TakeUnseen(s, {q}, src);
    case Write(p, _) => OwnedUnseen(s, p);
    case Spill(p) => OwnedUnseen(s, p);
    case Flush(p) => OwnedUnseen(s, p);
    case _ => UnseenNone(s.metas, s.slots);
  }

  lemma UnseenNone(metas: seq<Snapshot>, slots: seq<Slot>)
    ensures Unseen(metas, slots, {})
  {
  }

  /** No page reachable from a live reader's snapshot, nor from either meta page, is ever
      reclaimed, allocated, modified or written. */
  lemma NothingReachableIsTaken(states: seq<State>, steps: seq<Step>, n: nat)
    requires IsRun(states, steps) && n < |steps|
    ensures Unseen(states[n].metas, states[n].slots, TakenBy(states[n], steps[n]))
  {
    RunInv(states, steps, n);
    TakenUnseen(states[n], steps[n]);
  }

  // ---------------------------------------------------------------- history

  /** What every step leaves of the history: log appended at most once, ids never going back. */
  ghost predicate Onward(s: State, t: State, commits: nat) {
    && s.log <= t.log && |t.log| == |s.log| + commits
    && s.mti <= t.mti && |t.slots| == |s.slots| && |t.pgoldest| == |s.pgoldest|
  }

  lemma AllocatorHistory(s: State, step: Step)
    requires Inv(s) && Enabled(s, step) && ByAllocator(step)
    ensures var t := Apply(s, step); Onward(s, t, 0) && t.slots == s.slots && t.mti == s.mti
  {
  }

  lemma ReaderHistory(s: State, step: Step)
    requires Inv(s) && Enabled(s, step) && ByReader(step)
    ensures Onward(s, Apply(s, step), 0)
  {
  }

  lemma OtherHistory(s: State, step: Step)
    requires Inv(s) && Enabled(s, step) && !ByReader(step) && !ByAllocator(step)
    ensures Onward(s, Apply(s, step), if step.WriteMeta? then 1 else 0)
  {
    if step.Crash? || step.Begin? { NewestMeta(s); }
  }

  /** History is append-only, and every commit adds exactly one snapshot. */
  lemma StepHistory(s: State, step: Step)
    requires Inv(s) && Enabled(s, step)
    ensures Onward(s, Apply(s, step), if step.WriteMeta? then 1 else 0)
  {
    if ByReader(step) {
      ReaderHistory(s, step);
    } else if ByAllocator(step) {
      AllocatorHistory(s, step);
    } else {
      OtherHistory(s, step);
    }
  }

  lemma NewestMeta(s: State)
    requires Inv(s)
    ensures PickMeta(s.metas) == s.log[|s.log| - 1] && PickMeta(s.metas) in s.metas
    ensures s.mti <= |s.log| - 1 <= s.mti + 1
  {
    var c := |s.log| - 1;
    assert c % 2 != (c + 1) % 2;
  }

  lemma {:induction false} RunHistory(states: seq<State>, steps: seq<Step>, i: nat, j: nat)
    requires IsRun(states, steps) && i <= j < |states|
    ensures states[i].log <= states[j].log && states[i].mti <= states[j].mti
  {
    if i < j {
      RunHistory(states, steps, i, j - 1);
      RunInv(states, steps, j - 1);
      StepHistory(states[j - 1], steps[j - 1]);
    }
  }

  /** What a reader sees never changes while it runs. */
  lemma RepeatableReads(states: seq<State>, steps: seq<Step>, i: nat, j: nat, slot: nat, p: Pgno)
    requires IsRun(states, steps) && i <= j < |states|
    requires slot < |states[i].slots| && slot < |states[j].slots|
    requires states[i].slots[slot].reader.Reading? && states[i].slots[slot].reader == states[j].slots[slot].reader
    requires p in states[i].slots[slot].reader.snap.image
    ensures p in states[i].disk && p in states[j].disk && states[i].disk[p] == states[j].disk[p]
  {
    SnapshotIsolation(states, steps, i, slot);
    SnapshotIsolation(states, steps, j, slot);
  }

  /** A reader that copies its meta page while at most one later commit has happened gets the
      snapshot of the id it published; if it is delayed past two commits it gets a later one. */
  lemma SnapshotOfOwnId(states: seq<State>, steps: seq<Step>, n: nat, i: nat)
    requires IsRun(states, steps) && n < |steps| && steps[n] == CopyMeta(i)
    ensures i < |states[n + 1].slots| && states[n + 1].slots[i].reader.Reading?
    ensures var r := states[n + 1].slots[i].reader; r.snap.id == r.v <==> |states[n].log| - 1 <= r.v + 1
  {
    RunInv(states, steps, n);
    var s := states[n];
    assert LiveOk(s.mti, s.pgoldest, s.slots[i]);
    MetaServes(s, s.slots[i].reader.v);
  }

  // ---------------------------------------------------------------- crashes

  /** After any crash at any moment, whatever the unsynced pages then hold, recovery picks the
      last snapshot committed, and the images of both meta pages are intact. */
  lemma CrashSafety(states: seq<State>, steps: seq<Step>, n: nat, after: map<Pgno, Content>)
    requires IsRun(states, steps) && n < |states| && CanCrash(states[n], after)
    ensures var s := states[n];
      && |s.log| > 0 && PickMeta(s.metas) == s.log[|s.log| - 1]
      && Holds(after, PickMeta(s.metas).image)
      && (forall m :: m in s.metas ==> Holds(after, m.image))
      && s.mti <= PickMeta(s.metas).id <= s.mti + 1
  {
    RunInv(states, steps, n);
    var s := states[n];
    NewestMeta(s);
    forall m | m in s.metas ensures Holds(after, m.image) {
      assert Holds(s.disk, m.image) && m.image.Keys !! s.unsynced;
    }
  }

  /** A commit that has returned survives every later crash. */
  lemma CommitsAreDurable(states: seq<State>, steps: seq<Step>, i: nat, j: nat, after: map<Pgno, Content>)
    requires IsRun(states, steps) && i < j < |states| && steps[i].Publish? && CanCrash(states[j], after)
    ensures var m := PickMeta(states[j].metas);
      && states[i].writer.value.id <= m.id
      && states[i].log <= states[j].log && states[i].writer.value.id == |states[i].log| - 1
  {
    hide Onward, Conserved;
    RunInv(states, steps, i);
    RunHistory(states, steps, i, j);
    CrashSafety(states, steps, j, after);
    RunInv(states, steps, j);
  }

  // ---------------------------------------------------------------- stale reader information

  /** b bounds every live reader and every reader still to come. */
  ghost predicate LowerBound(s: State, b: TxnId) {
    b <= s.mti && forall i :: 0 <= i < |s.slots| && s.slots[i].Live() ==> b <= s.slots[i].reader.v
  }

  lemma LowerBoundReader(s: State, step: Step, b: TxnId)
    requires Inv(s) && Enabled(s, step) && LowerBound(s, b) && ByReader(step)
    ensures LowerBound(Apply(s, step), b)
  {
  }

  lemma LowerBoundOther(s: State, step: Step, b: TxnId)
    requires Inv(s) && Enabled(s, step) && LowerBound(s, b) && !ByReader(step) && !ByAllocator(step)
    ensures LowerBound(Apply(s, step), b)
  {
    OtherHistory(s, step);
  }

  lemma LowerBoundStep(s: State, step: Step, b: TxnId)
    requires Inv(s) && Enabled(s, step) && LowerBound(s, b)
    ensures LowerBound(Apply(s, step), b)
  {
    if ByReader(step) {
      LowerBoundReader(s, step, b);
    } else if ByAllocator(step) {
      AllocatorHistory(s, step);
    } else {
      LowerBoundOther(s, step, b);
    }
  }

  lemma {:induction false} LowerBoundRun(states: seq<State>, steps: seq<Step>, i: nat, j: nat, b: TxnId)
    requires IsRun(states, steps) && i <= j < |states| && LowerBound(states[i], b)
    ensures LowerBound(states[j], b)
  {
    if i < j {
      LowerBoundRun(states, steps, i, j - 1, b);
      RunInv(states, steps, j - 1);
      LowerBoundStep(states[j - 1], steps[j - 1], b);
    }
  }

  /** Stale information is safe: an oldest-reader id found by a scan, however long ago, is
      still no greater than the id of any reader. */
  lemma StaleOldestIsSafe(states: seq<State>, steps: seq<Step>, i: nat, j: nat, env: nat, slot: nat)
    requires IsRun(states, steps) && i <= j < |states| && env < |states[i].pgoldest|
    requires slot < |states[j].slots| && states[j].slots[slot].Live()
    ensures states[i].pgoldest[env] <= states[j].slots[slot].reader.v
  {
    RunInv(states, steps, i);
    var s := states[i];
    forall k | 0 <= k < |s.slots| && s.slots[k].Live() ensures s.pgoldest[env] <= s.slots[k].reader.v {
      assert LiveOk(s.mti, s.pgoldest, s.slots[k]);
    }
    LowerBoundRun(states, steps, i, j, s.pgoldest[env]);
  }

  // ---------------------------------------------------------------- page counts

  /** Page conservation: while a transaction works, every page below mt_next_pgno but the two meta
      pages is in exactly one of its parts: tree, mt_free_pgs, me_pghead, loose pages, or freeDB
      records not consumed yet. */
  lemma PagesPartitioned(states: seq<State>, steps: seq<Step>, n: nat, p: Pgno)
    requires IsRun(states, steps) && n < |states|
    requires states[n].writer.Some? && states[n].writer.value.phase.Working?
    ensures var w := states[n].writer.value;
      Bit(p in w.view) + Bit(p in w.freed) + Bit(p in w.head) + Bit(p in w.loose) + Bit(p in Listed(w.free, w.pglast))
        == Bit(2 <= p < w.next)
  {
    RunInv(states, steps, n);
    var w := states[n].writer.value;
    assert Partition(w);
    assert Parts(w, p) == Bit(2 <= p < w.next);
  }

  /** The number of page numbers listed in the records 1 .. n of a freeDB. */
  function FreeCount(free: map<TxnId, set<Pgno>>, n: TxnId): nat {
    if n == 0 then 0 else FreeCount(free, n - 1) + if n in free then |free[n]| else 0
  }

  /** The pages of those records. */
  function ListedUpTo(free: map<TxnId, set<Pgno>>, n: TxnId): set<Pgno> {
    if n == 0 then {} else ListedUpTo(free, n - 1) + if n in free then free[n] else {}
  }

  lemma {:induction false} ListedUpToMembers(free: map<TxnId, set<Pgno>>, n: TxnId)
    ensures forall p :: p in ListedUpTo(free, n) <==> exists k :: 0 < k <= n && k in free && p in free[k]
  {
    if n > 0 { ListedUpToMembers(free, n - 1); }
  }

  lemma RecordIsNew(free: map<TxnId, set<Pgno>>, n: TxnId)
    requires RecordsDisjoint(free) && 0 < n && n in free
    ensures |ListedUpTo(free, n - 1) + free[n]| == |ListedUpTo(free, n - 1)| + |free[n]|
  {
    ListedUpToMembers(free, n - 1);
    assert ListedUpTo(free, n - 1) !! free[n];
  }

  lemma {:induction false} FreeCountIsListed(free: map<TxnId, set<Pgno>>, n: TxnId)
    requires RecordsDisjoint(free)
    ensures FreeCount(free, n) == |ListedUpTo(free, n)|
  {
    if n > 0 {
      FreeCountIsListed(free, n - 1);
      if n in free { RecordIsNew(free, n); }
    }
  }

  lemma {:induction false} CoverSize(pages: set<Pgno>, next: Pgno)
    requires next >= 2 && Covers(pages, next)
    ensures |pages| == next - 2
  {
    if next == 2 {
      assert pages == {};
    } else {
      CoverSize(pages - {next - 1}, next - 1);
    }
  }

  /** The audit: used pages, freeDB pages and the meta pages add up in every snapshot
      ever committed. */
  lemma AuditBalances(states: seq<State>, steps: seq<Step>, n: nat, i: nat)
    requires IsRun(states, steps) && n < |states| && i < |states[n].log|
    ensures var m := states[n].log[i]; |m.image.Keys| + FreeCount(m.free, m.id) + 2 == m.next
  {
    RunInv(states, steps, n);
    var m := states[n].log[i];
    assert Conserved(m);
    FreeCountIsListed(m.free, m.id);
    ListedUpToMembers(m.free, m.id);
    assert ListedUpTo(m.free, m.id) == Listed(m.free, 0);
    CoverSize(m.image.Keys + Listed(m.free, 0), m.next);
  }
}
