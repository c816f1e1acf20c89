/**
  How me_pgoldest moves. What a transaction has consumed from the freeDB stays older than every
  live reader, but not older than me_pgoldest, which a scan can lower.
 */
module ProtocolOldest {
  import opened Protocol
  import opened ProtocolSafety
  import opened ProtocolTheorems

  // ---------------------------------------------------------------- what was consumed stays old

  /** The records consumed so far are older than every live reader and every reader to come. */
  ghost predicate ConsumedOld(s: State) {
    WriterIn(s, Phase.Working) && s.writer.value.pglast > 0 ==> LowerBound(s, s.writer.value.pglast + 1)
  }

  lemma FetchedIsOld(s: State, k: TxnId)
    requires Inv(s) && CanFetch(s, k)
    ensures LowerBound(s, k + 1)
  {
    var b := s.pgoldest[s.writer.value.env];
    forall i | 0 <= i < |s.slots| && s.slots[i].Live() ensures b <= s.slots[i].reader.v {
      assert LiveOk(s.mti, s.pgoldest, s.slots[i]);
    }
  }

  lemma AllocatorLast(s: State, step: Step)
    requires Enabled(s, step) && ByAllocator(step)
    ensures WriterIn(s, Phase.Working) && Apply(s, step).writer.Some?
    ensures Apply(s, step).writer.value.pglast == if step.Fetch? then step.k else s.writer.value.pglast
  {
    hide Range, Listed, CanTake;
  }

  lemma OtherLast(s: State, step: Step)
    requires Enabled(s, step) && !ByAllocator(step) && WriterIn(Apply(s, step), Phase.Working)
    ensures Apply(s, step).writer.value.pglast == 0
      || (WriterIn(s, Phase.Working) && s.writer.value.pglast == Apply(s, step).writer.value.pglast)
  {
  }

  lemma ConsumedStep(s: State, step: Step)
    requires Inv(s) && Enabled(s, step) && ConsumedOld(s)
    ensures ConsumedOld(Apply(s, step))
  {
    hide Apply, Inv, LowerBound;
    var t := Apply(s, step);
    if WriterIn(t, Phase.Working) && t.writer.value.pglast > 0 {
      if ByAllocator(step) { AllocatorLast(s, step); } else { OtherLast(s, step); }
      if step.Fetch? { FetchedIsOld(s, step.k); }
      LowerBoundStep(s, step, t.writer.value.pglast + 1);
    }
  }

  lemma {:induction false} ConsumedRun(states: seq<State>, steps: seq<Step>, n: nat)
    requires IsRun(states, steps) && n < |states|
    ensures ConsumedOld(states[n])
  {
    hide Enabled, Apply, LowerBound;
    if n > 0 {
      ConsumedRun(states, steps, n - 1);
      RunInv(states, steps, n - 1);
      ConsumedStep(states[n - 1], steps[n - 1]);
    }
  }

  /** In every state of every run, every live reader is newer than anything the writer has
      consumed, and so will be every reader that starts later. */
  lemma ConsumedIsOld(states: seq<State>, steps: seq<Step>, n: nat, slot: nat)
    requires IsRun(states, steps) && n < |states|
    requires WriterIn(states[n], Phase.Working) && states[n].writer.value.pglast > 0
    ensures states[n].writer.value.pglast < states[n].mti
    ensures slot < |states[n].slots| && states[n].slots[slot].Live() ==>
      states[n].writer.value.pglast < states[n].slots[slot].reader.v
  {
    ConsumedRun(states, steps, n);
  }

  // ---------------------------------------------------------------- what a scan finds

  /** Step n of the run is the scan reading a slot that shows an id of at most b. */
  predicate ReadsOld(states: seq<State>, steps: seq<Step>, n: nat, b: TxnId) {
    && n < |steps| && n < |states| && steps[n].ScanTxnid? && CanScan(states[n], true)
    && var txnid := states[n].slots[states[n].writer.value.scan.upto - 1].txnid;
    txnid.Some? && txnid.value <= b
  }

  /** The steps i < n < j neither finish nor break off the scan that step i started. */
  ghost predicate OneScan(steps: seq<Step>, i: nat, j: nat) {
    && i < j <= |steps| && steps[i].ScanStart?
    && forall n :: i < n < j ==> !steps[n].ScanDone? && !steps[n].Abort? && !steps[n].WriterDies? && !steps[n].Crash?
  }

  /** The scan's minimum after a step. */
  function OldestAfter(s: State, step: Step): TxnId
    requires Scans(s) && (step.ScanTxnid? ==> CanScan(s, true))
  {
    var oldest := s.writer.value.scan.oldest;
    if !step.ScanTxnid? then oldest else
      var txnid := s.slots[s.writer.value.scan.upto - 1].txnid;
      if txnid.Some? && txnid.value < oldest then txnid.value else oldest
  }

  /** Nothing but the scan has moved on. */
  predicate SameBut(w: Txn, w': Txn) { w' == w.(scan := w'.scan) }

  lemma ReaderScans(s: State, step: Step)
    requires Enabled(s, step) && ByReader(step)
    ensures Apply(s, step).writer == s.writer
  {
  }

  lemma OnlyScans(s: State, step: Step)
    requires Enabled(s, step) && Scans(s) && !ByReader(step)
    ensures step.ScanPid? || step.ScanTxnid? || step.ScanDone? || step.Abort? || step.WriterDies? || step.Crash?
    ensures step.ScanTxnid? ==> CanScan(s, true)
  {
  }

  lemma ScanMoves(s: State, step: Step)
    requires Enabled(s, step) && Scans(s)
    requires !step.ScanDone? && !step.Abort? && !step.WriterDies? && !step.Crash?
    ensures step.ScanTxnid? ==> CanScan(s, true)
    ensures var t := Apply(s, step);
      && Scans(t) && SameBut(s.writer.value, t.writer.value)
      && t.writer.value.scan.oldest == OldestAfter(s, step)
  {
    if ByReader(step) { ReaderScans(s, step); } else { OnlyScans(s, step); }
  }

  lemma {:induction false} ScanSoFar(states: seq<State>, steps: seq<Step>, i: nat, j: nat, b: TxnId)
    requires IsRun(states, steps) && OneScan(steps, i, j)
    requires states[i].writer.Some? ==> b + 1 < states[i].writer.value.id
    ensures Scans(states[j]) && states[i].writer.Some?
    ensures SameBut(states[i].writer.value, states[j].writer.value)
    ensures states[j].writer.value.scan.oldest <= b <==> exists n: nat :: i < n < j && ReadsOld(states, steps, n, b)
    decreases j
  {
    hide Enabled, Apply, Init;
    if j == i + 1 {
      StartsHigh(states[i]);
    } else {
      ScanSoFar(states, steps, i, j - 1, b);
      ScanMoves(states[j - 1], steps[j - 1]);
      assert ReadsOld(states, steps, j - 1, b) ==> states[j].writer.value.scan.oldest <= b;
    }
  }

  lemma StartsHigh(s: State)
    requires Enabled(s, ScanStart)
    ensures var t := Apply(s, ScanStart);
      && s.writer.Some? && Scans(t) && SameBut(s.writer.value, t.writer.value)
      && t.writer.value.scan.oldest == if s.writer.value.id > 0 then s.writer.value.id - 1 else 0
  {
  }

  lemma OldReadIsNotLive(states: seq<State>, steps: seq<Step>, n: nat, slot: nat)
    requires IsRun(states, steps) && n < |states| && WriterIn(states[n], Phase.Working)
    requires var w := states[n].writer.value;
      w.pglast > 0 && slot < |states[n].slots|
      && states[n].slots[slot].txnid.Some? && states[n].slots[slot].txnid.value <= w.pglast
    ensures !states[n].slots[slot].Live()
  {
    RunInv(states, steps, n);
    ConsumedIsOld(states, steps, n, slot);
    assert SlotOk(states[n].slots[slot]);
  }

  /** A scan leaves me_pgoldest at or below me_pglast exactly when it read so old an id in some
      slot; and the owner of that slot was no live reader: it had still to check the id again. */
  lemma OldestDrops(states: seq<State>, steps: seq<Step>, i: nat, j: nat)
    requires IsRun(states, steps) && OneScan(steps, i, j) && j < |steps| && steps[j].ScanDone?
    requires states[i].writer.Some? && states[i].writer.value.pglast > 0
    ensures states[j].writer.Some? && states[j].writer.value.env < |states[j + 1].pgoldest|
    ensures var b := states[i].writer.value.pglast;
      && (states[j + 1].pgoldest[states[j].writer.value.env] <= b <==>
            exists n: nat :: i < n < j && ReadsOld(states, steps, n, b))
      && forall n: nat :: i < n < j && ReadsOld(states, steps, n, b) ==>
            !states[n].slots[states[n].writer.value.scan.upto - 1].Live()
  {
    hide Apply, Init;
    var b := states[i].writer.value.pglast;
    ConsumedRun(states, steps, i);
    RunInv(states, steps, i);
    StartsHigh(states[i]);
    ScanSoFar(states, steps, i, j, b);
    DoneSets(states[j]);
    forall n: nat | i < n < j && ReadsOld(states, steps, n, b)
      ensures !states[n].slots[states[n].writer.value.scan.upto - 1].Live()
    {
      ScanSoFar(states, steps, i, n, b);
      OldReadIsNotLive(states, steps, n, states[n].writer.value.scan.upto - 1);
    }
  }

  lemma DoneSets(s: State)
    requires Enabled(s, ScanDone)
    ensures s.writer.Some? && s.writer.value.env < |Apply(s, ScanDone).pgoldest|
    ensures Apply(s, ScanDone).pgoldest[s.writer.value.env] == s.writer.value.scan.oldest
  {
  }

  // ---------------------------------------------------------------- what holds nothing back

  /** A record is fetched as soon as a scan has met no id so old: whatever is older than every id
      shown, and is next in the freeDB, can be reclaimed. */
  lemma OldRecordsAreReclaimed(states: seq<State>, steps: seq<Step>, i: nat, j: nat, k: TxnId)
    requires IsRun(states, steps) && OneScan(steps, i, j) && j < |steps| && steps[j].ScanDone?
    requires states[i].writer.Some? && k + 1 < states[i].writer.value.id
    requires var w := states[i].writer.value;
      k in w.free && w.pglast < k && forall n :: n in w.free && w.pglast < n ==> k <= n
    requires forall n: nat :: i < n < j ==> !ReadsOld(states, steps, n, k)
    ensures Enabled(states[j + 1], Fetch(k))
  {
    hide Init;
    ScanSoFar(states, steps, i, j, k);
    DoneFetches(states[j], k);
  }

  lemma DoneFetches(s: State, k: TxnId)
    requires Enabled(s, ScanDone) && s.writer.Some? && k < s.writer.value.scan.oldest
    requires var w := s.writer.value;
      k in w.free && w.pglast < k && forall n :: n in w.free && w.pglast < n ==> k <= n
    ensures Enabled(Apply(s, ScanDone), Fetch(k))
  {
  }

  /** The slot shows no id. */
  predicate Silent(s: State, slot: nat) { slot < |s.slots| && s.slots[slot].txnid.None? }

  lemma SilentStep(s: State, step: Step, slot: nat)
    requires Enabled(s, step) && Silent(s, slot) && step != Store(slot)
    ensures Silent(Apply(s, step), slot)
  {
    hide Range, Listed, CanTake;
    if ByAllocator(step) { AllocatorSlots(s, step); }
  }

  lemma AllocatorSlots(s: State, step: Step)
    requires Enabled(s, step) && ByAllocator(step)
    ensures Apply(s, step).slots == s.slots
  {
    hide Range, Listed, CanTake;
  }

  lemma EndedIsSilent(s: State, step: Step, slot: nat)
    requires Enabled(s, step) && (step == EndRead(slot) || step == Claim(slot))
    ensures Silent(Apply(s, step), slot)
  {
  }

  /** A reader that has ended, or has only claimed a slot, holds nothing back: until the slot stores
      an id, no scan reads one there. */
  lemma {:induction false} EndedReaderIsSilent(states: seq<State>, steps: seq<Step>, a: nat, n: nat, slot: nat)
    requires IsRun(states, steps) && a < n < |states| && (steps[a] == EndRead(slot) || steps[a] == Claim(slot))
    requires forall m :: a < m < n ==> steps[m] != Store(slot)
    ensures Silent(states[n], slot)
    decreases n
  {
    hide Enabled, Apply, Init, Silent;
    if n == a + 1 {
      EndedIsSilent(states[a], steps[a], slot);
    } else {
      EndedReaderIsSilent(states, steps, a, n - 1, slot);
      SilentStep(states[n - 1], steps[n - 1], slot);
    }
  }
}
