/**
  Two runs: one in which a scan lowers me_pgoldest below me_pglast, and one in which a reader
  is overtaken by two commits before it copies its meta page.
 */
module ProtocolExamples {
  import opened Wrappers
  import opened Protocol
  import opened ProtocolTheorems

  // ---------------------------------------------------------------- composing runs

  /** The steps lead from s to t. */
  predicate Leads(s: State, steps: seq<Step>, t: State)
    decreases |steps|
  {
    if steps == [] then s == t else Enabled(s, steps[0]) && Leads(Apply(s, steps[0]), steps[1..], t)
  }

  lemma {:induction false} LeadsOn(s: State, a: seq<Step>, t: State, b: seq<Step>, u: State)
    requires Leads(s, a, t) && Leads(t, b, u)
    ensures Leads(s, a + b, u)
    decreases |a|
  {
    hide Enabled, Apply;
    if a == [] {
      assert a + b == b;
    } else {
      LeadsOn(Apply(s, a[0]), a[1..], t, b, u);
      assert (a + b)[1..] == a[1..] + b;
    }
  }

  /** The states passed through. */
  function Trace(s: State, steps: seq<Step>, t: State): (r: seq<State>)
    requires Leads(s, steps, t)
    ensures |r| == |steps| + 1 && r[0] == s && r[|steps|] == t
    ensures forall i :: 0 <= i < |steps| ==> Enabled(r[i], steps[i]) && r[i + 1] == Apply(r[i], steps[i])
    decreases |steps|
  {
    if steps == [] then [s] else [s] + Trace(Apply(s, steps[0]), steps[1..], t)
  }

  lemma TraceIsRun(s: State, steps: seq<Step>, t: State)
    requires Init(s) && Leads(s, steps, t)
    ensures IsRun(Trace(s, steps, t), steps)
  {
  }

  lemma {:induction false} TraceThrough(s: State, a: seq<Step>, t: State, b: seq<Step>, u: State)
    requires Leads(s, a, t) && Leads(t, b, u)
    ensures Leads(s, a + b, u) && Trace(s, a + b, u)[|a|] == t
    decreases |a|
  {
    hide Enabled, Apply;
    LeadsOn(s, a, t, b, u);
    if a == [] {
      assert a + b == b;
    } else {
      var next := Apply(s, a[0]);
      TraceThrough(next, a[1..], t, b, u);
      assert (a + b)[0] == a[0] && (a + b)[1..] == a[1..] + b;
      assert Trace(s, a + b, u) == [s] + Trace(next, a[1..] + b, u);
    }
  }

  predicate Goes(s: State, step: Step, t: State) { Enabled(s, step) && Apply(s, step) == t }

  lemma FirstStep(s: State, step: Step, t: State, rest: seq<Step>, u: State, steps: seq<Step>)
    requires Goes(s, step, t) && Leads(t, rest, u) && steps == [step] + rest
    ensures Leads(s, steps, u)
  {
    assert steps[1..] == rest;
  }

  // ---------------------------------------------------------------- a transaction that adds a page

  const EMPTY := Snapshot(0, map[], map[], 2)

  /** A new environment with one process and one reader slot. */
  const START := State(map[], {}, [EMPTY, EMPTY], 0, false, [Slot(false, None, Unowned)], 0, [0], None, [EMPTY])

  /** Nobody writes, and the last commit, m, is published. */
  predicate Quiet(s: State, m: Snapshot) {
    s.writer.None? && !s.recover && |s.metas| == 2 && |s.pgoldest| == 1 && s.metas[s.mti % 2] == m && m.id == s.mti
    && 0 !in m.free
  }

  function OnePage(m: Snapshot): Snapshot {
    Snapshot(m.id + 1, m.image[m.next := []], m.free, m.next + 1)
  }

  function AfterAdding(s: State, m: Snapshot): State
    requires Quiet(s, m)
  {
    s.(disk := s.disk[m.next := []], unsynced := {}, metas := s.metas[(s.mti + 1) % 2 := OnePage(m)],
       mti := s.mti + 1, log := s.log + [OnePage(m)])
  }

  function AddSteps(m: Snapshot): seq<Step> {
    [Begin(0), NewPages(m.next, 1, FromMap, []), SaveFreelist(map[]), Flush(m.next), Sync, WriteMeta, Publish]
  }

  lemma AddPage(s: State, m: Snapshot)
    requires Quiet(s, m)
    ensures Leads(s, AddSteps(m), AfterAdding(s, m))
  {
    hide Goes, Leads;
    var p := m.next;
    var w0 := Txn(0, m.id + 1, m, Phase.Working, NoScan, m.image, map[], {}, {}, {}, {}, 0, m.free, p);
    var w1 := w0.(view := m.image[p := []], dirty := map[p := []], next := p + 1);
    var w2 := w1.(phase := Phase.Saved);
    var w3 := w2.(dirty := map[], spilled := {p});
    var s0, s1, s2 := SetTxn(s, w0), SetTxn(s, w1), SetTxn(s, w2);
    assert Goes(s, Begin(0), s0) by { AddBegin(s, m); }
    assert Goes(s0, NewPages(p, 1, FromMap, []), s1) by { AddNew(s0, w0); }
    assert Goes(s1, SaveFreelist(map[]), s2) by { SaveNothing(s1, w1); }
    var s3 := s2.(writer := Some(w3), disk := s.disk[p := []], unsynced := s.unsynced + {p});
    assert Goes(s2, Flush(p), s3) by {
      FlushOne(s2, w2, p);
      assert w2.dirty - {p} == map[] && w2.spilled + {p} == {p};
    }
    var s4 := s3.(writer := Some(w3.(phase := Phase.Synced)), unsynced := {});
    var s5 := s4.(writer := Some(w3.(phase := Phase.MetaWritten)), metas := s.metas[(m.id + 1) % 2 := OnePage(m)], log := s.log + [OnePage(m)]);
    EndCommit(s3, w3, s4, s5, OnePage(m));
    var t, rest := AfterAdding(s, m), [Sync, WriteMeta, Publish];
    var rest2 := [Flush(p)] + rest;
    var rest1 := [SaveFreelist(map[])] + rest2;
    var rest0 := [NewPages(p, 1, FromMap, [])] + rest1;
    FirstStep(s2, Flush(p), s3, rest, t, rest2);
    FirstStep(s1, SaveFreelist(map[]), s2, rest2, t, rest1);
    FirstStep(s0, NewPages(p, 1, FromMap, []), s1, rest1, t, rest0);
    FirstStep(s, Begin(0), s0, rest0, t, AddSteps(m));
  }

  lemma AddBegin(s: State, m: Snapshot)
    requires Quiet(s, m)
    ensures Goes(s, Begin(0), SetTxn(s, Txn(0, m.id + 1, m, Phase.Working, NoScan, m.image, map[], {}, {}, {}, {}, 0, m.free, m.next)))
  {
  }

  lemma AddNew(s: State, w: Txn)
    requires s.writer == Some(w) && w.phase.Working? && w.scan.NoScan?
    ensures var p := w.next;
      Goes(s, NewPages(p, 1, FromMap, []), SetTxn(s, w.(view := w.view[p := []], dirty := w.dirty[p := []], next := p + 1)))
  {
    var p := w.next;
    assert Range(p, 1) == {p};
    assert w.view + (map x | x in Range(p, 1) :: []) == w.view[p := []];
    assert w.dirty + (map x | x in Range(p, 1) :: []) == w.dirty[p := []];
  }

  /** mdb_freelist_save with nothing consumed: only the own freed pages make a record. */
  lemma SaveNothing(s: State, w: Txn)
    requires s.writer == Some(w) && w.phase.Working? && w.scan.NoScan?
    requires w.pglast == 0 && w.head == {} && w.loose == {} && 0 !in w.free
    ensures Goes(s, SaveFreelist(map[]), SetTxn(s, w.(phase := Phase.Saved,
      free := if w.freed == {} then w.free else w.free[w.id := w.freed])))
  {
    assert Listed(map[], 0) == {};
    assert (map k | k in w.free && k > w.pglast :: w.free[k]) + map[] == w.free;
    assert w.dirty - w.loose == w.dirty;
  }

  lemma FlushOne(s: State, w: Txn, p: Pgno)
    requires s.writer == Some(w) && w.phase.Saved? && p in w.dirty
    ensures Goes(s, Flush(p), s.(writer := Some(w.(dirty := w.dirty - {p}, spilled := w.spilled + {p})),
      disk := s.disk[p := w.dirty[p]], unsynced := s.unsynced + {p}))
  {
  }

  lemma EndGoes(s: State, w: Txn, s1: State, s2: State, m: Snapshot)
    requires s.writer == Some(w) && w.phase.Saved? && w.dirty == map[] && |s.metas| == 2
    requires m == Snapshot(w.id, w.view, w.free, w.next)
    requires s1 == s.(writer := Some(w.(phase := Phase.Synced)), unsynced := {})
    requires s2 == s1.(writer := Some(w.(phase := Phase.MetaWritten)), metas := s.metas[w.id % 2 := m], log := s.log + [m])
    ensures Goes(s, Sync, s1) && Goes(s1, WriteMeta, s2) && Goes(s2, Publish, s2.(mti := w.id, writer := None))
  {
  }

  lemma EndCommit(s: State, w: Txn, s1: State, s2: State, m: Snapshot)
    requires s.writer == Some(w) && w.phase.Saved? && w.dirty == map[] && |s.metas| == 2
    requires m == Snapshot(w.id, w.view, w.free, w.next)
    requires s1 == s.(writer := Some(w.(phase := Phase.Synced)), unsynced := {})
    requires s2 == s1.(writer := Some(w.(phase := Phase.MetaWritten)), metas := s.metas[w.id % 2 := m], log := s.log + [m])
    ensures Leads(s, [Sync, WriteMeta, Publish], s2.(mti := w.id, writer := None))
  {
    hide Leads, Goes;
    var t := s2.(mti := w.id, writer := None);
    EndGoes(s, w, s1, s2, m);
    LeadsNowhere(t);
    FirstStep(s2, Publish, t, [], t, [Publish]);
    FirstStep(s1, WriteMeta, s2, [Publish], t, [WriteMeta, Publish]);
    FirstStep(s, Sync, s1, [WriteMeta, Publish], t, [Sync, WriteMeta, Publish]);
  }

  lemma LeadsNowhere(s: State)
    ensures Leads(s, [], s)
  {
  }

  // ---------------------------------------------------------------- a reader overtaken

  const PUBLISHING: seq<Step> := [Claim(0), SetPid(0), Load(0), Store(0), Recheck(0)]

  /** The reader has published id 0 and checked it. */
  function Held(): State {
    START.(slots := [Slot(true, Some(0), Acquired(0))], numreaders := 1)
  }

  lemma ReaderHolds()
    ensures Leads(START, PUBLISHING, Held())
  {
    hide Leads;
    var s1 := START.(slots := [Slot(false, None, Claiming)], numreaders := 1);
    var s2 := s1.(slots := [Slot(true, None, Ready)]);
    var s3 := s1.(slots := [Slot(true, None, Loaded(0))]);
    var s4 := s1.(slots := [Slot(true, Some(0), Stored(0))]);
    assert Goes(START, Claim(0), s1);
    assert Goes(s1, SetPid(0), s2);
    assert Goes(s2, Load(0), s3);
    assert Goes(s3, Store(0), s4);
    assert Goes(s4, Recheck(0), Held());
    LeadsNowhere(Held());
    FirstStep(s4, Recheck(0), Held(), [], Held(), [Recheck(0)]);
    FirstStep(s3, Store(0), s4, [Recheck(0)], Held(), [Store(0), Recheck(0)]);
    FirstStep(s2, Load(0), s3, [Store(0), Recheck(0)], Held(), [Load(0), Store(0), Recheck(0)]);
    FirstStep(s1, SetPid(0), s2, [Load(0), Store(0), Recheck(0)], Held(), [SetPid(0), Load(0), Store(0), Recheck(0)]);
    FirstStep(START, Claim(0), s1, [SetPid(0), Load(0), Store(0), Recheck(0)], Held(), PUBLISHING);
  }

  /** A reader that two commits overtake between checking its id and copying its meta page runs on
      a newer snapshot than the one it published. */
  lemma ReaderOvertaken() returns (states: seq<State>, steps: seq<Step>)
    ensures IsRun(states, steps) && |steps| > 0 && steps[|steps| - 1] == CopyMeta(0)
    ensures |states[|steps| - 1].log| - 1 > 0 + 1
    ensures var slots := states[|steps|].slots;
      |slots| == 1 && slots[0].reader.Reading? && slots[0].reader.v == 0 && slots[0].reader.snap.id == 2
  {
    hide Leads;
    var first, second := OnePage(EMPTY), OnePage(OnePage(EMPTY));
    var s1 := AfterAdding(Held(), EMPTY);
    var s2 := AfterAdding(s1, first);
    var s3 := s2.(slots := [Slot(true, Some(0), Reading(0, second))]);
    ReaderHolds();
    AddPage(Held(), EMPTY);
    AddPage(s1, first);
    assert Goes(s2, CopyMeta(0), s3);
    LeadsNowhere(s3);
    FirstStep(s2, CopyMeta(0), s3, [], s3, [CopyMeta(0)]);
    LeadsOn(START, PUBLISHING, Held(), AddSteps(EMPTY), s1);
    LeadsOn(START, PUBLISHING + AddSteps(EMPTY), s1, AddSteps(first), s2);
    var before := PUBLISHING + AddSteps(EMPTY) + AddSteps(first);
    LeadsOn(START, before, s2, [CopyMeta(0)], s3);
    steps := before + [CopyMeta(0)];
    TraceIsRun(START, steps, s3);
    states := Trace(START, steps, s3);
  }

  // ---------------------------------------------------------------- an oldest id that drops

  /** The reader has loaded id 0 and not stored it yet. */
  function Waiting(): State {
    START.(slots := [Slot(true, None, Loaded(0))], numreaders := 1)
  }

  lemma ReaderWaits()
    ensures Leads(START, [Claim(0), SetPid(0), Load(0)], Waiting())
  {
    hide Leads;
    var s1 := START.(slots := [Slot(false, None, Claiming)], numreaders := 1);
    var s2 := s1.(slots := [Slot(true, None, Ready)]);
    assert Goes(START, Claim(0), s1);
    assert Goes(s1, SetPid(0), s2);
    assert Goes(s2, Load(0), Waiting());
    LeadsNowhere(Waiting());
    FirstStep(s2, Load(0), Waiting(), [], Waiting(), [Load(0)]);
    FirstStep(s1, SetPid(0), s2, [Load(0)], Waiting(), [SetPid(0), Load(0)]);
    FirstStep(START, Claim(0), s1, [SetPid(0), Load(0)], Waiting(), [Claim(0), SetPid(0), Load(0)]);
  }

  /** A page used and dropped again by the first transaction. */
  const DROPPED := Snapshot(1, map[], map[1 := {2}], 3)

  function AfterDrop(): State {
    Waiting().(metas := [EMPTY, DROPPED], mti := 1, log := [EMPTY, DROPPED])
  }

  const DROP: seq<Step> := [Begin(0), NewPages(2, 1, FromMap, []), Loosen(2), LooseToFreed]

  function DropSteps(): seq<Step> { DROP + [SaveFreelist(map[]), Sync, WriteMeta, Publish] }

  function Dropping(): Txn {
    Txn(0, 1, EMPTY, Phase.Working, NoScan, map[], map[], {}, {2}, {}, {}, 0, map[], 3)
  }

  lemma DropFirst()
    ensures Leads(Waiting(), DROP, SetTxn(Waiting(), Dropping()))
  {
    hide Goes, Leads;
    var s, w3 := Waiting(), Dropping();
    var w0 := Txn(0, 1, EMPTY, Phase.Working, NoScan, map[], map[], {}, {}, {}, {}, 0, map[], 2);
    var w1 := w0.(view := map[2 := []], dirty := map[2 := []], next := 3);
    var w2 := w1.(view := map[], loose := {2});
    var s0, s1, s2, s3 := SetTxn(s, w0), SetTxn(s, w1), SetTxn(s, w2), SetTxn(s, w3);
    assert Goes(s, Begin(0), s0) by { AddBegin(s, EMPTY); }
    assert Goes(s0, NewPages(2, 1, FromMap, []), s1) by { AddNew(s0, w0); }
    assert Goes(s1, Loosen(2), s2) by { LoosenTwo(s1, w1, w2); }
    assert Goes(s2, LooseToFreed, s3) by { FreeTwo(s2, w2, w3); }
    LeadsNowhere(s3);
    var rest := [Loosen(2), LooseToFreed];
    FirstStep(s2, LooseToFreed, s3, [], s3, [LooseToFreed]);
    FirstStep(s1, Loosen(2), s2, [LooseToFreed], s3, rest);
    FirstStep(s0, NewPages(2, 1, FromMap, []), s1, rest, s3, [NewPages(2, 1, FromMap, [])] + rest);
    FirstStep(s, Begin(0), s0, [NewPages(2, 1, FromMap, [])] + rest, s3, DROP);
  }

  lemma DropPage()
    ensures Leads(Waiting(), DropSteps(), AfterDrop())
  {
    hide Goes, Leads;
    var s, w := Waiting(), Dropping();
    var w4 := w.(phase := Phase.Saved, free := map[1 := {2}]);
    var s3, s4 := SetTxn(s, w), SetTxn(s, w4);
    assert Goes(s3, SaveFreelist(map[]), s4) by { SaveNothing(s3, w); }
    var s5 := s4.(writer := Some(w4.(phase := Phase.Synced)), unsynced := {});
    var s6 := s5.(writer := Some(w4.(phase := Phase.MetaWritten)), metas := [EMPTY, DROPPED], log := [EMPTY, DROPPED]);
    EndCommit(s4, w4, s5, s6, DROPPED);
    var rest := [SaveFreelist(map[]), Sync, WriteMeta, Publish];
    FirstStep(s3, SaveFreelist(map[]), s4, [Sync, WriteMeta, Publish], AfterDrop(), rest);
    DropFirst();
    LeadsOn(s, DROP, s3, rest, AfterDrop());
  }

  lemma LoosenTwo(s: State, w: Txn, u: Txn)
    requires s.writer == Some(w) && w.phase.Working? && w.scan.NoScan? && w.view == map[2 := []] == w.dirty && w.loose == {}
    requires u == w.(view := map[], loose := {2})
    ensures Goes(s, Loosen(2), SetTxn(s, u))
  {
    assert w.view - {2} == map[] && w.loose + {2} == {2};
  }

  lemma FreeTwo(s: State, w: Txn, u: Txn)
    requires s.writer == Some(w) && w.phase.Working? && w.scan.NoScan? && w.dirty == map[2 := []] && w.loose == {2}
    requires w.pglast == 0 && w.freed == {} && u == w.(freed := {2}, dirty := map[], loose := {})
    ensures Goes(s, LooseToFreed, SetTxn(s, u))
  {
    assert w.freed + w.loose == {2} && w.dirty - w.loose == map[];
  }

  const SCAN: seq<Step> := [ScanStart, ScanPid, ScanTxnid, ScanDone]

  lemma ScanGoes(s: State, w: Txn, txnid: Option<TxnId>, reader: Reader, oldest: TxnId)
    requires s.writer == Some(w) && w.phase.Working? && w.scan.NoScan? && w.env == 0 && w.id > 0
    requires s.slots == [Slot(true, txnid, reader)] && s.numreaders == 1 && |s.pgoldest| == 1
    requires oldest == if txnid.Some? && txnid.value < w.id - 1 then txnid.value else w.id - 1
    ensures Goes(s, ScanStart, SetTxn(s, w.(scan := Scanning(1, false, w.id - 1))))
    ensures Goes(SetTxn(s, w.(scan := Scanning(1, false, w.id - 1))), ScanPid, SetTxn(s, w.(scan := Scanning(1, true, w.id - 1))))
    ensures Goes(SetTxn(s, w.(scan := Scanning(1, true, w.id - 1))), ScanTxnid, SetTxn(s, w.(scan := Scanning(0, false, oldest))))
    ensures Goes(SetTxn(s, w.(scan := Scanning(0, false, oldest))), ScanDone, s.(pgoldest := [oldest]))
  {
  }

  /** Scanning a table of one slot that is in use. */
  lemma ScanOneSlot(s: State, w: Txn, txnid: Option<TxnId>, reader: Reader, oldest: TxnId)
    requires s.writer == Some(w) && w.phase.Working? && w.scan.NoScan? && w.env == 0 && w.id > 0
    requires s.slots == [Slot(true, txnid, reader)] && s.numreaders == 1 && |s.pgoldest| == 1
    requires oldest == if txnid.Some? && txnid.value < w.id - 1 then txnid.value else w.id - 1
    ensures Leads(s, SCAN, s.(pgoldest := [oldest]))
  {
    hide Goes, Leads;
    var s1 := SetTxn(s, w.(scan := Scanning(1, false, w.id - 1)));
    var s2 := SetTxn(s, w.(scan := Scanning(1, true, w.id - 1)));
    var s3 := SetTxn(s, w.(scan := Scanning(0, false, oldest)));
    var t := s.(pgoldest := [oldest]);
    ScanGoes(s, w, txnid, reader, oldest);
    LeadsNowhere(t);
    FirstStep(s3, ScanDone, t, [], t, [ScanDone]);
    FirstStep(s2, ScanTxnid, s3, [ScanDone], t, [ScanTxnid, ScanDone]);
    FirstStep(s1, ScanPid, s2, [ScanTxnid, ScanDone], t, [ScanPid, ScanTxnid, ScanDone]);
    FirstStep(s, ScanStart, s1, [ScanPid, ScanTxnid, ScanDone], t, SCAN);
  }

  /** The third transaction's state before it scans. */
  function Third(): Txn {
    var m := OnePage(DROPPED);
    Txn(0, 3, m, Phase.Working, NoScan, m.image, map[], {}, {}, {}, {}, 0, m.free, m.next)
  }

  function ThirdBegun(): State { SetTxn(AfterAdding(AfterDrop(), DROPPED), Third()) }

  /** It has scanned, found 2, and consumed record 1. */
  function Consumed(): State {
    SetTxn(ThirdBegun(), Third().(head := {2}, pglast := 1)).(pgoldest := [2])
  }

  function ToConsumed(): seq<Step> {
    [Claim(0), SetPid(0), Load(0)] + DropSteps() + AddSteps(DROPPED) + [Begin(0)] + SCAN + [Fetch(1)]
  }

  lemma ReachConsumed()
    ensures Leads(START, ToConsumed(), Consumed())
  {
    hide Leads, AfterAdding;
    var s1 := AfterAdding(AfterDrop(), DROPPED);
    var s2 := ThirdBegun();
    var s3 := s2.(pgoldest := [2]);
    ReaderWaits();
    DropPage();
    assert Quiet(AfterDrop(), DROPPED);
    AddPage(AfterDrop(), DROPPED);
    AddedState();
    AddBegin(s1, OnePage(DROPPED));
    ScanOneSlot(s2, Third(), None, Loaded(0), 2);
    FetchOne(s3);
    LeadsNowhere(s2);
    LeadsNowhere(Consumed());
    FirstStep(s1, Begin(0), s2, [], s2, [Begin(0)]);
    FirstStep(s3, Fetch(1), Consumed(), [], Consumed(), [Fetch(1)]);
    var a := [Claim(0), SetPid(0), Load(0)];
    LeadsOn(START, a, Waiting(), DropSteps(), AfterDrop());
    LeadsOn(START, a + DropSteps(), AfterDrop(), AddSteps(DROPPED), s1);
    LeadsOn(START, a + DropSteps() + AddSteps(DROPPED), s1, [Begin(0)], s2);
    LeadsOn(START, a + DropSteps() + AddSteps(DROPPED) + [Begin(0)], s2, SCAN, s3);
    LeadsOn(START, a + DropSteps() + AddSteps(DROPPED) + [Begin(0)] + SCAN, s3, [Fetch(1)], Consumed());
  }

  lemma AddedState()
    ensures var s := AfterAdding(AfterDrop(), DROPPED);
      && Quiet(s, OnePage(DROPPED)) && s.slots == Waiting().slots && s.numreaders == 1 && |s.pgoldest| == 1
  {
  }

  lemma FetchOne(s: State)
    requires s == ThirdBegun().(pgoldest := [2])
    ensures Goes(s, Fetch(1), Consumed())
  {
    var w := Third();
    assert w.free == map[1 := {2}] && w.head + w.free[1] == {2};
  }

  /** A run in which a scan lowers me_pgoldest from 2 to 0, below the record 1 already consumed:
      between two scans a reader stored the id 0 it had loaded long before. */
  lemma OldestCanDrop() returns (states: seq<State>, steps: seq<Step>, n: nat)
    ensures IsRun(states, steps) && n < |steps| && steps[|steps| - 1] == ScanDone
    ensures states[n].pgoldest == [2] && states[|steps|].pgoldest == [0]
    ensures forall s :: s == states[n] || s == states[|steps|] ==> WriterIn(s, Phase.Working) && s.writer.value.pglast == 1
  {
    hide Leads, Third, AfterAdding;
    n := |ToConsumed()|;
    var w := Consumed().writer.value;
    var s1 := Consumed().(slots := [Slot(true, Some(0), Stored(0))]);
    var t := s1.(pgoldest := [0]);
    AddedState();
    ThirdWorks();
    assert Goes(Consumed(), Store(0), s1);
    ScanOneSlot(s1, w, Some(0), Stored(0), 0);
    var rest := [Store(0)] + SCAN;
    FirstStep(Consumed(), Store(0), s1, SCAN, t, rest);
    ReachConsumed();
    TraceThrough(START, ToConsumed(), Consumed(), rest, t);
    steps := ToConsumed() + rest;
    TraceIsRun(START, steps, t);
    states := Trace(START, steps, t);
  }

  lemma ThirdWorks()
    ensures var w := Third(); w.phase.Working? && w.scan.NoScan? && w.env == 0 && w.id == 3
  {
  }
}
