/** What every run of the protocol keeps. */
module ProtocolSafety {
  import opened Wrappers
  import opened Protocol

  // ---------------------------------------------------------------- invariant

  /** No record that a reader at `bound` leaves reclaimable lists a page of this image. */
  ghost predicate Protected(free: map<TxnId, set<Pgno>>, image: map<Pgno, Content>, bound: TxnId) {
    forall k :: k in free && k < bound ==> free[k] !! image.Keys
  }

  /** Exactly the non-meta pages below next. */
  ghost predicate Covers(pages: set<Pgno>, next: Pgno) {
    forall p :: p in pages <==> 2 <= p < next
  }

  /** "Each non-metapage up to mm_last_pg is reachable exactly once in the snapshot." */
  ghost predicate Conserved(m: Snapshot) {
    && m.next >= 2
    && RecordsDisjoint(m.free)
    && (forall k :: k in m.free ==> 0 < k <= m.id)
    && m.image.Keys !! Listed(m.free, 0)
    && Covers(m.image.Keys + Listed(m.free, 0), m.next)
  }

  ghost predicate LogOk(log: seq<Snapshot>) {
    && |log| > 0
    && (forall i :: 0 <= i < |log| ==> log[i].id == i && Conserved(log[i]))
    && (forall i :: 0 <= i < |log| ==> log[i].next <= log[|log| - 1].next)
  }

  /** The two meta pages are the last two committed snapshots. */
  ghost predicate MetasOk(metas: seq<Snapshot>, log: seq<Snapshot>) {
    && |metas| == 2 && LogOk(log)
    && var c := |log| - 1;
    && metas[c % 2] == log[c]
    && metas[(c + 1) % 2] == log[if c == 0 then 0 else c - 1]
    && Protected(log[c].free, metas[(c + 1) % 2].image, c)
  }

  ghost predicate PublishedOk(s: State) {
    var c := |s.log| - 1;
    s.mti == c || (s.mti + 1 == c && (s.recover || WriterIn(s, Phase.MetaWritten)))
  }

  /** Both committed images are on the disk, and synced. */
  ghost predicate DiskOk(disk: map<Pgno, Content>, unsynced: set<Pgno>, metas: seq<Snapshot>) {
    && |metas| == 2
    && forall m :: m in metas ==> Holds(disk, m.image) && m.image.Keys !! unsynced
  }

  /** The slot's fields, as the scanning writer sees them, match its owner's progress. */
  ghost predicate SlotOk(slot: Slot) {
    match slot.reader
    case Unowned => !slot.pid
    case Claiming => !slot.pid
    case Ready => slot.pid
    case Loaded(_) => slot.pid
    case Stored(v) => slot.pid && slot.txnid == Some(v)
    case Acquired(v) => slot.pid && slot.txnid == Some(v)
    case Reading(v, _) => slot.pid && slot.txnid == Some(v)
  }

  /** A live reader is bounded below by every cached oldest id. */
  ghost predicate LiveOk(mti: TxnId, pgoldest: seq<TxnId>, slot: Slot) {
    slot.Live() ==>
      && slot.reader.v <= mti
      && forall e :: 0 <= e < |pgoldest| ==> pgoldest[e] <= slot.reader.v
  }

  /** A running reader sees, on the disk, exactly a snapshot that was committed,
      and no page of it is reclaimable. */
  ghost predicate SnapOk(disk: map<Pgno, Content>, log: seq<Snapshot>, slot: Slot) {
    slot.reader.Reading? ==>
      var m := slot.reader.snap;
      && slot.reader.v <= m.id < |log| && m == log[m.id]
      && Holds(disk, m.image)
      && Protected(log[|log| - 1].free, m.image, slot.reader.v)
  }

  /** No running reader and no meta page refers to any of these pages. */
  ghost predicate Unseen(metas: seq<Snapshot>, slots: seq<Slot>, pages: set<Pgno>) {
    && (forall m :: m in metas ==> pages !! m.image.Keys)
    && (forall slot :: slot in slots && slot.reader.Reading? ==> pages !! slot.reader.snap.image.Keys)
  }

  /** A freeDB about to be committed as snapshot c + 1 exposes no page that anybody refers to. */
  ghost predicate Shielded(metas: seq<Snapshot>, slots: seq<Slot>, c: TxnId, free: map<TxnId, set<Pgno>>) {
    && |metas| == 2
    && Protected(free, metas[c % 2].image, c + 1)
    && Protected(free, metas[(c + 1) % 2].image, c)
    && (forall slot :: slot in slots && slot.reader.Reading? ==> Protected(free, slot.reader.snap.image, slot.reader.v))
  }

  /** The pages a transaction may overwrite. */
  function Owned(w: Txn): set<Pgno> { w.head + w.loose + w.dirty.Keys + w.spilled }

  ghost predicate SlotsOk(s: State) {
    && s.numreaders <= |s.slots|
    && (forall i :: 0 <= i < |s.slots| ==> SlotOk(s.slots[i]) && (!s.slots[i].reader.Unowned? ==> i < s.numreaders))
    && (forall i :: 0 <= i < |s.slots| ==> LiveOk(s.mti, s.pgoldest, s.slots[i]))
    && (forall i :: 0 <= i < |s.slots| ==> SnapOk(s.disk, s.log, s.slots[i]))
  }

  ghost predicate OldestOk(s: State) {
    forall e :: 0 <= e < |s.pgoldest| ==> s.pgoldest[e] <= s.mti
  }

  /** A scan in progress bounds every live reader in the slots already passed. */
  ghost predicate ScanOk(s: State) {
    s.writer.Some? && s.writer.value.scan.Scanning? ==>
      var scan := s.writer.value.scan;
      && s.writer.value.phase.Working?
      && scan.upto <= |s.slots|
      && scan.oldest <= s.mti
      && forall i :: scan.upto <= i < |s.slots| && s.slots[i].Live() ==> scan.oldest <= s.slots[i].reader.v
  }

  /** The transaction's pages: which are its own, and what they hold. */
  ghost predicate ContentOk(disk: map<Pgno, Content>, w: Txn) {
    && w.dirty.Keys !! w.spilled
    && w.dirty.Keys <= w.view.Keys + w.loose + w.freed
    && w.spilled <= w.view.Keys + w.freed
    && w.loose <= w.dirty.Keys
    && (forall p :: p in w.view && p in w.dirty ==> w.view[p] == w.dirty[p])
    && (forall p :: p in w.view && p in w.spilled ==> p in disk && w.view[p] == disk[p])
    && (forall p :: p in w.view && p !in w.dirty && p !in w.spilled ==>
          p in w.base.image && w.view[p] == w.base.image[p])
  }

  function Bit(b: bool): nat { if b then 1 else 0 }

  /** In how many of its parts a transaction accounts for page p: tree pages, mt_free_pgs,
      me_pghead, loose pages and freeDB records not yet consumed. */
  function Parts(w: Txn, p: Pgno): nat {
    Bit(p in w.view) + Bit(p in w.freed) + Bit(p in w.head) + Bit(p in w.loose) + Bit(p in Listed(w.free, w.pglast))
  }

  /** [2, mt_next_pgno) is partitioned into those parts. */
  ghost predicate Partition(w: Txn) {
    w.next >= w.base.next >= 2 && forall p: Pgno :: Parts(w, p) == Bit(2 <= p < w.next)
  }

  ghost predicate WorkingOk(w: Txn, pgoldest: seq<TxnId>) {
    && w.free == w.base.free
    && Partition(w)
    && w.env < |pgoldest|
    && w.pglast < w.id
    && (w.pglast == 0 ==> w.head == {})
  }

  /** After mdb_freelist_save the transaction is a snapshot ready to commit. */
  ghost predicate SavedOk(w: Txn) {
    Conserved(Snapshot(w.id, w.view, w.free, w.next)) && w.next >= w.base.next && w.head == {} && w.loose == {}
  }

  /** The running transaction and the committed state. */
  ghost predicate TxnOk(s: State, w: Txn)
    requires |s.log| > 0
  {
    var c := |s.log| - 1;
    && (w.phase.MetaWritten? ==> w.id == c)
    && (!w.phase.MetaWritten? ==>
          && w.id == c + 1 && w.base == s.log[c]
          && ContentOk(s.disk, w)
          && Unseen(s.metas, s.slots, Owned(w)))
    && (w.phase.Working? ==> WorkingOk(w, s.pgoldest))
    && (w.phase.Saved? || w.phase.Synced? ==> SavedOk(w) && Shielded(s.metas, s.slots, c, w.free))
    && (w.phase.Synced? ==> s.unsynced == {} && w.dirty.Keys !! w.view.Keys)
  }

  ghost predicate WriterOk(s: State)
    requires |s.log| > 0
  {
    s.writer.Some? ==> !s.recover && TxnOk(s, s.writer.value)
  }

  ghost predicate Inv(s: State) {
    && MetasOk(s.metas, s.log) && PublishedOk(s)
    && DiskOk(s.disk, s.unsynced, s.metas)
    && SlotsOk(s) && OldestOk(s) && ScanOk(s) && WriterOk(s)
  }

  lemma InitInv(s: State)
    requires Init(s)
    ensures Inv(s)
  {
  }

  // ---------------------------------------------------------------- reader steps

  /** What a slot may become without disturbing anybody. */
  ghost predicate GoodSlot(s: State, i: nat, slot: Slot) {
    && SlotOk(slot) && LiveOk(s.mti, s.pgoldest, slot) && SnapOk(s.disk, s.log, slot)
    && (s.writer.Some? && s.writer.value.scan.Scanning? && slot.Live() && s.writer.value.scan.upto <= i ==> s.writer.value.scan.oldest <= slot.reader.v)
    && (s.writer.Some? && slot.reader.Reading? && |s.log| > 0 ==>
          var w := s.writer.value;
          && (!w.phase.MetaWritten? ==> Owned(w) !! slot.reader.snap.image.Keys)
          && (w.phase.Saved? || w.phase.Synced? ==> Protected(w.free, slot.reader.snap.image, slot.reader.v)))
  }

  /** Changing one slot: what the table as a whole keeps. */
  lemma SlotStepTable(s: State, i: nat, slot: Slot, nr: nat)
    requires SlotsOk(s) && ScanOk(s) && i < |s.slots| && GoodSlot(s, i, slot)
    requires s.numreaders <= nr <= |s.slots| && (!slot.reader.Unowned? ==> i < nr)
    ensures SlotsOk(SetSlot(s, i, slot).(numreaders := nr)) && ScanOk(SetSlot(s, i, slot).(numreaders := nr))
  {
  }

  lemma SlotStepTxn(s: State, i: nat, slot: Slot, nr: nat)
    requires |s.log| > 0 && WriterOk(s) && i < |s.slots| && GoodSlot(s, i, slot)
    ensures WriterOk(SetSlot(s, i, slot).(numreaders := nr))
  {
    var t := SetSlot(s, i, slot).(numreaders := nr);
    assert forall x :: x in t.slots ==> x in s.slots || x == slot;
  }

  lemma SlotStep(s: State, i: nat, slot: Slot, nr: nat)
    requires Inv(s) && i < |s.slots| && GoodSlot(s, i, slot)
    requires s.numreaders <= nr <= |s.slots| && (!slot.reader.Unowned? ==> i < nr)
    ensures Inv(SetSlot(s, i, slot).(numreaders := nr))
  {
    SlotStepTable(s, i, slot, nr);
    SlotStepTxn(s, i, slot, nr);
  }

  lemma ClaimKeeps(s: State, i: nat)
    requires Inv(s) && CanClaim(s, i)
    ensures Inv(DoClaim(s, i))
  {
    SlotStep(s, i, Slot(false, None, Claiming), if i == s.numreaders then i + 1 else s.numreaders);
  }

  /** Steps that leave the transaction id, and so the reader's bound, alone. */
  lemma QuietSlotKeeps(s: State, i: nat, slot: Slot)
    requires Inv(s) && i < |s.slots| && SlotOk(slot) && !slot.Live()
    requires slot.reader.Unowned? || !s.slots[i].reader.Unowned?
    ensures Inv(SetSlot(s, i, slot))
  {
    SlotStep(s, i, slot, s.numreaders);
    assert SetSlot(s, i, slot) == SetSlot(s, i, slot).(numreaders := s.numreaders);
  }

  /** The re-check is what makes the published id a valid bound. */
  lemma RecheckKeeps(s: State, i: nat)
    requires Inv(s) && CanRecheck(s, i)
    ensures Inv(DoRecheck(s, i))
  {
    var v := s.slots[i].reader.v;
    if v == s.mti {
      SlotStep(s, i, s.slots[i].(reader := Acquired(v)), s.numreaders);
    } else {
      QuietSlotKeeps(s, i, s.slots[i].(reader := Ready));
    }
  }

  /** Both meta pages name committed snapshots that a reader at v can rely on. */
  lemma MetaServes(s: State, v: TxnId)
    requires MetasOk(s.metas, s.log) && PublishedOk(s) && v <= s.mti
    ensures var m := s.metas[v % 2];
      && v <= m.id < |s.log| <= m.id + 2 && m == s.log[m.id]
      && Protected(s.log[|s.log| - 1].free, m.image, v)
  {
    var m := s.metas[v % 2];
    var c := |s.log| - 1;
    if m == s.log[c] {
      forall k | k in m.free && k < v ensures m.free[k] !! m.image.Keys {
        assert m.free[k] <= Listed(m.free, 0);
      }
    }
  }

  /** However late the meta page is copied, the snapshot it names is whole. */
  lemma CopyMetaGood(s: State, i: nat)
    requires MetasOk(s.metas, s.log) && PublishedOk(s) && DiskOk(s.disk, s.unsynced, s.metas)
    requires SlotsOk(s) && ScanOk(s) && WriterOk(s) && CanCopyMeta(s, i)
    ensures GoodSlot(s, i, DoCopyMeta(s, i).slots[i])
  {
    var v := s.slots[i].reader.v;
    assert LiveOk(s.mti, s.pgoldest, s.slots[i]);
    MetaServes(s, v);
    var m := s.metas[v % 2];
    assert m in s.metas;
    var t := s.slots[i].(reader := Reading(v, m));
    assert SlotOk(t) && LiveOk(s.mti, s.pgoldest, t) by { assert SlotOk(s.slots[i]); }
    assert SnapOk(s.disk, s.log, t);
    if s.writer.Some? { CopyMetaHidden(s, v); }
  }

  lemma CopyMetaHidden(s: State, v: TxnId)
    requires |s.metas| == 2 && |s.log| > 0 && WriterOk(s) && s.writer.Some? && v < |s.log|
    ensures var w := s.writer.value; var m := s.metas[v % 2];
      && (!w.phase.MetaWritten? ==> Owned(w) !! m.image.Keys)
      && (w.phase.Saved? || w.phase.Synced? ==> Protected(w.free, m.image, v))
  {
    assert s.metas[v % 2] in s.metas;
  }

  lemma CopyMetaKeeps(s: State, i: nat)
    requires Inv(s) && CanCopyMeta(s, i)
    ensures Inv(DoCopyMeta(s, i))
  {
    CopyMetaGood(s, i);
    SlotStep(s, i, DoCopyMeta(s, i).slots[i], s.numreaders);
  }

  // ---------------------------------------------------------------- writer steps

  lemma BeginKeeps(s: State, env: nat)
    requires Inv(s) && CanBegin(s, env)
    ensures Inv(DoBegin(s, env))
  {
    var c := |s.log| - 1;
    var t := DoBegin(s, env);
    assert t.mti == c;
    assert t.writer.value.base == s.log[c];
    assert Conserved(s.log[c]);
    assert Owned(t.writer.value) == {};
    var w := t.writer.value;
    forall p: Pgno ensures Parts(w, p) == Bit(2 <= p < w.next) {
      assert p in w.base.image.Keys + Listed(w.free, 0) <==> 2 <= p < w.next;
    }
  }

  /** A step of the scan of the reader table. */
  lemma ScanStep(s: State, scan: Scan)
    requires Inv(s) && WriterIn(s, Phase.Working) && ScanOk(SetTxn(s, s.writer.value.(scan := scan)))
    ensures Inv(SetTxn(s, s.writer.value.(scan := scan)))
  {
    SameParts(s.writer.value, s.writer.value.(scan := scan));
  }

  lemma ScanStartKeeps(s: State)
    requires Inv(s) && AtWork(s)
    ensures Inv(DoScanStart(s))
  {
    ScanStep(s, DoScanStart(s).writer.value.scan);
  }

  lemma ScanPidKeeps(s: State)
    requires Inv(s) && CanScan(s, false)
    ensures Inv(DoScanPid(s))
  {
    assert forall i :: 0 <= i < |s.slots| ==> SlotOk(s.slots[i]);
    ScanStep(s, DoScanPid(s).writer.value.scan);
  }

  lemma ScanTxnidKeeps(s: State)
    requires Inv(s) && CanScan(s, true)
    ensures Inv(DoScanTxnid(s))
  {
    assert forall i :: 0 <= i < |s.slots| ==> SlotOk(s.slots[i]);
    ScanStep(s, DoScanTxnid(s).writer.value.scan);
  }

  /** The scanned minimum bounds every live reader, so it may be cached for ever. */
  lemma ScanDoneKeeps(s: State)
    requires Inv(s) && CanScanDone(s)
    ensures Inv(DoScanDone(s))
  {
    ScanStep(s, NoScan);
    var t := SetTxn(s, s.writer.value.(scan := NoScan));
    forall i | 0 <= i < |s.slots| ensures LiveOk(t.mti, DoScanDone(s).pgoldest, t.slots[i]) {
      assert LiveOk(s.mti, s.pgoldest, s.slots[i]);
    }
  }

  /** A working transaction may change in any way that keeps its contents and its
      partition, and takes over only pages that nobody refers to. */
  lemma WorkStep(s: State, w: Txn, taken: set<Pgno>)
    requires Inv(s) && AtWork(s)
    requires var o := s.writer.value;
      && w.env == o.env && w.id == o.id && w.base == o.base && w.phase.Working? && w.scan.NoScan?
      && Owned(w) <= Owned(o) + taken
    requires ContentOk(s.disk, w) && WorkingOk(w, s.pgoldest) && Unseen(s.metas, s.slots, taken)
    ensures Inv(SetTxn(s, w))
  {
    UnseenUnion(s.metas, s.slots, Owned(s.writer.value), taken, Owned(w));
  }

  lemma UnseenUnion(metas: seq<Snapshot>, slots: seq<Slot>, a: set<Pgno>, b: set<Pgno>, c: set<Pgno>)
    requires Unseen(metas, slots, a) && Unseen(metas, slots, b) && c <= a + b
    ensures Unseen(metas, slots, c)
  {
  }

  lemma ListedSplit(free: map<TxnId, set<Pgno>>, last: TxnId, k: TxnId)
    requires RecordsDisjoint(free) && k in free && last < k
    requires forall j :: j in free && last < j ==> k <= j
    ensures Listed(free, last) == free[k] + Listed(free, k)
    ensures free[k] !! Listed(free, k)
  {
  }

  lemma RecordUnseenByMetas(metas: seq<Snapshot>, log: seq<Snapshot>, k: TxnId)
    requires MetasOk(metas, log) && k in log[|log| - 1].free && k < |log| - 1
    ensures forall m :: m in metas ==> log[|log| - 1].free[k] !! m.image.Keys
  {
    var c := |log| - 1;
    assert Conserved(log[c]) && log[c].free[k] <= Listed(log[c].free, 0);
    assert forall m :: m in metas ==> m == metas[c % 2] || m == metas[(c + 1) % 2];
  }

  /** A record older than the oldest reader lists no page that anybody refers to. */
  lemma RecordUnseen(s: State, k: TxnId)
    requires MetasOk(s.metas, s.log) && SlotsOk(s) && OldestOk(s) && s.mti < |s.log| && CanFetch(s, k)
    requires s.writer.value.free == s.log[|s.log| - 1].free
    ensures Unseen(s.metas, s.slots, s.writer.value.free[k])
  {
    var free := s.writer.value.free;
    RecordUnseenByMetas(s.metas, s.log, k);
    forall slot | slot in s.slots && slot.reader.Reading? ensures free[k] !! slot.reader.snap.image.Keys {
      var i :| 0 <= i < |s.slots| && s.slots[i] == slot;
      assert LiveOk(s.mti, s.pgoldest, s.slots[i]) && SnapOk(s.disk, s.log, s.slots[i]);
    }
  }

  /** Page numbers at and above mt_next_pgno are in no snapshot at all. */
  lemma NewUnseen(s: State, pages: set<Pgno>)
    requires MetasOk(s.metas, s.log) && SlotsOk(s)
    requires forall p :: p in pages ==> s.log[|s.log| - 1].next <= p
    ensures Unseen(s.metas, s.slots, pages)
  {
    var c := |s.log| - 1;
    forall i | 0 <= i <= c ensures pages !! s.log[i].image.Keys {
      assert Conserved(s.log[i]) && s.log[i].next <= s.log[c].next;
      forall p | p in s.log[i].image ensures p < s.log[i].next {
        assert p in s.log[i].image.Keys + Listed(s.log[i].free, 0);
      }
    }
    forall slot | slot in s.slots && slot.reader.Reading? ensures pages !! slot.reader.snap.image.Keys {
      var i :| 0 <= i < |s.slots| && s.slots[i] == slot;
      assert SnapOk(s.disk, s.log, s.slots[i]);
    }
  }

  lemma FetchKeeps(s: State, k: TxnId)
    requires Inv(s) && CanFetch(s, k)
    ensures Inv(DoFetch(s, k))
  {
    RecordUnseen(s, k);
    var o := s.writer.value;
    var w := DoFetch(s, k).writer.value;
    assert Conserved(s.log[|s.log| - 1]);
    ListedSplit(o.free, o.pglast, k);
    assert Partition(w) by { FetchPartition(o, k); }
    WorkStep(s, w, o.free[k]);
  }

  lemma FetchPartition(o: Txn, k: TxnId)
    requires Partition(o) && k in o.free
    requires Listed(o.free, o.pglast) == o.free[k] + Listed(o.free, k) && o.free[k] !! Listed(o.free, k)
    ensures Partition(o.(head := o.head + o.free[k], pglast := k))
  {
    var w := o.(head := o.head + o.free[k], pglast := k);
    forall p: Pgno ensures Parts(w, p) == Bit(2 <= p < w.next) {
      assert Parts(o, p) == Bit(2 <= p < w.next);
    }
  }

  /** Taking pages leaves a partition with the taken pages as one more part. */
  lemma TakePartition(w: Txn, P: set<Pgno>, src: Source)
    requires Partition(w) && CanTake(w, P, src)
    ensures var t := Take(w, P, src);
      t.next >= t.base.next && forall p: Pgno :: Parts(t, p) + Bit(p in P) == Bit(2 <= p < t.next)
  {
    var t := Take(w, P, src);
    forall p: Pgno ensures Parts(t, p) + Bit(p in P) == Bit(2 <= p < t.next) {
      assert Parts(w, p) == Bit(2 <= p < w.next);
    }
  }

  lemma TakeUnseen(s: State, P: set<Pgno>, src: Source)
    requires Inv(s) && AtWork(s) && CanTake(s.writer.value, P, src)
    ensures Unseen(s.metas, s.slots, P)
  {
    var w := s.writer.value;
    if src.FromMap? {
      NewUnseen(s, P);
    } else {
      UnseenUnion(s.metas, s.slots, Owned(w), {}, P);
    }
  }

  lemma NewPagesPartition(o: Txn, P: set<Pgno>, src: Source, added: map<Pgno, Content>)
    requires Partition(o) && CanTake(o, P, src) && added.Keys == P
    ensures Partition(WithNew(o, P, src, added))
  {
    TakePartition(o, P, src);
    var t := Take(o, P, src);
    var w := WithNew(o, P, src, added);
    forall p: Pgno ensures Parts(w, p) == Bit(2 <= p < w.next) {
      assert Parts(t, p) + Bit(p in P) == Bit(2 <= p < t.next);
    }
  }

  /** Taken pages are none of the tree, freed or spilled ones. */
  lemma TakenFresh(w: Txn, P: set<Pgno>, src: Source)
    requires Partition(w) && CanTake(w, P, src) && w.spilled <= w.view.Keys + w.freed
    ensures P !! w.view.Keys + w.freed + w.spilled
  {
    TakePartition(w, P, src);
    var t := Take(w, P, src);
    forall p | p in P ensures p !in w.view && p !in w.freed {
      assert Parts(t, p) + Bit(p in P) == Bit(2 <= p < t.next);
    }
  }

  lemma NewPagesContent(disk: map<Pgno, Content>, o: Txn, P: set<Pgno>, src: Source, added: map<Pgno, Content>)
    requires ContentOk(disk, o) && added.Keys == P && P !! o.view.Keys + o.freed + o.spilled
    requires CanTake(o, P, src)
    ensures ContentOk(disk, WithNew(o, P, src, added))
  {
  }

  function WithNew(o: Txn, P: set<Pgno>, src: Source, added: map<Pgno, Content>): Txn {
    Take(o, P, src).(view := o.view + added, dirty := o.dirty + added)
  }

  lemma NewPagesOwned(o: Txn, P: set<Pgno>, src: Source, added: map<Pgno, Content>)
    requires CanTake(o, P, src) && added.Keys == P
    ensures var w := WithNew(o, P, src, added);
      && Owned(w) <= Owned(o) + P
      && w.env == o.env && w.id == o.id && w.base == o.base && w.phase == o.phase && w.scan == o.scan
      && w.free == o.free && w.pglast == o.pglast && (o.head == {} ==> w.head == {})
  {
  }

  lemma NewPagesStep(s: State, P: set<Pgno>, src: Source, added: map<Pgno, Content>)
    requires Inv(s) && AtWork(s) && CanTake(s.writer.value, P, src) && added.Keys == P
    ensures Inv(SetTxn(s, WithNew(s.writer.value, P, src, added)))
  {
    var o := s.writer.value;
    TakeUnseen(s, P, src);
    TakenFresh(o, P, src);
    NewPagesContent(s.disk, o, P, src, added);
    NewPagesPartition(o, P, src, added);
    NewPagesOwned(o, P, src, added);
    WorkStep(s, WithNew(o, P, src, added), P);
  }

  lemma NewPagesKeeps(s: State, lo: Pgno, n: nat, src: Source, c: Content)
    requires Inv(s) && CanNewPages(s, lo, n, src)
    ensures Inv(DoNewPages(s, lo, n, src, c))
  {
    NewPagesStep(s, Range(lo, n), src, map p | p in Range(lo, n) :: c);
  }

  function Touched(o: Txn, p: Pgno, q: Pgno, src: Source): Txn
    requires p in o.view
  {
    Take(o, {q}, src)
      .(view := (o.view - {p})[q := o.view[p]], dirty := o.dirty[q := o.view[p]], freed := o.freed + {p})
  }

  lemma TouchPartition(o: Txn, p: Pgno, q: Pgno, src: Source)
    requires Partition(o) && CanTake(o, {q}, src) && p in o.view
    ensures Partition(Touched(o, p, q, src))
  {
    TakePartition(o, {q}, src);
    var t := Take(o, {q}, src);
    var w := Touched(o, p, q, src);
    forall x: Pgno ensures Parts(w, x) == Bit(2 <= x < w.next) {
      assert Parts(t, x) + Bit(x == q) == Bit(2 <= x < t.next);
    }
  }

  lemma TouchContent(disk: map<Pgno, Content>, o: Txn, p: Pgno, q: Pgno, src: Source)
    requires ContentOk(disk, o) && CanTake(o, {q}, src) && q !in o.view.Keys + o.freed + o.spilled
    requires p in o.view && p !in o.dirty && p !in o.spilled
    ensures ContentOk(disk, Touched(o, p, q, src))
  {
  }

  lemma TouchKeeps(s: State, p: Pgno, q: Pgno, src: Source)
    requires Inv(s) && CanTouch(s, p, q, src)
    ensures Inv(DoTouch(s, p, q, src))
  {
    TakeUnseen(s, {q}, src);
    var o := s.writer.value;
    TakenFresh(o, {q}, src);
    TouchContent(s.disk, o, p, q, src);
    TouchPartition(o, p, q, src);
    WorkStep(s, DoTouch(s, p, q, src).writer.value, {q});
  }

  lemma WriteKeeps(s: State, p: Pgno, c: Content)
    requires Inv(s) && CanWrite(s, p)
    ensures Inv(DoWrite(s, p, c))
  {
    var o := s.writer.value;
    var w := DoWrite(s, p, c).writer.value;
    assert w.view.Keys == o.view.Keys && w.dirty.Keys == o.dirty.Keys;
    SameParts(o, w);
    WorkStep(s, w, {});
  }

  lemma SameParts(o: Txn, w: Txn)
    requires Partition(o) && w.view.Keys == o.view.Keys && w.freed == o.freed && w.head == o.head && w.loose == o.loose
    requires w.free == o.free && w.pglast == o.pglast && w.next == o.next && w.base == o.base
    ensures Partition(w)
  {
    forall p: Pgno ensures Parts(w, p) == Bit(2 <= p < w.next) {
      assert Parts(o, p) == Bit(2 <= p < o.next);
    }
  }

  /** Tree pages that become free one way or another. */
  lemma RetirePartition(o: Txn, w: Txn, P: set<Pgno>)
    requires Partition(o) && P <= o.view.Keys && w.view == o.view - P
    requires
      || (w.freed == o.freed + P && w.head == o.head && w.loose == o.loose)
      || (w.freed == o.freed && w.head == o.head + P && w.loose == o.loose)
      || (w.freed == o.freed && w.head == o.head && w.loose == o.loose + P)
    requires w.free == o.free && w.pglast == o.pglast && w.next == o.next && w.base == o.base
    ensures Partition(w)
  {
    forall p: Pgno ensures Parts(w, p) == Bit(2 <= p < w.next) {
      assert Parts(o, p) == Bit(2 <= p < o.next);
    }
  }

  lemma LoosenKeeps(s: State, p: Pgno)
    requires Inv(s) && CanWrite(s, p)
    ensures Inv(DoLoosen(s, p))
  {
    var w := DoLoosen(s, p).writer.value;
    RetirePartition(s.writer.value, w, {p});
    WorkStep(s, w, {});
  }

  lemma FreePageKeeps(s: State, p: Pgno)
    requires Inv(s) && CanFreePage(s, p)
    ensures Inv(DoFreePage(s, p))
  {
    var w := DoFreePage(s, p).writer.value;
    RetirePartition(s.writer.value, w, {p});
    WorkStep(s, w, {});
  }

  lemma ReturnPages(s: State, P: set<Pgno>)
    requires Inv(s) && AtWork(s)
    requires var o := s.writer.value; o.pglast > 0 && P <= o.view.Keys && P <= o.dirty.Keys + o.spilled
    ensures var o := s.writer.value;
      Inv(SetTxn(s, o.(view := o.view - P, dirty := o.dirty - P, spilled := o.spilled - P, head := o.head + P)))
  {
    var o := s.writer.value;
    var w := o.(view := o.view - P, dirty := o.dirty - P, spilled := o.spilled - P, head := o.head + P);
    forall p | p in P ensures p !in o.loose {
      assert Parts(o, p) == Bit(2 <= p < o.next);
    }
    RetirePartition(o, w, P);
    WorkStep(s, w, {});
  }

  lemma ReturnRunKeeps(s: State, lo: Pgno, n: nat)
    requires Inv(s) && CanReturnRun(s, lo, n)
    ensures Inv(DoReturnRun(s, lo, n))
  {
    ReturnPages(s, Range(lo, n));
  }

  lemma UnspillKeeps(s: State, p: Pgno)
    requires Inv(s) && CanUnspill(s, p)
    ensures Inv(DoUnspill(s, p))
  {
    var w := DoUnspill(s, p).writer.value;
    SameParts(s.writer.value, w);
    WorkStep(s, w, {});
  }

  lemma LooseToFreedKeeps(s: State)
    requires Inv(s) && CanLooseToFreed(s)
    ensures Inv(DoLooseToFreed(s))
  {
    var o := s.writer.value;
    var w := DoLooseToFreed(s).writer.value;
    forall p: Pgno ensures Parts(w, p) == Bit(2 <= p < w.next) && !(p in o.view && p in o.loose) {
      assert Parts(o, p) == Bit(2 <= p < o.next);
    }
    WorkStep(s, w, {});
  }

  // ---------------------------------------------------------------- writing to the file

  lemma FlushContent(disk: map<Pgno, Content>, o: Txn, p: Pgno)
    requires ContentOk(disk, o) && p in o.dirty && p !in o.loose
    ensures ContentOk(disk[p := o.dirty[p]], o.(dirty := o.dirty - {p}, spilled := o.spilled + {p}))
  {
  }

  /** Writing pages nobody refers to disturbs nobody. */
  lemma FlushOthers(s: State, p: Pgno, c: Content)
    requires SlotsOk(s) && DiskOk(s.disk, s.unsynced, s.metas) && Unseen(s.metas, s.slots, {p})
    ensures SlotsOk(s.(disk := s.disk[p := c]))
    ensures DiskOk(s.disk[p := c], s.unsynced + {p}, s.metas)
  {
    forall i | 0 <= i < |s.slots| ensures SnapOk(s.disk[p := c], s.log, s.slots[i]) {
      assert SnapOk(s.disk, s.log, s.slots[i]) && s.slots[i] in s.slots;
    }
    forall m | m in s.metas ensures Holds(s.disk[p := c], m.image) && m.image.Keys !! s.unsynced + {p} {
      assert Holds(s.disk, m.image) && p !in m.image;
    }
  }

  lemma FlushTxn(s: State, p: Pgno)
    requires |s.log| > 0 && WriterOk(s) && (CanSpill(s, p) || CanFlush(s, p))
    ensures WriterOk(DoFlush(s, p)) && Unseen(s.metas, s.slots, {p})
  {
    var o := s.writer.value;
    var w := o.(dirty := o.dirty - {p}, spilled := o.spilled + {p});
    FlushContent(s.disk, o, p);
    UnseenUnion(s.metas, s.slots, Owned(o), {}, {p});
    UnseenUnion(s.metas, s.slots, Owned(o), {}, Owned(w));
    if o.phase.Working? { SameParts(o, w); }
  }

  lemma FlushKeeps(s: State, p: Pgno)
    requires Inv(s) && (CanSpill(s, p) || CanFlush(s, p))
    ensures Inv(DoFlush(s, p))
  {
    FlushTxn(s, p);
    FlushOthers(s, p, s.writer.value.dirty[p]);
  }

  // ---------------------------------------------------------------- saving the freelist

  lemma StoredKeys(w: Txn, slices: map<TxnId, set<Pgno>>)
    requires forall k :: k in slices ==> 1 <= k <= w.pglast
    requires forall k :: k in w.free ==> k < w.id
    requires w.pglast < w.id
    ensures var f := StoreRecords(w, slices); forall k :: k in f ==>
      && 0 < k <= w.id
      && (k <= w.pglast ==> k in slices && f[k] == slices[k])
      && (w.pglast < k < w.id ==> k in w.free && f[k] == w.free[k])
      && (k == w.id ==> f[k] == w.freed)
  {
  }

  lemma StoredListed(w: Txn, slices: map<TxnId, set<Pgno>>)
    requires forall k :: k in slices ==> 1 <= k <= w.pglast
    requires forall k :: k in w.free ==> k < w.id
    requires w.pglast < w.id
    ensures Listed(StoreRecords(w, slices), 0) == Listed(slices, 0) + Listed(w.free, w.pglast) + w.freed
  {
    var f := StoreRecords(w, slices);
    StoredKeys(w, slices);
    forall p | p in Listed(slices, 0) ensures p in Listed(f, 0) {
      var k :| k in slices && k > 0 && p in slices[k];
      assert k in f && f[k] == slices[k];
    }
    forall p | p in Listed(w.free, w.pglast) ensures p in Listed(f, 0) {
      var k :| k in w.free && k > w.pglast && p in w.free[k];
      assert k in f && f[k] == w.free[k];
    }
    if w.freed != {} { assert w.id in f && f[w.id] == w.freed; }
  }

  lemma StoredDisjoint(w: Txn, slices: map<TxnId, set<Pgno>>)
    requires forall k :: k in slices ==> 1 <= k <= w.pglast
    requires forall k :: k in w.free ==> k < w.id
    requires w.pglast < w.id
    requires RecordsDisjoint(w.free) && RecordsDisjoint(slices)
    requires Listed(slices, 0) !! Listed(w.free, w.pglast) !! w.freed
    ensures RecordsDisjoint(StoreRecords(w, slices))
  {
    var f := StoreRecords(w, slices);
    StoredKeys(w, slices);
    forall j, k | j in f && k in f && j < k ensures f[j] !! f[k] {
      assert j <= w.pglast ==> f[j] <= Listed(slices, 0);
      assert w.pglast < j < w.id ==> f[j] <= Listed(w.free, w.pglast);
      assert w.pglast < k < w.id ==> f[k] <= Listed(w.free, w.pglast);
    }
  }

  /** What is saved under small keys belongs to the transaction; the rest was listed before. */
  lemma StoredProtected(w: Txn, slices: map<TxnId, set<Pgno>>, image: map<Pgno, Content>, bound: TxnId)
    requires forall k :: k in slices ==> 1 <= k <= w.pglast
    requires forall k :: k in w.free ==> k < w.id
    requires w.pglast < w.id && bound <= w.id
    requires Protected(w.free, image, bound) && Listed(slices, 0) !! image.Keys
    ensures Protected(StoreRecords(w, slices), image, bound)
  {
    var f := StoreRecords(w, slices);
    StoredKeys(w, slices);
    forall k | k in f && k < bound ensures f[k] !! image.Keys {
      if k <= w.pglast { assert f[k] <= Listed(slices, 0); }
    }
  }

  lemma PartsApart(w: Txn)
    requires Partition(w)
    ensures w.view.Keys !! w.freed !! w.head + w.loose !! Listed(w.free, w.pglast)
    ensures Covers(w.view.Keys + (w.head + w.loose + Listed(w.free, w.pglast) + w.freed), w.next)
  {
    forall p: Pgno
      ensures Bit(p in w.view) + Bit(p in w.freed) + Bit(p in w.head + w.loose) + Bit(p in Listed(w.free, w.pglast))
        == Bit(2 <= p < w.next)
    {
      assert Parts(w, p) == Bit(2 <= p < w.next);
    }
  }

  lemma SaveConserves(o: Txn, slices: map<TxnId, set<Pgno>>)
    requires Partition(o) && RecordsDisjoint(o.free) && (forall k :: k in o.free ==> k < o.id) && o.pglast < o.id
    requires forall k :: k in slices ==> 1 <= k <= o.pglast
    requires RecordsDisjoint(slices) && Listed(slices, 0) == o.head + o.loose
    ensures Conserved(Snapshot(o.id, o.view, StoreRecords(o, slices), o.next))
  {
    PartsApart(o);
    StoredKeys(o, slices);
    StoredListed(o, slices);
    StoredDisjoint(o, slices);
  }

  lemma SaveShieldsMetas(metas: seq<Snapshot>, log: seq<Snapshot>, o: Txn, slices: map<TxnId, set<Pgno>>)
    requires MetasOk(metas, log) && o.free == log[|log| - 1].free && o.id == |log| && o.pglast < o.id
    requires forall k :: k in slices ==> 1 <= k <= o.pglast
    requires forall m :: m in metas ==> Listed(slices, 0) !! m.image.Keys
    ensures Shielded(metas, [], |log| - 1, StoreRecords(o, slices))
  {
    var c := |log| - 1;
    var m := metas[c % 2];
    assert Conserved(log[c]) && m in metas && metas[(c + 1) % 2] in metas;
    forall k | k in o.free && k < c + 1 ensures o.free[k] !! m.image.Keys {
      assert o.free[k] <= Listed(o.free, 0);
    }
    StoredProtected(o, slices, m.image, c + 1);
    StoredProtected(o, slices, metas[(c + 1) % 2].image, c);
  }

  lemma SaveShieldsReaders(s: State, o: Txn, slices: map<TxnId, set<Pgno>>)
    requires SlotsOk(s) && |s.log| > 0 && s.mti < |s.log| == o.id && o.free == s.log[|s.log| - 1].free && o.pglast < o.id
    requires forall k :: k in slices ==> 1 <= k <= o.pglast
    requires forall k :: k in o.free ==> k < o.id
    requires forall slot :: slot in s.slots && slot.reader.Reading? ==> Listed(slices, 0) !! slot.reader.snap.image.Keys
    ensures forall slot :: slot in s.slots && slot.reader.Reading? ==>
      Protected(StoreRecords(o, slices), slot.reader.snap.image, slot.reader.v)
  {
    forall slot | slot in s.slots && slot.reader.Reading?
      ensures Protected(StoreRecords(o, slices), slot.reader.snap.image, slot.reader.v)
    {
      var i :| 0 <= i < |s.slots| && s.slots[i] == slot;
      assert LiveOk(s.mti, s.pgoldest, s.slots[i]) && SnapOk(s.disk, s.log, s.slots[i]);
      StoredProtected(o, slices, slot.reader.snap.image, slot.reader.v);
    }
  }

  lemma SaveContent(disk: map<Pgno, Content>, o: Txn, w: Txn)
    requires ContentOk(disk, o) && o.view.Keys !! o.loose
    requires w.base == o.base && w.view == o.view && w.freed == o.freed && w.spilled == o.spilled
    requires w.dirty.Keys == o.dirty.Keys - o.loose && w.loose == {} && (forall p :: p in w.dirty ==> w.dirty[p] == o.dirty[p])
    ensures ContentOk(disk, w)
  {
  }

  lemma SaveShielded(s: State, slices: map<TxnId, set<Pgno>>)
    requires MetasOk(s.metas, s.log) && SlotsOk(s) && PublishedOk(s) && WriterOk(s) && CanSave(s, slices)
    ensures Shielded(s.metas, s.slots, |s.log| - 1, StoreRecords(s.writer.value, slices))
  {
    var o := s.writer.value;
    assert Conserved(s.log[|s.log| - 1]);
    UnseenUnion(s.metas, s.slots, Owned(o), {}, Listed(slices, 0));
    SaveShieldsMetas(s.metas, s.log, o, slices);
    SaveShieldsReaders(s, o, slices);
  }

  lemma SaveKeeps(s: State, slices: map<TxnId, set<Pgno>>)
    requires Inv(s) && CanSave(s, slices)
    ensures Inv(DoSave(s, slices))
  {
    var o := s.writer.value;
    var w := DoSave(s, slices).writer.value;
    SaveShielded(s, slices);
    assert Conserved(s.log[|s.log| - 1]);
    SaveConserves(o, slices);
    PartsApart(o);
    SaveContent(s.disk, o, w);
    UnseenUnion(s.metas, s.slots, Owned(o), {}, Owned(w));
  }

  // ---------------------------------------------------------------- committing

  lemma SyncKeeps(s: State)
    requires Inv(s) && CanSync(s)
    ensures Inv(DoSync(s))
  {
    var o := s.writer.value;
    SaveContent(s.disk, o, o.(phase := Phase.Synced));
  }

  /** Once everything is flushed, the disk holds what the transaction sees. */
  lemma ViewOnDisk(disk: map<Pgno, Content>, w: Txn)
    requires ContentOk(disk, w) && Holds(disk, w.base.image) && w.dirty.Keys !! w.view.Keys
    ensures Holds(disk, w.view)
  {
  }

  lemma WriteMetaLog(metas: seq<Snapshot>, log: seq<Snapshot>, m: Snapshot, slots: seq<Slot>)
    requires MetasOk(metas, log) && m.id == |log| && Conserved(m) && m.next >= log[|log| - 1].next
    requires Shielded(metas, slots, |log| - 1, m.free)
    ensures MetasOk(metas[m.id % 2 := m], log + [m])
  {
    var c := |log| - 1;
    var after := log + [m];
    assert (c + 2) % 2 == c % 2 && (c + 1) % 2 != c % 2;
    forall i | 0 <= i < |after| ensures after[i].id == i && Conserved(after[i]) && after[i].next <= m.next {
      if i <= c { assert after[i] == log[i]; }
    }
  }

  lemma WriteMetaSlots(s: State, m: Snapshot)
    requires SlotsOk(s) && |s.log| > 0 && Shielded(s.metas, s.slots, |s.log| - 1, m.free)
    ensures SlotsOk(s.(metas := s.metas[m.id % 2 := m], log := s.log + [m]))
  {
    var t := s.(metas := s.metas[m.id % 2 := m], log := s.log + [m]);
    forall i | 0 <= i < |s.slots| ensures SnapOk(t.disk, t.log, t.slots[i]) {
      assert SnapOk(s.disk, s.log, s.slots[i]) && s.slots[i] in s.slots;
    }
  }

  lemma WriteMetaKeeps(s: State)
    requires Inv(s) && CanWriteMeta(s)
    ensures Inv(DoWriteMeta(s))
  {
    var w := s.writer.value;
    var m := Snapshot(w.id, w.view, w.free, w.next);
    assert s.metas[(|s.log| - 1) % 2] in s.metas;
    ViewOnDisk(s.disk, w);
    WriteMetaLog(s.metas, s.log, m, s.slots);
    WriteMetaSlots(s, m);
    var t := DoWriteMeta(s);
    assert forall x :: x in t.metas ==> x in s.metas || x == m;
  }

  lemma PublishKeeps(s: State)
    requires Inv(s) && CanPublish(s)
    ensures Inv(DoPublish(s))
  {
  }

  lemma AbortKeeps(s: State)
    requires Inv(s) && CanAbort(s)
    ensures Inv(s.(writer := None))
  {
  }

  lemma WriterDiesKeeps(s: State)
    requires Inv(s) && s.writer.Some?
    ensures Inv(s.(writer := None, recover := true))
  {
  }

  lemma CrashKeeps(s: State, after: map<Pgno, Content>)
    requires Inv(s) && CanCrash(s, after)
    ensures Inv(DoCrash(s, after))
  {
  }

  lemma ReaderStepKeeps(s: State, step: Step)
    requires Inv(s) && Enabled(s, step) && ByReader(step)
    ensures Inv(Apply(s, step))
  {
    hide Inv;
    match step
    case Claim(i) => ClaimKeeps(s, i);
    case SetPid(i) => QuietSlotKeeps(s, i, DoSetPid(s, i).slots[i]);
    case Load(i) => LoadKeeps(s, i);
    case Store(i) => StoreKeeps(s, i);
    case Recheck(i) => RecheckKeeps(s, i);
    case CopyMeta(i) => CopyMetaKeeps(s, i);
    case EndRead(i) => EndReadKeeps(s, i);
    case ReleaseSlot(i) => QuietSlotKeeps(s, i, DoClearSlot(s, i).slots[i]);
    case ClearStale(i) => QuietSlotKeeps(s, i, DoClearSlot(s, i).slots[i]);
  }

  lemma LoadKeeps(s: State, i: nat)
    requires Inv(s) && CanLoad(s, i)
    ensures Inv(DoLoad(s, i))
  {
    InvSlot(s, i);
    hide Inv;
    QuietSlotKeeps(s, i, DoLoad(s, i).slots[i]);
  }

  lemma StoreKeeps(s: State, i: nat)
    requires Inv(s) && CanStore(s, i)
    ensures Inv(DoStore(s, i))
  {
    InvSlot(s, i);
    hide Inv;
    QuietSlotKeeps(s, i, DoStore(s, i).slots[i]);
  }

  lemma EndReadKeeps(s: State, i: nat)
    requires Inv(s) && CanEndRead(s, i)
    ensures Inv(DoEndRead(s, i))
  {
    InvSlot(s, i);
    hide Inv;
    QuietSlotKeeps(s, i, DoEndRead(s, i).slots[i]);
  }

  lemma InvSlot(s: State, i: nat)
    requires Inv(s) && i < |s.slots|
    ensures SlotOk(s.slots[i])
  {
  }

  lemma AllocatorStepKeeps(s: State, step: Step)
    requires Inv(s) && Enabled(s, step) && ByAllocator(step)
    ensures Inv(Apply(s, step))
  {
    hide Inv;
    match step
    case Fetch(k) => FetchKeeps(s, k);
    case NewPages(lo, n, src, c) => NewPagesKeeps(s, lo, n, src, c);
    case Touch(p, q, src) => TouchKeeps(s, p, q, src);
    case Write(p, c) => WriteKeeps(s, p, c);
    case Loosen(p) => LoosenKeeps(s, p);
    case FreePage(p) => FreePageKeeps(s, p);
    case ReturnRun(lo, n) => ReturnRunKeeps(s, lo, n);
    case Unspill(p) => UnspillKeeps(s, p);
    case LooseToFreed => LooseToFreedKeeps(s);
  }

  /** Every step of every thread keeps the invariant. */
  lemma StepKeeps(s: State, step: Step)
    requires Inv(s) && Enabled(s, step)
    ensures Inv(Apply(s, step))
  {
    hide Inv;
    if ByReader(step) {
      ReaderStepKeeps(s, step);
    } else if ByAllocator(step) {
      AllocatorStepKeeps(s, step);
    } else {
      match step
      case Begin(env) => BeginKeeps(s, env);
      case ScanStart => ScanStartKeeps(s);
      case ScanPid => ScanPidKeeps(s);
      case ScanTxnid => ScanTxnidKeeps(s);
      case ScanDone => ScanDoneKeeps(s);
      case Spill(p) => FlushKeeps(s, p);
      case SaveFreelist(slices) => SaveKeeps(s, slices);
      case Flush(p) => FlushKeeps(s, p);
      case Sync => SyncKeeps(s);
      case WriteMeta => WriteMetaKeeps(s);
      case Publish => PublishKeeps(s);
      case Abort => AbortKeeps(s);
      case WriterDies => WriterDiesKeeps(s);
      case Crash(after) => CrashKeeps(s, after);
    }
  }
}
