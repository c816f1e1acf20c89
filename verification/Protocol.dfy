/**
  Snapshot isolation, page reclamation and crash recovery, as one state machine.

  The machine interleaves, one shared-memory access at a time:
  - reader threads publishing a transaction id in the reader table
    (write, then re-check the global id), copying a meta page and ending;
  - one writer at a time (the writer mutex), which scans the reader table
    slot by slot, reclaims pages from the freeDB, dirties, spills, loosens
    and frees pages, saves the freelist, flushes, syncs and writes a meta page;
  - the death of a writer, and the crash of the whole machine.
 */
module Protocol {
  import opened Wrappers

  type Pgno = nat
  type TxnId = nat
  type Content = seq<int>

  /** What one meta page names: the pages of both core trees with their contents,
      the freeDB as a map from transaction ids to page numbers, and the first
      page number never used (mm_last_pg + 1). */
  datatype Snapshot = Snapshot(id: TxnId, image: map<Pgno, Content>, free: map<TxnId, set<Pgno>>, next: Pgno)

  /** Where the thread that owns (or wants) a reader slot stands. */
  datatype Reader =
    | Unowned
    | Claiming                               // slot reset, process id not yet stored
    | Ready                                  // slot owned, no transaction
    | Loaded(v: TxnId)                       // mti_txnid read into a register
    | Stored(v: TxnId)                       // ... and written to the slot
    | Acquired(v: TxnId)                     // ... and found unchanged on re-check
    | Reading(v: TxnId, snap: Snapshot)      // meta page copied, transaction running

  /** One entry of the reader table; a txnid of None stands for (txnid_t)-1. */
  datatype Slot = Slot(pid: bool, txnid: Option<TxnId>, reader: Reader) {
    predicate Live() { reader.Acquired? || reader.Reading? }
  }

  /** Progress of mdb_find_oldest: slots >= upto are done. */
  datatype Scan = NoScan | Scanning(upto: nat, sawPid: bool, oldest: TxnId)

  datatype Phase = Working | Saved | Synced | MetaWritten

  /** The single write transaction. */
  datatype Txn = Txn(
    env: nat,                      // which process runs it
    id: TxnId,
    base: Snapshot,                // the snapshot it started from
    phase: Phase,
    scan: Scan,
    view: map<Pgno, Content>,      // pages of its trees, as the transaction sees them
    dirty: map<Pgno, Content>,     // mt_u.dirty_list
    spilled: set<Pgno>,            // mt_spill_pgs, and pages already flushed
    freed: set<Pgno>,              // mt_free_pgs
    loose: set<Pgno>,              // mt_loose_pgs
    head: set<Pgno>,               // me_pghead
    pglast: TxnId,                 // me_pglast
    free: map<TxnId, set<Pgno>>,   // its freeDB
    next: Pgno)                    // mt_next_pgno

  datatype State = State(
    disk: map<Pgno, Content>,      // the data file as the memory map shows it
    unsynced: set<Pgno>,           // pages written since the last sync
    metas: seq<Snapshot>,
    mti: TxnId,                    // mti_txnid
    recover: bool,                 // the writer mutex's last owner died
    slots: seq<Slot>,
    numreaders: nat,
    pgoldest: seq<TxnId>,          // me_pgoldest of every process
    writer: Option<Txn>,
    log: seq<Snapshot>)            // every snapshot ever committed

  /** Where mdb_page_alloc takes page numbers from. */
  datatype Source = FromHead | FromLoose | FromMap

  datatype Step =
    // reader threads
    | Claim(i: nat) | SetPid(i: nat) | Load(i: nat) | Store(i: nat) | Recheck(i: nat)
    | CopyMeta(i: nat) | EndRead(i: nat) | ReleaseSlot(i: nat) | ClearStale(i: nat)
    // the writer
    | Begin(env: nat)
    | ScanStart | ScanPid | ScanTxnid | ScanDone
    | Fetch(k: TxnId)
    | NewPages(lo: Pgno, n: nat, src: Source, c: Content)
    | Touch(p: Pgno, q: Pgno, src: Source)
    | Write(p: Pgno, c: Content)
    | Loosen(p: Pgno) | FreePage(p: Pgno) | ReturnRun(lo: Pgno, n: nat)
    | Spill(p: Pgno) | Unspill(p: Pgno)
    | LooseToFreed | SaveFreelist(slices: map<TxnId, set<Pgno>>)
    | Flush(p: Pgno) | Sync | WriteMeta | Publish
    | Abort | WriterDies
    // the machine
    | Crash(after: map<Pgno, Content>)

  // ---------------------------------------------------------------- helpers

  /** The pages {lo, ..., lo+n-1}. */
  function Range(lo: Pgno, n: nat): (r: set<Pgno>)
    ensures forall p :: p in r <==> lo <= p < lo + n
    ensures |r| == n
  {
    if n == 0 then {} else Range(lo, n - 1) + {lo + n - 1}
  }

  /** All pages listed in freeDB records with key > after. */
  function Listed(free: map<TxnId, set<Pgno>>, after: int): set<Pgno> {
    set k, p | k in free && k > after && p in free[k] :: p
  }

  predicate RecordsDisjoint(free: map<TxnId, set<Pgno>>) {
    forall j, k :: j in free && k in free && j != k ==> free[j] !! free[k]
  }

  /** mdb_env_pick_meta: the newer of the two meta pages. */
  function PickMeta(metas: seq<Snapshot>): Snapshot
    requires |metas| == 2
  {
    if metas[0].id < metas[1].id then metas[1] else metas[0]
  }

  /** The file holds exactly this image. */
  predicate Holds(disk: map<Pgno, Content>, image: map<Pgno, Content>) {
    forall p :: p in image ==> p in disk && disk[p] == image[p]
  }

  /** Can page numbers P be taken from src now? */
  predicate CanTake(w: Txn, P: set<Pgno>, src: Source) {
    match src
    case FromHead => P <= w.head
    case FromLoose => P <= w.loose && |P| == 1
    case FromMap => P == Range(w.next, |P|)
  }

  function Take(w: Txn, P: set<Pgno>, src: Source): Txn {
    match src
    case FromHead => w.(head := w.head - P)
    case FromLoose => w.(loose := w.loose - P)
    case FromMap => w.(next := w.next + |P|)
  }

  // ---------------------------------------------------------------- the steps

  predicate SlotIs(s: State, i: nat) { i < |s.slots| }

  predicate WriterIn(s: State, ph: Phase) { s.writer.Some? && s.writer.value.phase == ph }

  /** A working writer that is not in the middle of a reader-table scan. */
  predicate AtWork(s: State) { WriterIn(s, Phase.Working) && s.writer.value.scan.NoScan? }

  predicate Scans(s: State) { WriterIn(s, Phase.Working) && s.writer.value.scan.Scanning? }

  function SetSlot(s: State, i: nat, slot: Slot): State
    requires i < |s.slots|
  {
    s.(slots := s.slots[i := slot])
  }

  function SetTxn(s: State, w: Txn): State { s.(writer := Some(w)) }

  // mdb_txn_renew0, read-only branch: claim a slot, publish, re-check, copy the meta page

  predicate CanClaim(s: State, i: nat) { SlotIs(s, i) && i <= s.numreaders && s.slots[i].reader.Unowned? }

  function DoClaim(s: State, i: nat): State
    requires CanClaim(s, i)
  {
    SetSlot(s, i, Slot(false, None, Claiming)).(numreaders := if i == s.numreaders then i + 1 else s.numreaders)
  }

  predicate CanSetPid(s: State, i: nat) { SlotIs(s, i) && s.slots[i].reader.Claiming? }

  function DoSetPid(s: State, i: nat): State
    requires CanSetPid(s, i)
  {
    SetSlot(s, i, s.slots[i].(pid := true, reader := Ready))
  }

  predicate CanLoad(s: State, i: nat) { SlotIs(s, i) && s.slots[i].reader.Ready? }

  function DoLoad(s: State, i: nat): State
    requires CanLoad(s, i)
  {
    SetSlot(s, i, s.slots[i].(reader := Loaded(s.mti)))
  }

  predicate CanStore(s: State, i: nat) { SlotIs(s, i) && s.slots[i].reader.Loaded? }

  function DoStore(s: State, i: nat): State
    requires CanStore(s, i)
  {
    SetSlot(s, i, s.slots[i].(txnid := Some(s.slots[i].reader.v), reader := Stored(s.slots[i].reader.v)))
  }

  predicate CanRecheck(s: State, i: nat) { SlotIs(s, i) && s.slots[i].reader.Stored? }

  function DoRecheck(s: State, i: nat): State
    requires CanRecheck(s, i)
  {
    var v := s.slots[i].reader.v;
    SetSlot(s, i, s.slots[i].(reader := if v == s.mti then Acquired(v) else Ready))
  }

  predicate CanCopyMeta(s: State, i: nat) { |s.metas| == 2 && SlotIs(s, i) && s.slots[i].reader.Acquired? }

  function DoCopyMeta(s: State, i: nat): State
    requires CanCopyMeta(s, i)
  {
    var v := s.slots[i].reader.v;
    SetSlot(s, i, s.slots[i].(reader := Reading(v, s.metas[v % 2])))
  }

  // mdb_txn_end, read-only branch; mdb_reader_check0 for a process that is gone

  predicate CanEndRead(s: State, i: nat) { SlotIs(s, i) && s.slots[i].Live() }

  function DoEndRead(s: State, i: nat): State
    requires CanEndRead(s, i)
  {
    SetSlot(s, i, s.slots[i].(txnid := None, reader := Ready))
  }

  predicate CanReleaseSlot(s: State, i: nat) { SlotIs(s, i) && s.slots[i].reader.Ready? }

  predicate CanClearStale(s: State, i: nat) { SlotIs(s, i) }

  function DoClearSlot(s: State, i: nat): State
    requires SlotIs(s, i)
  {
    SetSlot(s, i, s.slots[i].(pid := false, reader := Unowned))
  }

  // mdb_txn_renew0, write branch; mdb_mutex_failed first if the last owner died

  predicate CanBegin(s: State, env: nat) { |s.metas| == 2 && s.writer.None? && env < |s.pgoldest| }

  function DoBegin(s: State, env: nat): State
    requires CanBegin(s, env)
  {
    var mti := if s.recover then PickMeta(s.metas).id else s.mti;
    var m := s.metas[mti % 2];
    s.(mti := mti, recover := false,
       writer := Some(Txn(env, mti + 1, m, Phase.Working, NoScan, m.image, map[], {}, {}, {}, {}, 0, m.free, m.next)))
  }

  // mdb_find_oldest

  function DoScanStart(s: State): State
    requires AtWork(s)
  {
    var w := s.writer.value;
    SetTxn(s, w.(scan := Scanning(s.numreaders, false, if w.id > 0 then w.id - 1 else 0)))
  }

  predicate CanScan(s: State, sawPid: bool) {
    Scans(s) && 0 < s.writer.value.scan.upto <= |s.slots| && s.writer.value.scan.sawPid == sawPid
  }

  function DoScanPid(s: State): State
    requires CanScan(s, false)
  {
    var w := s.writer.value;
    var i := w.scan.upto - 1;
    SetTxn(s, w.(scan := if s.slots[i].pid then w.scan.(sawPid := true) else w.scan.(upto := i)))
  }

  function DoScanTxnid(s: State): State
    requires CanScan(s, true)
  {
    var w := s.writer.value;
    var i := w.scan.upto - 1;
    var mr := s.slots[i].txnid;
    var oldest := if mr.Some? && w.scan.oldest > mr.value then mr.value else w.scan.oldest;
    SetTxn(s, w.(scan := Scanning(i, false, oldest)))
  }

  predicate CanScanDone(s: State) {
    Scans(s) && s.writer.value.scan.upto == 0 && s.writer.value.env < |s.pgoldest|
  }

  function DoScanDone(s: State): State
    requires CanScanDone(s)
  {
    var w := s.writer.value;
    SetTxn(s, w.(scan := NoScan)).(pgoldest := s.pgoldest[w.env := w.scan.oldest])
  }

  // mdb_page_alloc: merge in the first record after me_pglast, if it is old enough

  predicate CanFetch(s: State, k: TxnId) {
    && AtWork(s)
    && var w := s.writer.value;
    && k in w.free && w.pglast < k
    && (forall j :: j in w.free && w.pglast < j ==> k <= j)
    && w.env < |s.pgoldest| && k < s.pgoldest[w.env]
  }

  function DoFetch(s: State, k: TxnId): State
    requires CanFetch(s, k)
  {
    var w := s.writer.value;
    SetTxn(s, w.(head := w.head + w.free[k], pglast := k))
  }

  predicate CanNewPages(s: State, lo: Pgno, n: nat, src: Source) {
    AtWork(s) && n > 0 && CanTake(s.writer.value, Range(lo, n), src)
  }

  function DoNewPages(s: State, lo: Pgno, n: nat, src: Source, c: Content): State
    requires CanNewPages(s, lo, n, src)
  {
    var w := Take(s.writer.value, Range(lo, n), src);
    var added := map p | p in Range(lo, n) :: c;
    SetTxn(s, w.(view := w.view + added, dirty := w.dirty + added))
  }

  // mdb_page_touch on a page that is neither dirty nor spilled

  predicate CanTouch(s: State, p: Pgno, q: Pgno, src: Source) {
    && AtWork(s)
    && var w := s.writer.value;
    && p in w.view && p !in w.dirty && p !in w.spilled && CanTake(w, {q}, src)
  }

  function DoTouch(s: State, p: Pgno, q: Pgno, src: Source): State
    requires CanTouch(s, p, q, src)
  {
    var w := Take(s.writer.value, {q}, src);
    SetTxn(s, w.(view := (w.view - {p})[q := w.view[p]], dirty := w.dirty[q := w.view[p]], freed := w.freed + {p}))
  }

  predicate CanWrite(s: State, p: Pgno) {
    AtWork(s) && p in s.writer.value.view && p in s.writer.value.dirty
  }

  function DoWrite(s: State, p: Pgno, c: Content): State
    requires CanWrite(s, p)
  {
    var w := s.writer.value;
    SetTxn(s, w.(view := w.view[p := c], dirty := w.dirty[p := c]))
  }

  // mdb_page_loose, mdb_midl_append(&mt_free_pgs, ...), mdb_ovpage_free

  function DoLoosen(s: State, p: Pgno): State
    requires CanWrite(s, p)
  {
    var w := s.writer.value;
    SetTxn(s, w.(view := w.view - {p}, loose := w.loose + {p}))
  }

  predicate CanFreePage(s: State, p: Pgno) { AtWork(s) && p in s.writer.value.view }

  function DoFreePage(s: State, p: Pgno): State
    requires CanFreePage(s, p)
  {
    var w := s.writer.value;
    SetTxn(s, w.(view := w.view - {p}, freed := w.freed + {p}))
  }

  /** me_pghead must exist, and the pages must be this transaction's own. */
  predicate CanReturnRun(s: State, lo: Pgno, n: nat) {
    && AtWork(s)
    && var w := s.writer.value;
    && w.pglast > 0 && Range(lo, n) <= w.view.Keys && Range(lo, n) <= w.dirty.Keys + w.spilled
  }

  function DoReturnRun(s: State, lo: Pgno, n: nat): State
    requires CanReturnRun(s, lo, n)
  {
    var w := s.writer.value;
    var P := Range(lo, n);
    SetTxn(s, w.(view := w.view - P, dirty := w.dirty - P, spilled := w.spilled - P, head := w.head + P))
  }

  // mdb_page_spill, mdb_page_unspill, mdb_page_flush

  predicate CanSpill(s: State, p: Pgno) {
    AtWork(s) && p in s.writer.value.dirty && p !in s.writer.value.loose
  }

  predicate CanFlush(s: State, p: Pgno) { WriterIn(s, Phase.Saved) && p in s.writer.value.dirty }

  function DoFlush(s: State, p: Pgno): State
    requires s.writer.Some? && p in s.writer.value.dirty
  {
    var w := s.writer.value;
    SetTxn(s, w.(dirty := w.dirty - {p}, spilled := w.spilled + {p}))
      .(disk := s.disk[p := w.dirty[p]], unsynced := s.unsynced + {p})
  }

  predicate CanUnspill(s: State, p: Pgno) {
    && AtWork(s)
    && p in s.writer.value.view && p in s.writer.value.spilled && p in s.disk
  }

  function DoUnspill(s: State, p: Pgno): State
    requires CanUnspill(s, p)
  {
    var w := s.writer.value;
    SetTxn(s, w.(dirty := w.dirty[p := s.disk[p]], spilled := w.spilled - {p}))
  }

  // mdb_freelist_save

  predicate CanLooseToFreed(s: State) { AtWork(s) && s.writer.value.pglast == 0 }

  function DoLooseToFreed(s: State): State
    requires CanLooseToFreed(s)
  {
    var w := s.writer.value;
    SetTxn(s, w.(freed := w.freed + w.loose, dirty := w.dirty - w.loose, loose := {}))
  }

  /** me_pghead and the loose pages, cut into records with keys in [1, me_pglast]. */
  predicate CanSave(s: State, slices: map<TxnId, set<Pgno>>) {
    && AtWork(s)
    && var w := s.writer.value;
    && (forall k :: k in slices ==> 1 <= k <= w.pglast)
    && RecordsDisjoint(slices)
    && Listed(slices, 0) == w.head + w.loose
  }

  function StoreRecords(w: Txn, slices: map<TxnId, set<Pgno>>): map<TxnId, set<Pgno>> {
    var kept := map k | k in w.free && k > w.pglast :: w.free[k];
    var saved := kept + slices;
    if w.freed == {} then saved else saved[w.id := w.freed]
  }

  function DoSave(s: State, slices: map<TxnId, set<Pgno>>): State
    requires CanSave(s, slices)
  {
    var w := s.writer.value;
    SetTxn(s, w.(phase := Phase.Saved, free := StoreRecords(w, slices), dirty := w.dirty - w.loose, loose := {}, head := {}))
  }

  // mdb_env_sync0, mdb_env_write_meta, the end of mdb_txn_commit

  predicate CanSync(s: State) {
    WriterIn(s, Phase.Saved) && s.writer.value.dirty.Keys !! s.writer.value.view.Keys
  }

  function DoSync(s: State): State
    requires CanSync(s)
  {
    SetTxn(s, s.writer.value.(phase := Phase.Synced)).(unsynced := {})
  }

  predicate CanWriteMeta(s: State) { |s.metas| == 2 && WriterIn(s, Phase.Synced) }

  function DoWriteMeta(s: State): State
    requires CanWriteMeta(s)
  {
    var w := s.writer.value;
    var m := Snapshot(w.id, w.view, w.free, w.next);
    SetTxn(s, w.(phase := Phase.MetaWritten)).(metas := s.metas[w.id % 2 := m], log := s.log + [m])
  }

  predicate CanPublish(s: State) { WriterIn(s, Phase.MetaWritten) }

  function DoPublish(s: State): State
    requires CanPublish(s)
  {
    s.(mti := s.writer.value.id, writer := None)
  }

  predicate CanAbort(s: State) { s.writer.Some? && !WriterIn(s, Phase.MetaWritten) }

  predicate CanCrash(s: State, after: map<Pgno, Content>) {
    |s.metas| == 2 && forall p :: p in s.disk && p !in s.unsynced ==> p in after && after[p] == s.disk[p]
  }

  /** Unsynced pages hold anything afterwards; the lock file is rebuilt on reopening. */
  function DoCrash(s: State, after: map<Pgno, Content>): State
    requires CanCrash(s, after)
  {
    s.(disk := after, unsynced := {}, mti := PickMeta(s.metas).id, recover := false, numreaders := 0,
       slots := seq(|s.slots|, _ => Slot(false, None, Unowned)),
       pgoldest := seq(|s.pgoldest|, _ => 0), writer := None)
  }

  predicate ByReader(step: Step) {
    step.Claim? || step.SetPid? || step.Load? || step.Store? || step.Recheck?
    || step.CopyMeta? || step.EndRead? || step.ReleaseSlot? || step.ClearStale?
  }

  predicate ReaderCan(s: State, step: Step) {
    match step
    case Claim(i) => CanClaim(s, i)
    case SetPid(i) => CanSetPid(s, i)
    case Load(i) => CanLoad(s, i)
    case Store(i) => CanStore(s, i)
    case Recheck(i) => CanRecheck(s, i)
    case CopyMeta(i) => CanCopyMeta(s, i)
    case EndRead(i) => CanEndRead(s, i)
    case ReleaseSlot(i) => CanReleaseSlot(s, i)
    case ClearStale(i) => CanClearStale(s, i)
    case _ => false
  }

  function ReaderDoes(s: State, step: Step): State
    requires ReaderCan(s, step)
  {
    match step
    case Claim(i) => DoClaim(s, i)
    case SetPid(i) => DoSetPid(s, i)
    case Load(i) => DoLoad(s, i)
    case Store(i) => DoStore(s, i)
    case Recheck(i) => DoRecheck(s, i)
    case CopyMeta(i) => DoCopyMeta(s, i)
    case EndRead(i) => DoEndRead(s, i)
    case ReleaseSlot(i) => DoClearSlot(s, i)
    case ClearStale(i) => DoClearSlot(s, i)
  }

  predicate ByAllocator(step: Step) {
    step.Fetch? || step.NewPages? || step.Touch? || step.Write? || step.Loosen?
    || step.FreePage? || step.ReturnRun? || step.Unspill? || step.LooseToFreed?
  }

  predicate AllocatorCan(s: State, step: Step) {
    match step
    case Fetch(k) => CanFetch(s, k)
    case NewPages(lo, n, src, c) => CanNewPages(s, lo, n, src)
    case Touch(p, q, src) => CanTouch(s, p, q, src)
    case Write(p, c) => CanWrite(s, p)
    case Loosen(p) => CanWrite(s, p)
    case FreePage(p) => CanFreePage(s, p)
    case ReturnRun(lo, n) => CanReturnRun(s, lo, n)
    case Unspill(p) => CanUnspill(s, p)
    case LooseToFreed => CanLooseToFreed(s)
    case _ => false
  }

  function AllocatorDoes(s: State, step: Step): State
    requires AllocatorCan(s, step)
  {
    match step
    case Fetch(k) => DoFetch(s, k)
    case NewPages(lo, n, src, c) => DoNewPages(s, lo, n, src, c)
    case Touch(p, q, src) => DoTouch(s, p, q, src)
    case Write(p, c) => DoWrite(s, p, c)
    case Loosen(p) => DoLoosen(s, p)
    case FreePage(p) => DoFreePage(s, p)
    case ReturnRun(lo, n) => DoReturnRun(s, lo, n)
    case Unspill(p) => DoUnspill(s, p)
    case LooseToFreed => DoLooseToFreed(s)
  }

  predicate OtherCan(s: State, step: Step) {
    match step
    case Begin(env) => CanBegin(s, env)
    case ScanStart => AtWork(s)
    case ScanPid => CanScan(s, false)
    case ScanTxnid => CanScan(s, true)
    case ScanDone => CanScanDone(s)
    case Spill(p) => CanSpill(s, p)
    case SaveFreelist(slices) => CanSave(s, slices)
    case Flush(p) => CanFlush(s, p)
    case Sync => CanSync(s)
    case WriteMeta => CanWriteMeta(s)
    case Publish => CanPublish(s)
    case Abort => CanAbort(s)
    case WriterDies => s.writer.Some?
    case Crash(after) => CanCrash(s, after)
    case _ => false
  }

  function OtherDoes(s: State, step: Step): State
    requires OtherCan(s, step)
  {
    match step
    case Begin(env) => DoBegin(s, env)
    case ScanStart => DoScanStart(s)
    case ScanPid => DoScanPid(s)
    case ScanTxnid => DoScanTxnid(s)
    case ScanDone => DoScanDone(s)
    case Spill(p) => DoFlush(s, p)
    case SaveFreelist(slices) => DoSave(s, slices)
    case Flush(p) => DoFlush(s, p)
    case Sync => DoSync(s)
    case WriteMeta => DoWriteMeta(s)
    case Publish => DoPublish(s)
    case Abort => s.(writer := None)
    case WriterDies => s.(writer := None, recover := true)
    case Crash(after) => DoCrash(s, after)
  }

  predicate Enabled(s: State, step: Step) {
    if ByReader(step) then ReaderCan(s, step)
    else if ByAllocator(step) then AllocatorCan(s, step)
    else OtherCan(s, step)
  }

  function Apply(s: State, step: Step): State
    requires Enabled(s, step)
  {
    if ByReader(step) then ReaderDoes(s, step)
    else if ByAllocator(step) then AllocatorDoes(s, step)
    else OtherDoes(s, step)
  }

  /** A freshly created environment: both meta pages name the empty database. */
  predicate Init(s: State) {
    var empty := Snapshot(0, map[], map[], 2);
    && s.unsynced == {} && s.metas == [empty, empty] && s.mti == 0 && !s.recover
    && s.numreaders == 0 && (forall i :: 0 <= i < |s.slots| ==> s.slots[i] == Slot(false, None, Unowned))
    && (forall e :: 0 <= e < |s.pgoldest| ==> s.pgoldest[e] == 0)
    && s.writer.None? && s.log == [empty]
  }
}
