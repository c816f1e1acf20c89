/** Whole databases, and whole runs of puts and deletes, against the plain map. */
module BTreeTheorems {
  import opened Wrappers
  import opened SplitPoint
  import opened BTree
  import opened Refusal
  import opened BTreeShape
  import opened SortedMap
  import opened BTreeOrder
  import opened BTreeRefines
  import opened BTreeDelete

  function DbEnts(db: Db): seq<Entry> { if db.None? then [] else Ents(db.value) }

  ghost predicate DbOrdered(db: Db) { db.Some? ==> Ordered(db.value, None, None) }

  function DbGet(db: Db, k: real): Option<Val> { if db.None? then None else Get(db.value, k) }

  lemma RootOfHolds(u: Outcome, es: seq<Entry>)
    requires Holds(u, es, None, None) && !u.Full?
    ensures RootOf(u).Ok? && DbOrdered(RootOf(u).db) && DbEnts(RootOf(u).db) == es
  {
    match u
    case One(t) => KidEntsOne(Kid(NOKEY, t));
    case Two(l, sep, r) =>
  }

  /** Put is the map update, whatever splits it causes. */
  lemma PutRefines(psize: nat, db: Db, key: Key, val: Val, reuse: bool)
    requires PageSize(psize) && DbOrdered(db)
    ensures var r := Put(psize, db, key, val, reuse);
      r.Ok? ==> DbOrdered(r.db) && DbEnts(r.db) == PutSeq(DbEnts(db), key.rank, val)
  {
    match db
    case None =>
      var n := MakeNode(psize, key, val);
      assert LeafEnts([n]) == [(key.rank, val)];
    case Some(t) =>
      PutAtHolds(psize, t, key, val, reuse, None, None);
      var u := PutAt(psize, t, key, val, reuse);
      if !u.Full? { RootOfHolds(u, PutSeq(Ents(t), key.rank, val)); }
  }

  lemma RebalanceRootHolds(psize: nat, t: Tree, es: seq<Entry>)
    requires PageSize(psize) && Ordered(t, None, None) && Ents(t) == es
    ensures DbOrdered(RebalanceRoot(psize, t)) && DbEnts(RebalanceRoot(psize, t)) == es
  {
    if t.Branch? && |t.kids| == 1 {
      assert t.kids == [t.kids[0]];
      KidEntsOne(t.kids[0]);
    }
  }

  /** Delete is the map removal, and reports MDB_NOTFOUND exactly for absent keys. */
  lemma DelRefines(psize: nat, db: Db, k: real)
    requires PageSize(psize) && DbOk(psize, db) && DbOrdered(db)
    ensures var r := Del(psize, db, k);
      && (r.NotFound? <==> GetSeq(DbEnts(db), k).None?)
      && (r.Deleted? && r.r.Ok? ==> DbOrdered(r.r.db) && DbEnts(r.r.db) == DelSeq(DbEnts(db), k))
  {
    if db.Some? {
      var t := db.value;
      var d :| Shape(psize, t, d);
      DelAtHolds(psize, t, k, d, None, None);
      match DelAt(psize, t, k)
      case Missing =>
      case Shrunk(One(t'), true) =>
        OneHolds(t', None, None);
        KidEntsOne(Kid(NOKEY, t'));
        RebalanceRootHolds(psize, t', DelSeq(Ents(t), k));
      case Shrunk(u, _) => if !u.Full? { RootOfHolds(u, DelSeq(Ents(t), k)); }
    }
  }

  lemma {:induction false} DelAbsent(es: seq<Entry>, k: real)
    requires GetSeq(es, k).None?
    ensures DelSeq(es, k) == es
  {
    if es != [] { DelAbsent(es[1..], k); }
  }

  // ---------------------------------------------------------------- runs

  datatype Op = PutOp(key: Key, val: Val, reuse: bool) | DelOp(k: real)

  /** One operation; None once a page split has failed with MDB_PAGE_FULL. */
  function StepDb(psize: nat, db: Db, op: Op): Option<Db>
    requires PageSize(psize)
  {
    match op
    case PutOp(key, val, reuse) =>
      var r := Put(psize, db, key, val, reuse);
      if r.Ok? then Some(r.db) else None
    case DelOp(k) =>
      match Del(psize, db, k)
      case NotFound => Some(db)
      case Deleted(r) => if r.Ok? then Some(r.db) else None
  }

  /** Running the operations on an initially empty database. */
  function RunDb(psize: nat, ops: seq<Op>): Option<Db>
    requires PageSize(psize)
  {
    if ops == [] then Some(None) else
      var before := RunDb(psize, ops[..|ops| - 1]);
      if before.None? then None else StepDb(psize, before.value, ops[|ops| - 1])
  }

  /** The operation meets a page that takes the new node neither as it is nor by a split. */
  predicate Refuses(psize: nat, db: Db, op: Op)
    requires PageSize(psize)
  {
    db.Some? && match op
      case PutOp(key, val, reuse) => PutStuck(psize, db.value, key, val, reuse)
      case DelOp(k) => DelStuck(psize, db.value, k)
  }

  /** The run goes well up to operation n and is refused there. */
  predicate RefusedAt(psize: nat, ops: seq<Op>, n: nat)
    requires PageSize(psize)
  {
    n < |ops| && RunDb(psize, ops[..n]).Some? && Refuses(psize, RunDb(psize, ops[..n]).value, ops[n])
  }

  /** The same operations on a plain map. */
  function Plain(ops: seq<Op>): map<real, Val> {
    if ops == [] then map[] else
      var m := Plain(ops[..|ops| - 1]);
      match ops[|ops| - 1]
      case PutOp(key, val, _) => m[key.rank := val]
      case DelOp(k) => m - {k}
  }

  ghost predicate Refines(psize: nat, db: Db, m: map<real, Val>)
    requires PageSize(psize)
  {
    DbOk(psize, db) && DbOrdered(db) && Dict(DbEnts(db)) == m
  }

  lemma DbSorted(db: Db)
    requires DbOrdered(db)
    ensures Sorted(DbEnts(db))
  {
    if db.Some? { OrderedEnts(db.value, None, None); }
  }

  lemma PutStep(psize: nat, db: Db, m: map<real, Val>, key: Key, val: Val, reuse: bool)
    requires PageSize(psize) && Refines(psize, db, m) && key.size <= MAXKEY
    ensures var r := Put(psize, db, key, val, reuse); r.Ok? ==> Refines(psize, r.db, m[key.rank := val])
  {
    DbSorted(db);
    PutKeepsShape(psize, db, key, val, reuse);
    PutRefines(psize, db, key, val, reuse);
    PutIsUpdate(DbEnts(db), key.rank, val);
  }

  lemma DelStep(psize: nat, db: Db, m: map<real, Val>, k: real)
    requires PageSize(psize) && Refines(psize, db, m)
    ensures var r := StepDb(psize, db, DelOp(k)); r.Some? ==> Refines(psize, r.value, m - {k})
    ensures Del(psize, db, k).NotFound? <==> k !in m
  {
    DbSorted(db);
    DelKeepsShape(psize, db, k);
    DelRefines(psize, db, k);
    DelIsRemove(DbEnts(db), k);
    GetIsLookup(DbEnts(db), k);
    if Del(psize, db, k).NotFound? { DelAbsent(DbEnts(db), k); }
  }

  predicate KeysOk(ops: seq<Op>) { forall op :: op in ops && op.PutOp? ==> op.key.size <= MAXKEY }

  lemma StepExact(psize: nat, db: Db, op: Op)
    requires PageSize(psize) && DbOk(psize, db) && KeysOk([op])
    ensures StepDb(psize, db, op).None? <==> Refuses(psize, db, op)
  {
    assert op in [op];
    match op
    case PutOp(key, val, reuse) => PutKeepsShape(psize, db, key, val, reuse);
    case DelOp(k) => DelKeepsShape(psize, db, k);
  }

  lemma {:induction false} RefusedStays(psize: nat, ops: seq<Op>, n: nat)
    requires PageSize(psize) && n <= |ops| && RunDb(psize, ops[..n]).None?
    ensures RunDb(psize, ops).None?
  {
    if n < |ops| {
      assert ops[..|ops| - 1][..n] == ops[..n];
      RefusedStays(psize, ops[..|ops| - 1], n);
    } else {
      assert ops[..n] == ops;
    }
  }

  lemma RefusedHere(psize: nat, ops: seq<Op>, n: nat)
    requires PageSize(psize) && RefusedAt(psize, ops, n) && KeysOk(ops)
    requires DbOk(psize, RunDb(psize, ops[..n]).value)
    ensures RunDb(psize, ops).None?
  {
    assert ops[..n + 1][..n] == ops[..n];
    StepExact(psize, RunDb(psize, ops[..n]).value, ops[n]);
    RefusedStays(psize, ops, n + 1);
  }

  lemma RunStep(psize: nat, ops: seq<Op>)
    requires PageSize(psize) && KeysOk(ops) && ops != [] && RunDb(psize, ops).Some?
    requires var front := ops[..|ops| - 1]; Refines(psize, RunDb(psize, front).value, Plain(front))
    ensures Refines(psize, RunDb(psize, ops).value, Plain(ops))
  {
    var n := |ops| - 1;
    var db := RunDb(psize, ops[..n]).value;
    match ops[n]
    case PutOp(key, val, reuse) => PutStep(psize, db, Plain(ops[..n]), key, val, reuse);
    case DelOp(k) => DelStep(psize, db, Plain(ops[..n]), k);
  }

  /** The first part of the run, or else its last operation, was refused. */
  lemma RunBreaks(psize: nat, ops: seq<Op>)
    requires PageSize(psize) && KeysOk(ops) && ops != [] && RunDb(psize, ops).None?
    requires var front := ops[..|ops| - 1];
      && (RunDb(psize, front).Some? ==> DbOk(psize, RunDb(psize, front).value))
      && (RunDb(psize, front).None? ==> exists n: nat :: RefusedAt(psize, front, n))
    ensures exists n: nat :: RefusedAt(psize, ops, n)
  {
    hide StepDb, Refuses, DbOk;
    var last := |ops| - 1;
    var front := ops[..last];
    if RunDb(psize, front).None? {
      var n: nat :| RefusedAt(psize, front, n);
      assert front[..n] == ops[..n];
      assert RefusedAt(psize, ops, n);
    } else {
      StepExact(psize, RunDb(psize, front).value, ops[last]);
      assert RefusedAt(psize, ops, last);
    }
  }

  /** Map refinement over every run of puts and deletes: a run breaks off exactly at an operation
      that a split refuses; otherwise the tree has uniform depth and correct separators and holds
      exactly the plain map. */
  lemma {:induction false} RunRefines(psize: nat, ops: seq<Op>)
    requires PageSize(psize) && KeysOk(ops)
    ensures RunDb(psize, ops).Some? ==> Refines(psize, RunDb(psize, ops).value, Plain(ops))
    ensures RunDb(psize, ops).None? <==> exists n: nat :: RefusedAt(psize, ops, n)
    decreases |ops|
  {
    hide Refuses, StepDb;
    if ops != [] {
      RunRefines(psize, ops[..|ops| - 1]);
      if RunDb(psize, ops).Some? { RunStep(psize, ops); } else { RunBreaks(psize, ops); }
    }
    forall n: nat | RefusedAt(psize, ops, n) ensures RunDb(psize, ops).None? {
      RunRefines(psize, ops[..n]);
      RefusedHere(psize, ops, n);
    }
  }

  /** After every run, mdb_get answers as the plain map, and mdb_del finds exactly its keys. */
  lemma RunAnswers(psize: nat, ops: seq<Op>, k: real)
    requires PageSize(psize) && KeysOk(ops)
    requires RunDb(psize, ops).Some?
    ensures var db, m := RunDb(psize, ops).value, Plain(ops);
      && DbGet(db, k) == (if k in m then Some(m[k]) else None)
      && (Del(psize, db, k).NotFound? <==> k !in m)
  {
    RunRefines(psize, ops);
    var db := RunDb(psize, ops).value;
    DbSorted(db);
    GetIsLookup(DbEnts(db), k);
    DelStep(psize, db, Plain(ops), k);
    if db.Some? { GetRefines(db.value, k, None, None); }
  }
}
