/** Cursors on the database that a run of puts and deletes leaves, against the plain map. */
module CursorTheorems {
  import opened Wrappers
  import opened SplitPoint
  import opened BTree
  import opened BTreeShape
  import opened SortedMap
  import opened BTreeOrder
  import opened BTreeTheorems
  import opened CursorPaths
  import opened Cursors

  /** The least entry of the map that is not below k, if there is one. */
  ghost predicate LeastFrom(m: map<real, Val>, k: real, e: Option<Entry>) {
    match e
    case None => forall x :: x in m ==> x < k
    case Some(e) => e.0 in m && m[e.0] == e.1 && k <= e.0 && forall x :: x in m && k <= x ==> e.0 <= x
  }

  lemma RankedIsLeast(es: seq<Entry>, k: real)
    requires Sorted(es)
    ensures var r := RankSeq(es, k); LeastFrom(Dict(es), k, if r < |es| then Some(es[r]) else None)
  {
    var r := RankSeq(es, k);
    RangeIsLeast(es, k);
    if r < |es| {
      RankFound(es, es[r].0, r);
      RankIsLookup(es, es[r].0);
    }
  }

  /** A cursor on the root of a database that the run left, wherever it stood before. */
  ghost predicate OnRun(c: Cursor, psize: nat, ops: seq<Op>)
    reads c
    requires PageSize(psize)
  {
    c.Valid() && RunDb(psize, ops) == Some(Some(c.root))
  }

  lemma RunEntries(psize: nat, ops: seq<Op>, root: Tree)
    requires PageSize(psize) && KeysOk(ops) && RunDb(psize, ops) == Some(Some(root))
    ensures Sorted(Ents(root)) && Dict(Ents(root)) == Plain(ops)
    ensures Ordered(root, None, None) && exists d :: Shape(psize, root, d)
  {
    RunRefines(psize, ops);
    DbSorted(Some(root));
  }

  lemma {:induction false} HasEntry(psize: nat, t: Tree, d: nat)
    requires PageSize(psize) && Shape(psize, t, d)
    ensures Ents(t) != []
    decreases d
  {
    if t.Branch? {
      WeakBranch(psize, t, d);
      KidShape(psize, t.kids, 0, d);
      HasEntry(psize, t.kids[0].sub, d - 1);
    }
  }

  /** A database has no root page exactly when the plain map is empty. */
  lemma RunEmpty(psize: nat, ops: seq<Op>)
    requires PageSize(psize) && KeysOk(ops) && RunDb(psize, ops).Some?
    ensures RunDb(psize, ops).value.None? <==> Plain(ops) == map[]
  {
    RunRefines(psize, ops);
    var db := RunDb(psize, ops).value;
    if db.Some? {
      var d :| Shape(psize, db.value, d);
      HasEntry(psize, db.value, d);
      DictKeys(DbEnts(db));
      assert DbEnts(db)[0].0 in Plain(ops);
    }
  }

  /** mdb_cursor_open on a database that is not empty. */
  method Open(psize: nat, ghost ops: seq<Op>, root: Tree) returns (c: Cursor)
    requires PageSize(psize) && KeysOk(ops) && RunDb(psize, ops) == Some(Some(root))
    ensures fresh(c) && OnRun(c, psize, ops)
  {
    RunEntries(psize, ops, root);
    ghost var d :| Shape(psize, root, d);
    c := new Cursor(root, psize, d);
  }

  /** MDB_SET_RANGE after any run, from any position: the least key of the plain map from k on. */
  method RunRange(c: Cursor, psize: nat, ghost ops: seq<Op>, k: real) returns (e: Option<Entry>)
    requires PageSize(psize) && KeysOk(ops) && OnRun(c, psize, ops)
    modifies c
    ensures OnRun(c, psize, ops) && LeastFrom(Plain(ops), k, e)
  {
    RunEntries(psize, ops, c.root);
    RankedIsLeast(Ents(c.root), k);
    var found := c.Set(k, true);
    if found {
      var x := c.Current();
      e := Some(x);
    } else {
      e := None;
    }
  }

  /** MDB_SET after any run, from any position: the plain map's lookup. */
  method RunSet(c: Cursor, psize: nat, ghost ops: seq<Op>, k: real) returns (v: Option<Val>)
    requires PageSize(psize) && KeysOk(ops) && OnRun(c, psize, ops)
    modifies c
    ensures OnRun(c, psize, ops) && v == if k in Plain(ops) then Some(Plain(ops)[k]) else None
  {
    RunEntries(psize, ops, c.root);
    RankIsLookup(Ents(c.root), k);
    var found := c.Set(k, false);
    if found {
      var e := c.Current();
      v := Some(e.1);
    } else {
      v := None;
    }
  }

  /** A scan after any run, from any position: exactly the plain map, in rising order of keys. */
  method RunScan(c: Cursor, psize: nat, ghost ops: seq<Op>) returns (out: seq<Entry>)
    requires PageSize(psize) && KeysOk(ops) && OnRun(c, psize, ops)
    modifies c
    ensures OnRun(c, psize, ops) && Sorted(out) && Dict(out) == Plain(ops)
  {
    RunEntries(psize, ops, c.root);
    out := c.Scan();
  }
}
