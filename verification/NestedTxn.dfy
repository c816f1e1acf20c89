/**
  The page view through a stack of nested write transactions, and the dirty, spilled, loose and
  freed pages of each: a child never disturbs what its ancestors see, abort restores their state,
  and commit hands the child's view to the parent.
 */
module NestedTxn {
  import opened Limits

  type Pgno = nat
  type Content = int

  /** me_pgstate: the free pages at hand and the last freeDB record they came from. */
  datatype PgState = PgState(head: set<Pgno>, last: nat)

  /** One transaction of the stack.  `tree` are the pages its databases consist of, `saved` is
      mnt_pgstate, the page state to go back to if it aborts. */
  datatype Level = Level(
    dirty: map<Pgno, Content>,
    spill: set<Pgno>,
    freed: seq<Pgno>,
    loose: set<Pgno>,
    next: Pgno,
    room: int,
    tree: set<Pgno>,
    saved: PgState)

  /** The stack runs from the outermost transaction to the innermost; `disk` is the map. */
  datatype State = State(stack: seq<Level>, disk: map<Pgno, Content>, pg: PgState) {
    function Depth(): nat { |stack| }
    function Outer(): seq<Level>
      requires stack != []
    {
      stack[..|stack| - 1]
    }
    function Top(): Level
      requires stack != []
    {
      stack[|stack| - 1]
    }
    function WithTop(t: Level): State
      requires stack != []
    {
      this.(stack := Outer() + [t])
    }
  }

  // ---------------------------------------------------------------- the lookup chain

  function OnDisk(disk: map<Pgno, Content>, p: Pgno): Content { if p in disk then disk[p] else 0 }

  /** mdb_page_get: the innermost list that knows the page decides. */
  function View(stack: seq<Level>, disk: map<Pgno, Content>, p: Pgno): Content {
    if stack == [] then OnDisk(disk, p) else
      var t := stack[|stack| - 1];
      if p in t.spill then OnDisk(disk, p)
      else if p in t.dirty then t.dirty[p]
      else View(stack[..|stack| - 1], disk, p)
  }

  /** The pages that the lookup finds in a dirty list. */
  function VisibleDirty(stack: seq<Level>): set<Pgno> {
    if stack == [] then {} else
      var t := stack[|stack| - 1];
      VisibleDirty(stack[..|stack| - 1]) - t.spill + t.dirty.Keys
  }

  predicate Spilled(stack: seq<Level>, p: Pgno) { exists i :: 0 <= i < |stack| && p in stack[i].spill }

  /** Some list of the stack knows the page. */
  predicate Known(stack: seq<Level>, p: Pgno) {
    exists i :: 0 <= i < |stack| && (p in stack[i].dirty || p in stack[i].spill)
  }

  predicate Unused(stack: seq<Level>, p: Pgno) {
    forall i :: 0 <= i < |stack| ==> p !in stack[i].dirty && p !in stack[i].spill && p !in stack[i].tree
  }

  /** The pages that may be allocated are in nobody's use. */
  ghost predicate FreshFor(stack: seq<Level>, head: set<Pgno>, next: Pgno) {
    (forall p :: p in head ==> p < next) && (forall p: Pgno :: p in head || p >= next ==> Unused(stack, p))
  }

  // ---------------------------------------------------------------- steps

  datatype Step =
    | Fetch(pages: set<Pgno>, last: nat)
    | Alloc(q: Pgno, c: Content)
    | Touch(p: Pgno, q: Pgno)
    | Copy(p: Pgno)
    | Unspill(p: Pgno)
    | Write(p: Pgno, c: Content)
    | Spill(p: Pgno)
    | Loosen(p: Pgno)
    | FreePage(p: Pgno)
    | GiveBack(p: Pgno)
    | Begin
    | Abort
    | Commit

  /** Allocation reuses a loose page, or takes one from me_pghead, or the next new one. */
  predicate CanTake(s: State, q: Pgno)
    requires s.stack != []
  {
    var t := s.Top();
    q in t.loose || (t.room > 0 && (q in s.pg.head || q == t.next))
  }

  /** The transaction after q was allocated into its tree in the place of the pages `gone`. */
  function Taken(t: Level, head: set<Pgno>, q: Pgno, c: Content, gone: set<Pgno>, freed: seq<Pgno>): Level {
    var u := t.(dirty := t.dirty[q := c], tree := t.tree - gone + {q}, freed := t.freed + freed);
    if q in t.loose then u.(loose := t.loose - {q})
    else u.(room := t.room - 1, next := if q in head then t.next else t.next + 1)
  }

  function Take(s: State, q: Pgno, c: Content, gone: set<Pgno>, freed: seq<Pgno>): State
    requires s.stack != []
  {
    s.WithTop(Taken(s.Top(), s.pg.head, q, c, gone, freed))
     .(pg := if q in s.Top().loose then s.pg else s.pg.(head := s.pg.head - {q}))
  }

  predicate Enabled(s: State, step: Step)
    requires s.stack != []
  {
    var t := s.Top();
    match step
    // mdb_page_alloc: freeDB records list only pages that are in nobody's use
    case Fetch(pages, last) => s.pg.last < last && forall p :: p in pages ==> p < t.next && Unused(s.stack, p)
    case Alloc(q, c) => CanTake(s, q)
    // mdb_page_touch: a clean page, a page dirty in an ancestor, a spilled page
    case Touch(p, q) => p in t.tree && p !in VisibleDirty(s.stack) && !Spilled(s.stack, p) && CanTake(s, q)
    case Copy(p) => p in t.tree && p in VisibleDirty(s.stack) && p !in t.dirty
    case Unspill(p) => p in t.tree && p !in VisibleDirty(s.stack) && Spilled(s.stack, p) && t.room > 0
    case Write(p, c) => p in t.dirty && p in t.tree
    // mdb_page_spill: not loose, and not already spilled by an ancestor
    case Spill(p) => p in t.dirty && p !in t.loose && !Spilled(s.Outer(), p)
    // mdb_page_loose and the other ways to free a page
    case Loosen(p) => p in t.dirty && p in t.tree
    case FreePage(p) => p in t.tree
    // mdb_ovpage_free, of a page acquired by this transaction; not in a nested one
    case GiveBack(p) => s.Depth() == 1 && s.pg.last > 0 && p in t.tree && (p in t.dirty || p in t.spill)
    case Begin => true
    case Abort => s.Depth() > 1
    case Commit => s.Depth() > 1
  }

  function Apply(s: State, step: Step): State
    requires s.stack != [] && Enabled(s, step)
  {
    var t := s.Top();
    match step
    case Fetch(pages, last) => s.(pg := PgState(s.pg.head + pages, last))
    case Alloc(q, c) => Take(s, q, c, {}, [])
    case Touch(p, q) => Take(s, q, View(s.stack, s.disk, p), {p}, [p])
    case Copy(p) => s.WithTop(t.(dirty := t.dirty[p := View(s.stack, s.disk, p)]))
    case Unspill(p) =>
      s.WithTop(t.(dirty := t.dirty[p := View(s.stack, s.disk, p)], spill := t.spill - {p}, room := t.room - 1))
    case Write(p, c) => s.WithTop(t.(dirty := t.dirty[p := c]))
    case Spill(p) =>
      s.WithTop(t.(dirty := t.dirty - {p}, spill := t.spill + {p}, room := t.room + 1)).(disk := s.disk[p := t.dirty[p]])
    case Loosen(p) => s.WithTop(t.(loose := t.loose + {p}, tree := t.tree - {p}))
    case FreePage(p) => s.WithTop(t.(tree := t.tree - {p}, freed := t.freed + [p]))
    case GiveBack(p) => s.WithTop(Without(t, p)).(pg := s.pg.(head := s.pg.head + {p}))
    case Begin => s.(stack := s.stack + [Level(map[], {}, [], {}, t.next, t.room, t.tree, s.pg)])
    case Abort => s.(stack := s.Outer(), pg := t.saved)
    case Commit => s.(stack := s.Outer()[..|s.stack| - 2] + [Merged(s.stack[|s.stack| - 2], t)])
  }

  /** The transaction without a page that goes back to me_pghead: if it is dirty its slot is free again. */
  function Without(t: Level, p: Pgno): Level {
    t.(dirty := t.dirty - {p}, spill := t.spill - {p}, tree := t.tree - {p}, room := if p in t.dirty then t.room + 1 else t.room)
  }

  /** mdb_txn_commit of a nested transaction: what the parent has afterwards. */
  function Merged(parent: Level, child: Level): Level {
    Level(
      dirty := map p | p in (parent.dirty.Keys - child.spill) + child.dirty.Keys ::
        if p in child.dirty then child.dirty[p] else parent.dirty[p],
      spill := parent.spill - child.dirty.Keys + child.spill,
      freed := parent.freed + child.freed,
      loose := parent.loose + child.loose,
      next := child.next,
      room := child.room,
      tree := child.tree,
      saved := parent.saved)
  }

  /** A step of the innermost transaction that neither begins nor ends one. */
  predicate Working(step: Step) { !step.Begin? && !step.Abort? && !step.Commit? }

  // ---------------------------------------------------------------- what every step keeps

  /** dirty_room is the capacity less the visible dirty pages. */
  ghost predicate RoomOk(outer: seq<Level>, t: Level) {
    t.room == UM_MAX - |VisibleDirty(outer + [t])| && t.room >= 0
  }

  /** A page is in at most one list of a transaction and spilled by at most one of them; loose pages
      stay in the dirty list, and nobody further in uses them. */
  ghost predicate ListsOk(outer: seq<Level>, t: Level) {
    && t.dirty.Keys !! t.spill
    && (forall p :: p in t.spill ==> !Spilled(outer, p))
    && t.loose <= t.dirty.Keys && t.loose !! t.tree
    && (forall i :: 0 <= i < |outer| ==> outer[i].loose !! t.dirty.Keys + t.spill + t.tree)
  }

  /** Whichever of these pages an ancestor's tree has, the ancestor finds in its lists. */
  ghost predicate Sheltered(outer: seq<Level>, pages: set<Pgno>) {
    forall k, p :: 0 <= k < |outer| && p in pages && p in outer[k].tree ==> Known(outer[..k + 1], p)
  }

  /** What abort would go back to is in order. */
  ghost predicate SavedOk(outer: seq<Level>, t: Level) {
    outer != [] ==> outer[|outer| - 1].next <= t.next && FreshFor(outer, t.saved.head, outer[|outer| - 1].next)
  }

  ghost predicate TopOk(outer: seq<Level>, t: Level) {
    RoomOk(outer, t) && ListsOk(outer, t) && Sheltered(outer, t.dirty.Keys + t.spill) && SavedOk(outer, t)
  }

  ghost predicate StackOk(stack: seq<Level>) {
    stack != [] ==> StackOk(stack[..|stack| - 1]) && TopOk(stack[..|stack| - 1], stack[|stack| - 1])
  }

  /** A write transaction as mdb_txn_begin starts it, on a tree of pages below mt_next_pgno. */
  ghost predicate Init(s: State) {
    && s.stack != [] && s.Depth() == 1 && s.pg == PgState({}, 0)
    && var t := s.Top();
    && t.dirty == map[] && t.spill == {} && t.freed == [] && t.loose == {} && t.room == UM_MAX
    && (forall p :: p in t.tree ==> p < t.next)
  }

  ghost predicate Inv(s: State) {
    s.stack != [] && StackOk(s.stack) && FreshFor(s.stack, s.pg.head, s.Top().next)
  }
}
