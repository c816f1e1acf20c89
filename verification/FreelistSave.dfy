/**
  mdb_freelist_save: reserving freeDB records for the leftover free pages, then filling them.
  The freelist is taken to be unchanged by the puts themselves.
 */
module FreelistSave {
  import opened MidlSort
  import opened Midl
  import FreeRun
  import Protocol

  // ---------------------------------------------------------------- reserving

  /** The slots reserved under keys 1 .. n. */
  ghost function RoomTotal(rooms: map<nat, nat>, n: nat): nat {
    if n == 0 then 0 else RoomTotal(rooms, n - 1) + if n in rooms then rooms[n] else 0
  }

  lemma {:induction false} RoomTotalSet(rooms: map<nat, nat>, n: nat, k: nat, v: nat)
    ensures RoomTotal(rooms[k := v], n)
         == RoomTotal(rooms, n) + if 1 <= k <= n then v - (if k in rooms then rooms[k] else 0) else 0
  {
    if n > 0 { RoomTotalSet(rooms, n - 1, k, v); }
  }

  lemma {:induction false} NoRooms(rooms: map<nat, nat>, n: nat)
    requires rooms == map[]
    ensures RoomTotal(rooms, n) == 0
  {
    if n > 0 { NoRooms(rooms, n - 1); }
  }

  /** A record of `words` words, its length word included, is a multiple of what one overflow page holds. */
  ghost predicate WholePages(words: nat, perPage: nat) { exists pages: nat :: Times(pages, perPage) == words }

  ghost function Times(a: nat, b: nat): nat { a * b }

  /** How many slots the record under headId gets when `want` are still needed: all of them, or
      a multiple of whole overflow pages when several records will share the load. */
  function HeadRoom(want: int, headId: nat, maxfree: nat): (r: nat)
    requires headId > 0
    ensures want > maxfree && headId > 1 ==>
      WholePages(r + 1, maxfree + 1) && want < (r + 1) * headId && (r - maxfree) * headId <= want && r < want
    ensures !(want > maxfree && headId > 1) ==> r == if want < 0 then 0 else want
  {
    if want > maxfree && headId > 1 then
      var q := want / headId;
      RoundUp(q, maxfree + 1);
      ShareCovers(want, headId, maxfree, q);
      q + maxfree - q % (maxfree + 1)
    else if want < 0 then 0
    else want
  }

  lemma RoundUp(q: nat, m: nat)
    requires m > 0
    ensures var r := q + (m - 1) - q % m; q <= r && m - 1 <= r && WholePages(r + 1, m)
  {
    assert q + m - q % m == Times(q / m + 1, m);
  }

  /** The room is the least that whole pages give for which headId records of it take everything. */
  lemma ShareCovers(want: nat, headId: nat, maxfree: nat, q: nat)
    requires want > maxfree && headId > 1 && q == want / headId
    ensures var r := q + maxfree - q % (maxfree + 1);
      want < (r + 1) * headId && (r - maxfree) * headId <= want && r < want
  {
    var b := q % (maxfree + 1);
    var r := q + maxfree - b;
    ShareBounds(want, headId, q);
    MulUp(q + 1, r + 1, headId);
    MulUp(r - maxfree, q, headId);
    if r >= want {
      MulUp(2, headId, q);
      PageBelow(q, maxfree + 1);
    }
  }

  lemma ShareBounds(want: nat, headId: nat, q: nat)
    requires headId > 0 && q == want / headId
    ensures q * headId <= want < (q + 1) * headId
  {
  }

  lemma MulUp(a: int, b: int, c: nat)
    requires a <= b
    ensures a * c <= b * c
  {
  }

  /** Less than a page is left over above whole pages. */
  lemma PageBelow(q: nat, m: nat)
    requires m > 0
    ensures q < m ==> q % m == q
    ensures q >= m ==> q - q % m >= m
  {
    assert q == m * (q / m) + q % m;
    if q >= m { assert q / m >= 1; MulUp(1, q / m, m); }
  }

  /** The reservation loop: it ends, uses only keys in [1, pglast], and reserves just enough. */
  method Reserve(mopLen: nat, pglast: nat, maxfree: nat) returns (rooms: map<nat, nat>)
    requires maxfree > 0 && (mopLen > 0 ==> pglast > 0)
    ensures forall k :: k in rooms ==> 1 <= k <= pglast
    ensures RoomTotal(rooms, pglast) == mopLen
    ensures mopLen == 0 ==> rooms == map[]
  {
    rooms := map[];
    NoRooms(rooms, pglast);
    var headId, headRoom: int, totalRoom: int, more := pglast, 0, 0, 1;
    while true
      invariant forall k :: k in rooms ==> headId <= k <= pglast
      invariant headId <= pglast && (pglast > 0 ==> headId > 0)
      invariant headRoom == if headId in rooms then rooms[headId] else 0
      invariant 0 <= headRoom <= totalRoom == RoomTotal(rooms, pglast) <= mopLen
      invariant 0 <= more <= 1 && (mopLen == 0 ==> rooms == map[])
      decreases more, headId, if totalRoom >= mopLen then 0 else if headRoom >= maxfree then 1 else 2
    {
      if totalRoom >= mopLen {
        if totalRoom == mopLen { break; }
        more := more - 1;
        if more < 0 { break; }
      } else if headRoom >= maxfree && headId > 1 {
        headId, headRoom := headId - 1, 0;
      }
      totalRoom := totalRoom - headRoom;
      headRoom := HeadRoom(mopLen - totalRoom, headId, maxfree);
      RoomTotalSet(rooms, pglast, headId, headRoom);
      rooms := rooms[headId := headRoom];
      totalRoom := totalRoom + headRoom;
    }
  }

  // ---------------------------------------------------------------- filling

  /** A reserved record: its key and room. */
  datatype Reserved = Reserved(id: nat, room: nat)

  /** A filled record: its key and the IDs stored in it. */
  datatype Saved = Saved(id: nat, ids: seq<Id>)

  /** The reserved records as a cursor walks them, in key order. */
  function InOrder(rooms: map<nat, nat>, n: nat): seq<Reserved> {
    if n == 0 then [] else InOrder(rooms, n - 1) + if n in rooms then [Reserved(n, rooms[n])] else []
  }

  ghost function Room(rs: seq<Reserved>): nat { if rs == [] then 0 else Room(rs[..|rs| - 1]) + rs[|rs| - 1].room }

  lemma {:induction false} InOrderRoom(rooms: map<nat, nat>, n: nat)
    ensures Room(InOrder(rooms, n)) == RoomTotal(rooms, n)
  {
    if n > 0 {
      InOrderRoom(rooms, n - 1);
      var before, rs := InOrder(rooms, n - 1), InOrder(rooms, n);
      if n in rooms { assert rs[..|rs| - 1] == before; } else { assert rs == before; }
    }
  }

  ghost predicate KeysUpTo(rs: seq<Reserved>, n: nat) {
    && (forall i :: 0 <= i < |rs| ==> 1 <= rs[i].id <= n)
    && (forall i, j :: 0 <= i < j < |rs| ==> rs[i].id < rs[j].id)
  }

  lemma {:induction false} InOrderKeys(rooms: map<nat, nat>, n: nat)
    ensures KeysUpTo(InOrder(rooms, n), n)
  {
    if n > 0 {
      InOrderKeys(rooms, n - 1);
      var before := InOrder(rooms, n - 1);
      assert KeysUpTo(before, n) && before + [] == before;
    }
  }

  /** The contents of the records put together again, the last record first. */
  ghost function Whole(saved: seq<Saved>): seq<Id> {
    if saved == [] then [] else saved[|saved| - 1].ids + Whole(saved[..|saved| - 1])
  }

  lemma WholeSnoc(saved: seq<Saved>, r: Saved)
    ensures Whole(saved + [r]) == r.ids + Whole(saved)
  {
    assert (saved + [r])[..|saved|] == saved;
  }

  lemma RoomSnoc(rs: seq<Reserved>, i: nat)
    requires i < |rs|
    ensures Room(rs[..i + 1]) == Room(rs[..i]) + rs[i].room
  {
    assert rs[..i + 1][..i] == rs[..i];
  }

  /** The record written at a step: the list's slot before the slice holds the slice's length for
      the duration of the put. */
  method PutSlice(mop: array<Id>, at: nat, len: nat) returns (ids: seq<Id>)
    requires at + len < mop.Length
    modifies mop
    ensures mop[..] == old(mop[..])
    ensures ids == mop[at + 1..at + 1 + len]
  {
    var save := mop[at];
    mop[at] := len;
    var data := mop[at..at + len + 1];
    ids := data[1..data[0] + 1];
    mop[at] := save;
  }

  /** Fill in the reserved records: the list is cut into consecutive slices, from its low end up,
      each within the room reserved for it, and nothing is left over. */
  method Fill(mop: array<Id>, records: seq<Reserved>) returns (saved: seq<Saved>)
    requires IsList(mop) && Room(records) >= mop[0]
    modifies mop
    ensures mop[..] == old(mop[..])
    ensures Filled(saved, records, |saved|) && Whole(saved) == List(mop)
  {
    hide Whole, Room;
    saved := [];
    var mopLen := mop[0];
    ghost var was, s := mop[..], mop[1..mopLen + 1];
    var i := 0;
    WholeEmpty();
    while mopLen > 0
      invariant 0 <= i <= |records| && 0 <= mopLen <= |s|
      invariant mop[..] == was
      invariant mopLen > 0 ==> Room(records) - Room(records[..i]) >= mopLen
      invariant Filled(saved, records, i) && Whole(saved) == s[mopLen..]
      decreases |records| - i
    {
      assert i < |records| by { assert records[..|records|] == records; }
      RoomSnoc(records, i);
      var len := if records[i].room > mopLen then mopLen else records[i].room;
      var ids := PutSlice(mop, mopLen - len, len);
      assert ids == was[mopLen - len + 1..mopLen - len + 1 + len];
      SliceOf(was, s, mopLen, len);
      WholeSnoc(saved, Saved(records[i].id, ids));
      saved := saved + [Saved(records[i].id, ids)];
      mopLen := mopLen - len;
      i := i + 1;
    }
    assert List(mop) == s;
  }

  /** The first i records are filled, each within its room. */
  ghost predicate Filled(saved: seq<Saved>, records: seq<Reserved>, i: int) {
    && i == |saved| <= |records|
    && forall k :: 0 <= k < |saved| ==> saved[k].id == records[k].id && |saved[k].ids| <= records[k].room
  }

  lemma WholeEmpty()
    ensures Whole([]) == [] && Room([]) == 0
  {
  }

  lemma SliceOf(was: seq<Id>, s: seq<Id>, mopLen: nat, len: nat)
    requires len <= mopLen <= |s| < |was| && s == was[1..|s| + 1]
    ensures was[mopLen - len + 1..mopLen - len + 1 + len] + s[mopLen..] == s[mopLen - len..]
  {
  }

  // ---------------------------------------------------------------- what is saved

  /** Records in key order as the map of freeDB records that the protocol works with. */
  ghost function AsMap(saved: seq<Saved>): map<nat, set<nat>> {
    if saved == [] then map[] else
      var r := saved[|saved| - 1];
      AsMap(saved[..|saved| - 1])[r.id := set x | x in r.ids]
  }

  ghost predicate Rising(saved: seq<Saved>) { forall i, j :: 0 <= i < j < |saved| ==> saved[i].id < saved[j].id }

  lemma {:induction false} AsMapKeys(saved: seq<Saved>, k: nat)
    ensures k in AsMap(saved) <==> exists i :: 0 <= i < |saved| && saved[i].id == k
  {
    if saved != [] {
      var n := |saved| - 1;
      var rest := saved[..n];
      AsMapKeys(rest, k);
      if k == saved[n].id {
        assert saved[n].id == k;
      } else if k in AsMap(rest) {
        var i :| 0 <= i < |rest| && rest[i].id == k;
        assert saved[i].id == k;
      } else {
        forall i | 0 <= i < |saved| ensures saved[i].id != k { if i < n { assert rest[i] == saved[i]; } }
      }
    }
  }

  lemma {:induction false} AsMapAt(saved: seq<Saved>, i: nat)
    requires Rising(saved) && i < |saved|
    ensures saved[i].id in AsMap(saved) && AsMap(saved)[saved[i].id] == set x | x in saved[i].ids
  {
    var n := |saved| - 1;
    if i < n {
      assert saved[i].id < saved[n].id;
      AsMapAt(saved[..n], i);
    }
  }

  lemma {:induction false} WholeHas(saved: seq<Saved>, i: nat, x: Id)
    requires i < |saved| && x in saved[i].ids
    ensures x in Whole(saved)
  {
    if i < |saved| - 1 { WholeHas(saved[..|saved| - 1], i, x); }
  }

  lemma {:induction false} WholeFrom(saved: seq<Saved>, x: Id) returns (i: nat)
    requires x in Whole(saved)
    ensures i < |saved| && x in saved[i].ids
  {
    var n := |saved| - 1;
    if x in saved[n].ids { i := n; } else { i := WholeFrom(saved[..n], x); }
  }

  /** Every slice is strictly descending, and no ID is in two of them. */
  lemma {:induction false} SlicesApart(saved: seq<Saved>, i: nat, j: nat)
    requires FreeRun.Strict(Whole(saved)) && i < |saved| && j < |saved| && i < j
    ensures FreeRun.Strict(saved[i].ids) && FreeRun.Strict(saved[j].ids)
    ensures forall x :: x in saved[i].ids ==> x !in saved[j].ids
  {
    var n := |saved| - 1;
    var rest := saved[..n];
    StrictParts(saved[n].ids, Whole(rest));
    if j < n {
      SlicesApart(rest, i, j);
    } else {
      forall x | x in saved[i].ids ensures x !in saved[n].ids { WholeHas(rest, i, x); }
      if i > 0 { SlicesApart(rest, 0, i); } else if n > 1 { SlicesApart(rest, 0, 1); } else { OnlySlice(rest); }
    }
  }

  lemma OnlySlice(saved: seq<Saved>)
    requires |saved| == 1
    ensures Whole(saved) == saved[0].ids
  {
    assert Whole(saved[..0]) == [];
  }

  /** The filled records satisfy what the protocol asks of a saved freelist: keys in [1, pglast],
      every page in exactly one record, together exactly the pages of the list. */
  lemma SavedIsPartition(saved: seq<Saved>, s: seq<Id>, pglast: nat)
    requires Rising(saved) && FreeRun.Strict(s) && Whole(saved) == s
    requires forall i :: 0 <= i < |saved| ==> 1 <= saved[i].id <= pglast
    ensures forall k :: k in AsMap(saved) ==> 1 <= k <= pglast
    ensures Protocol.RecordsDisjoint(AsMap(saved))
    ensures Protocol.Listed(AsMap(saved), 0) == set x | x in s
  {
    hide Whole, AsMap, FreeRun.Strict, Rising;
    var m := AsMap(saved);
    forall k | k in m ensures 1 <= k <= pglast { var i := Place(saved, k); }
    forall j, k | j in m && k in m && j != k ensures m[j] !! m[k] {
      var a := Place(saved, j);
      var b := Place(saved, k);
      if a < b { SlicesApart(saved, a, b); } else { SlicesApart(saved, b, a); }
    }
    forall x | x in Protocol.Listed(m, 0) ensures x in s {
      var k :| k in m && k > 0 && x in m[k];
      var i := Place(saved, k);
      WholeHas(saved, i, x);
    }
    forall x | x in s ensures x in Protocol.Listed(m, 0) {
      var i := WholeFrom(saved, x);
      AsMapAt(saved, i);
      assert saved[i].id > 0 && saved[i].id in m && x in m[saved[i].id];
    }
  }

  lemma Place(saved: seq<Saved>, k: nat) returns (i: nat)
    requires Rising(saved) && k in AsMap(saved)
    ensures i < |saved| && saved[i].id == k && AsMap(saved)[k] == set x | x in saved[i].ids
  {
    AsMapKeys(saved, k);
    i :| 0 <= i < |saved| && saved[i].id == k;
    AsMapAt(saved, i);
  }

  lemma StrictParts(a: seq<Id>, b: seq<Id>)
    requires FreeRun.Strict(a + b)
    ensures FreeRun.Strict(a) && FreeRun.Strict(b) && forall x :: x in a ==> x !in b
  {
    var c := a + b;
    forall p, q | 0 <= p < q < |a| ensures a[p] > a[q] { assert c[p] > c[q]; }
    forall p, q | 0 <= p < q < |b| ensures b[p] > b[q] { assert c[|a| + p] > c[|a| + q]; }
    forall x, y | x in a && y in b ensures x > y {
      var p :| 0 <= p < |a| && a[p] == x;
      var q :| 0 <= q < |b| && b[q] == y;
      assert c[p] > c[|a| + q];
    }
  }

  /** mdb_freelist_save from the point where the old records are gone: reserve, then fill.  What
      ends up in the freeDB is a partition of me_pghead under keys no greater than me_pglast. */
  method SaveHead(mop: array<Id>, pglast: nat, maxfree: nat) returns (saved: seq<Saved>)
    requires IsList(mop) && FreeRun.Strict(List(mop)) && maxfree > 0 && (mop[0] > 0 ==> pglast > 0)
    modifies mop
    ensures mop[..] == old(mop[..])
    ensures forall k :: k in AsMap(saved) ==> 1 <= k <= pglast
    ensures Protocol.RecordsDisjoint(AsMap(saved))
    ensures Protocol.Listed(AsMap(saved), 0) == set x | x in List(mop)
  {
    var rooms := Reserve(mop[0], pglast, maxfree);
    InOrderRoom(rooms, pglast);
    InOrderKeys(rooms, pglast);
    saved := Fill(mop, InOrder(rooms, pglast));
    SavedIsPartition(saved, List(mop), pglast);
  }
}
