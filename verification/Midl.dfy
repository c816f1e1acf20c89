/**
  ID lists: arrays whose slot 0 holds the length.  Descending lists of page numbers are
  searched, grown, appended to and merged in place.
 */
module Midl {
  import opened Limits
  import opened MidlSort

  /** (MDB_ID)-1: no ID is larger. */
  const MAXID := 0xFFFF_FFFF_FFFF_FFFF

  ghost predicate IsList(ids: array<Id>)
    reads ids
  {
    ids.Length > 0 && ids[0] < ids.Length
  }

  /** The IDs of a list, in order. */
  ghost function List(ids: array<Id>): seq<Id>
    requires IsList(ids)
    reads ids
  {
    ids[1..ids[0] + 1]
  }

  ghost predicate Falling(s: seq<Id>) { forall p, q :: 0 <= p < q < |s| ==> s[p] >= s[q] }

  // ---------------------------------------------------------------- search

  /** mdb_midl_search: binary search in a descending list. */
  method Search(ids: array<Id>, id: Id) returns (x: nat)
    requires IsList(ids) && Falling(List(ids))
    ensures 1 <= x <= ids[0] + 1
    ensures id in List(ids) <==> x <= ids[0] && ids[x] == id
    ensures id !in List(ids) ==> forall p :: 1 <= p <= ids[0] ==> (p < x <==> ids[p] > id)
  {
    var base, cursor, val, n := 0, 1, 0, ids[0];
    ghost var s := List(ids);
    while 0 < n
      invariant 0 <= base && 0 <= n && base + n <= ids[0] && -1 <= val <= 1
      invariant forall p :: 1 <= p <= base ==> ids[p] > id
      invariant forall p :: base + n < p <= ids[0] ==> ids[p] < id
      invariant n == ids[0] ==> base == 0
      invariant if val == 0 then base == 0 && n == ids[0] && cursor == 1
        else if val < 0 then 1 <= cursor == base + n + 1 <= ids[0] else val > 0 && 1 <= cursor == base <= ids[0]
    {
      var pivot := n / 2;
      cursor := base + pivot + 1;
      val := if ids[cursor] < id then -1 else if ids[cursor] > id then 1 else 0;
      assert ids[cursor] == s[cursor - 1];
      if val < 0 {
        forall p | cursor <= p <= ids[0] ensures ids[p] < id { assert ids[p] == s[p - 1]; }
        n := pivot;
      } else if val > 0 {
        forall p | 1 <= p <= cursor ensures ids[p] > id { assert ids[p] == s[p - 1]; }
        base := cursor;
        n := n - (pivot + 1);
      } else {
        return cursor;
      }
    }
    if val > 0 { cursor := cursor + 1; }
    x := cursor;
    forall p | 0 <= p < |s| ensures s[p] != id { assert s[p] == ids[p + 1]; }
  }

  // ---------------------------------------------------------------- merge

  /** mdb_midl_xmerge's state: the IDs of s after j and those of m after i have been moved, in
      order, to the end of idl; m and s include their slots 0. */
  ghost predicate MergeOrder(s: seq<Id>, idl: seq<Id>, m: seq<Id>, j: int, i: int) {
    var end := |s| + |m| - 1;
    && 0 <= j < |s| && 0 <= i < |m| && end <= |idl|
    && (forall p, q :: i + j < p < q < end ==> idl[p] >= idl[q])
    && (forall p, q :: 1 <= p <= j && i + j < q < end ==> s[p] >= idl[q])
    && (forall p, q :: 1 <= p <= i && i + j < q < end ==> m[p] >= idl[q])
  }

  ghost predicate MergeCount(s: seq<Id>, idl: seq<Id>, m: seq<Id>, j: int, i: int) {
    var end := |s| + |m| - 1;
    && 0 <= j < |s| && 0 <= i < |m| && end <= |idl|
    && multiset(idl[i + j + 1..end]) == multiset(s[j + 1..]) + multiset(m[i + 1..])
  }

  /** What is not yet, or never, overwritten; the sentinel stands in slot 0. */
  ghost predicate Kept(s: seq<Id>, orig: seq<Id>, idl: seq<Id>, total: int, j: int) {
    && 0 <= j < |s| <= |idl| == |orig| && 0 <= total && idl[0] == MAXID
    && (forall p :: 1 <= p <= j ==> idl[p] == s[p])
    && (forall p :: total < p < |idl| ==> idl[p] == orig[p])
  }

  ghost predicate Merging(s: seq<Id>, orig: seq<Id>, idl: seq<Id>, m: seq<Id>, j: int, i: int) {
    MergeOrder(s, idl, m, j, i) && MergeCount(s, idl, m, j, i) && Kept(s, orig, idl, |s| + |m| - 2, j)
  }

  /** Slots from 1 on descend. */
  ghost predicate Slots(s: seq<Id>) { 0 < |s| && forall p, q :: 1 <= p < q < |s| ==> s[p] >= s[q] }

  lemma TailMultiset(t: seq<Id>, k: int, n: int, x: Id)
    requires 0 <= k < n <= |t|
    ensures multiset(t[k := x][k..n]) == multiset{x} + multiset(t[k + 1..n])
  {
    assert t[k := x][k..n] == [x] + t[k + 1..n];
  }

  lemma FromMultiset(s: seq<Id>, j: int)
    requires 0 < j < |s|
    ensures multiset(s[j..]) == multiset{s[j]} + multiset(s[j + 1..])
  {
    assert s[j..] == [s[j]] + s[j + 1..];
  }

  lemma TakeOldOrder(s: seq<Id>, idl: seq<Id>, m: seq<Id>, j: int, i: int)
    requires MergeOrder(s, idl, m, j, i) && 0 < i && 0 < j && s[j] < m[i] && Slots(s) && Slots(m)
    ensures MergeOrder(s, idl[i + j := s[j]], m, j - 1, i)
  {
  }

  lemma TakeNewOrder(s: seq<Id>, idl: seq<Id>, m: seq<Id>, j: int, i: int)
    requires MergeOrder(s, idl, m, j, i) && 0 < i && (j == 0 || s[j] >= m[i]) && Slots(s) && Slots(m)
    ensures MergeOrder(s, idl[i + j := m[i]], m, j, i - 1)
  {
  }

  lemma TakeOldCount(s: seq<Id>, idl: seq<Id>, m: seq<Id>, j: int, i: int)
    requires MergeCount(s, idl, m, j, i) && 0 < i && 0 < j
    ensures MergeCount(s, idl[i + j := s[j]], m, j - 1, i)
  {
    TailMultiset(idl, i + j, |s| + |m| - 1, s[j]);
    FromMultiset(s, j);
  }

  lemma TakeNewCount(s: seq<Id>, idl: seq<Id>, m: seq<Id>, j: int, i: int)
    requires MergeCount(s, idl, m, j, i) && 0 < i
    ensures MergeCount(s, idl[i + j := m[i]], m, j, i - 1)
  {
    TailMultiset(idl, i + j, |s| + |m| - 1, m[i]);
    FromMultiset(m, i);
  }

  /** The smaller of the two IDs at hand comes from the list ... */
  lemma TakeOld(s: seq<Id>, orig: seq<Id>, idl: seq<Id>, m: seq<Id>, j: int, i: int)
    requires Merging(s, orig, idl, m, j, i) && 0 < i && 0 < j && s[j] < m[i] && Slots(s) && Slots(m)
    ensures Merging(s, orig, idl[i + j := s[j]], m, j - 1, i)
  {
    TakeOldOrder(s, idl, m, j, i);
    TakeOldCount(s, idl, m, j, i);
  }

  /** ... or from the merged one. */
  lemma TakeNew(s: seq<Id>, orig: seq<Id>, idl: seq<Id>, m: seq<Id>, j: int, i: int)
    requires Merging(s, orig, idl, m, j, i) && 0 < i && (j == 0 || s[j] >= m[i]) && Slots(s) && Slots(m)
    ensures Merging(s, orig, idl[i + j := m[i]], m, j, i - 1)
  {
    TakeNewOrder(s, idl, m, j, i);
    TakeNewCount(s, idl, m, j, i);
  }

  lemma MergeStart(s: seq<Id>, orig: seq<Id>, m: seq<Id>)
    requires Slots(s) && Slots(m) && |s| + |m| - 1 <= |orig| && s == orig[..|s|]
    ensures Merging(s, orig, orig[0 := MAXID], m, |s| - 1, |m| - 1)
  {
    var idl, end := orig[0 := MAXID], |s| + |m| - 1;
    assert idl[end..end] == [] && s[|s|..] == [] && m[|m|..] == [];
  }

  lemma MergeEndOrder(s: seq<Id>, idl: seq<Id>, m: seq<Id>, j: int, t: seq<Id>)
    requires MergeOrder(s, idl, m, j, 0) && Slots(s) && t == idl[1..|s| + |m| - 1]
    requires forall p :: 1 <= p <= j ==> idl[p] == s[p]
    ensures Falling(t)
  {
    forall p, q | 0 <= p < q < |t| ensures t[p] >= t[q] {
      assert t[p] == idl[p + 1] && t[q] == idl[q + 1];
    }
  }

  lemma MergeEndCount(s: seq<Id>, idl: seq<Id>, m: seq<Id>, j: int, t: seq<Id>)
    requires MergeCount(s, idl, m, j, 0) && t == idl[1..|s| + |m| - 1]
    requires forall p :: 1 <= p <= j ==> idl[p] == s[p]
    ensures multiset(t) == multiset(s[1..]) + multiset(m[1..])
  {
    assert t == idl[1..j + 1] + idl[j + 1..|s| + |m| - 1];
    assert s[1..] == s[1..j + 1] + s[j + 1..];
    assert idl[1..j + 1] == s[1..j + 1];
  }

  lemma MergeEnd(s: seq<Id>, orig: seq<Id>, idl: seq<Id>, m: seq<Id>, j: int, t: seq<Id>)
    requires Merging(s, orig, idl, m, j, 0) && Slots(s) && t == idl[1..|s| + |m| - 1]
    ensures Falling(t) && multiset(t) == multiset(s[1..]) + multiset(m[1..])
    ensures forall p :: |s| + |m| - 1 <= p < |idl| ==> idl[p] == orig[p]
  {
    MergeEndOrder(s, idl, m, j, t);
    MergeEndCount(s, idl, m, j, t);
  }

  /** What the loops read: the element at j is still in place, or the sentinel. */
  lemma AtHand(s: seq<Id>, orig: seq<Id>, idl: seq<Id>, m: seq<Id>, j: int, i: int)
    requires Merging(s, orig, idl, m, j, i)
    ensures 0 <= j < |s| && 0 <= i < |m| && |s| + |m| - 1 <= |idl|
    ensures idl[j] == if j == 0 then MAXID else s[j]
  {
  }

  /** The inner loop: move the list's IDs below mergeId out of the way.  The sentinel in slot 0
      ends it at the latest. */
  method MoveSmaller(idl: array<Id>, k0: int, j0: int, mergeId: Id, ghost s: seq<Id>, ghost orig: seq<Id>,
                     ghost m: seq<Id>, ghost i: int)
    returns (k: int, j: int)
    requires Merging(s, orig, idl[..], m, j0, i) && Slots(s) && Slots(m)
    requires k0 == i + j0 && 0 < i < |m| && m[i] == mergeId <= MAXID
    modifies idl
    ensures Merging(s, orig, idl[..], m, j, i) && k == i + j
    ensures 0 <= j < |s| && (j == 0 || s[j] >= mergeId)
  {
    hide Merging;
    j, k := j0, k0;
    AtHand(s, orig, idl[..], m, j, i);
    var oldId := idl[j];
    while oldId < mergeId
      invariant k == i + j && Merging(s, orig, idl[..], m, j, i)
      invariant 0 <= j < |s| && oldId == if j == 0 then MAXID else s[j]
      decreases j
    {
      AtHand(s, orig, idl[..], m, j, i);
      TakeOld(s, orig, idl[..], m, j, i);
      idl[k] := oldId;
      k, j := k - 1, j - 1;
      AtHand(s, orig, idl[..], m, j, i);
      oldId := idl[j];
    }
  }

  /** mdb_midl_xmerge: the list stays descending and gains exactly the merged IDs. */
  method Xmerge(idl: array<Id>, merge: array<Id>)
    requires idl != merge && IsList(idl) && IsList(merge) && idl[0] + merge[0] < idl.Length
    requires Falling(List(idl)) && Falling(List(merge))
    requires forall p :: 0 <= p < merge.Length ==> merge[p] <= MAXID
    modifies idl
    ensures IsList(idl) && idl[0] == old(idl[0]) + merge[0]
    ensures Falling(List(idl))
    ensures multiset(List(idl)) == multiset(old(List(idl))) + multiset(List(merge))
    ensures forall p :: idl[0] < p < idl.Length ==> idl[p] == old(idl[p])
  {
    hide Merging, Falling, Slots;
    ghost var s, m, orig := idl[..idl[0] + 1], merge[..merge[0] + 1], idl[..];
    assert s[1..] == List(idl) && m[1..] == List(merge);
    SlotsFall(s);
    SlotsFall(m);
    MergeStart(s, orig, m);
    var i, j := merge[0], idl[0];
    var k := i + j;
    var total := k;
    idl[0] := MAXID;
    while i > 0
      invariant 0 <= i < |m| && k == i + j && Merging(s, orig, idl[..], m, j, i)
    {
      var mergeId := merge[i];
      k, j := MoveSmaller(idl, k, j, mergeId, s, orig, m, i);
      AtHand(s, orig, idl[..], m, j, i);
      TakeNew(s, orig, idl[..], m, j, i);
      idl[k] := mergeId;
      k, i := k - 1, i - 1;
    }
    ghost var t := idl[1..total + 1];
    MergeEnd(s, orig, idl[..], m, j, t);
    idl[0] := total;
    assert List(idl) == t;
  }

  lemma SlotsFall(s: seq<Id>)
    requires 0 < |s| && Falling(s[1..])
    ensures Slots(s)
  {
    forall p, q | 1 <= p < q < |s| ensures s[p] >= s[q] { assert s[1..][p - 1] == s[p] && s[1..][q - 1] == s[q]; }
  }

  // ---------------------------------------------------------------- growing lists

  /** n | MDB_IDL_UM_MAX: the low 17 bits set. */
  function OrMax(n: nat): (m: nat)
    ensures m % (UM_MAX + 1) == UM_MAX && m - UM_MAX <= n <= m
  {
    n / (UM_MAX + 1) * (UM_MAX + 1) + UM_MAX
  }

  /** id + n - 1 down to id. */
  ghost function Countdown(id: Id, n: nat): seq<Id> { seq(n, k requires 0 <= k < n => id + n - 1 - k) }

  /** An MDB_IDL that may be reallocated; the array has room for ids.Length - 1 IDs. */
  class Idl {
    var ids: array<Id>

    ghost predicate Valid()
      reads this, ids
    {
      IsList(ids)
    }

    ghost function Contents(): seq<Id>
      requires Valid()
      reads this, ids
    {
      List(ids)
    }

    /** mdb_midl_alloc */
    constructor (num: nat)
      ensures Valid() && fresh(ids) && Contents() == [] && ids.Length == num + 1
    {
      ids := new Id[num + 1];
      new;
      ids[0] := 0;
    }

    /** realloc: a larger array with the same first slots. */
    method Grow(capacity: nat)
      requires Valid() && ids.Length <= capacity + 1
      modifies this
      ensures Valid() && fresh(ids) && ids.Length == capacity + 1 && Contents() == old(Contents())
    {
      var a := new Id[capacity + 1];
      forall p | 0 <= p < ids.Length { a[p] := ids[p]; }
      ids := a;
    }

    /** mdb_midl_need: room for num more IDs, rounded up to blocks of 256 words. */
    method Need(num: nat)
      requires Valid()
      modifies this
      ensures Valid() && (ids == old(ids) || fresh(ids)) && Contents() == old(Contents())
      ensures ids == old(ids) <==> old(ids[0]) + num < old(ids.Length)
      ensures ids[0] + num < ids.Length
      ensures ids != old(ids) ==>
        var n, words := old(ids[0]) + num, ids.Length + 1; words % 256 == 0 && n + n / 4 + 2 < words <= n + n / 4 + 258
    {
      var n := num + ids[0];
      if n > ids.Length - 1 {
        n := (n + n / 4 + 258) / 256 * 256;
        Grow(n - 2);
      }
    }

    /** mdb_midl_append_range: the run id .. id + n - 1, highest first. */
    method AppendRange(id: Id, n: nat)
      requires Valid()
      modifies this, ids
      ensures Valid() && (ids == old(ids) || fresh(ids))
      ensures Contents() == old(Contents()) + Countdown(id, n)
      ensures ids.Length == old(ids.Length) + if old(ids[0]) + n < old(ids.Length) then 0 else OrMax(n)
    {
      var len := ids[0];
      ghost var was := Contents();
      if len + n > ids.Length - 1 { Grow(ids.Length - 1 + OrMax(n)); }
      assert was == ids[1..len + 1];
      ghost var capacity := ids.Length;
      ids[0] := len + n;
      var k, x := n, id;
      while k > 0
        invariant 0 <= k <= n && x == id + n - k && len + n < ids.Length && ids[0] == len + n
        invariant (ids == old(ids) || fresh(ids)) && ids.Length == capacity
        invariant forall p :: 1 <= p <= len ==> ids[p] == was[p - 1]
        invariant forall p :: len + k < p <= len + n ==> ids[p] == id + n - (p - len)
      {
        ids[len + k] := x;
        k, x := k - 1, x + 1;
      }
      ghost var now, want := Contents(), was + Countdown(id, n);
      forall p | 0 <= p < |now| ensures now[p] == want[p] {
        assert now[p] == ids[p + 1];
      }
      assert |now| == |want|;
    }
  }

  /** A run appended above nothing smaller keeps the list descending. */
  lemma CountdownFalls(s: seq<Id>, id: Id, n: nat)
    requires Falling(s) && forall x :: x in s ==> x >= id + n - 1
    ensures Falling(s + Countdown(id, n))
  {
    var t := s + Countdown(id, n);
    forall p, q | 0 <= p < q < |t| ensures t[p] >= t[q] {
      if p < |s| <= q { assert t[p] in s; }
    }
  }
}
