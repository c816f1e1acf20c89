/**
  The sorted dirty lists (ID2L: slot 0 holds the length), and how committing a nested transaction
  merges the child's list into the parent's in place, from the back.
 */
module DirtyMerge {
  import opened Limits

  /** A dirty page: its number and where it is kept. */
  datatype Id2 = Id2(mid: nat, ptr: int)

  ghost predicate IsList(ids: array<Id2>)
    reads ids
  {
    ids.Length > 0 && ids[0].mid < ids.Length
  }

  ghost function List(ids: array<Id2>): seq<Id2>
    requires IsList(ids)
    reads ids
  {
    ids[1..ids[0].mid + 1]
  }

  ghost predicate Rising(s: seq<Id2>) { forall p, q :: 0 <= p < q < |s| ==> s[p].mid < s[q].mid }

  /** Page 0 is a meta page: no dirty page has that number. */
  ghost predicate Numbered(s: seq<Id2>) { forall p :: 0 <= p < |s| ==> s[p].mid > 0 }

  // ---------------------------------------------------------------- search and insert

  /** mdb_mid2l_search: the position of id, or of the first larger one. */
  method Search(ids: array<Id2>, id: nat) returns (x: nat)
    requires IsList(ids) && Rising(List(ids))
    ensures 1 <= x <= ids[0].mid + 1
    ensures forall p :: 1 <= p <= ids[0].mid ==> (p < x <==> ids[p].mid < id)
  {
    var base, cursor, val, n := 0, 1, 0, ids[0].mid;
    ghost var s := List(ids);
    while 0 < n
      invariant 0 <= base && 0 <= n && base + n <= ids[0].mid && -1 <= val <= 1
      invariant forall p :: 1 <= p <= base ==> ids[p].mid < id
      invariant forall p :: base + n < p <= ids[0].mid ==> ids[p].mid > id
      invariant if val == 0 then base == 0 && n == ids[0].mid && cursor == 1
        else if val < 0 then 1 <= cursor == base + n + 1 <= ids[0].mid else val > 0 && 1 <= cursor == base <= ids[0].mid
    {
      var pivot := n / 2;
      cursor := base + pivot + 1;
      val := if id < ids[cursor].mid then -1 else if id > ids[cursor].mid then 1 else 0;
      assert ids[cursor] == s[cursor - 1];
      forall p | 1 <= p <= ids[0].mid
        ensures (p < cursor ==> ids[p].mid < ids[cursor].mid) && (p > cursor ==> ids[p].mid > ids[cursor].mid)
      {
        assert ids[p] == s[p - 1];
      }
      if val < 0 {
        n := pivot;
      } else if val > 0 {
        base := cursor;
        n := n - (pivot + 1);
      } else {
        return cursor;
      }
    }
    if val > 0 { cursor := cursor + 1; }
    x := cursor;
  }

  function Spliced(s: seq<Id2>, k: nat, id: Id2): seq<Id2>
    requires k <= |s|
  {
    s[..k] + [id] + s[k..]
  }

  /** Between smaller and larger numbers. */
  ghost predicate Between(s: seq<Id2>, k: nat, mid: nat) {
    && k <= |s| && (forall p :: 0 <= p < k ==> s[p].mid < mid) && (forall p :: k <= p < |s| ==> mid < s[p].mid)
  }

  lemma SplicedRises(s: seq<Id2>, k: nat, id: Id2)
    requires Rising(s) && Between(s, k, id.mid)
    ensures Rising(Spliced(s, k, id))
  {
  }

  /** Shift the entries from x on up by one and store the new one. */
  method ShiftIn(ids: array<Id2>, x: nat, id: Id2)
    requires IsList(ids) && 1 <= x <= ids[0].mid + 1 < ids.Length
    modifies ids
    ensures IsList(ids) && ids[0].mid == old(ids[0].mid) + 1
    ensures List(ids) == Spliced(old(List(ids)), x - 1, id)
  {
    ghost var s := List(ids);
    ghost var n := |s|;
    ids[0] := ids[0].(mid := ids[0].mid + 1);
    var i := ids[0].mid;
    while i > x
      invariant x <= i <= n + 1 && ids[0].mid == n + 1
      invariant forall p :: 1 <= p < i && p <= n ==> ids[p] == s[p - 1]
      invariant forall p :: i < p <= n + 1 ==> ids[p] == s[p - 2]
    {
      ids[i] := ids[i - 1];
      i := i - 1;
    }
    ids[x] := id;
    ghost var t, u := Spliced(s, x - 1, id), List(ids);
    forall p | 0 <= p < n + 1 ensures u[p] == t[p] { assert u[p] == ids[p + 1]; }
    assert |u| == |t|;
  }

  lemma FoundPlace(ids: seq<Id2>, s: seq<Id2>, x: nat, mid: nat)
    requires |ids| > |s| && s == ids[1..|s| + 1] && 1 <= x <= |s| + 1 && Rising(s)
    requires forall p :: 1 <= p <= |s| ==> (p < x <==> ids[p].mid < mid)
    ensures if x <= |s| && ids[x].mid == mid then HasMid(s, mid) else Between(s, x - 1, mid) && !HasMid(s, mid)
  {
    assert forall p :: 0 <= p < |s| ==> s[p] == ids[p + 1];
    if x <= |s| { assert s[x - 1] in s; }
  }

  ghost predicate HasMid(s: seq<Id2>, mid: nat) { exists e :: e in s && e.mid == mid }

  /** mdb_mid2l_insert: 0 on success, -1 for a duplicate, -2 when the list is full. */
  method Insert(ids: array<Id2>, id: Id2) returns (rc: int)
    requires IsList(ids) && Rising(List(ids)) && ids.Length == UM_MAX + 1
    modifies ids
    ensures IsList(ids) && Rising(List(ids))
    ensures rc == if HasMid(old(List(ids)), id.mid) then -1 else if old(ids[0].mid) == UM_MAX then -2 else 0
    ensures rc != 0 ==> List(ids) == old(List(ids))
    ensures rc == 0 ==> exists k :: Between(old(List(ids)), k, id.mid) && List(ids) == Spliced(old(List(ids)), k, id)
  {
    hide Between, HasMid, Rising;
    var x := Search(ids, id.mid);
    FoundPlace(ids[..], List(ids), x, id.mid);
    if x <= ids[0].mid && ids[x].mid == id.mid { return -1; }
    if ids[0].mid >= UM_MAX { return -2; }
    BetweenBound(List(ids), x - 1, id.mid);
    SplicedRises(List(ids), x - 1, id);
    ShiftIn(ids, x, id);
    rc := 0;
  }

  lemma BetweenBound(s: seq<Id2>, k: nat, mid: nat)
    requires Between(s, k, mid)
    ensures k <= |s|
  {
  }

  // ---------------------------------------------------------------- the merge, as a function

  /** Both lists merged from the back; the second wins when both have a page. */
  function Merge(d: seq<Id2>, s: seq<Id2>): seq<Id2>
    decreases |d| + |s|
  {
    var x, y := |d|, |s|;
    if y == 0 then d
    else if x == 0 || d[x - 1].mid < s[y - 1].mid then Merge(d, s[..y - 1]) + [s[y - 1]]
    else if d[x - 1].mid == s[y - 1].mid then Merge(d[..x - 1], s[..y - 1]) + [s[y - 1]]
    else Merge(d[..x - 1], s) + [d[x - 1]]
  }

  function AsMap(s: seq<Id2>): map<nat, int> {
    if s == [] then map[] else AsMap(s[..|s| - 1])[s[|s| - 1].mid := s[|s| - 1].ptr]
  }

  ghost predicate BelowMid(s: seq<Id2>, mid: nat) { forall p :: 0 <= p < |s| ==> s[p].mid < mid }

  lemma {:induction false} MergeBelow(d: seq<Id2>, s: seq<Id2>, mid: nat)
    requires BelowMid(d, mid) && BelowMid(s, mid)
    ensures BelowMid(Merge(d, s), mid)
    decreases |d| + |s|
  {
    var x, y := |d|, |s|;
    if y == 0 {
    } else if x == 0 || d[x - 1].mid < s[y - 1].mid {
      MergeBelow(d, s[..y - 1], mid);
    } else if d[x - 1].mid == s[y - 1].mid {
      MergeBelow(d[..x - 1], s[..y - 1], mid);
    } else {
      MergeBelow(d[..x - 1], s, mid);
    }
  }

  lemma RisingFront(s: seq<Id2>)
    requires Rising(s) && s != []
    ensures Rising(s[..|s| - 1]) && BelowMid(s[..|s| - 1], s[|s| - 1].mid)
  {
  }

  lemma RisingSnoc(s: seq<Id2>, e: Id2)
    requires Rising(s) && BelowMid(s, e.mid)
    ensures Rising(s + [e])
  {
  }

  lemma BelowLast(s: seq<Id2>, mid: nat)
    requires Rising(s) && (s == [] || s[|s| - 1].mid < mid)
    ensures BelowMid(s, mid)
  {
  }

  /** The merge is sorted and free of duplicates. */
  lemma {:induction false} MergeRises(d: seq<Id2>, s: seq<Id2>)
    requires Rising(d) && Rising(s)
    ensures Rising(Merge(d, s))
    decreases |d| + |s|
  {
    hide Rising, BelowMid;
    var x, y := |d|, |s|;
    if x > 0 { RisingFront(d); }
    if y > 0 { RisingFront(s); }
    if y == 0 {
    } else if x == 0 || d[x - 1].mid < s[y - 1].mid {
      BelowLast(d, s[y - 1].mid);
      MergeRises(d, s[..y - 1]);
      MergeBelow(d, s[..y - 1], s[y - 1].mid);
      RisingSnoc(Merge(d, s[..y - 1]), s[y - 1]);
    } else if d[x - 1].mid == s[y - 1].mid {
      MergeRises(d[..x - 1], s[..y - 1]);
      MergeBelow(d[..x - 1], s[..y - 1], s[y - 1].mid);
      RisingSnoc(Merge(d[..x - 1], s[..y - 1]), s[y - 1]);
    } else {
      BelowLast(s, d[x - 1].mid);
      MergeRises(d[..x - 1], s);
      MergeBelow(d[..x - 1], s, d[x - 1].mid);
      RisingSnoc(Merge(d[..x - 1], s), d[x - 1]);
    }
  }

  lemma {:induction false} AsMapBelow(s: seq<Id2>, mid: nat)
    requires BelowMid(s, mid)
    ensures forall k :: k in AsMap(s) ==> k < mid
  {
    if s != [] { AsMapBelow(s[..|s| - 1], mid); }
  }

  lemma AsMapSnoc(s: seq<Id2>, e: Id2)
    ensures AsMap(s + [e]) == AsMap(s)[e.mid := e.ptr]
  {
    assert (s + [e])[..|s|] == s;
  }

  lemma OverrideBoth(a: map<nat, int>, b: map<nat, int>, k: nat, v: int, w: int)
    ensures (a + b)[k := v] == a + b[k := v] == a[k := w] + b[k := v]
  {
  }

  lemma OverrideLeft(a: map<nat, int>, b: map<nat, int>, k: nat, w: int)
    requires k !in b
    ensures (a + b)[k := w] == a[k := w] + b
  {
  }

  /** The merge holds the union of both lists, the second one's entries winning. */
  lemma {:induction false} MergeIsOverride(d: seq<Id2>, s: seq<Id2>)
    requires Rising(d) && Rising(s)
    ensures AsMap(Merge(d, s)) == AsMap(d) + AsMap(s)
    decreases |d| + |s|
  {
    hide Rising, BelowMid;
    var x, y := |d|, |s|;
    if x > 0 { RisingFront(d); }
    if y > 0 { RisingFront(s); }
    if y == 0 {
      assert AsMap(d) + map[] == AsMap(d);
    } else if x == 0 || d[x - 1].mid < s[y - 1].mid {
      MergeIsOverride(d, s[..y - 1]);
      AsMapSnoc(Merge(d, s[..y - 1]), s[y - 1]);
      OverrideBoth(AsMap(d), AsMap(s[..y - 1]), s[y - 1].mid, s[y - 1].ptr, 0);
    } else if d[x - 1].mid == s[y - 1].mid {
      MergeIsOverride(d[..x - 1], s[..y - 1]);
      AsMapSnoc(Merge(d[..x - 1], s[..y - 1]), s[y - 1]);
      OverrideBoth(AsMap(d[..x - 1]), AsMap(s[..y - 1]), s[y - 1].mid, s[y - 1].ptr, d[x - 1].ptr);
    } else {
      MergeIsOverride(d[..x - 1], s);
      AsMapSnoc(Merge(d[..x - 1], s), d[x - 1]);
      BelowLast(s, d[x - 1].mid);
      AsMapBelow(s, d[x - 1].mid);
      OverrideLeft(AsMap(d[..x - 1]), AsMap(s), d[x - 1].mid, d[x - 1].ptr);
    }
  }

  /** A sorted list has as many entries as pages. */
  lemma {:induction false} RisingSize(s: seq<Id2>)
    requires Rising(s)
    ensures |AsMap(s).Keys| == |s|
  {
    if s != [] {
      var n := |s| - 1;
      RisingFront(s);
      RisingSize(s[..n]);
      AsMapBelow(s[..n], s[n].mid);
      assert AsMap(s).Keys == AsMap(s[..n]).Keys + {s[n].mid};
    }
  }

  /** The length the merged list will have, from the two lists' maps. */
  lemma MergeSize(d: seq<Id2>, s: seq<Id2>)
    requires Rising(d) && Rising(s)
    ensures |Merge(d, s)| == |AsMap(d).Keys + AsMap(s).Keys|
    ensures |d| <= |Merge(d, s)|
  {
    MergeRises(d, s);
    MergeIsOverride(d, s);
    RisingSize(Merge(d, s));
    assert AsMap(Merge(d, s)).Keys == AsMap(d).Keys + AsMap(s).Keys;
    MergeLonger(d, s);
  }

  lemma {:induction false} MergeLonger(d: seq<Id2>, s: seq<Id2>)
    ensures |d| <= |Merge(d, s)|
    decreases |d| + |s|
  {
    var x, y := |d|, |s|;
    if y == 0 {
    } else if x == 0 || d[x - 1].mid < s[y - 1].mid {
      MergeLonger(d, s[..y - 1]);
    } else if d[x - 1].mid == s[y - 1].mid {
      MergeLonger(d[..x - 1], s[..y - 1]);
    } else {
      MergeLonger(d[..x - 1], s);
    }
  }

  // ---------------------------------------------------------------- the merge, in place

  /** The state of the backward merge: d's first x and s's first y entries are still to be merged,
      i slots are left for them, and everything above slot i is final. */
  ghost predicate Merging(d: seq<Id2>, s: seq<Id2>, dst: seq<Id2>, i: int, x: int, y: int) {
    && 0 <= x <= |d| && 0 <= y <= |s| && x <= i <= |Merge(d, s)|
    && i == |Merge(d[..x], s[..y])| && |Merge(d, s)| < |dst|
    && (forall p :: 1 <= p <= x ==> dst[p] == d[p - 1])
    && Merge(d, s) == Merge(d[..x], s[..y]) + dst[i + 1..|Merge(d, s)| + 1]
    && dst[0].mid == 0
  }

  lemma MergingStart(d: seq<Id2>, s: seq<Id2>, dst: seq<Id2>)
    requires |Merge(d, s)| < |dst| && dst[0].mid == 0 && forall p :: 1 <= p <= |d| ==> |d| < |dst| && dst[p] == d[p - 1]
    ensures Merging(d, s, dst, |Merge(d, s)|, |d|, |s|)
  {
    assert d[..|d|] == d && s[..|s|] == s;
    MergeLonger(d, s);
  }

  /** The next entry e goes to slot i. */
  lemma MergingStep(d: seq<Id2>, s: seq<Id2>, dst: seq<Id2>, i: int, x: int, y: int, x': int, y': int, e: Id2)
    requires Merging(d, s, dst, i, x, y) && 0 <= x' <= x && 0 <= y' <= y
    requires Merge(d[..x], s[..y]) == Merge(d[..x'], s[..y']) + [e]
    ensures i > 0 && i > x' && Merging(d, s, dst[i := e], i - 1, x', y')
  {
    MergeLonger(d[..x'], s[..y']);
    var n := |Merge(d, s)|;
    assert dst[i := e][i..n + 1] == [e] + dst[i + 1..n + 1];
  }

  lemma MergeOnce(d: seq<Id2>, s: seq<Id2>, x: int, y: int)
    requires 0 <= x <= |d| && 0 < y <= |s|
    ensures var a, b := d[..x], s[..y];
      if x == 0 || d[x - 1].mid < s[y - 1].mid then Merge(a, b) == Merge(a, s[..y - 1]) + [s[y - 1]]
      else if d[x - 1].mid == s[y - 1].mid then Merge(a, b) == Merge(d[..x - 1], s[..y - 1]) + [s[y - 1]]
      else Merge(a, b) == Merge(d[..x - 1], b) + [d[x - 1]]
  {
    var a, b := d[..x], s[..y];
    assert b[..y - 1] == s[..y - 1];
    if x > 0 { assert a[..x - 1] == d[..x - 1]; }
  }

  lemma MergingFacts(d: seq<Id2>, s: seq<Id2>, dst: seq<Id2>, i: int, x: int, y: int)
    requires Merging(d, s, dst, i, x, y)
    ensures 0 <= x <= |d| && 0 <= y <= |s| && x <= i < |dst| && dst[0].mid == 0
    ensures x > 0 ==> dst[x] == d[x - 1]
  {
    assert |Merge(d, s)| >= i;
  }

  lemma MergingEnd(d: seq<Id2>, s: seq<Id2>, dst: seq<Id2>, i: int, x: int)
    requires Merging(d, s, dst, i, x, 0)
    ensures i == x && dst[1..|Merge(d, s)| + 1] == Merge(d, s)
  {
    assert s[..0] == [] && Merge(d[..x], s[..0]) == d[..x];
    var n := |Merge(d, s)|;
    assert dst[1..x + 1] == d[..x];
    assert dst[1..n + 1] == dst[1..x + 1] + dst[x + 1..n + 1];
  }

  /** Move the parent's entries above page yp up. */
  method MoveLarger(dst: array<Id2>, i0: int, x0: int, yp: nat, ghost d: seq<Id2>, ghost s: seq<Id2>, ghost y: int)
    returns (i: int, x: int)
    requires Merging(d, s, dst[..], i0, x0, y) && 0 < y && s[y - 1].mid == yp
    modifies dst
    ensures Merging(d, s, dst[..], i, x, y)
    ensures 0 <= x < dst.Length && (x == 0 || (x <= |d| && dst[x] == d[x - 1])) && dst[x].mid <= yp
  {
    hide Merging, Merge;
    i, x := i0, x0;
    MergingFacts(d, s, dst[..], i, x, y);
    while yp < dst[x].mid
      invariant 0 <= x < dst.Length && Merging(d, s, dst[..], i, x, y)
      decreases x
    {
      MergingFacts(d, s, dst[..], i, x, y);
      MergeOnce(d, s, x, y);
      MergingStep(d, s, dst[..], i, x, y, x - 1, y, d[x - 1]);
      dst[i] := dst[x];
      i, x := i - 1, x - 1;
    }
    MergingFacts(d, s, dst[..], i, x, y);
  }

  /** Merge our dirty list with the parent's.  `len` is what the merged list will hold; it ends
      with i == x, every remaining entry of the parent already in place. */
  method MergeInto(dst: array<Id2>, src: array<Id2>, len: nat) returns (i: int, x: int)
    requires dst != src && IsList(dst) && IsList(src)
    requires Rising(List(dst)) && Rising(List(src)) && Numbered(List(src))
    requires len == |AsMap(List(dst)).Keys + AsMap(List(src)).Keys| < dst.Length
    modifies dst
    ensures i == x
    ensures IsList(dst) && Rising(List(dst))
    ensures AsMap(List(dst)) == AsMap(old(List(dst))) + AsMap(List(src))
  {
    hide Merging, Merge, AsMap, Rising;
    ghost var d, s := List(dst), List(src);
    MergeSize(d, s);
    MergeRises(d, s);
    MergeIsOverride(d, s);
    x := dst[0].mid;
    dst[0] := dst[0].(mid := 0);
    var y := src[0].mid;
    i := len;
    MergingStart(d, s, dst[..]);
    while y > 0
      invariant 0 <= y <= |s| && s == List(src) && Merging(d, s, dst[..], i, x, y)
    {
      assert src[y] == s[y - 1];
      var yp := src[y].mid;
      i, x := MoveLarger(dst, i, x, yp, d, s, y);
      MergingFacts(d, s, dst[..], i, x, y);
      MergeOnce(d, s, x, y);
      if yp == dst[x].mid {
        MergingStep(d, s, dst[..], i, x, y, x - 1, y - 1, s[y - 1]);
        x := x - 1;
      } else {
        MergingStep(d, s, dst[..], i, x, y, x, y - 1, s[y - 1]);
      }
      dst[i] := src[y];
      i, y := i - 1, y - 1;
    }
    MergingEnd(d, s, dst[..], i, x);
    dst[0] := dst[0].(mid := len);
    assert List(dst) == dst[1..len + 1];
  }

  // ---------------------------------------------------------------- the length of the merge

  /** Pages that both lists have. */
  ghost function Common(d: seq<Id2>, s: seq<Id2>): int { |d| + |s| - |Merge(d, s)| }

  lemma CommonOnce(d: seq<Id2>, s: seq<Id2>, x: int, y: int)
    requires 0 <= x <= |d| && 0 < y <= |s|
    ensures Common(d[..x], s[..y]) ==
      if x == 0 || d[x - 1].mid < s[y - 1].mid then Common(d[..x], s[..y - 1])
      else if d[x - 1].mid == s[y - 1].mid then Common(d[..x - 1], s[..y - 1]) + 1
      else Common(d[..x - 1], s[..y])
  {
    hide Merge;
    MergeOnce(d, s, x, y);
  }

  lemma {:induction false} CommonNone(s: seq<Id2>)
    ensures Common([], s) == 0
  {
    if s != [] {
      var y, none: seq<Id2> := |s| - 1, [];
      assert none[..0] == none && s[..|s|] == s;
      CommonOnce(none, s, 0, |s|);
      CommonNone(s[..y]);
    }
  }

  /** The child's pages above all of the parent's are not shared. */
  lemma {:induction false} CommonAbove(d: seq<Id2>, s: seq<Id2>, y: int, top: int)
    requires 0 <= y <= top <= |s| && forall k :: y <= k < top ==> d == [] || d[|d| - 1].mid < s[k].mid
    ensures Common(d, s[..top]) == Common(d, s[..y])
    decreases top
  {
    if y < top {
      assert d[..|d|] == d;
      CommonOnce(d, s, |d|, top);
      CommonAbove(d, s, y, top - 1);
    }
  }

  /** Find len = length of merging our dirty list with the parent's, counting from the back. */
  method CountMerged(dst: array<Id2>, src: array<Id2>, x: nat) returns (len: int)
    requires IsList(src) && Rising(List(src)) && Numbered(List(src)) && x < dst.Length && dst[0].mid == 0
    ensures len == |Merge(dst[1..x + 1], List(src))|
  {
    hide Merge, Common, Rising;
    ghost var d, s := dst[1..x + 1], List(src);
    len := x + src[0].mid;
    var y: int := Search(src, dst[x].mid + 1);
    y := y - 1;
    CountStart(src[..], dst[..], d, s, x, y);
    var i: int := x;
    while y > 0 && i > 0
      invariant 0 <= i <= x && 0 <= y <= |s|
      invariant len == |Merge(d, s)| + Common(d[..i], s[..y])
      decreases i + y
    {
      var yp := src[y].mid;
      assert src[y] == s[y - 1];
      while yp < dst[i].mid
        invariant 0 <= i <= x && len == |Merge(d, s)| + Common(d[..i], s[..y])
        decreases i
      {
        assert dst[i] == d[i - 1];
        CommonOnce(d, s, i, y);
        i := i - 1;
      }
      CommonOnce(d, s, i, y);
      if i > 0 { assert dst[i] == d[i - 1]; }
      if yp == dst[i].mid { i, len := i - 1, len - 1; }
      y := y - 1;
    }
    CountEnd(d, s, i, y);
  }

  lemma CountStart(src: seq<Id2>, dst: seq<Id2>, d: seq<Id2>, s: seq<Id2>, x: int, y: int)
    requires 0 <= x < |dst| && d == dst[1..x + 1] && |s| < |src| && s == src[1..|s| + 1] && 0 <= y <= |s|
    requires forall p :: 1 <= p <= |s| ==> (p < y + 1 <==> src[p].mid < dst[x].mid + 1)
    ensures d[..x] == d && x + |s| == |Merge(d, s)| + Common(d[..x], s[..y])
  {
    assert forall k :: 0 <= k < |s| ==> s[k] == src[k + 1];
    assert s[..|s|] == s && d[..x] == d && (d != [] ==> d[|d| - 1] == dst[x]);
    CommonAbove(d, s, y, |s|);
  }

  lemma CountEnd(d: seq<Id2>, s: seq<Id2>, i: int, y: int)
    requires 0 <= i <= |d| && 0 <= y <= |s| && (i == 0 || y == 0)
    ensures Common(d[..i], s[..y]) == 0
  {
    if i == 0 {
      assert d[..0] == [];
      CommonNone(s[..y]);
    } else {
      assert s[..0] == [];
    }
  }

  // ---------------------------------------------------------------- dropping spilled pages

  function Without(s: seq<Id2>, k: nat): seq<Id2>
    requires k < |s|
  {
    s[..k] + s[k + 1..]
  }

  lemma WithoutRises(s: seq<Id2>, k: nat)
    requires Rising(s) && k < |s|
    ensures Rising(Without(s, k))
  {
  }

  lemma {:induction false} WithoutMap(s: seq<Id2>, k: nat)
    requires Rising(s) && k < |s|
    ensures AsMap(Without(s, k)) == AsMap(s) - {s[k].mid}
  {
    hide Rising, BelowMid;
    var n := |s| - 1;
    RisingFront(s);
    if k == n {
      assert Without(s, k) == s[..n];
      AsMapBelow(s[..n], s[n].mid);
    } else {
      WithoutMap(s[..n], k);
      assert Without(s, k) == Without(s[..n], k) + [s[n]];
      AsMapSnoc(Without(s[..n], k), s[n]);
      MidsDiffer(s, k, n);
    }
  }

  lemma MidsDiffer(s: seq<Id2>, k: nat, n: nat)
    requires Rising(s) && k < n < |s|
    ensures s[k].mid < s[n].mid
  {
  }

  /** Shift the entries after y down by one. */
  method ShiftOut(ids: array<Id2>, at: nat)
    requires IsList(ids) && 1 <= at <= ids[0].mid
    modifies ids
    ensures IsList(ids) && ids[0].mid == old(ids[0].mid) - 1
    ensures List(ids) == Without(old(List(ids)), at - 1)
  {
    ghost var s := List(ids);
    ghost var n := |s|;
    var y := at;
    while y < ids[0].mid
      invariant at <= y <= n == ids[0].mid
      invariant forall p :: 1 <= p < at || y < p <= n ==> ids[p] == s[p - 1]
      invariant forall p :: at <= p < y ==> ids[p] == s[p]
    {
      ids[y] := ids[y + 1];
      y := y + 1;
    }
    ids[0] := ids[0].(mid := ids[0].mid - 1);
    ghost var t, u := Without(s, at - 1), List(ids);
    forall p | 0 <= p < n - 1 ensures u[p] == t[p] { assert u[p] == ids[p + 1]; }
    assert |u| == |t|;
  }

  /** The pages of a spill list: its even entries, halved. */
  ghost function SpilledPages(spill: seq<nat>): set<nat> {
    if spill == [] then {} else
      SpilledPages(spill[..|spill| - 1]) + if spill[|spill| - 1] % 2 == 0 then {spill[|spill| - 1] / 2} else {}
  }

  lemma SpilledPagesSnoc(spill: seq<nat>, i: nat)
    requires i < |spill|
    ensures SpilledPages(spill[..i + 1]) == SpilledPages(spill[..i]) + if spill[i] % 2 == 0 then {spill[i] / 2} else {}
  {
    assert spill[..i + 1][..i] == spill[..i];
  }

  lemma {:induction false} AsMapHas(s: seq<Id2>, mid: nat)
    ensures mid in AsMap(s) <==> HasMid(s, mid)
  {
    if s != [] {
      var n := |s| - 1;
      AsMapHas(s[..n], mid);
      assert s == s[..n] + [s[n]];
    }
  }

  /** Drop one page from the list if it is there. */
  method Drop(dst: array<Id2>, pn: nat)
    requires IsList(dst) && Rising(List(dst))
    modifies dst
    ensures IsList(dst) && Rising(List(dst)) && AsMap(List(dst)) == AsMap(old(List(dst))) - {pn}
  {
    hide AsMap, Rising;
    ghost var s := List(dst);
    var y := Search(dst, pn);
    FoundPlace(dst[..], s, y, pn);
    if y <= dst[0].mid && dst[y].mid == pn {
      assert s[y - 1] == dst[y];
      WithoutRises(s, y - 1);
      WithoutMap(s, y - 1);
      ShiftOut(dst, y);
    } else {
      AsMapHas(s, pn);
      assert AsMap(s) - {pn} == AsMap(s);
    }
  }

  /** Remove anything in the child's spill list from the parent's dirty list. */
  method DropSpilled(dst: array<Id2>, spill: seq<nat>)
    requires IsList(dst) && Rising(List(dst))
    modifies dst
    ensures IsList(dst) && Rising(List(dst)) && AsMap(List(dst)) == AsMap(old(List(dst))) - SpilledPages(spill)
  {
    hide AsMap, Rising, SpilledPages;
    ghost var m := AsMap(List(dst));
    SpilledPagesNil(m);
    var i := 0;
    while i < |spill|
      invariant 0 <= i <= |spill| && IsList(dst) && Rising(List(dst))
      invariant AsMap(List(dst)) == m - SpilledPages(spill[..i])
    {
      SpilledPagesSnoc(spill, i);
      if spill[i] % 2 == 0 {
        Drop(dst, spill[i] / 2);
        assert m - SpilledPages(spill[..i]) - {spill[i] / 2} == m - SpilledPages(spill[..i + 1]);
      }
      i := i + 1;
    }
    assert spill[..|spill|] == spill;
  }

  lemma SpilledPagesNil(m: map<nat, int>)
    ensures m - SpilledPages([]) == m
  {
  }

  // ---------------------------------------------------------------- the commit

  /** What mdb_txn_commit does to the dirty lists of a nested transaction and its parent.  `nested`
      says that the parent has a parent itself; otherwise the merged length is read off dirtyRoom. */
  method CommitDirty(dst: array<Id2>, src: array<Id2>, spill: seq<nat>, nested: bool, dirtyRoom: nat)
    requires dst != src && IsList(dst) && IsList(src) && dst.Length == UM_MAX + 1
    requires Rising(List(dst)) && Rising(List(src)) && Numbered(List(src))
    requires var merged := (AsMap(List(dst)) - SpilledPages(spill)) + AsMap(List(src));
      |merged.Keys| <= UM_MAX && (!nested ==> |merged.Keys| == UM_MAX - dirtyRoom)
    modifies dst
    ensures IsList(dst) && Rising(List(dst))
    ensures AsMap(List(dst)) == (AsMap(old(List(dst))) - SpilledPages(spill)) + AsMap(List(src))
  {
    hide AsMap, Rising, SpilledPages, Merge, Numbered;
    DropSpilled(dst, spill);
    ghost var d, s := List(dst), List(src);
    MergeSize(d, s);
    KeysOfSum(AsMap(d), AsMap(s));
    var len;
    if nested {
      var x := dst[0].mid;
      dst[0] := dst[0].(mid := 0);
      assert dst[1..x + 1] == d;
      len := CountMerged(dst, src, x);
      dst[0] := dst[0].(mid := x);
      assert List(dst) == d;
    } else {
      len := UM_MAX - dirtyRoom;
    }
    var i, x := MergeInto(dst, src, len);
  }

  lemma KeysOfSum(a: map<nat, int>, b: map<nat, int>)
    ensures (a + b).Keys == a.Keys + b.Keys
  {
  }
}
