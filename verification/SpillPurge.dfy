/**
  Committing a nested transaction: the child's dirty pages leave the parent's spill list.  A spill
  list is a descending ID list of page numbers shifted left by one; an odd entry is deleted.
 */
module SpillPurge {
  import opened MidlSort
  import Midl
  import DirtyMerge
  import FreeRun

  type Id2 = DirtyMerge.Id2

  /** The spill-list entries of the first n dirty pages. */
  ghost predicate Dead(src: seq<Id2>, n: int, e: nat) { exists k :: 0 <= k < n <= |src| && e == 2 * src[k].mid }

  /** e, or the mark of a deleted entry. */
  ghost function Marked(src: seq<Id2>, n: int, e: nat): nat { if Dead(src, n, e) then 1 else e }

  /** Marking has dealt with the first n dirty pages and with the entries right of x; none of the
      first y entries has been deleted.  Lists include their slot 0. */
  ghost predicate Marking(s: seq<Id>, cur: seq<Id>, src: seq<Id2>, n: int, x: int, y: int) {
    && 0 <= x <= y < |s| == |cur| && 0 <= n <= |src| && cur[0] == Midl.MAXID
    && (forall p :: 1 <= p < |s| ==> cur[p] == Marked(src, n, s[p]))
    && (forall p :: 1 <= p <= y ==> !Dead(src, n, s[p]))
    && (forall p, k :: 1 <= p <= x && 0 <= k < n ==> s[p] > 2 * src[k].mid)
    && (n > 0 ==> forall p :: x < p < |s| ==> s[p] <= 2 * src[n - 1].mid)
    && (n == 0 ==> x == |s| - 1)
  }

  ghost predicate Falls(s: seq<Id>) { forall p, q :: 1 <= p < q < |s| ==> s[p] > s[q] }

  lemma DeadMore(src: seq<Id2>, n: int, e: nat)
    requires 0 <= n < |src|
    ensures Dead(src, n + 1, e) <==> Dead(src, n, e) || e == 2 * src[n].mid
  {
  }

  /** Dirty page n is not in the spill list. */
  lemma MarkAbsent(s: seq<Id>, cur: seq<Id>, src: seq<Id2>, n: int, x: int, y: int, x': int)
    requires Marking(s, cur, src, n, x, y) && Falls(s) && DirtyMerge.Rising(src) && n < |src| && 0 <= x' <= x
    requires forall p :: x' < p <= x ==> s[p] < 2 * src[n].mid
    requires x' > 0 ==> s[x'] > 2 * src[n].mid
    ensures Marking(s, cur, src, n + 1, x', y)
  {
    var e := 2 * src[n].mid;
    forall p | 1 <= p < |s| ensures s[p] != e && (p > x' ==> s[p] < e) && (p <= x' ==> s[p] > e) {
      if p > x { if n > 0 { assert src[n - 1].mid < src[n].mid; } }
    }
    forall p | 1 <= p < |s| ensures Dead(src, n + 1, s[p]) <==> Dead(src, n, s[p]) { DeadMore(src, n, s[p]); }
  }

  /** Dirty page n is at x' in the spill list: mark it. */
  lemma MarkFound(s: seq<Id>, cur: seq<Id>, src: seq<Id2>, n: int, x: int, y: int, x': int)
    requires Marking(s, cur, src, n, x, y) && Falls(s) && DirtyMerge.Rising(src) && n < |src| && 1 <= x' <= x
    requires s[x'] == 2 * src[n].mid
    ensures Marking(s, cur[x' := 1], src, n + 1, x' - 1, x' - 1)
  {
    var e := 2 * src[n].mid;
    forall p | 1 <= p < |s| ensures (p > x' ==> s[p] < e) && (p < x' ==> s[p] > e) { }
    forall p | 1 <= p < |s|
      ensures Dead(src, n + 1, s[p]) <==> Dead(src, n, s[p]) || p == x'
    {
      DeadMore(src, n, s[p]);
    }
  }

  lemma MarkStart(s: seq<Id>, src: seq<Id2>)
    requires 0 < |s|
    ensures Marking(s, s[0 := Midl.MAXID], src, 0, |s| - 1, |s| - 1)
  {
  }

  lemma MarkRead(s: seq<Id>, cur: seq<Id>, src: seq<Id2>, n: int, x: int, y: int, p: int)
    requires Marking(s, cur, src, n, x, y) && 0 <= p <= x
    ensures cur[p] == if p == 0 then Midl.MAXID else s[p]
    ensures 0 <= x <= y < |cur| == |s|
  {
  }

  lemma MarkBounds(s: seq<Id>, cur: seq<Id>, src: seq<Id2>, n: int, x: int, y: int)
    requires Marking(s, cur, src, n, x, y)
    ensures 0 <= x <= y < |cur| == |s|
  {
  }

  // ---------------------------------------------------------------- squashing

  /** The entries of s after the first k that are not deleted. */
  ghost function Evens(s: seq<Id>): seq<Id> {
    if s == [] then [] else Evens(s[..|s| - 1]) + if s[|s| - 1] % 2 == 0 then [s[|s| - 1]] else []
  }

  lemma {:induction false} EvensLength(s: seq<Id>)
    ensures |Evens(s)| <= |s|
  {
    if s != [] { EvensLength(s[..|s| - 1]); }
  }

  lemma {:induction false} EvensMembers(s: seq<Id>, e: nat)
    ensures e in Evens(s) <==> e in s && e % 2 == 0
  {
    if s != [] {
      var n := |s| - 1;
      EvensMembers(s[..n], e);
      assert s == s[..n] + [s[n]];
    }
  }

  /** The entries not deleted descend. */
  ghost predicate EvensFall(s: seq<Id>) {
    forall p, q :: 0 <= p < q < |s| && s[p] % 2 == 0 && s[q] % 2 == 0 ==> s[p] > s[q]
  }

  lemma {:induction false} EvensStrict(s: seq<Id>)
    requires EvensFall(s)
    ensures FreeRun.Strict(Evens(s))
  {
    if s != [] {
      var n := |s| - 1;
      var front := s[..n];
      EvensStrict(front);
      var evens := Evens(front);
      forall p | 0 <= p < |evens| && s[n] % 2 == 0 ensures evens[p] > s[n] {
        EvensMembers(front, evens[p]);
        var q :| 0 <= q < n && front[q] == evens[p];
      }
    }
  }

  lemma EvensSnoc(s: seq<Id>, k: int, x: int)
    requires 0 <= k <= x < |s|
    ensures Evens(s[k..x + 1]) == Evens(s[k..x]) + if s[x] % 2 == 0 then [s[x]] else []
  {
    assert s[k..x + 1][..x - k] == s[k..x];
  }

  /** Squash deleted entries out of slots k + 1 .. psLen. */
  method Squash(pspill: array<Id>, k: nat, psLen: nat) returns (y: nat)
    requires k <= psLen < pspill.Length
    modifies pspill
    ensures k <= y <= psLen && pspill[0] == old(pspill[0])
    ensures pspill[1..k + 1] == old(pspill[1..k + 1])
    ensures pspill[k + 1..y + 1] == Evens(old(pspill[k + 1..psLen + 1]))
  {
    hide Evens;
    ghost var was := pspill[..];
    y := k;
    var x := k + 1;
    EvensNil();
    assert was[k + 1..k + 1] == [];
    while x <= psLen
      invariant k <= y < x <= psLen + 1
      invariant forall p :: 0 <= p <= k || x <= p < pspill.Length ==> pspill[p] == was[p]
      invariant pspill[k + 1..y + 1] == Evens(was[k + 1..x])
    {
      EvensSnoc(was, k + 1, x);
      if pspill[x] % 2 == 0 {
        ghost var kept := pspill[k + 1..y + 1];
        y := y + 1;
        pspill[y] := pspill[x];
        assert pspill[k + 1..y + 1] == kept + [was[x]];
      }
      x := x + 1;
    }
  }

  lemma EvensNil()
    ensures Evens([]) == []
  {
  }

  // ---------------------------------------------------------------- the whole loop

  /** Mark our dirty pages as deleted in the parent's spill list. */
  method MarkDead(pspill: array<Id>, psLen: nat, src: seq<Id2>, ghost s: seq<Id>) returns (ghost x: int, y: int)
    requires psLen < pspill.Length && |s| == psLen + 1 && Falls(s) && pspill[..psLen + 1] == s[0 := Midl.MAXID]
    requires DirtyMerge.Rising(src) && forall k :: 0 <= k < |src| ==> 2 * src[k].mid <= Midl.MAXID
    modifies pspill
    ensures Marking(s, pspill[..psLen + 1], src, |src|, x, y) && 0 <= y <= psLen
  {
    hide Marking, Falls, DirtyMerge.Rising;
    var at, i := psLen, 0;
    y := psLen;
    MarkStart(s, src);
    while i < |src|
      invariant 0 <= i <= |src| && 0 <= at <= psLen && Marking(s, pspill[..psLen + 1], src, i, at, y)
    {
      var pn := 2 * src[i].mid;
      ghost var from, cur := at, pspill[..psLen + 1];
      MarkRead(s, cur, src, i, from, y, at);
      while pn > pspill[at]
        invariant 0 <= at <= from < |s| && pspill[..psLen + 1] == cur
        invariant forall p :: at < p <= from ==> s[p] < pn
        decreases at
      {
        MarkRead(s, cur, src, i, from, y, at);
        at := at - 1;
      }
      MarkRead(s, cur, src, i, from, y, at);
      if pn == pspill[at] {
        MarkFound(s, cur, src, i, from, y, at);
        pspill[at] := 1;
        assert pspill[..psLen + 1] == cur[at := 1];
        at := at - 1;
        y := at;
      } else {
        MarkAbsent(s, cur, src, i, from, y, at);
      }
      i := i + 1;
    }
    x := at;
    MarkRead(s, pspill[..psLen + 1], src, i, at, y, at);
  }

  /** Exactly the child's pages are gone. */
  ghost predicate Purged(old': seq<Id>, new': seq<Id>, src: seq<Id2>) {
    && (forall e: nat :: e % 2 == 0 ==> (e in new' <==> e in old' && !Dead(src, |src|, e)))
    && (forall e :: e in new' ==> e in old')
  }

  lemma PurgedMember(s: seq<Id>, cur: seq<Id>, src: seq<Id2>, x: int, y: int, t: seq<Id>, e: nat)
    requires Marking(s, cur, src, |src|, x, y) && t == cur[1..y + 1] + Evens(cur[y + 1..])
    ensures e in t ==> e in s[1..] && (e % 2 == 0 ==> !Dead(src, |src|, e))
    ensures e in s[1..] && e % 2 == 0 && !Dead(src, |src|, e) ==> e in t
  {
    hide Evens, Dead;
    EvensMembers(cur[y + 1..], e);
    if e in t {
      if e in cur[1..y + 1] {
        var p :| 1 <= p <= y && cur[p] == e;
        assert s[1..][p - 1] == s[p];
      } else {
        var p :| y < p < |cur| && cur[p] == e;
        assert s[1..][p - 1] == s[p];
      }
    }
    if e in s[1..] && e % 2 == 0 && !Dead(src, |src|, e) {
      var p :| 1 <= p < |s| && s[p] == e;
      assert cur[p] == e;
      if p <= y { assert cur[1..y + 1][p - 1] == e; } else { assert cur[y + 1..][p - y - 1] == e; }
    }
  }

  lemma PurgedAll(s: seq<Id>, cur: seq<Id>, src: seq<Id2>, x: int, y: int, t: seq<Id>)
    requires Marking(s, cur, src, |src|, x, y) && t == cur[1..y + 1] + Evens(cur[y + 1..])
    ensures Purged(s[1..], t, src)
  {
    hide Marking, Evens, Dead;
    MarkBounds(s, cur, src, |src|, x, y);
    forall e: nat
      ensures e in t ==> e in s[1..] && (e % 2 == 0 ==> !Dead(src, |src|, e))
      ensures e in s[1..] && e % 2 == 0 && !Dead(src, |src|, e) ==> e in t
    {
      PurgedMember(s, cur, src, x, y, t, e);
    }
  }

  /** What marking leaves right of y still descends, deleted entries aside. */
  lemma BackFalls(s: seq<Id>, cur: seq<Id>, src: seq<Id2>, x: int, y: int)
    requires Marking(s, cur, src, |src|, x, y) && Falls(s)
    ensures EvensFall(cur[y + 1..])
  {
    hide Dead;
    var back := cur[y + 1..];
    forall p, q | 0 <= p < q < |back| && back[p] % 2 == 0 && back[q] % 2 == 0 ensures back[p] > back[q] {
      assert back[p] == s[y + 1 + p] && back[q] == s[y + 1 + q];
    }
  }

  ghost predicate AllAbove(a: seq<Id>, b: seq<Id>) { forall x, y :: x in a && y in b ==> x > y }

  /** ... and lies below everything up to y, which descends as before. */
  lemma FrontAbove(s: seq<Id>, cur: seq<Id>, src: seq<Id2>, x: int, y: int)
    requires Marking(s, cur, src, |src|, x, y) && Falls(s)
    ensures FreeRun.Strict(cur[1..y + 1])
    ensures AllAbove(cur[1..y + 1], Evens(cur[y + 1..]))
  {
    hide Dead, Evens;
    var front, back := cur[1..y + 1], cur[y + 1..];
    assert forall p :: 1 <= p <= y ==> cur[p] == s[p];
    var evens := Evens(back);
    forall a, e | a in front && e in evens ensures a > e {
      var p :| 1 <= p <= y && cur[p] == a;
      EvensMembers(back, e);
      var m :| 0 <= m < |back| && back[m] == e;
      assert e == s[y + 1 + m];
    }
  }

  lemma StrictConcat(a: seq<Id>, b: seq<Id>)
    requires FreeRun.Strict(a) && FreeRun.Strict(b) && AllAbove(a, b)
    ensures FreeRun.Strict(a + b)
  {
    forall p, q | 0 <= p < q < |a + b| ensures (a + b)[p] > (a + b)[q] {
      if p < |a| <= q { assert a[p] in a && b[q - |a|] in b; }
    }
  }

  lemma PurgedStrict(s: seq<Id>, cur: seq<Id>, src: seq<Id2>, x: int, y: int, t: seq<Id>)
    requires Marking(s, cur, src, |src|, x, y) && Falls(s) && t == cur[1..y + 1] + Evens(cur[y + 1..])
    ensures FreeRun.Strict(t)
  {
    hide Marking, Evens, EvensFall, FreeRun.Strict;
    MarkBounds(s, cur, src, |src|, x, y);
    BackFalls(s, cur, src, x, y);
    EvensStrict(cur[y + 1..]);
    FrontAbove(s, cur, src, x, y);
    StrictConcat(cur[1..y + 1], Evens(cur[y + 1..]));
  }

  lemma StrictFalls(s: seq<Id>)
    requires 0 < |s| && FreeRun.Strict(s[1..])
    ensures Falls(s)
  {
    forall p, q | 1 <= p < q < |s| ensures s[p] > s[q] { assert s[1..][p - 1] == s[p] && s[1..][q - 1] == s[q]; }
  }

  /** Remove anything in the child's dirty list from the parent's spill list. */
  method Purge(pspill: array<Id>, src: seq<Id2>)
    requires Midl.IsList(pspill) && FreeRun.Strict(Midl.List(pspill))
    requires DirtyMerge.Rising(src) && forall k :: 0 <= k < |src| ==> 2 * src[k].mid <= Midl.MAXID
    modifies pspill
    ensures Midl.IsList(pspill) && Purged(old(Midl.List(pspill)), Midl.List(pspill), src)
    ensures FreeRun.Strict(Midl.List(pspill))
  {
    hide Marking, Dead, Evens, DirtyMerge.Rising, FreeRun.Strict, Purged, Falls;
    var psLen := pspill[0];
    if psLen == 0 {
      PurgedNothing(src);
      assert Midl.List(pspill) == [];
      return;
    }
    ghost var s := pspill[..psLen + 1];
    assert s[1..] == Midl.List(pspill);
    StrictFalls(s);
    pspill[0] := Midl.MAXID;
    assert pspill[..psLen + 1] == s[0 := Midl.MAXID];
    ghost var x;
    var y;
    x, y := MarkDead(pspill, psLen, src, s);
    ghost var cur := pspill[..psLen + 1];
    assert pspill[y + 1..psLen + 1] == cur[y + 1..] && pspill[1..y + 1] == cur[1..y + 1];
    var z := Squash(pspill, y, psLen);
    assert pspill[1..z + 1] == pspill[1..y + 1] + pspill[y + 1..z + 1];
    PurgedAll(s, cur, src, x, y, pspill[1..z + 1]);
    PurgedStrict(s, cur, src, x, y, pspill[1..z + 1]);
    pspill[0] := z;
    assert Midl.List(pspill) == pspill[1..z + 1];
  }

  lemma PurgedNothing(src: seq<Id2>)
    ensures Purged([], [], src)
  {
  }
}
