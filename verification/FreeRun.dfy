/**
  Contiguous runs of free pages: the search and removal of mdb_page_alloc, and the longest-run
  scan of mdb_stat, on strictly descending lists of page numbers.
 */
module FreeRun {
  import opened MidlSort
  import opened Midl

  ghost predicate Strict(s: seq<Id>) { forall p, q :: 0 <= p < q < |s| ==> s[p] > s[q] }

  /** The n pages x, x + 1, ... are all in the list. */
  ghost predicate Run(s: seq<Id>, x: Id, n: nat) { forall y: Id :: x <= y < x + n ==> y in s }

  ghost predicate HasRun(s: seq<Id>, n: nat) { exists x :: Run(s, x, n) }

  /** The end-difference test: the element m places before i is greater by exactly m. */
  predicate EndsMatch(s: seq<Id>, i: int, m: int) { 0 <= m <= i < |s| && s[i - m] == s[i] + m }

  ghost predicate NoneFrom(s: seq<Id>, i: int, m: int) { forall k :: i <= k < |s| ==> !EndsMatch(s, k, m) }

  ghost predicate SomeFrom(s: seq<Id>, i: int, m: int) { exists k :: i <= k < |s| && EndsMatch(s, k, m) }

  lemma {:induction false} Spread(s: seq<Id>, p: int, q: int)
    requires Strict(s) && 0 <= p <= q < |s|
    ensures s[p] >= s[q] + (q - p)
    decreases q - p
  {
    if p < q { Spread(s, p, q - 1); }
  }

  /** Equal end difference leaves no room for gaps. */
  lemma NoGaps(s: seq<Id>, i: int, m: int, k: int)
    requires Strict(s) && EndsMatch(s, i, m) && 0 <= k <= m
    ensures s[i - k] == s[i] + k
  {
    Spread(s, i - m, i - k);
    Spread(s, i - k, i);
  }

  lemma MatchIsRun(s: seq<Id>, i: int, n: nat)
    requires Strict(s) && n > 0 && EndsMatch(s, i, n - 1)
    ensures Run(s, s[i], n)
  {
    forall y: Id | s[i] <= y < s[i] + n ensures y in s {
      NoGaps(s, i, n - 1, y - s[i]);
      assert s[i - (y - s[i])] in s;
    }
  }

  /** The elements of a run stand next to each other. */
  lemma {:induction false} RunStands(s: seq<Id>, x: Id, n: nat, i: int)
    requires Strict(s) && Run(s, x, n) && n > 0 && 0 <= i < |s| && s[i] == x
    ensures EndsMatch(s, i, n - 1)
  {
    if n > 1 {
      RunStands(s, x, n - 1, i);
      assert x + (n - 1) in s;
      var p :| 0 <= p < |s| && s[p] == x + (n - 1);
      assert s[i - (n - 2)] == x + (n - 2);
      assert p <= i - (n - 2);
      Spread(s, p, i - (n - 2));
    }
  }

  lemma RunIsMatch(s: seq<Id>, x: Id, n: nat) returns (i: int)
    requires Strict(s) && Run(s, x, n) && n > 0
    ensures EndsMatch(s, i, n - 1) && s[i] == x
  {
    assert x in s;
    i :| 0 <= i < |s| && s[i] == x;
    RunStands(s, x, n, i);
  }

  lemma NoMatchNoRun(s: seq<Id>, n: nat)
    requires Strict(s) && n > 0 && NoneFrom(s, 0, n - 1)
    ensures !HasRun(s, n)
  {
    if HasRun(s, n) {
      var x :| Run(s, x, n);
      var i := RunIsMatch(s, x, n);
    }
  }

  lemma ShorterRun(s: seq<Id>, n: nat, m: nat)
    requires HasRun(s, n) && m <= n
    ensures HasRun(s, m)
  {
    var x :| Run(s, x, n);
    assert Run(s, x, m);
  }

  // ---------------------------------------------------------------- mdb_page_alloc

  /** Seek a big enough contiguous page range, preferring pages at the tail: succeeds exactly
      when the list has num consecutive pages.  i is 0 when it does not. */
  method FindRun(mop: array<Id>, num: nat) returns (i: nat, pgno: Id)
    requires IsList(mop) && Strict(List(mop)) && num > 0
    ensures i > 0 <==> HasRun(List(mop), num)
    ensures i > 0 ==> i <= mop[0] && pgno == mop[i] && EndsMatch(List(mop), i - 1, num - 1)
    ensures i > 0 ==> NoneFrom(List(mop), i, num - 1)
  {
    ghost var s := List(mop);
    var mopLen, n2 := mop[0], num - 1;
    i, pgno := mopLen, 0;
    if mopLen > n2 {
      while i > n2
        invariant n2 <= i <= mopLen
        invariant NoneFrom(s, i, n2)
      {
        pgno := mop[i];
        assert s[i - 1] == mop[i] && s[i - 1 - n2] == mop[i - n2];
        if mop[i - n2] == pgno + n2 {
          MatchIsRun(s, i - 1, num);
          return;
        }
        i := i - 1;
      }
    }
    assert NoneFrom(s, 0, n2);
    NoMatchNoRun(s, num);
    i, pgno := 0, 0;
  }

  /** Take the run that ends at slot i out of the list, moving any stragglers down. */
  method RemoveRun(mop: array<Id>, i0: nat, num: nat)
    requires IsList(mop) && Strict(List(mop)) && 0 < num <= i0 <= mop[0]
    requires EndsMatch(List(mop), i0 - 1, num - 1)
    modifies mop
    ensures IsList(mop) && mop[0] == old(mop[0]) - num
    ensures List(mop) == old(List(mop))[..i0 - num] + old(List(mop))[i0..]
  {
    var mopLen := mop[0] - num;
    mop[0] := mopLen;
    var i, j := i0, i0 - num;
    while j < mopLen
      invariant i == j + num && i0 - num <= j <= mopLen
      invariant mop[0] == mopLen
      invariant forall p :: 1 <= p <= i0 - num ==> mop[p] == old(mop[p])
      invariant forall p :: i0 - num < p <= j ==> mop[p] == old(mop[p + num])
      invariant forall p :: i < p <= mopLen + num ==> mop[p] == old(mop[p])
    {
      j, i := j + 1, i + 1;
      mop[j] := mop[i];
    }
    ghost var was := old(List(mop));
    ghost var now, want := List(mop), was[..i0 - num] + was[i0..];
    forall p | 0 <= p < |now| ensures now[p] == want[p] { assert now[p] == mop[p + 1]; }
    assert |now| == |want|;
  }

  /** What removing a run means: exactly its pages are gone, and the list stays descending. */
  lemma RunRemoved(s: seq<Id>, i: int, num: nat)
    requires Strict(s) && 0 < num <= i <= |s| && EndsMatch(s, i - 1, num - 1)
    ensures var t := s[..i - num] + s[i..];
      Strict(t) && forall x :: x in t <==> x in s && !(s[i - 1] <= x < s[i - 1] + num)
  {
    var t, x0 := s[..i - num] + s[i..], s[i - 1];
    forall x ensures x in t <==> x in s && !(x0 <= x < x0 + num) {
      if x in s {
        var p :| 0 <= p < |s| && s[p] == x;
        RunPlace(s, i, num, p);
        if p < i - num { assert t[p] == x; } else if p >= i { assert t[p - num] == x; }
      }
      if x in t {
        var q :| 0 <= q < |t| && t[q] == x;
        var p := if q < i - num then q else q + num;
        assert s[p] == x;
        RunPlace(s, i, num, p);
      }
    }
  }

  /** The elements of the run are exactly those in its slots. */
  lemma RunPlace(s: seq<Id>, i: int, num: nat, p: int)
    requires Strict(s) && 0 < num <= i <= |s| && EndsMatch(s, i - 1, num - 1) && 0 <= p < |s|
    ensures s[i - 1] <= s[p] < s[i - 1] + num <==> i - num <= p < i
  {
    if i - num <= p < i {
      NoGaps(s, i - 1, num - 1, i - 1 - p);
    } else if p >= i {
      assert s[i - 1] > s[p];
    } else {
      assert s[p] > s[i - num];
    }
  }

  // ---------------------------------------------------------------- mdb_stat

  /** The longest run of the list. */
  ghost predicate LongestRun(s: seq<Id>, n: nat) {
    (n > 0 ==> HasRun(s, n)) && forall m: nat :: HasRun(s, m) ==> m <= n
  }

  /** The span so far: some element from i on ends a run of that length, none a longer one. */
  ghost predicate SpanSoFar(s: seq<Id>, i: int, span: int) {
    && 0 <= span <= |s|
    && (span > 0 ==> SomeFrom(s, i, span - 1))
    && (forall k, m :: i <= k < |s| && span <= m ==> !EndsMatch(s, k, m))
  }

  lemma Reachable(s: seq<Id>, i: int, span: int, m: int)
    requires Strict(s) && 0 <= i && EndsMatch(s, i, m) && span <= m && 0 <= span
    ensures EndsMatch(s, i, span)
  {
    NoGaps(s, i, m, span);
  }

  /** No element from i on ends a run longer than the span. */
  lemma SpanGrows(s: seq<Id>, i: int, span: int, span': int)
    requires Strict(s) && 0 <= i < |s| && SpanSoFar(s, i + 1, span) && span <= span' <= i + 1
    requires span < span' ==> EndsMatch(s, i, span' - 1)
    requires !EndsMatch(s, i, span')
    ensures SpanSoFar(s, i, span')
  {
    forall k, m | i <= k < |s| && span' <= m ensures !EndsMatch(s, k, m) {
      if k == i && EndsMatch(s, k, m) { Reachable(s, i, span', m); }
    }
    if span' > 0 {
      if span < span' {
        assert EndsMatch(s, i, span' - 1);
      } else {
        var k :| i + 1 <= k < |s| && EndsMatch(s, k, span - 1);
      }
    }
  }

  lemma SpanIsLongest(s: seq<Id>, span: nat)
    requires Strict(s) && SpanSoFar(s, 0, span)
    ensures LongestRun(s, span)
  {
    if span > 0 {
      var k :| 0 <= k < |s| && EndsMatch(s, k, span - 1);
      MatchIsRun(s, k, span);
    }
    forall m: nat | HasRun(s, m) ensures m <= span {
      if m > span {
        var x :| Run(s, x, m);
        var i := RunIsMatch(s, x, m);
      }
    }
  }

  /** A freelist record as mdb_freelist_save writes it: strictly descending page numbers above 1. */
  ghost predicate GoodSequence(s: seq<Id>) { Strict(s) && forall x :: x in s ==> x > 1 }

  /** mdb_stat's one pass over a record: it reports a bad sequence exactly when the record is not
      strictly descending above page 1, and otherwise the length of its longest run. */
  method ScanRecord(s: seq<Id>) returns (span: int, bad: bool)
    ensures bad <==> !GoodSequence(s)
    ensures !bad ==> span >= 0 && LongestRun(s, span)
  {
    span, bad := 0, false;
    var i, prev: nat := |s|, 1;
    while i > 0
      invariant 0 <= i <= |s| && 0 <= span <= |s|
      invariant prev == if i == |s| then 1 else s[i]
      invariant bad <==> !GoodSequence(s[i..])
      invariant Strict(s) ==> SpanSoFar(s, i, span)
    {
      i := i - 1;
      var pg := s[i];
      GoodCons(s, i);
      if pg <= prev { bad := true; }
      prev := pg;
      pg := pg + span;
      ghost var before := span;
      while i >= span && s[i - span] == pg
        invariant before <= span <= |s| && pg == s[i] + span && before <= span
        invariant span == before || span <= i + 1
        invariant before < span ==> EndsMatch(s, i, span - 1)
        decreases i - span
      {
        span, pg := span + 1, pg + 1;
      }
      if Strict(s) { SpanStep(s, i, before, span); }
    }
    assert s[0..] == s;
    if !bad { SpanIsLongest(s, span); }
  }

  lemma SpanStep(s: seq<Id>, i: int, span: int, span': int)
    requires Strict(s) && 0 <= i < |s| && SpanSoFar(s, i + 1, span) && span <= span' <= |s|
    requires span < span' ==> EndsMatch(s, i, span' - 1)
    requires i < span' || s[i - span'] != s[i] + span'
    ensures SpanSoFar(s, i, span')
  {
    if span' <= i + 1 {
      SpanGrows(s, i, span, span');
    } else {
      assert span' == span;
      forall k, m | i <= k < |s| && span' <= m ensures !EndsMatch(s, k, m) { }
      var k :| i + 1 <= k < |s| && EndsMatch(s, k, span - 1);
    }
  }

  lemma GoodTail(x: Id, u: seq<Id>)
    requires GoodSequence([x] + u)
    ensures GoodSequence(u) && x > if u == [] then 1 else u[0]
  {
    var t := [x] + u;
    forall p, q | 0 <= p < q < |u| ensures u[p] > u[q] { assert u[p] == t[p + 1] && u[q] == t[q + 1]; }
    assert forall y :: y in u ==> y in t;
    assert t[0] in t && (u != [] ==> t[1] == u[0]);
  }

  lemma GoodHead(x: Id, u: seq<Id>)
    requires GoodSequence(u) && x > if u == [] then 1 else u[0]
    ensures GoodSequence([x] + u)
  {
    var t := [x] + u;
    if u != [] { assert u[0] in u; }
    assert forall y :: y in t ==> y == x || y in u;
  }

  lemma GoodCons(s: seq<Id>, i: int)
    requires 0 <= i < |s|
    ensures GoodSequence(s[i..]) <==> GoodSequence(s[i + 1..]) && s[i] > (if i + 1 == |s| then 1 else s[i + 1])
  {
    assert s[i..] == [s[i]] + s[i + 1..];
    if GoodSequence(s[i..]) {
      GoodTail(s[i], s[i + 1..]);
    } else if GoodSequence(s[i + 1..]) && s[i] > (if i + 1 == |s| then 1 else s[i + 1]) {
      GoodHead(s[i], s[i + 1..]);
    }
  }

  /** What the scan is for: exactly the requests up to its result can be met by the search. */
  lemma SpanIsSatisfiable(s: seq<Id>, span: nat, num: nat)
    requires LongestRun(s, span) && num > 0
    ensures HasRun(s, num) <==> num <= span
  {
    if num <= span { ShorterRun(s, span, num); }
  }
}
