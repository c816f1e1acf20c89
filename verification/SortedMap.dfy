/** The plain sorted map that the tree refines, as a sorted sequence of entries. */
module SortedMap {
  import opened Wrappers
  import opened BTree

  type Entry = (real, Val)
  type Bound = Option<real>

  function PutSeq(es: seq<Entry>, k: real, v: Val): seq<Entry> {
    if es == [] || k < es[0].0 then [(k, v)] + es
    else if es[0].0 == k then [(k, v)] + es[1..]
    else [es[0]] + PutSeq(es[1..], k, v)
  }

  function DelSeq(es: seq<Entry>, k: real): seq<Entry> {
    if es == [] then []
    else if es[0].0 == k then es[1..]
    else [es[0]] + DelSeq(es[1..], k)
  }

  function GetSeq(es: seq<Entry>, k: real): Option<Val> {
    if es == [] then None
    else if es[0].0 == k then Some(es[0].1)
    else GetSeq(es[1..], k)
  }

  /** The number of entries below k. */
  function RankSeq(es: seq<Entry>, k: real): (i: nat)
    ensures i <= |es|
  {
    if es == [] || k <= es[0].0 then 0 else 1 + RankSeq(es[1..], k)
  }

  ghost predicate Sorted(es: seq<Entry>) {
    forall i, j :: 0 <= i < j < |es| ==> es[i].0 < es[j].0
  }

  predicate AtLeast(k: real, lo: Bound) { lo.Some? ==> lo.value <= k }
  predicate Under(k: real, hi: Bound) { hi.Some? ==> k < hi.value }

  /** lo < hi, None standing for the ends of the order. */
  predicate Below(lo: Bound, hi: Bound) { lo.Some? && hi.Some? ==> lo.value < hi.value }

  ghost predicate Within(es: seq<Entry>, lo: Bound, hi: Bound) {
    forall e :: e in es ==> AtLeast(e.0, lo) && Under(e.0, hi)
  }

  /** The sequence as a mathematical map. */
  ghost function Dict(es: seq<Entry>): map<real, Val> {
    if es == [] then map[] else Dict(es[1..])[es[0].0 := es[0].1]
  }

  lemma {:induction false} DictKeys(es: seq<Entry>)
    ensures forall k :: k in Dict(es) <==> exists i :: 0 <= i < |es| && es[i].0 == k
  {
    if es != [] {
      DictKeys(es[1..]);
      forall k ensures k in Dict(es) <==> exists i :: 0 <= i < |es| && es[i].0 == k {
        if k == es[0].0 {
          assert es[0].0 == k;
        } else if k in Dict(es[1..]) {
          var i :| 0 <= i < |es[1..]| && es[1..][i].0 == k;
          assert es[i + 1].0 == k;
        } else {
          forall i | 0 <= i < |es| ensures es[i].0 != k {
            if i > 0 { assert es[1..][i - 1] == es[i]; }
          }
        }
      }
    }
  }

  lemma SortedTail(es: seq<Entry>)
    requires Sorted(es) && es != []
    ensures Sorted(es[1..]) && forall e :: e in es[1..] ==> es[0].0 < e.0
  {
  }

  lemma DictCons(e: Entry, es: seq<Entry>)
    ensures Dict([e] + es) == Dict(es)[e.0 := e.1]
  {
    assert ([e] + es)[1..] == es;
  }

  /** Put overwrites or inserts exactly one key. */
  lemma {:induction false} PutIsUpdate(es: seq<Entry>, k: real, v: Val)
    ensures Sorted(es) ==> Dict(PutSeq(es, k, v)) == Dict(es)[k := v]
  {
    if es == [] || k < es[0].0 {
      DictCons((k, v), es);
    } else if es[0].0 == k {
      DictCons((k, v), es[1..]);
    } else {
      PutIsUpdate(es[1..], k, v);
      DictCons(es[0], PutSeq(es[1..], k, v));
    }
  }

  lemma {:induction false} PutKeepsSorted(es: seq<Entry>, k: real, v: Val)
    requires Sorted(es)
    ensures Sorted(PutSeq(es, k, v))
    ensures forall e :: e in PutSeq(es, k, v) ==> e == (k, v) || e in es
  {
    if es != [] {
      SortedTail(es);
      if es[0].0 < k {
        PutKeepsSorted(es[1..], k, v);
        var p := PutSeq(es[1..], k, v);
        forall j | 0 < j < |p| + 1 ensures es[0].0 < ([es[0]] + p)[j].0 {
          assert p[j - 1] in p;
        }
      }
    }
  }

  lemma NotInDict(es: seq<Entry>, k: real)
    requires forall e :: e in es ==> k < e.0
    ensures k !in Dict(es)
  {
    DictKeys(es);
  }

  /** Delete removes exactly one key. */
  lemma {:induction false} DelIsRemove(es: seq<Entry>, k: real)
    requires Sorted(es)
    ensures Dict(DelSeq(es, k)) == Dict(es) - {k}
  {
    if es != [] {
      SortedTail(es);
      if es[0].0 == k {
        NotInDict(es[1..], k);
      } else {
        DelIsRemove(es[1..], k);
        DictCons(es[0], DelSeq(es[1..], k));
      }
    }
  }

  lemma {:induction false} DelKeepsSorted(es: seq<Entry>, k: real)
    requires Sorted(es)
    ensures Sorted(DelSeq(es, k))
    ensures forall e :: e in DelSeq(es, k) ==> e in es
  {
    if es != [] {
      SortedTail(es);
      if es[0].0 != k {
        DelKeepsSorted(es[1..], k);
        var p := DelSeq(es[1..], k);
        forall j | 0 < j < |p| + 1 ensures es[0].0 < ([es[0]] + p)[j].0 {
          assert p[j - 1] in p;
        }
      }
    }
  }

  /** Get is lookup. */
  lemma {:induction false} GetIsLookup(es: seq<Entry>, k: real)
    requires Sorted(es)
    ensures GetSeq(es, k) == if k in Dict(es) then Some(Dict(es)[k]) else None
  {
    if es != [] {
      SortedTail(es);
      GetIsLookup(es[1..], k);
    }
  }

  // ---------------------------------------------------------------- working in the middle

  /** All of a is below k and all of c above it: only the middle matters. */
  ghost predicate Around(a: seq<Entry>, c: seq<Entry>, k: real) {
    (forall e :: e in a ==> e.0 < k) && (forall e :: e in c ==> k < e.0)
  }

  lemma {:induction false} PutFront(b: seq<Entry>, c: seq<Entry>, k: real, v: Val)
    requires forall e :: e in c ==> k < e.0
    ensures PutSeq(b + c, k, v) == PutSeq(b, k, v) + c
  {
    if b == [] {
      assert b + c == c;
      assert c != [] ==> c[0] in c;
    } else {
      assert (b + c)[1..] == b[1..] + c;
      PutFront(b[1..], c, k, v);
    }
  }

  lemma {:induction false} PutMiddle(a: seq<Entry>, b: seq<Entry>, c: seq<Entry>, k: real, v: Val)
    requires Around(a, c, k)
    ensures PutSeq(a + b + c, k, v) == a + PutSeq(b, k, v) + c
  {
    if a != [] {
      var es := a + b + c;
      assert es[0] == a[0] && a[0] in a && es[1..] == a[1..] + b + c;
      PutMiddle(a[1..], b, c, k, v);
      assert a == [a[0]] + a[1..];
    } else {
      assert a + b + c == b + c;
      PutFront(b, c, k, v);
      assert a + PutSeq(b, k, v) == PutSeq(b, k, v);
    }
  }

  lemma {:induction false} DelAbove(c: seq<Entry>, k: real)
    requires forall e :: e in c ==> k < e.0
    ensures DelSeq(c, k) == c
  {
    if c != [] {
      assert c[0] in c;
      DelAbove(c[1..], k);
    }
  }

  lemma {:induction false} DelFront(b: seq<Entry>, c: seq<Entry>, k: real)
    requires forall e :: e in c ==> k < e.0
    ensures DelSeq(b + c, k) == DelSeq(b, k) + c
  {
    if b == [] {
      assert b + c == c;
      DelAbove(c, k);
    } else {
      assert (b + c)[1..] == b[1..] + c;
      DelFront(b[1..], c, k);
    }
  }

  lemma {:induction false} DelMiddle(a: seq<Entry>, b: seq<Entry>, c: seq<Entry>, k: real)
    requires Around(a, c, k)
    ensures DelSeq(a + b + c, k) == a + DelSeq(b, k) + c
  {
    if a != [] {
      var es := a + b + c;
      assert es[0] == a[0] && a[0] in a && es[1..] == a[1..] + b + c;
      DelMiddle(a[1..], b, c, k);
      assert a == [a[0]] + a[1..];
    } else {
      assert a + b + c == b + c;
      DelFront(b, c, k);
      assert a + DelSeq(b, k) == DelSeq(b, k);
    }
  }

  lemma {:induction false} GetMiddle(a: seq<Entry>, b: seq<Entry>, c: seq<Entry>, k: real)
    requires Around(a, c, k)
    ensures GetSeq(a + b + c, k) == GetSeq(b, k)
    decreases |a| + |b| + |c|
  {
    var es := a + b + c;
    if a != [] {
      assert es[0] == a[0] && a[0] in a && es[1..] == a[1..] + b + c;
      GetMiddle(a[1..], b, c, k);
    } else if b != [] {
      assert es[0] == b[0] && es[1..] == [] + b[1..] + c;
      GetMiddle([], b[1..], c, k);
    } else if c != [] {
      assert es == c && c[0] in c && c[1..] == [] + [] + c[1..];
      GetMiddle([], [], c[1..], k);
    }
  }

  lemma SortedConcat(a: seq<Entry>, b: seq<Entry>, lo: Bound, m: real, hi: Bound)
    requires Sorted(a) && Sorted(b) && Within(a, lo, Some(m)) && Within(b, Some(m), hi)
    requires Below(lo, Some(m)) && Below(Some(m), hi)
    ensures Sorted(a + b) && Within(a + b, lo, hi)
  {
    var c := a + b;
    forall i, j | 0 <= i < j < |c| ensures c[i].0 < c[j].0 {
      if i < |a| <= j { assert c[i] in a && c[j] in b; }
    }
  }
}
