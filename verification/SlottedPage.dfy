/**
  The bytes of a leaf or branch page: node offsets grow up from the header, nodes grow down from
  the end.  Adding, deleting and re-keying a node shift bytes and offsets in place.
 */
module SlottedPage {
  import opened Limits
  import opened SplitPoint

  const F_BIGDATA := 1

  // ---------------------------------------------------------------- nodes

  function U16(mem: seq<byte>, p: nat): (r: nat)
    requires p + 2 <= |mem|
    ensures r < 0x1_0000
  {
    mem[p] as int + 256 * (mem[p + 1] as int)
  }

  /** mn_lo, mn_hi: the size of a leaf node's data (or half of a branch node's page number). */
  function Dsize(mem: seq<byte>, p: nat): nat
    requires p + NODESIZE <= |mem|
  {
    U16(mem, p) + 0x1_0000 * U16(mem, p + 2)
  }

  function Flags(mem: seq<byte>, p: nat): nat
    requires p + NODESIZE <= |mem|
  {
    U16(mem, p + 4)
  }

  function Ksize(mem: seq<byte>, p: nat): nat
    requires p + NODESIZE <= |mem|
  {
    U16(mem, p + 6)
  }

  /** Bytes of the node at offset p that mean something, as mdb_node_del works them out. */
  function Used(leaf: bool, mem: seq<byte>, p: nat): (n: nat)
    requires p + NODESIZE <= |mem|
    ensures n >= NODESIZE
  {
    NODESIZE + Ksize(mem, p) +
      if !leaf then 0 else if Flags(mem, p) % 2 == F_BIGDATA then PGNO else Dsize(mem, p)
  }

  /** Bytes of the page that the node occupies. */
  function Size(leaf: bool, mem: seq<byte>, p: nat): (n: nat)
    requires p + NODESIZE <= |mem|
    ensures n % 2 == 0 && NODESIZE <= Used(leaf, mem, p) <= n <= Used(leaf, mem, p) + 1
  {
    Even(Used(leaf, mem, p))
  }

  /** A node lies, evenly aligned, between upper and the end of the page. */
  predicate Placed(leaf: bool, mem: seq<byte>, p: nat, upper: nat) {
    upper <= p && p % 2 == 0 && p + NODESIZE <= |mem| && p + Size(leaf, mem, p) <= |mem|
  }

  predicate Apart(leaf: bool, mem: seq<byte>, p: nat, q: nat)
    requires p + NODESIZE <= |mem| && q + NODESIZE <= |mem|
  {
    p + Size(leaf, mem, p) <= q || q + Size(leaf, mem, q) <= p
  }

  predicate Covers(leaf: bool, mem: seq<byte>, p: nat, o: nat)
    requires p + NODESIZE <= |mem|
  {
    p <= o < p + Size(leaf, mem, p)
  }

  /** The nodes tile [upper, end of page) exactly: each byte there belongs to one node. */
  ghost predicate Layout(leaf: bool, mem: seq<byte>, ptrs: seq<nat>, upper: nat) {
    && upper <= |mem| && upper % 2 == 0 && |mem| % 2 == 0
    && (forall i :: 0 <= i < |ptrs| ==> Placed(leaf, mem, ptrs[i], upper))
    && (forall i, j :: 0 <= i < j < |ptrs| ==> Apart(leaf, mem, ptrs[i], ptrs[j]))
    && (forall o: nat :: upper <= o < |mem| ==> Covered(leaf, mem, ptrs, o))
  }

  ghost predicate Covered(leaf: bool, mem: seq<byte>, ptrs: seq<nat>, o: nat) {
    exists i :: 0 <= i < |ptrs| && ptrs[i] + NODESIZE <= |mem| && Covers(leaf, mem, ptrs[i], o)
  }

  /** The bytes of the node at offset p. */
  function NodeAt(leaf: bool, mem: seq<byte>, p: nat): seq<byte>
    requires Placed(leaf, mem, p, 0)
  {
    mem[p..p + Used(leaf, mem, p)]
  }

  /** The logical content of the page: the bytes of its nodes, in index order. */
  ghost function Nodes(leaf: bool, mem: seq<byte>, ptrs: seq<nat>): seq<seq<byte>>
    requires forall i :: 0 <= i < |ptrs| ==> Placed(leaf, mem, ptrs[i], 0)
  {
    seq(|ptrs|, i requires 0 <= i < |ptrs| => NodeAt(leaf, mem, ptrs[i]))
  }

  lemma LayoutPlaced(leaf: bool, mem: seq<byte>, ptrs: seq<nat>, upper: nat)
    requires Layout(leaf, mem, ptrs, upper)
    ensures forall i :: 0 <= i < |ptrs| ==> Placed(leaf, mem, ptrs[i], 0)
  {
  }

  // ---------------------------------------------------------------- moving bytes

  /** n bytes at p in mem reappear at q in mem'. */
  predicate Same(mem: seq<byte>, p: nat, mem': seq<byte>, q: nat, n: nat) {
    p + n <= |mem| && q + n <= |mem'| && mem[p..p + n] == mem'[q..q + n]
  }

  lemma SameBytes(mem: seq<byte>, p: nat, mem': seq<byte>, q: nat, n: nat)
    requires p + n <= |mem| && q + n <= |mem'|
    requires forall o: nat :: p <= o < p + n ==> mem[o] == mem'[q - p + o]
    ensures Same(mem, p, mem', q, n)
  {
    var a, b := mem[p..p + n], mem'[q..q + n];
    forall k | 0 <= k < n ensures a[k] == b[k] { assert a[k] == mem[p + k]; }
  }

  lemma SameU16(mem: seq<byte>, p: nat, mem': seq<byte>, q: nat, n: nat, k: nat)
    requires Same(mem, p, mem', q, n) && k + 2 <= n
    ensures U16(mem', q + k) == U16(mem, p + k)
  {
    var a, b := mem[p..p + n], mem'[q..q + n];
    assert a[k] == mem[p + k] && a[k + 1] == mem[p + k + 1];
    assert b[k] == mem'[q + k] && b[k + 1] == mem'[q + k + 1];
  }

  lemma SameUsed(leaf: bool, mem: seq<byte>, p: nat, mem': seq<byte>, q: nat)
    requires p + NODESIZE <= |mem| && Same(mem, p, mem', q, Used(leaf, mem, p))
    ensures q + NODESIZE <= |mem'| && Used(leaf, mem', q) == Used(leaf, mem, p)
  {
    hide U16;
    var n := Used(leaf, mem, p);
    SameU16(mem, p, mem', q, n, 0);
    SameU16(mem, p, mem', q, n, 2);
    SameU16(mem, p, mem', q, n, 4);
    SameU16(mem, p, mem', q, n, 6);
  }

  /** A node whose bytes are moved is the same node elsewhere. */
  lemma SameNode(leaf: bool, mem: seq<byte>, p: nat, mem': seq<byte>, q: nat)
    requires Placed(leaf, mem, p, 0) && q % 2 == 0 && q + Size(leaf, mem, p) <= |mem'|
    requires Same(mem, p, mem', q, Used(leaf, mem, p))
    ensures q + NODESIZE <= |mem'| && Size(leaf, mem', q) == Size(leaf, mem, p)
    ensures Placed(leaf, mem', q, q) && NodeAt(leaf, mem', q) == NodeAt(leaf, mem, p)
  {
    hide Used;
    SameUsed(leaf, mem, p, mem', q);
  }

  // ---------------------------------------------------------------- deleting a node

  /** Where a node at p stands once the sz bytes at q are gone. */
  function Shifted(p: nat, q: nat, sz: nat): nat { if p < q then p + sz else p }

  /** mdb_node_del moved [upper, q) up by sz over the deleted node. */
  ghost predicate Closed(mem: seq<byte>, mem': seq<byte>, upper: nat, q: nat, sz: nat) {
    && |mem'| == |mem| && upper <= q && q + sz <= |mem|
    && (forall o: nat :: upper <= o < q ==> mem'[o + sz] == mem[o])
    && (forall o: nat :: q + sz <= o < |mem| ==> mem'[o] == mem[o])
  }

  lemma ShiftedNode(leaf: bool, mem: seq<byte>, mem': seq<byte>, upper: nat, q: nat, sz: nat, p: nat)
    requires Closed(mem, mem', upper, q, sz) && sz % 2 == 0 && Placed(leaf, mem, p, upper)
    requires p + Size(leaf, mem, p) <= q || q + sz <= p
    ensures var p' := Shifted(p, q, sz);
      && Placed(leaf, mem', p', upper + sz) && Size(leaf, mem', p') == Size(leaf, mem, p)
      && NodeAt(leaf, mem', p') == NodeAt(leaf, mem, p)
  {
    hide Size, Used, NodeAt;
    SizeBounds(leaf, mem, p);
    var p', n := Shifted(p, q, sz), Used(leaf, mem, p);
    SameBytes(mem, p, mem', p', n);
    SameNode(leaf, mem, p, mem', p');
  }

  function Rest<T>(s: seq<T>, k: nat): (r: seq<T>)
    requires k < |s|
    ensures |r| == |s| - 1
    ensures forall i :: 0 <= i < |r| ==> r[i] == s[if i < k then i else i + 1]
  {
    s[..k] + s[k + 1..]
  }

  function ShiftAll(ptrs: seq<nat>, q: nat, sz: nat): (r: seq<nat>)
    ensures |r| == |ptrs| && forall i :: 0 <= i < |r| ==> r[i] == Shifted(ptrs[i], q, sz)
  {
    seq(|ptrs|, i requires 0 <= i < |ptrs| => Shifted(ptrs[i], q, sz))
  }

  /** Every other node is clear of node k. */
  lemma RestClear(leaf: bool, mem: seq<byte>, ptrs: seq<nat>, upper: nat, k: nat, i: nat)
    requires Layout(leaf, mem, ptrs, upper) && k < |ptrs| && i < |ptrs| - 1
    ensures var q, p := ptrs[k], Rest(ptrs, k)[i];
      && Placed(leaf, mem, q, upper) && Placed(leaf, mem, p, upper)
      && (p + Size(leaf, mem, p) <= q || q + Size(leaf, mem, q) <= p)
  {
    hide Size;
    var m := if i < k then i else i + 1;
    assert Placed(leaf, mem, ptrs[m], upper) && Placed(leaf, mem, ptrs[k], upper);
    if m < k { assert Apart(leaf, mem, ptrs[m], ptrs[k]); } else { assert Apart(leaf, mem, ptrs[k], ptrs[m]); }
  }

  lemma RestApart(leaf: bool, mem: seq<byte>, ptrs: seq<nat>, upper: nat, k: nat, i: nat, j: nat)
    requires Layout(leaf, mem, ptrs, upper) && k < |ptrs| && i < j < |ptrs| - 1
    ensures var a, b := Rest(ptrs, k)[i], Rest(ptrs, k)[j];
      Placed(leaf, mem, a, upper) && Placed(leaf, mem, b, upper) && Apart(leaf, mem, a, b)
  {
    hide Size;
    var m, n := if i < k then i else i + 1, if j < k then j else j + 1;
    assert Placed(leaf, mem, ptrs[m], upper) && Placed(leaf, mem, ptrs[n], upper);
  }

  /** A byte outside node k belongs to one of the others. */
  lemma RestCovers(leaf: bool, mem: seq<byte>, ptrs: seq<nat>, upper: nat, k: nat, o: nat) returns (i: nat)
    requires Layout(leaf, mem, ptrs, upper) && k < |ptrs| && upper <= o < |mem|
    requires Placed(leaf, mem, ptrs[k], upper) && !Covers(leaf, mem, ptrs[k], o)
    ensures i < |ptrs| - 1 && Rest(ptrs, k)[i] + NODESIZE <= |mem| && Covers(leaf, mem, Rest(ptrs, k)[i], o)
  {
    hide Size;
    assert Covered(leaf, mem, ptrs, o);
    var m :| 0 <= m < |ptrs| && ptrs[m] + NODESIZE <= |mem| && Covers(leaf, mem, ptrs[m], o);
    i := if m < k then m else m - 1;
  }

  /** The bytes close up over the deleted node, and the offsets follow. */
  lemma DelLayout(leaf: bool, mem: seq<byte>, mem': seq<byte>, ptrs: seq<nat>, upper: nat, k: nat)
    requires Layout(leaf, mem, ptrs, upper) && k < |ptrs| && Placed(leaf, mem, ptrs[k], upper)
    requires Closed(mem, mem', upper, ptrs[k], Size(leaf, mem, ptrs[k]))
    ensures var q, sz := ptrs[k], Size(leaf, mem, ptrs[k]);
      Layout(leaf, mem', ShiftAll(Rest(ptrs, k), q, sz), upper + sz)
  {
    hide Size, Closed, Covered, NodeAt, Used;
    var q, sz, rest := ptrs[k], Size(leaf, mem, ptrs[k]), Rest(ptrs, k);
    var after := ShiftAll(rest, q, sz);
    ClosedLength(mem, mem', upper, q, sz);
    forall i | 0 <= i < |after| ensures Placed(leaf, mem', after[i], upper + sz) {
      DelOne(leaf, mem, mem', ptrs, upper, k, i);
    }
    forall i, j | 0 <= i < j < |after| ensures Apart(leaf, mem', after[i], after[j]) {
      DelOne(leaf, mem, mem', ptrs, upper, k, i);
      DelOne(leaf, mem, mem', ptrs, upper, k, j);
      RestApart(leaf, mem, ptrs, upper, k, i, j);
    }
    forall o: nat | upper + sz <= o < |mem'| ensures Covered(leaf, mem', after, o) {
      DelCovered(leaf, mem, mem', ptrs, upper, k, o);
    }
  }

  lemma ClosedLength(mem: seq<byte>, mem': seq<byte>, upper: nat, q: nat, sz: nat)
    requires Closed(mem, mem', upper, q, sz)
    ensures |mem'| == |mem| && upper <= q && q + sz <= |mem|
  {
  }

  lemma DelOne(leaf: bool, mem: seq<byte>, mem': seq<byte>, ptrs: seq<nat>, upper: nat, k: nat, i: nat)
    requires Layout(leaf, mem, ptrs, upper) && k < |ptrs| && i < |ptrs| - 1 && Placed(leaf, mem, ptrs[k], upper)
    requires Closed(mem, mem', upper, ptrs[k], Size(leaf, mem, ptrs[k]))
    ensures var q, sz, p := ptrs[k], Size(leaf, mem, ptrs[k]), Rest(ptrs, k)[i];
      && Placed(leaf, mem, p, upper) && (p + Size(leaf, mem, p) <= q || q + sz <= p)
      && Placed(leaf, mem', Shifted(p, q, sz), upper + sz)
      && Size(leaf, mem', Shifted(p, q, sz)) == Size(leaf, mem, p)
      && NodeAt(leaf, mem', Shifted(p, q, sz)) == NodeAt(leaf, mem, p)
  {
    hide Layout, Closed, NodeAt;
    RestClear(leaf, mem, ptrs, upper, k, i);
    ShiftedNode(leaf, mem, mem', upper, ptrs[k], Size(leaf, mem, ptrs[k]), Rest(ptrs, k)[i]);
  }

  lemma DelCovered(leaf: bool, mem: seq<byte>, mem': seq<byte>, ptrs: seq<nat>, upper: nat, k: nat, o: nat)
    requires Layout(leaf, mem, ptrs, upper) && k < |ptrs| && Placed(leaf, mem, ptrs[k], upper)
    requires Closed(mem, mem', upper, ptrs[k], Size(leaf, mem, ptrs[k]))
    requires upper + Size(leaf, mem, ptrs[k]) <= o < |mem|
    ensures Covered(leaf, mem', ShiftAll(Rest(ptrs, k), ptrs[k], Size(leaf, mem, ptrs[k])), o)
  {
    hide Layout, Closed, Size;
    var q, sz := ptrs[k], Size(leaf, mem, ptrs[k]);
    var was := if o < q + sz then o - sz else o;
    var i := RestCovers(leaf, mem, ptrs, upper, k, was);
    DelOne(leaf, mem, mem', ptrs, upper, k, i);
    assert Covers(leaf, mem', Shifted(Rest(ptrs, k)[i], q, sz), o);
  }

  /** Exactly node k is gone from the logical content. */
  lemma DelNodes(leaf: bool, mem: seq<byte>, mem': seq<byte>, ptrs: seq<nat>, upper: nat, k: nat)
    requires Layout(leaf, mem, ptrs, upper) && k < |ptrs| && Placed(leaf, mem, ptrs[k], upper)
    requires Closed(mem, mem', upper, ptrs[k], Size(leaf, mem, ptrs[k]))
    requires forall i :: 0 <= i < |ptrs| ==> Placed(leaf, mem, ptrs[i], 0)
    ensures var after := ShiftAll(Rest(ptrs, k), ptrs[k], Size(leaf, mem, ptrs[k]));
      && (forall i :: 0 <= i < |after| ==> Placed(leaf, mem', after[i], 0))
      && Nodes(leaf, mem', after) == Rest(Nodes(leaf, mem, ptrs), k)
  {
    hide Layout, Closed, Size, NodeAt;
    var after := ShiftAll(Rest(ptrs, k), ptrs[k], Size(leaf, mem, ptrs[k]));
    forall i | 0 <= i < |after| ensures Placed(leaf, mem', after[i], 0) { DelOne(leaf, mem, mem', ptrs, upper, k, i); }
    var a, b := Nodes(leaf, mem', after), Rest(Nodes(leaf, mem, ptrs), k);
    forall i | 0 <= i < |after| ensures a[i] == b[i] { DelOne(leaf, mem, mem', ptrs, upper, k, i); }
  }

  // ---------------------------------------------------------------- adding a node

  /** The page above upper is untouched. */
  ghost predicate KeptAbove(mem: seq<byte>, mem': seq<byte>, upper: nat) {
    |mem'| == |mem| && upper <= |mem| && forall o: nat :: upper <= o < |mem| ==> mem'[o] == mem[o]
  }

  lemma KeptNode(leaf: bool, mem: seq<byte>, mem': seq<byte>, upper: nat, p: nat)
    requires KeptAbove(mem, mem', upper) && Placed(leaf, mem, p, upper)
    ensures Placed(leaf, mem', p, upper) && Size(leaf, mem', p) == Size(leaf, mem, p)
    ensures NodeAt(leaf, mem', p) == NodeAt(leaf, mem, p)
  {
    hide Size, NodeAt;
    SizeBounds(leaf, mem, p);
    SameBytes(mem, p, mem', p, Used(leaf, mem, p));
    SameNode(leaf, mem, p, mem', p);
  }

  lemma SizeBounds(leaf: bool, mem: seq<byte>, p: nat)
    requires p + NODESIZE <= |mem|
    ensures Used(leaf, mem, p) <= Size(leaf, mem, p)
  {
  }

  lemma AddApart(leaf: bool, mem: seq<byte>, mem': seq<byte>, ptrs: seq<nat>, upper: nat, k: nat, ofs: nat, i: nat, j: nat)
    requires Layout(leaf, mem, ptrs, upper) && k <= |ptrs| && KeptAbove(mem, mem', upper)
    requires Placed(leaf, mem', ofs, ofs) && ofs + Size(leaf, mem', ofs) == upper && i < j <= |ptrs|
    ensures var a, b := With(ptrs, k, ofs)[i], With(ptrs, k, ofs)[j];
      Placed(leaf, mem', a, ofs) && Placed(leaf, mem', b, ofs) && Apart(leaf, mem', a, b)
  {
    hide Size, Covered, NodeAt, KeptAbove, Used;
    var after := With(ptrs, k, ofs);
    var m, n := if i < k then i else i - 1, if j < k then j else j - 1;
    if i != k { KeptNode(leaf, mem, mem', upper, ptrs[m]); }
    if j != k { KeptNode(leaf, mem, mem', upper, ptrs[n]); }
    if i != k && j != k {
      assert after[i] == ptrs[m] && after[j] == ptrs[n] && Apart(leaf, mem, ptrs[m], ptrs[n]);
    }
  }

  lemma AddCovered(leaf: bool, mem: seq<byte>, mem': seq<byte>, ptrs: seq<nat>, upper: nat, k: nat, ofs: nat, o: nat)
    requires Layout(leaf, mem, ptrs, upper) && k <= |ptrs| && KeptAbove(mem, mem', upper)
    requires Placed(leaf, mem', ofs, ofs) && ofs + Size(leaf, mem', ofs) == upper && ofs <= o < |mem'|
    ensures Covered(leaf, mem', With(ptrs, k, ofs), o)
  {
    hide Size;
    var after := With(ptrs, k, ofs);
    if o < upper {
      assert after[k] == ofs && Covers(leaf, mem', after[k], o);
    } else {
      assert Covered(leaf, mem, ptrs, o);
      var i :| 0 <= i < |ptrs| && ptrs[i] + NODESIZE <= |mem| && Covers(leaf, mem, ptrs[i], o);
      KeptNode(leaf, mem, mem', upper, ptrs[i]);
      var m := if i < k then i else i + 1;
      assert after[m] == ptrs[i] && Covers(leaf, mem', after[m], o);
    }
  }

  /** The new node extends the tiling downwards. */
  lemma AddLayout(leaf: bool, mem: seq<byte>, mem': seq<byte>, ptrs: seq<nat>, upper: nat, k: nat, ofs: nat)
    requires Layout(leaf, mem, ptrs, upper) && k <= |ptrs| && KeptAbove(mem, mem', upper)
    requires Placed(leaf, mem', ofs, ofs) && ofs + Size(leaf, mem', ofs) == upper
    ensures Layout(leaf, mem', With(ptrs, k, ofs), ofs)
  {
    hide Size, Apart, Covered;
    PlacedBounds(leaf, mem', ofs, ofs);
    var after := With(ptrs, k, ofs);
    forall i | 0 <= i < |after| ensures Placed(leaf, mem', after[i], ofs) {
      if i != k { AddPlaced(leaf, mem, mem', ptrs, upper, if i < k then i else i - 1, ofs); }
    }
    forall i, j | 0 <= i < j < |after| ensures Apart(leaf, mem', after[i], after[j]) {
      AddApart(leaf, mem, mem', ptrs, upper, k, ofs, i, j);
    }
    forall o: nat | ofs <= o < |mem'| ensures Covered(leaf, mem', after, o) {
      AddCovered(leaf, mem, mem', ptrs, upper, k, ofs, o);
    }
  }

  lemma PlacedBounds(leaf: bool, mem: seq<byte>, p: nat, upper: nat)
    requires Placed(leaf, mem, p, upper)
    ensures upper <= p && p % 2 == 0 && p + NODESIZE <= |mem|
  {
  }

  lemma AddPlaced(leaf: bool, mem: seq<byte>, mem': seq<byte>, ptrs: seq<nat>, upper: nat, i: nat, ofs: nat)
    requires Layout(leaf, mem, ptrs, upper) && KeptAbove(mem, mem', upper) && i < |ptrs| && ofs <= upper
    ensures Placed(leaf, mem', ptrs[i], ofs)
  {
    hide Size;
    KeptNode(leaf, mem, mem', upper, ptrs[i]);
  }

  /** Exactly the new node has joined the logical content. */
  lemma AddNodes(leaf: bool, mem: seq<byte>, mem': seq<byte>, ptrs: seq<nat>, upper: nat, k: nat, ofs: nat)
    requires Layout(leaf, mem, ptrs, upper) && k <= |ptrs| && KeptAbove(mem, mem', upper) && Placed(leaf, mem', ofs, 0)
    requires forall i :: 0 <= i < |ptrs| ==> Placed(leaf, mem, ptrs[i], 0)
    ensures forall i :: 0 <= i <= |ptrs| ==> Placed(leaf, mem', With(ptrs, k, ofs)[i], 0)
    ensures Nodes(leaf, mem', With(ptrs, k, ofs)) == With(Nodes(leaf, mem, ptrs), k, NodeAt(leaf, mem', ofs))
  {
    hide Size, NodeAt;
    var after := With(ptrs, k, ofs);
    forall i | 0 <= i < |ptrs| ensures Placed(leaf, mem', ptrs[i], 0) && NodeAt(leaf, mem', ptrs[i]) == NodeAt(leaf, mem, ptrs[i]) {
      KeptNode(leaf, mem, mem', upper, ptrs[i]);
    }
    var a, b := Nodes(leaf, mem', after), With(Nodes(leaf, mem, ptrs), k, NodeAt(leaf, mem', ofs));
    forall i | 0 <= i < |after| ensures a[i] == b[i] { }
  }

  // ---------------------------------------------------------------- replacing a key

  /** Where a node at p stands after the node at q grew downwards by delta. */
  function Slid(p: nat, q: nat, delta: int): int { if p <= q then p - delta else p }

  /** mdb_update_key moved [upper, q) and the node's header by delta; what follows the node's old
      end stayed. */
  ghost predicate Rekeyed(mem: seq<byte>, mem': seq<byte>, upper: nat, q: nat, sz: nat, delta: int) {
    && |mem'| == |mem| && upper <= q && q + sz <= |mem| && 0 <= upper - delta && NODESIZE <= sz && NODESIZE <= sz + delta
    && (forall o: nat :: upper <= o < q + 6 && 0 <= o - delta < |mem| ==> mem'[o - delta] == mem[o])
    && (forall o: nat :: q + sz <= o < |mem| ==> mem'[o] == mem[o])
  }

  lemma SlidNode(mem: seq<byte>, mem': seq<byte>, upper: nat, q: nat, sz: nat, delta: int, p: nat)
    requires Rekeyed(mem, mem', upper, q, sz, delta) && delta % 2 == 0 && Placed(false, mem, p, upper)
    requires p + Size(false, mem, p) <= q || q + sz <= p
    ensures var p' := Slid(p, q, delta);
      && p' >= 0 && Placed(false, mem', p', upper - delta) && Size(false, mem', p') == Size(false, mem, p)
      && NodeAt(false, mem', p') == NodeAt(false, mem, p)
  {
    hide Size, NodeAt;
    SizeBounds(false, mem, p);
    var p', n := Slid(p, q, delta), Used(false, mem, p);
    SameBytes(mem, p, mem', p', n);
    SameNode(false, mem, p, mem', p');
  }

  /** The node with its new key ends where it ended before. */
  ghost predicate Regrown(mem: seq<byte>, mem': seq<byte>, q: nat, delta: int)
    requires q + NODESIZE <= |mem|
  {
    && 0 <= q - delta && q - delta + NODESIZE <= |mem'| && (q - delta) % 2 == 0
    && Size(false, mem', q - delta) == Size(false, mem, q) + delta
  }

  /** Node i of the page, wherever it is relative to node k. */
  lemma SlidOne(mem: seq<byte>, mem': seq<byte>, ptrs: seq<nat>, upper: nat, k: nat, delta: int, i: nat)
    requires Layout(false, mem, ptrs, upper) && k < |ptrs| && i < |ptrs| && delta % 2 == 0
    requires Placed(false, mem, ptrs[k], upper) && Regrown(mem, mem', ptrs[k], delta)
    requires Rekeyed(mem, mem', upper, ptrs[k], Size(false, mem, ptrs[k]), delta)
    ensures var p, p' := ptrs[i], Slid(ptrs[i], ptrs[k], delta);
      && p' >= 0 && Placed(false, mem, p, upper) && Placed(false, mem', p', upper - delta)
      && (i != k ==> Size(false, mem', p') == Size(false, mem, p) && NodeAt(false, mem', p') == NodeAt(false, mem, p))
      && (i != k ==> Apart(false, mem, p, ptrs[k]))
  {
    hide Size, NodeAt;
    if i != k {
      if i < k { assert Apart(false, mem, ptrs[i], ptrs[k]); } else { assert Apart(false, mem, ptrs[k], ptrs[i]); }
      SlidNode(mem, mem', upper, ptrs[k], Size(false, mem, ptrs[k]), delta, ptrs[i]);
    }
  }

  lemma SlidApart(mem: seq<byte>, mem': seq<byte>, ptrs: seq<nat>, upper: nat, k: nat, delta: int, i: nat, j: nat)
    requires Layout(false, mem, ptrs, upper) && k < |ptrs| && i < j < |ptrs| && delta % 2 == 0
    requires Placed(false, mem, ptrs[k], upper) && Regrown(mem, mem', ptrs[k], delta)
    requires Rekeyed(mem, mem', upper, ptrs[k], Size(false, mem, ptrs[k]), delta)
    ensures var a, b := Slid(ptrs[i], ptrs[k], delta), Slid(ptrs[j], ptrs[k], delta);
      a >= 0 && b >= 0 && Placed(false, mem', a, upper - delta) && Placed(false, mem', b, upper - delta) && Apart(false, mem', a, b)
  {
    hide Size, NodeAt, Rekeyed;
    SlidOne(mem, mem', ptrs, upper, k, delta, i);
    SlidOne(mem, mem', ptrs, upper, k, delta, j);
    assert Apart(false, mem, ptrs[i], ptrs[j]);
  }

  lemma SlidCovered(mem: seq<byte>, mem': seq<byte>, ptrs: seq<nat>, upper: nat, k: nat, delta: int, o: nat) returns (i: nat)
    requires Layout(false, mem, ptrs, upper) && k < |ptrs| && delta % 2 == 0
    requires Placed(false, mem, ptrs[k], upper) && Regrown(mem, mem', ptrs[k], delta)
    requires Rekeyed(mem, mem', upper, ptrs[k], Size(false, mem, ptrs[k]), delta)
    requires upper - delta <= o < |mem|
    ensures i < |ptrs| && var p' := Slid(ptrs[i], ptrs[k], delta);
      p' >= 0 && p' + NODESIZE <= |mem'| && Covers(false, mem', p', o)
  {
    hide Size, NodeAt;
    var q, sz := ptrs[k], Size(false, mem, ptrs[k]);
    if q - delta <= o < q + sz {
      i := k;
    } else {
      var was := if o < q - delta then o + delta else o;
      assert Covered(false, mem, ptrs, was);
      i :| 0 <= i < |ptrs| && ptrs[i] + NODESIZE <= |mem| && Covers(false, mem, ptrs[i], was);
      SlidOne(mem, mem', ptrs, upper, k, delta, i);
    }
  }

  lemma SlidLayout(mem: seq<byte>, mem': seq<byte>, ptrs: seq<nat>, after: seq<nat>, upper: nat, k: nat, delta: int)
    requires Layout(false, mem, ptrs, upper) && k < |ptrs| && delta % 2 == 0 && 0 <= upper - delta
    requires Placed(false, mem, ptrs[k], upper) && Regrown(mem, mem', ptrs[k], delta)
    requires Rekeyed(mem, mem', upper, ptrs[k], Size(false, mem, ptrs[k]), delta) && |mem'| == |mem|
    requires |after| == |ptrs| && forall i :: 0 <= i < |ptrs| ==> after[i] == Slid(ptrs[i], ptrs[k], delta)
    ensures Layout(false, mem', after, upper - delta)
    ensures forall i :: 0 <= i < |ptrs| && i != k ==>
      Placed(false, mem, ptrs[i], 0) && Placed(false, mem', after[i], 0) && NodeAt(false, mem', after[i]) == NodeAt(false, mem, ptrs[i])
  {
    hide Size, NodeAt, Rekeyed, Regrown, Covered;
    forall i | 0 <= i < |ptrs|
      ensures Placed(false, mem', after[i], upper - delta)
      ensures i != k ==>
        Placed(false, mem, ptrs[i], 0) && Placed(false, mem', after[i], 0) && NodeAt(false, mem', after[i]) == NodeAt(false, mem, ptrs[i])
    {
      SlidOne(mem, mem', ptrs, upper, k, delta, i);
    }
    forall i, j | 0 <= i < j < |after| ensures Apart(false, mem', after[i], after[j]) {
      SlidApart(mem, mem', ptrs, upper, k, delta, i, j);
    }
    forall o: nat | upper - delta <= o < |mem'| ensures Covered(false, mem', after, o) {
      var i := SlidCovered(mem, mem', ptrs, upper, k, delta, o);
      CoveredBy(false, mem', after, i, o);
    }
    RekeyedBounds(mem, mem', upper, ptrs[k], Size(false, mem, ptrs[k]), delta);
  }

  lemma CoveredBy(leaf: bool, mem: seq<byte>, ptrs: seq<nat>, i: nat, o: nat)
    requires i < |ptrs| && ptrs[i] + NODESIZE <= |mem| && Covers(leaf, mem, ptrs[i], o)
    ensures Covered(leaf, mem, ptrs, o)
  {
  }

  lemma RekeyedBounds(mem: seq<byte>, mem': seq<byte>, upper: nat, q: nat, sz: nat, delta: int)
    requires Rekeyed(mem, mem', upper, q, sz, delta)
    ensures |mem'| == |mem| && upper - delta <= |mem|
  {
  }
}
