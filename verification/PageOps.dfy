/** mdb_node_add, mdb_node_del and mdb_update_key on the bytes of a page, in place. */
module PageOps {
  import opened Limits
  import opened SplitPoint
  import opened SlottedPage

  // ---------------------------------------------------------------- encoding

  function Le16(v: nat): (s: seq<byte>)
    requires v < 0x1_0000
    ensures |s| == 2
  {
    [(v % 256) as byte, (v / 256) as byte]
  }

  function Header(word: nat, flags: nat, ksize: nat): (s: seq<byte>)
    requires word < 0x1_0000_0000 && flags < 0x1_0000 && ksize < 0x1_0000
    ensures |s| == NODESIZE
  {
    Le16(word % 0x1_0000) + Le16(word / 0x1_0000) + Le16(flags) + Le16(ksize)
  }

  /** A node as bytes: header, key, and on a leaf its data or the number of its overflow page. */
  function Encode(word: nat, flags: nat, key: seq<byte>, body: seq<byte>): (s: seq<byte>)
    requires word < 0x1_0000_0000 && flags < 0x1_0000 && |key| < 0x1_0000
    ensures |s| == NODESIZE + |key| + |body|
  {
    Header(word, flags, |key|) + key + body
  }

  /** The body goes with the header: a leaf node's data, 8 bytes for big data, none on a branch. */
  predicate Matches(leaf: bool, word: nat, flags: nat, body: seq<byte>) {
    |body| == if !leaf then 0 else if flags % 2 == F_BIGDATA then PGNO else word
  }

  lemma HeaderFields(word: nat, flags: nat, ksize: nat)
    requires word < 0x1_0000_0000 && flags < 0x1_0000 && ksize < 0x1_0000
    ensures var h := Header(word, flags, ksize);
      Dsize(h, 0) == word && Flags(h, 0) == flags && Ksize(h, 0) == ksize
  {
  }

  /** The node at p as its readers find it: NODEDSZ or NODEPGNO, flags and key size in the header,
      the key at NODEKEY, and behind it, at NODEDATA, the body. */
  predicate Reads(mem: seq<byte>, p: nat, word: nat, flags: nat, key: seq<byte>, body: seq<byte>) {
    && p + NODESIZE + |key| + |body| <= |mem|
    && Dsize(mem, p) == word && Flags(mem, p) == flags && Ksize(mem, p) == |key|
    && mem[p + NODESIZE..p + NODESIZE + Ksize(mem, p)] == key
    && mem[p + NODESIZE + Ksize(mem, p)..p + NODESIZE + Ksize(mem, p) + |body|] == body
  }

  /** The branch node at q' is the one that was at q, page number and flags included, but with this
      key and its size. */
  predicate HasKey(m: seq<byte>, q: nat, m': seq<byte>, q': nat, key: seq<byte>) {
    && q + NODESIZE <= |m| && q' + NODESIZE + |key| <= |m'|
    && m'[q'..q' + 6] == m[q..q + 6]
    && Ksize(m', q') == |key| && m'[q' + NODESIZE..q' + NODESIZE + Ksize(m', q')] == key
  }

  lemma HeaderRead(mem: seq<byte>, p: nat, word: nat, flags: nat, ksize: nat)
    requires word < 0x1_0000_0000 && flags < 0x1_0000 && ksize < 0x1_0000
    requires p + NODESIZE <= |mem| && mem[p..p + NODESIZE] == Header(word, flags, ksize)
    ensures Dsize(mem, p) == word && Flags(mem, p) == flags && Ksize(mem, p) == ksize
  {
    var h := Header(word, flags, ksize);
    HeaderFields(word, flags, ksize);
    hide Header;
    assert Same(h, 0, mem, p, NODESIZE) by { assert h[0..0 + NODESIZE] == h; }
    SameU16(h, 0, mem, p, NODESIZE, 0);
    SameU16(h, 0, mem, p, NODESIZE, 2);
    SameU16(h, 0, mem, p, NODESIZE, 4);
    SameU16(h, 0, mem, p, NODESIZE, 6);
  }

  /** The three parts, found where they were written. */
  lemma ReadBack(mem: seq<byte>, p: nat, word: nat, flags: nat, key: seq<byte>, body: seq<byte>)
    requires word < 0x1_0000_0000 && flags < 0x1_0000 && |key| < 0x1_0000
    requires p + NODESIZE + |key| + |body| <= |mem|
    requires mem[p..p + NODESIZE + |key| + |body|] == Header(word, flags, |key|) + key + body
    ensures Reads(mem, p, word, flags, key, body)
  {
    hide Ksize, Dsize, Flags;
    var h, n := Header(word, flags, |key|), NODESIZE + |key| + |body|;
    var e := h + key + body;
    SliceOfSlice(mem, p, n, 0, NODESIZE);
    SliceOfSlice(mem, p, n, NODESIZE, NODESIZE + |key|);
    SliceOfSlice(mem, p, n, NODESIZE + |key|, n);
    hide Header;
    assert e[0..NODESIZE] == h && e[NODESIZE..NODESIZE + |key|] == key && e[NODESIZE + |key|..n] == body;
    HeaderRead(mem, p, word, flags, |key|);
  }

  lemma SliceOfSlice(mem: seq<byte>, p: nat, n: nat, a: nat, b: nat)
    requires p + n <= |mem| && a <= b <= n
    ensures mem[p..p + n][a..b] == mem[p + a..p + b]
  {
    var e := mem[p..p + n];
    var x, y := e[a..b], mem[p + a..p + b];
    assert |x| == b - a == |y|;
    forall k | 0 <= k < b - a ensures x[k] == y[k] {
      assert x[k] == e[a + k];
      assert y[k] == mem[p + a + k];
      assert e[a + k] == mem[p + (a + k)];
    }
  }

  /** Reading back what was written. */
  lemma DecodeNode(leaf: bool, mem: seq<byte>, p: nat, word: nat, flags: nat, key: seq<byte>, body: seq<byte>)
    requires word < 0x1_0000_0000 && flags < 0x1_0000 && |key| < 0x1_0000 && Matches(leaf, word, flags, body)
    requires p + NODESIZE + |key| + |body| <= |mem| && mem[p..p + NODESIZE + |key| + |body|] == Encode(word, flags, key, body)
    ensures Used(leaf, mem, p) == NODESIZE + |key| + |body|
  {
    ReadBack(mem, p, word, flags, key, body);
  }

  /** A branch node with another key. */
  function Rekey(node: seq<byte>, key: seq<byte>): seq<byte>
    requires |node| >= NODESIZE && |key| < 0x1_0000
  {
    node[..6] + Le16(|key|) + key
  }

  // ---------------------------------------------------------------- memory

  /** m with the bytes at dst replaced. */
  function Overwrite(m: seq<byte>, dst: nat, bs: seq<byte>): (r: seq<byte>)
    requires dst + |bs| <= |m|
    ensures |r| == |m|
  {
    m[..dst] + bs + m[dst + |bs|..]
  }

  lemma OverwriteAt(m: seq<byte>, dst: nat, bs: seq<byte>, o: nat)
    requires dst + |bs| <= |m| && o < |m|
    ensures Overwrite(m, dst, bs)[o] == if dst <= o < dst + |bs| then bs[o - dst] else m[o]
  {
  }

  method MemMove(mem: array<byte>, dst: nat, src: nat, len: nat)
    requires dst + len <= mem.Length && src + len <= mem.Length
    modifies mem
    ensures mem[..] == Overwrite(old(mem[..]), dst, old(mem[..])[src..src + len])
  {
    forall o | dst <= o < dst + len { mem[o] := mem[src + (o - dst)]; }
  }

  method MemCpy(mem: array<byte>, dst: nat, bs: seq<byte>)
    requires dst + |bs| <= mem.Length
    modifies mem
    ensures mem[..] == Overwrite(old(mem[..]), dst, bs)
  {
    forall o | dst <= o < dst + |bs| { mem[o] := bs[o - dst]; }
  }

  /** The memmove of mdb_node_del: [upper, ptr) moves up over the sz bytes at ptr. */
  method CloseGap(mem: array<byte>, upper: nat, ptr: nat, sz: nat)
    requires upper <= ptr && ptr + sz <= mem.Length
    modifies mem
    ensures Closed(old(mem[..]), mem[..], upper, ptr, sz)
  {
    MemMove(mem, upper + sz, upper, ptr - upper);
    assert upper + (ptr - upper) == ptr;
    MovedUp(old(mem[..]), mem[..], upper, ptr, sz);
  }

  // ---------------------------------------------------------------- pages

  class Page {
    const leaf: bool
    var mem: array<byte>
    var ptrs: array<nat>
    var lower: nat
    var upper: nat

    /** NUMKEYS */
    function NumKeys(): nat
      reads this
    {
      if lower < PAGEHDRSZ then 0 else (lower - PAGEHDRSZ) / 2
    }

    /** Offsets and nodes do not meet, and the nodes tile the top of the page. */
    ghost predicate Valid()
      reads this, mem, ptrs
    {
      && lower == PAGEHDRSZ + 2 * NumKeys() && lower <= upper
      && PAGEHDRSZ + 2 * ptrs.Length == mem.Length && NumKeys() <= ptrs.Length
      && Layout(leaf, mem[..], ptrs[..NumKeys()], upper)
    }

    ghost function Contents(): seq<seq<byte>>
      requires Valid()
      reads this, mem, ptrs
    {
      LayoutPlaced(leaf, mem[..], ptrs[..NumKeys()], upper);
      Nodes(leaf, mem[..], ptrs[..NumKeys()])
    }

    /** mdb_page_new */
    constructor (leaf: bool, psize: nat)
      requires PAGEHDRSZ <= psize && psize % 2 == 0
      ensures Valid() && Contents() == [] && this.leaf == leaf && mem.Length == psize && fresh(mem) && fresh(ptrs)
    {
      this.leaf := leaf;
      lower, upper := PAGEHDRSZ, psize;
      mem := new byte[psize];
      ptrs := new nat[(psize - PAGEHDRSZ) / 2];
    }

    /** The offsets after a delete: the loop over mp_ptrs. */
    method DropPtr(indx: nat, sz: nat)
      requires indx < NumKeys() <= ptrs.Length
      modifies ptrs
      ensures ptrs[..NumKeys() - 1] == ShiftAll(Rest(old(ptrs[..NumKeys()]), indx), old(ptrs[indx]), sz)
    {
      var ptr, numkeys := ptrs[indx], NumKeys();
      ghost var was := ptrs[..numkeys];
      ghost var want := ShiftAll(Rest(was, indx), ptr, sz);
      var i, j := 0, 0;
      while i < numkeys
        invariant 0 <= i <= numkeys && j == (if i <= indx then i else i - 1)
        invariant forall p :: 0 <= p < j ==> ptrs[p] == want[p]
        invariant forall p :: i <= p < numkeys ==> ptrs[p] == was[p]
      {
        if i != indx {
          ptrs[j] := ptrs[i];
          if ptrs[i] < ptr { ptrs[j] := ptrs[j] + sz; }
          j := j + 1;
        }
        i := i + 1;
      }
      assert ptrs[..numkeys - 1] == want;
    }

    /** mdb_node_del: exactly node indx disappears; every other node keeps its bytes and the page
        stays tiled. */
    method NodeDel(indx: nat)
      requires Valid() && indx < NumKeys()
      modifies this`lower, this`upper, mem, ptrs
      ensures Valid() && NumKeys() == old(NumKeys()) - 1
      ensures Contents() == Rest(old(Contents()), indx)
    {
      hide Layout, Size, Nodes, Closed, ShiftAll, Rest, NodeAt, Used;
      ghost var n, m, ps := NumKeys(), mem[..], ptrs[..NumKeys()];
      LayoutPlaced(leaf, m, ps, upper);
      LayoutAt(leaf, m, ps, upper, indx);
      var ptr := ptrs[indx];
      var sz := Size(leaf, mem[..], ptr);
      SizeEven(leaf, m, ptr);
      DropPtr(indx, sz);
      ghost var after := ShiftAll(Rest(ps, indx), ptr, sz);
      assert ptrs[..n - 1] == after;
      CloseGap(mem, upper, ptr, sz);
      ghost var m' := mem[..];
      DelResult(leaf, m, m', ps, after, upper, indx);
      lower := lower - INDX;
      upper := upper + sz;
      assert NumKeys() == n - 1;
      assert mem[..] == m';
      assert ptrs[..NumKeys()] == after;
      assert Layout(leaf, mem[..], ptrs[..NumKeys()], upper);
      assert lower == PAGEHDRSZ + 2 * NumKeys() && lower <= upper;
    }

    /** Move higher offsets up one slot and store the new one. */
    method InsertPtr(indx: nat, ofs: nat)
      requires indx <= NumKeys() < ptrs.Length
      modifies ptrs
      ensures ptrs[..NumKeys() + 1] == With(old(ptrs[..NumKeys()]), indx, ofs)
    {
      var n := NumKeys();
      ghost var was := ptrs[..n];
      var i := n;
      while i > indx
        invariant indx <= i <= n
        invariant forall p :: 0 <= p < i ==> ptrs[p] == was[p]
        invariant forall p :: i < p <= n ==> ptrs[p] == was[p - 1]
      {
        ptrs[i] := ptrs[i - 1];
        i := i - 1;
      }
      ptrs[indx] := ofs;
      assert ptrs[..n + 1] == With(was, indx, ofs);
    }

    /** mdb_node_add: MDB_PAGE_FULL exactly when the node and its offset do not fit; otherwise
        exactly the new node appears at indx. */
    method NodeAdd(indx: nat, word: nat, flags: nat, key: seq<byte>, body: seq<byte>) returns (ok: bool)
      requires Valid() && indx <= NumKeys()
      requires word < 0x1_0000_0000 && flags < 0x1_0000 && |key| < 0x1_0000 && Matches(leaf, word, flags, body)
      modifies this`lower, this`upper, mem, ptrs
      ensures Valid()
      ensures ok <==> Even(NODESIZE + |key| + |body|) + INDX <= old(upper) - old(lower)
      ensures !ok ==> Contents() == old(Contents())
      ensures ok ==> Contents() == With(old(Contents()), indx, Encode(word, flags, key, body))
      ensures ok ==> indx < NumKeys() <= ptrs.Length && Reads(mem[..], ptrs[indx], word, flags, key, body)
    {
      hide Layout, Size, Nodes, With, Encode, Reads;
      var room := upper - lower - INDX;
      var nodeSize := Even(NODESIZE + |key| + |body|);
      if nodeSize > room { return false; }
      ghost var n, m, ps := NumKeys(), mem[..], ptrs[..NumKeys()];
      var ofs: nat := upper - nodeSize;
      LayoutPlaced(leaf, m, ps, upper);
      LayoutEven(leaf, m, ps, upper);
      InsertPtr(indx, ofs);
      ghost var after := With(ps, indx, ofs);
      assert ptrs[..n + 1] == after;
      WriteNode(mem, leaf, ofs, upper, word, flags, key, body);
      ghost var m' := mem[..];
      AddLayout(leaf, m, m', ps, upper, indx, ofs);
      AddNodes(leaf, m, m', ps, upper, indx, ofs);
      lower := lower + INDX;
      upper := ofs;
      assert NumKeys() == n + 1;
      assert mem[..] == m';
      assert ptrs[..NumKeys()] == after;
      assert Layout(leaf, mem[..], ptrs[..NumKeys()], upper);
      WithAt(ps, indx, ofs);
      assert ptrs[indx] == ptrs[..n + 1][indx];
      ok := true;
    }

    /** The offsets of the nodes up to ptr move down by delta. */
    method SlidePtrs(ptr: nat, delta: int)
      requires NumKeys() <= ptrs.Length
      requires forall p :: 0 <= p < NumKeys() ==> 0 <= Slid(ptrs[p], ptr, delta)
      modifies ptrs
      ensures forall p :: 0 <= p < NumKeys() ==> ptrs[p] == Slid(old(ptrs[p]), ptr, delta)
    {
      var i, numkeys := 0, NumKeys();
      while i < numkeys
        invariant 0 <= i <= numkeys
        invariant forall p :: 0 <= p < i ==> ptrs[p] == Slid(old(ptrs[p]), ptr, delta)
        invariant forall p :: i <= p < numkeys ==> ptrs[p] == old(ptrs[p])
      {
        if ptrs[i] <= ptr { ptrs[i] := ptrs[i] - delta; }
        i := i + 1;
      }
    }

    /** mdb_update_key on a branch page: false, and nothing done, exactly when a longer key does not
        fit (the caller then deletes and splits); otherwise only the key of node indx changes. */
    method UpdateKey(indx: nat, key: seq<byte>) returns (ok: bool)
      requires Valid() && !leaf && indx < NumKeys() && |key| < 0x1_0000
      modifies this`upper, mem, ptrs
      ensures Valid() && NumKeys() == old(NumKeys()) && |old(Contents())| == NumKeys()
      ensures ok <==> Even(|key|) - Even(Ksize(old(mem[..]), old(ptrs[indx]))) <= old(upper) - old(lower)
      ensures !ok ==> Contents() == old(Contents())
      ensures |old(Contents())[indx]| >= NODESIZE
      ensures ok ==> Contents() == old(Contents())[indx := Rekey(old(Contents())[indx], key)]
      ensures ok ==> indx < NumKeys() <= ptrs.Length && HasKey(old(mem[..]), old(ptrs[indx]), mem[..], ptrs[indx], key)
    {
      hide Layout, Size, Nodes, Rekeyed, Regrown, Rekey, NodeAt, Used, HasKey;
      ghost var n, m, ps, up := NumKeys(), mem[..], ptrs[..NumKeys()], upper;
      LayoutPlaced(leaf, m, ps, upper);
      LayoutAt(leaf, m, ps, upper, indx);
      LayoutEven(leaf, m, ps, upper);
      NodesFacts(leaf, m, ps, indx);
      var ptr := ptrs[indx];
      BranchSize(m, ptr);
      var delta := Even(|key|) - Even(Ksize(mem[..], ptr));
      if delta > 0 && upper - lower < delta { return false; }
      SlideBounds(m, ps, up, ptr, delta);
      SlidePtrs(ptr, delta);
      ghost var after := ptrs[..n];
      SetKey(mem, upper, ptr, delta, key);
      ghost var m' := mem[..];
      UpdateResult(m, m', ps, after, up, indx, delta, key);
      upper := upper - delta;
      assert mem[..] == m';
      assert ptrs[..NumKeys()] == after;
      assert Layout(leaf, mem[..], ptrs[..NumKeys()], upper);
      ok := true;
    }
  }

  lemma NodesFacts(leaf: bool, mem: seq<byte>, ptrs: seq<nat>, i: nat)
    requires i < |ptrs| && forall i :: 0 <= i < |ptrs| ==> Placed(leaf, mem, ptrs[i], 0)
    ensures |Nodes(leaf, mem, ptrs)| == |ptrs| && Nodes(leaf, mem, ptrs)[i] == NodeAt(leaf, mem, ptrs[i])
    ensures |NodeAt(leaf, mem, ptrs[i])| >= NODESIZE
  {
  }

  lemma BranchSize(m: seq<byte>, p: nat)
    requires p + NODESIZE <= |m|
    ensures Size(false, m, p) == NODESIZE + Even(Ksize(m, p)) && Used(false, m, p) == NODESIZE + Ksize(m, p)
  {
  }

  lemma SlideBounds(m: seq<byte>, ptrs: seq<nat>, upper: nat, q: nat, delta: int)
    requires Layout(false, m, ptrs, upper) && delta <= upper
    ensures forall i :: 0 <= i < |ptrs| ==> 0 <= Slid(ptrs[i], q, delta)
  {
    forall i | 0 <= i < |ptrs| ensures 0 <= Slid(ptrs[i], q, delta) { LayoutAt(false, m, ptrs, upper, i); }
  }

  /** The bytes of mdb_update_key: shift, then the new key size and key. */
  method SetKey(mem: array<byte>, upper: nat, ptr: nat, delta: int, key: seq<byte>)
    requires |key| < 0x1_0000 && upper <= ptr && ptr % 2 == 0 && Placed(false, mem[..], ptr, upper) && delta <= upper
    requires delta == Even(|key|) - Even(Ksize(mem[..], ptr))
    modifies mem
    ensures Rekeyed(old(mem[..]), mem[..], upper, ptr, Size(false, old(mem[..]), ptr), delta)
    ensures Regrown(old(mem[..]), mem[..], ptr, delta) && delta % 2 == 0
    ensures Placed(false, mem[..], ptr - delta, 0)
    ensures NodeAt(false, mem[..], ptr - delta) == Rekey(NodeAt(false, old(mem[..]), ptr), key)
    ensures HasKey(old(mem[..]), ptr, mem[..], ptr - delta, key)
  {
    hide Overwrite, Rekeyed, Regrown, NodeAt, Rekey, Used, HasKey;
    ghost var m0 := mem[..];
    BranchSize(m0, ptr);
    if delta != 0 { MemMove(mem, upper - delta, upper, ptr - upper + NODESIZE); }
    ghost var m1 := mem[..];
    assert upper + (ptr - upper + NODESIZE) == ptr + NODESIZE;
    MovedDown(m0, m1, upper, ptr, delta);
    MemCpy(mem, ptr - delta + 6, Le16(|key|));
    MemCpy(mem, ptr - delta + NODESIZE, key);
    KeyWritten(m0, m1, mem[..], upper, ptr, delta, key);
  }

  /** [upper, q + 8) has moved down by delta. */
  ghost predicate MovedBy(m: seq<byte>, m': seq<byte>, upper: nat, q: nat, delta: int) {
    && |m'| == |m| && upper <= q && q + NODESIZE <= |m| && 0 <= upper - delta && q - delta + NODESIZE <= |m|
    && (forall o: nat :: upper <= o < q + NODESIZE && 0 <= o - delta < |m| ==> m'[o - delta] == m[o])
    && (forall o: nat :: q + NODESIZE <= o < |m| && q - delta + NODESIZE <= o ==> m'[o] == m[o])
  }

  lemma MovedDown(m: seq<byte>, m': seq<byte>, upper: nat, q: nat, delta: int)
    requires upper <= q && q + NODESIZE <= |m| && delta <= upper && q - delta + NODESIZE <= |m|
    requires m' == if delta == 0 then m else Overwrite(m, upper - delta, m[upper..q + NODESIZE])
    ensures MovedBy(m, m', upper, q, delta)
  {
    hide Overwrite;
    if delta != 0 {
      var bs := m[upper..q + NODESIZE];
      forall o: nat | upper <= o < q + NODESIZE ensures m'[o - delta] == m[o] { OverwriteAt(m, upper - delta, bs, o - delta); }
      forall o: nat | q + NODESIZE <= o < |m| && q - delta + NODESIZE <= o ensures m'[o] == m[o] {
        OverwriteAt(m, upper - delta, bs, o);
      }
    }
  }

  lemma KeyKeepsRest(m: seq<byte>, m1: seq<byte>, m': seq<byte>, upper: nat, q: nat, sz: nat, delta: int, key: seq<byte>)
    requires |key| < 0x1_0000 && MovedBy(m, m1, upper, q, delta) && NODESIZE <= sz && q + sz <= |m|
    requires NODESIZE + |key| <= sz + delta
    requires m' == Overwrite(Overwrite(m1, q - delta + 6, Le16(|key|)), q - delta + NODESIZE, key)
    ensures Rekeyed(m, m', upper, q, sz, delta)
  {
    hide Overwrite;
    var q' := q - delta;
    var m2 := Overwrite(m1, q' + 6, Le16(|key|));
    forall o: nat | upper <= o < q + 6 && 0 <= o - delta < |m| ensures m'[o - delta] == m[o] {
      OverwriteAt(m1, q' + 6, Le16(|key|), o - delta);
      OverwriteAt(m2, q' + NODESIZE, key, o - delta);
    }
    forall o: nat | q + sz <= o < |m| ensures m'[o] == m[o] {
      OverwriteAt(m1, q' + 6, Le16(|key|), o);
      OverwriteAt(m2, q' + NODESIZE, key, o);
    }
  }

  lemma KeyWritten(m: seq<byte>, m1: seq<byte>, m': seq<byte>, upper: nat, q: nat, delta: int, key: seq<byte>)
    requires |key| < 0x1_0000 && q % 2 == 0 && Placed(false, m, q, upper) && MovedBy(m, m1, upper, q, delta)
    requires delta == Even(|key|) - Even(Ksize(m, q)) && q - delta + NODESIZE + |key| <= |m|
    requires m' == Overwrite(Overwrite(m1, q - delta + 6, Le16(|key|)), q - delta + NODESIZE, key)
    ensures Rekeyed(m, m', upper, q, Size(false, m, q), delta)
    ensures Regrown(m, m', q, delta) && delta % 2 == 0
    ensures Placed(false, m', q - delta, 0)
    ensures NodeAt(false, m', q - delta) == Rekey(NodeAt(false, m, q), key)
    ensures HasKey(m, q, m', q - delta, key)
  {
    hide Overwrite, Rekeyed, Used, Size, Ksize, MovedBy, HasKey;
    BranchSize(m, q);
    KeyKeepsRest(m, m1, m', upper, q, Size(false, m, q), delta, key);
    HeaderMoved(m, m1, upper, q, delta);
    NewKey(m, m1, m', q, delta, key);
    BranchSize(m', q - delta);
    KeyRead(m, q, m', q - delta, key);
    assert NodeAt(false, m, q)[..6] == m[q..q + 6];
  }

  lemma KeyRead(m: seq<byte>, q: nat, m': seq<byte>, q': nat, key: seq<byte>)
    requires |key| < 0x1_0000 && q + NODESIZE <= |m| && q' + NODESIZE + |key| <= |m'| && Ksize(m', q') == |key|
    requires m'[q'..q' + NODESIZE + |key|] == m[q..q + 6] + Le16(|key|) + key
    ensures HasKey(m, q, m', q', key)
  {
    hide Ksize;
    var n := NODESIZE + |key|;
    var e := m[q..q + 6] + Le16(|key|) + key;
    SliceOfSlice(m', q', n, 0, 6);
    SliceOfSlice(m', q', n, NODESIZE, n);
    assert e[0..6] == m[q..q + 6] && e[NODESIZE..n] == key;
  }

  lemma HeaderMoved(m: seq<byte>, m1: seq<byte>, upper: nat, q: nat, delta: int)
    requires MovedBy(m, m1, upper, q, delta)
    ensures |m1| == |m| && 0 <= q - delta
    ensures forall o: nat :: q <= o < q + 6 && 0 <= o - delta < |m| ==> m1[o - delta] == m[o]
  {
  }

  lemma NewKey(m: seq<byte>, m1: seq<byte>, m': seq<byte>, q: nat, delta: int, key: seq<byte>)
    requires |key| < 0x1_0000 && q % 2 == 0 && delta % 2 == 0 && q + NODESIZE <= |m| == |m1| && 0 <= q - delta
    requires forall o: nat :: q <= o < q + 6 && 0 <= o - delta < |m| ==> m1[o - delta] == m[o]
    requires q - delta + NODESIZE + |key| <= |m| && Used(false, m, q) + q <= |m|
    requires m' == Overwrite(Overwrite(m1, q - delta + 6, Le16(|key|)), q - delta + NODESIZE, key)
    ensures Ksize(m', q - delta) == |key|
    ensures m'[q - delta..q - delta + NODESIZE + |key|] == m[q..q + 6] + Le16(|key|) + key
  {
    hide Overwrite;
    var q' := q - delta;
    var m2 := Overwrite(m1, q' + 6, Le16(|key|));
    var a, b := m'[q'..q' + NODESIZE + |key|], m[q..q + 6] + Le16(|key|) + key;
    forall k | 0 <= k < NODESIZE + |key| ensures a[k] == b[k] {
      OverwriteAt(m1, q' + 6, Le16(|key|), q' + k);
      OverwriteAt(m2, q' + NODESIZE, key, q' + k);
    }
    assert m'[q' + 6] == a[6] && m'[q' + 7] == a[7];
  }

  /** The page after its key was replaced. */
  lemma UpdateResult(m: seq<byte>, m': seq<byte>, ptrs: seq<nat>, after: seq<nat>, upper: nat, k: nat, delta: int, key: seq<byte>)
    requires Layout(false, m, ptrs, upper) && k < |ptrs| && delta % 2 == 0 && 0 <= upper - delta && |key| < 0x1_0000
    requires Placed(false, m, ptrs[k], upper) && Regrown(m, m', ptrs[k], delta) && |m'| == |m|
    requires Rekeyed(m, m', upper, ptrs[k], Size(false, m, ptrs[k]), delta)
    requires |after| == |ptrs| && forall i :: 0 <= i < |ptrs| ==> after[i] == Slid(ptrs[i], ptrs[k], delta)
    requires Placed(false, m', ptrs[k] - delta, 0)
    requires NodeAt(false, m', ptrs[k] - delta) == Rekey(NodeAt(false, m, ptrs[k]), key)
    requires forall i :: 0 <= i < |ptrs| ==> Placed(false, m, ptrs[i], 0)
    ensures Layout(false, m', after, upper - delta)
    ensures forall i :: 0 <= i < |ptrs| ==> Placed(false, m', after[i], 0)
    ensures Nodes(false, m', after) == Nodes(false, m, ptrs)[k := Rekey(NodeAt(false, m, ptrs[k]), key)]
  {
    hide Layout, Size, Rekeyed, Regrown, Rekey, NodeAt, Used;
    SlidLayout(m, m', ptrs, after, upper, k, delta);
    LayoutPlaced(false, m', after, upper - delta);
    RekeyedNodes(m, m', ptrs, after, k, key);
  }

  lemma RekeyedNodes(m: seq<byte>, m': seq<byte>, ptrs: seq<nat>, after: seq<nat>, k: nat, key: seq<byte>)
    requires |key| < 0x1_0000 && k < |ptrs| == |after|
    requires forall i :: 0 <= i < |ptrs| ==> Placed(false, m, ptrs[i], 0)
    requires forall i :: 0 <= i < |ptrs| ==> Placed(false, m', after[i], 0)
    requires forall i :: 0 <= i < |ptrs| && i != k ==> NodeAt(false, m', after[i]) == NodeAt(false, m, ptrs[i])
    requires NodeAt(false, m', after[k]) == Rekey(NodeAt(false, m, ptrs[k]), key)
    ensures Nodes(false, m', after) == Nodes(false, m, ptrs)[k := Rekey(NodeAt(false, m, ptrs[k]), key)]
  {
    hide NodeAt, Rekey, Placed;
  }

  lemma LayoutEven(leaf: bool, mem: seq<byte>, ptrs: seq<nat>, upper: nat)
    requires Layout(leaf, mem, ptrs, upper)
    ensures upper % 2 == 0 && upper <= |mem|
  {
  }

  /** The node's bytes, written in three parts below upper. */
  method WriteNode(mem: array<byte>, leaf: bool, ofs: nat, ghost upper: nat, word: nat, flags: nat, key: seq<byte>, body: seq<byte>)
    requires word < 0x1_0000_0000 && flags < 0x1_0000 && |key| < 0x1_0000 && Matches(leaf, word, flags, body)
    requires upper <= mem.Length && upper % 2 == 0 && ofs + Even(NODESIZE + |key| + |body|) == upper
    modifies mem
    ensures KeptAbove(old(mem[..]), mem[..], upper)
    ensures Placed(leaf, mem[..], ofs, ofs) && ofs + Size(leaf, mem[..], ofs) == upper
    ensures NodeAt(leaf, mem[..], ofs) == Encode(word, flags, key, body)
    ensures Reads(mem[..], ofs, word, flags, key, body)
  {
    hide Overwrite, Header, Used, Reads;
    ghost var m0 := mem[..];
    MemCpy(mem, ofs, Header(word, flags, |key|));
    MemCpy(mem, ofs + NODESIZE, key);
    MemCpy(mem, ofs + NODESIZE + |key|, body);
    Written(m0, mem[..], ofs, Header(word, flags, |key|), key, body);
    DecodeNode(leaf, mem[..], ofs, word, flags, key, body);
    KeptByWrites(m0, mem[..], ofs, upper, Header(word, flags, |key|), key, body);
    ReadBack(mem[..], ofs, word, flags, key, body);
  }

  lemma WithAt(s: seq<nat>, i: nat, x: nat)
    requires i <= |s|
    ensures |With(s, i, x)| == |s| + 1 && With(s, i, x)[i] == x
  {
  }

  /** Three adjacent writes. */
  function Writes(m: seq<byte>, ofs: nat, a: seq<byte>, b: seq<byte>, c: seq<byte>): (r: seq<byte>)
    requires ofs + |a| + |b| + |c| <= |m|
    ensures |r| == |m|
  {
    Overwrite(Overwrite(Overwrite(m, ofs, a), ofs + |a|, b), ofs + |a| + |b|, c)
  }

  lemma WritesIsOne(m: seq<byte>, ofs: nat, a: seq<byte>, b: seq<byte>, c: seq<byte>)
    requires ofs + |a| + |b| + |c| <= |m|
    ensures Writes(m, ofs, a, b, c) == Overwrite(m, ofs, a + b + c)
  {
    hide Overwrite;
    var x := Overwrite(m, ofs, a);
    var y := Overwrite(x, ofs + |a|, b);
    var z, w := Overwrite(y, ofs + |a| + |b|, c), Overwrite(m, ofs, a + b + c);
    forall o | 0 <= o < |m| ensures z[o] == w[o] {
      OverwriteAt(m, ofs, a, o);
      OverwriteAt(x, ofs + |a|, b, o);
      OverwriteAt(y, ofs + |a| + |b|, c, o);
      OverwriteAt(m, ofs, a + b + c, o);
    }
  }

  lemma Written(m: seq<byte>, m': seq<byte>, ofs: nat, a: seq<byte>, b: seq<byte>, c: seq<byte>)
    requires ofs + |a| + |b| + |c| <= |m| && m' == Writes(m, ofs, a, b, c)
    ensures m'[ofs..ofs + |a| + |b| + |c|] == a + b + c
  {
    WritesIsOne(m, ofs, a, b, c);
  }

  lemma KeptByWrites(m: seq<byte>, m': seq<byte>, ofs: nat, upper: nat, a: seq<byte>, b: seq<byte>, c: seq<byte>)
    requires ofs + |a| + |b| + |c| <= upper <= |m| && m' == Writes(m, ofs, a, b, c)
    ensures KeptAbove(m, m', upper)
  {
    WritesIsOne(m, ofs, a, b, c);
    hide Overwrite, Writes;
    forall o: nat | upper <= o < |m| ensures m'[o] == m[o] { OverwriteAt(m, ofs, a + b + c, o); }
  }

  /** The page after a node was deleted. */
  lemma DelResult(leaf: bool, m: seq<byte>, m': seq<byte>, ptrs: seq<nat>, after: seq<nat>, upper: nat, k: nat)
    requires Layout(leaf, m, ptrs, upper) && k < |ptrs| && Placed(leaf, m, ptrs[k], upper)
    requires Closed(m, m', upper, ptrs[k], Size(leaf, m, ptrs[k]))
    requires after == ShiftAll(Rest(ptrs, k), ptrs[k], Size(leaf, m, ptrs[k]))
    requires forall i :: 0 <= i < |ptrs| ==> Placed(leaf, m, ptrs[i], 0)
    ensures Layout(leaf, m', after, upper + Size(leaf, m, ptrs[k]))
    ensures forall i :: 0 <= i < |after| ==> Placed(leaf, m', after[i], 0)
    ensures Nodes(leaf, m', after) == Rest(Nodes(leaf, m, ptrs), k)
  {
    hide Layout, Size, Closed, NodeAt, Nodes, ShiftAll, Rest;
    DelLayout(leaf, m, m', ptrs, upper, k);
    DelNodes(leaf, m, m', ptrs, upper, k);
  }

  lemma LayoutAt(leaf: bool, mem: seq<byte>, ptrs: seq<nat>, upper: nat, i: nat)
    requires Layout(leaf, mem, ptrs, upper) && i < |ptrs|
    ensures Placed(leaf, mem, ptrs[i], upper)
  {
  }

  lemma SizeEven(leaf: bool, mem: seq<byte>, p: nat)
    requires p + NODESIZE <= |mem|
    ensures Size(leaf, mem, p) % 2 == 0 && NODESIZE <= Used(leaf, mem, p) <= Size(leaf, mem, p)
  {
  }

  lemma MovedUp(m: seq<byte>, m': seq<byte>, upper: nat, q: nat, sz: nat)
    requires upper <= q && q + sz <= |m| && m' == Overwrite(m, upper + sz, m[upper..q])
    ensures Closed(m, m', upper, q, sz)
  {
    hide Overwrite;
    forall o: nat | upper <= o < q ensures m'[o + sz] == m[o] { OverwriteAt(m, upper + sz, m[upper..q], o + sz); }
    forall o: nat | q + sz <= o < |m| ensures m'[o] == m[o] { OverwriteAt(m, upper + sz, m[upper..q], o); }
  }
}
