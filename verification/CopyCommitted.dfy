/**
  Compacting a snapshot that a transaction committed: mdb_env_copyfd1 derives the new root's page
  number from the page counts before it walks the tree.
 */
module CopyCommitted {
  import opened Wrappers
  import opened PageTree
  import opened CompactCopy
  import Protocol
  import ProtocolTheorems

  function TreeNos(t: Option<Page>): seq<nat> { if t.None? then [] else Nos(t.value) }

  ghost predicate Distinct(s: seq<nat>) { forall i, j :: 0 <= i < j < |s| ==> s[i] != s[j] }

  function Elements(s: seq<nat>): set<nat> { set x | x in s }

  lemma {:induction false} DistinctSize(s: seq<nat>)
    requires Distinct(s)
    ensures |Elements(s)| == |s|
  {
    if s != [] {
      var n := |s| - 1;
      DistinctSize(s[..n]);
      assert s == s[..n] + [s[n]] && s[n] !in s[..n];
      assert Elements(s) == Elements(s[..n]) + {s[n]};
    }
  }

  lemma SubsetSize(a: set<nat>, b: set<nat>)
    requires a <= b
    ensures |a| == |b| <==> a == b
  {
    assert b == a + (b - a) && a !! (b - a);
    assert |b| == |a| + |b - a|;
    if |a| == |b| { assert b - a == {}; }
  }

  /** The pages of a snapshot's main database and freeDB, no page in two places. */
  ghost predicate CoreTrees(m: Protocol.Snapshot, main: Page, freeTree: Option<Page>) {
    var nos := Nos(main) + TreeNos(freeTree);
    Distinct(nos) && Elements(nos) <= m.image.Keys
  }

  /** The pages listed in the records and those of the freeDB itself. */
  function FreePages(m: Protocol.Snapshot, freeTree: Option<Page>): nat {
    ProtocolTheorems.FreeCount(m.free, m.id) + |TreeNos(freeTree)|
  }

  /** For every snapshot committed in any run, the copy arrives at the predicted root, and is not
      rejected as MDB_INCOMPATIBLE, if and only if the two trees leak no page. */
  lemma RootAsPredicted(states: seq<Protocol.State>, steps: seq<Protocol.Step>, n: nat, i: nat,
                        main: Page, freeTree: Option<Page>)
    requires ProtocolTheorems.IsRun(states, steps) && n < |states| && i < |states[n].log|
    requires CoreTrees(states[n].log[i], main, freeTree)
    ensures var m := states[n].log[i];
      Copy(main, 2).it.no == m.next - 1 - FreePages(m, freeTree) <==>
        m.image.Keys == Elements(Nos(main) + TreeNos(freeTree))
  {
    var m := states[n].log[i];
    var nos := Nos(main) + TreeNos(freeTree);
    ProtocolTheorems.AuditBalances(states, steps, n, i);
    PredictedRoot(main, m.next, FreePages(m, freeTree));
    DistinctSize(nos);
    SubsetSize(Elements(nos), m.image.Keys);
  }

  /** The copy of a committed snapshot without leaks fills the pages 2 .. m.next - 1 less the free
      ones, and is the same database. */
  lemma CopyOfCommitted(states: seq<Protocol.State>, steps: seq<Protocol.Step>, n: nat, i: nat,
                        main: Page, freeTree: Option<Page>)
    requires ProtocolTheorems.IsRun(states, steps) && n < |states| && i < |states[n].log|
    requires CoreTrees(states[n].log[i], main, freeTree)
    requires states[n].log[i].image.Keys == Elements(Nos(main) + TreeNos(freeTree))
    ensures var m, c := states[n].log[i], Copy(main, 2).it;
      && Strip(c) == Strip(main)
      && m.next >= 2 + FreePages(m, freeTree) && Nos(c) == Run(2, m.next - 2 - FreePages(m, freeTree))
  {
    RootAsPredicted(states, steps, n, i, main, freeTree);
    CompactedFile(main);
  }
}
