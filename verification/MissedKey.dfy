/** A run after which a search that starts with a cached entry misses a stored key, although nothing is under way. */
module MissedKey {
  import opened Keys
  import opened RemoteMemory
  import opened MemoryOps
  import opened Lookup
  import opened Splits
  import opened Machine
  import opened Invariant
  import opened Runs
  import opened RunTheorems
  import opened Views
  import opened LateReveal
  import opened CachedSearches

  const S1: SlotRef := Slot(2, 1)
  const E1: Entry := LeafEntry(1, 1)

  /** Page 2 below the root slot, whose slot 1 holds leaf 1. */
  ghost predicate Ready(m: Mem) {
    && Filled(m, 2, 2) && m.pages.Keys == {2} && m.pages[2].rev == Root && SlotFree(m, 2, 3) && m.pre.Keys == {0, 1, 2}
    && Fetch(m, S1) == E1 && 1 in m.leaves && m.leaves[1] == Leaf(S1, KeyOf(1, 0), 0)
  }

  lemma PostNow(c: State, q: Async, m': Mem) returns (c': State)
    requires Reach(c) && q in c.posted && Applies(c.m, AsyncEffect(q), m')
    ensures Reach(c') && c' == c.(m := m', posted := c.posted - multiset{q})
  {
    c' := c.(m := m', posted := c.posted - multiset{q});
    ReachNext(c, c', 0, Post(q));
  }

  lemma ReadyKept(m: Mem)
    requires Ready(m) && 0 in m.leaves
    ensures Ready(CasRev(m, 0, Root, Slot(2, 0)))
  {
    var m' := CasRev(m, 0, Root, Slot(2, 0));
    assert 0 !in m.pages.Keys && SlotFree(m, 2, 2) && SlotFree(m, 2, 3);
    forall i | 0 <= i < 2 ensures SlotHas(m', 2, i) { assert SlotHas(m, 2, i); }
  }

  /** Two keys are stored, all is quiet, and a cache remembers slot 1 of the page. */
  lemma Prepared() returns (c: State)
    ensures Reach(c) && Ready(c.m) && c.th.Keys == {0, 1} && c.th[0].Done? && c.th[1].Done?
    ensures c.posted == multiset{} && c.seen == {(S1, E1)}
  {
    c := FirstPage();
    assert SlotFree(c.m, 2, 3);
    ReadyKept(c.m);
    var m' := CasRev(c.m, 0, Root, Slot(2, 0));
    var c1 := PostNow(c, Rev(0, Root, Slot(2, 0)), m');
    c := c1.(seen := c1.seen + {(S1, Fetch(c1.m, S1))});
    ReachNext(c1, c, 0, Remember(S1));
  }

  /** A thread that works on a key with first byte 1 gets to slot 1. */
  lemma ToSlot(c: State, t: Tid, op: Op) returns (c': State)
    requires Reach(c) && Ready(c.m) && t !in c.th && op.k[0] == 1
    requires op.from == Root && op.crossed == {} && op.had == View(c.m, op.k).Some?
    ensures Reach(c') && Quiet(c, c') && c'.th == c.th[t := At(Pos(op, S1, E1, 2, false))]
  {
    c' := StartOp(c, t, op);
    c' := Take(c', t, [], 9, c.m);
    var p := Pos(op, Root, c.m.root, 1, false);
    c' := ReadWords(c', t, p, 4);
    c' := FindsSlot(c', t, p);
  }

  lemma FindsSlot(c: State, t: Tid, p: Pos) returns (c': State)
    requires Reach(c) && Ready(c.m) && t in c.th && p.e == c.m.root && p.op.k[0] == 1
    requires p.s == Root && p.d == 1 && !p.fc
    requires c.th[t] == Reading(p, Read(Some(c.m.pages[2].hdr), Some(Root), Snap(c.m, 2, 4)))
    ensures Reach(c') && Quiet(c, c') && c'.th == c.th[t := At(Pos(p.op, S1, E1, 2, false))]
  {
    var r := c.th[t].r;
    assert PageRead(p, r);
    assert SlotHas(c.m, 2, 0) && SlotHas(c.m, 2, 1);
    assert ScanSnap(r.snap, 1, 4) == 1;
    c' := Take(c, t, [], 9, c.m);
  }

  function Updater(c: State): Op {
    Op(false, KeyOf(1, 0), 1, false, Root, {}, View(c.m, KeyOf(1, 0)).Some?)
  }

  /** One thread has read leaf 1 to update it; another has read it to split above it. */
  lemma BothRead() returns (c: State, op: Op, p: Pos)
    ensures Reach(c) && Ready(c.m) && c.th.Keys == {0, 1, 2, 3} && c.th[0].Done? && c.th[1].Done?
    ensures c.posted == multiset{} && c.seen == {(S1, E1)}
    ensures c.th[2] == Updating(op, 1, Leaf(S1, KeyOf(1, 0), 0)) && op.v == 1
    ensures c.th[3] == GotLeaf(p, Leaf(S1, KeyOf(1, 0), 0)) && p.op.k == KeyOf(1, 1) && !p.op.find && p.s == S1
    ensures p.e == E1 && p.d == 2
  {
    c := Prepared();
    op := Updater(c);
    c := ToSlot(c, 2, op);
    c := Take(c, 2, [], 9, c.m);
    c := ToSlot(c, 3, Writer(c, KeyOf(1, 1)));
    p := c.th[3].p;
    c := ReadLeaf(c, 3, p, 9);
  }

  /** What the split at slot 1 leaves behind. */
  lemma SplitAtOne(m: Mem, m': Mem, v: Value)
    requires WF(m) && Ready(m)
    requires m' == PutLeaf(Interpose(m, S1, 4, Path(KeyOf(1, 1))[..2]), Slot(4, 1), 3, KeyOf(1, 1), v)
    ensures Fetch(m', S1).NodeEntry? && Fetch(m', S1).addr == 4 && |Above(m', S1)| == 1 && 1 !in m'.pages
    ensures 9 !in m'.pre
    ensures 1 in m'.leaves && m'.leaves[1] == m.leaves[1] && 3 in m'.leaves && m'.leaves[3].key == KeyOf(1, 1)
  {
    var f := Path(KeyOf(1, 1))[..2];
    CanSplitAtOne(m);
    var m1 := Interpose(m, S1, 4, f);
    InterposeFetch(m, S1, 4, f, S1);
    assert Fetch(m1, S1).NodeEntry? && Fetch(m1, S1).addr == 4;
    assert 9 !in m.pre.Keys && 1 !in m.pages.Keys && PageAt(m, 2);
  }

  lemma CanSplitAtOne(m: Mem)
    requires WF(m) && Ready(m)
    ensures CanInterpose(m, S1, 4, Path(KeyOf(1, 1))[..2])
  {
    assert EntryAt(m, S1) && LeafAt(m, 1) && 4 !in m.pre.Keys;
  }

  /** Slot 1 was split: leaf 1 hangs below page 4, next to leaf 3. */
  ghost predicate SplitOpen(m: Mem) {
    && Fetch(m, S1).NodeEntry? && Fetch(m, S1).addr == 4 && |Above(m, S1)| == 1 && 1 !in m.pages && 9 !in m.pre
    && 1 in m.leaves && m.leaves[1].key == KeyOf(1, 0) && 3 in m.leaves && m.leaves[3].key == KeyOf(1, 1)
  }

  /** The split is done, and the reverse pointer of leaf 1 has followed. */
  lemma SplitDone() returns (c: State, op: Op, q: Op)
    ensures Reach(c) && SplitOpen(c.m) && c.th.Keys == {0, 1, 2, 3} && c.th[0].Done? && c.th[1].Done?
    ensures c.posted == multiset{} && c.seen == {(S1, E1)} && c.m.leaves[1].rev == Slot(4, 0)
    ensures c.th[2] == Updating(op, 1, Leaf(S1, KeyOf(1, 0), 0)) && op.v == 1
    ensures c.th[3] == Done(q, None) && q.k == KeyOf(1, 1) && !q.find
  {
    var p;
    c, op, p := BothRead();
    c := SplitsAtOne(c, p);
    q := p.op;
    c := PointsBack(c);
  }

  lemma SplitsAtOne(c: State, p: Pos) returns (c': State)
    requires Reach(c) && Ready(c.m) && 3 in c.th && c.th[3] == GotLeaf(p, Leaf(S1, KeyOf(1, 0), 0))
    requires p.op.k == KeyOf(1, 1) && p.s == S1 && p.e == E1 && p.d == 2
    ensures Reach(c') && SplitOpen(c'.m) && c'.m.leaves[1].rev == S1 && c'.th == c.th[3 := Done(p.op, None)]
    ensures c'.seen == c.seen
    ensures c'.posted == c.posted + multiset{Rev(1, S1, Slot(4, 0))}
  {
    assert WF(c.m) by { ReachInv(c); }
    assert FreshAddrs(c.m, [4], 3) by { assert 4 !in c.m.pre.Keys && 3 !in c.m.pre.Keys; }
    c' := SplitLeaf(c, 3, p, c.th[3].leaf, 4, 3);
    SplitAtOne(c.m, c'.m, p.op.v);
  }

  lemma PointsBack(c: State) returns (c': State)
    requires Reach(c) && SplitOpen(c.m) && c.m.leaves[1].rev == S1 && c.posted == multiset{Rev(1, S1, Slot(4, 0))}
    ensures Reach(c') && SplitOpen(c'.m) && c'.m.leaves[1].rev == Slot(4, 0) && c'.posted == multiset{}
    ensures c'.th == c.th && c'.seen == c.seen
  {
    c' := PostNow(c, Rev(1, S1, Slot(4, 0)), CasRev(c.m, 1, S1, Slot(4, 0)));
  }

  /** The update writes the leaf back with the reverse pointer that it read before the split. */
  lemma WrittenBack() returns (c: State, q: Op)
    ensures Reach(c) && SplitOpen(c.m) && c.m.leaves[1].rev == S1 && (forall t :: t in c.th ==> c.th[t].Done?)
    ensures c.posted == multiset{} && (S1, E1) in c.seen
    ensures 3 in c.th && c.th[3] == Done(q, None) && q.k == KeyOf(1, 1) && !q.find
  {
    var op;
    c, op, q := SplitDone();
    c := Take(c, 2, [], 9, WriteLeaf(c.m, 1, S1, 1));
  }

  function Finder(k: Key): Op {
    Op(true, k, 0, false, S1, {}, true)
  }

  /** It is false that a search that starts with a cached entry finds every key whose insert has returned: here no
      thread is running and nothing is posted, a root search finds the key, and a search with the cached leaf ends at
      once without it. */
  lemma CachedMisses() returns (c: State, t: Tid)
    ensures Reach(c) && (forall u :: u in c.th ==> c.th[u].Done?) && c.posted == multiset{} && (S1, E1) in c.seen
    ensures t in c.th && !c.th[t].op.find && View(c.m, c.th[t].op.k).Some?
    ensures var k := c.th[t].op.k;
      && Under(Above(c.m, S1), E1.partial, Path(k)) && CachedView(c.m, S1, E1, k) == None
      && StepAt(c.m, Pos(Finder(k), S1, E1, |Above(c.m, S1)| + 1, true), 9) == Out(Keep, Done(Finder(k), None), {})
  {
    var q;
    c, q := WrittenBack();
    t := 3;
    var cs, ss :| IsRun(cs, ss) && cs[|ss|] == c;
    QuiescentView(cs, ss, |ss|, q.k);
    assert HasKey(c.m, q.k);
    RunInv(cs, ss, |ss|);
    assert SeenAt(c, S1, E1) && LeafAt(c.m, 1);
    var f := Above(c.m, S1);
    assert f[0] == Path(KeyOf(1, 0))[0];
    assert Confirmed(c.m, S1, E1);
  }
}
