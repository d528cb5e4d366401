/** Every step of a thread keeps the memory well formed and the thread's own knowledge true. */
module Steps {
  import opened Keys
  import opened RemoteMemory
  import opened MemoryOps
  import opened Lookup
  import opened Splits
  import opened StaleEntries
  import opened Publishing
  import opened Machine
  import opened Invariant

  ghost predicate SentOK(m: Mem, sent: set<Async>) {
    forall q :: q in sent ==> AsyncOK(m, q)
  }

  ghost predicate OutOK(m: Mem, o: Out, m': Mem) {
    WF(m') && Grows(m, m') && LocalOK(m', o.l) && SentOK(m', o.sent)
  }

  /** The byte in the root slot is the path byte of every key. */
  lemma RootByte(m: Mem)
    requires WF(m) && !m.root.Null?
    ensures m.root.partial == 0
  {
    assert EntryAt(m, Root) && PageAt(m, m.root.addr) && LeafAt(m, m.root.addr);
  }

  /** Reading the slot at hand gives an entry that may be relied on. */
  lemma TakeEntry(m: Mem, p: Pos)
    requires WF(m) && PlaceOK(m, p) && p.e == Fetch(m, p.s)
    ensures PosOK(m, p)
  {
    if p.op.had {
      var a :| a in m.leaves && m.leaves[a].key == p.op.k;
      assert LeafAt(m, a);
      if p.s.Root? { RootCovers(m, a); }
      assert EntryAt(m, p.s);
      Cover(m, p.s, a);
    }
    if !p.e.Null? {
      HeldNow(m, p.s);
      if p.s.Root? { RootByte(m); }
    }
  }

  lemma AtNull(m: Mem, p: Pos, a: Addr, m': Mem)
    requires WF(m) && PosOK(m, p) && p.e.Null? && a !in m.pre
    requires Applies(m, StepAt(m, p, a).eff, m')
    ensures OutOK(m, StepAt(m, p, a), m')
  {
    GrowsRefl(m);
    if !p.op.find {
      if Fetch(m, p.s).Null? {
        PutRoot(m, p.op, a);
      } else {
        TakeEntry(m, p.(e := Fetch(m, p.s)));
      }
    }
  }

  lemma PutRoot(m: Mem, op: Op, a: Addr)
    requires WF(m) && OpOK(m, op) && m.root.Null? && a !in m.pre
    ensures var m' := PutLeaf(m, Root, a, op.k, op.v); WF(m') && Grows(m, m') && Published(m', op)
  {
    var m' := PutLeaf(m, Root, a, op.k, op.v);
    PutLeafWF(m, Root, a, op.k, op.v);
    PutLeafGrows(m, Root, a, op.k, op.v);
    OpStable(m, m', op);
    assert a in m'.leaves && m'.leaves[a].key == op.k;
    forall x ensures ClearAt(m', x, Path(op.k), PATH_LEN, Lo(m', op), op.crossed) {
      if x in m.pre { RootCovers(m, x); }
    }
  }

  lemma PathInjective(j: Key, k: Key)
    requires Ext(Path(j), Path(k))
    ensures j == k
  {
    forall i | 0 <= i < KEY_LEN ensures j[i] == k[i] { assert Path(j)[i + 1] == Path(k)[i + 1]; }
  }

  lemma AtLeaf(m: Mem, p: Pos, a: Addr)
    requires WF(m) && PosOK(m, p) && p.e.LeafEntry?
    ensures StepAt(m, p, a).eff == Keep && OutOK(m, StepAt(m, p, a), m)
  {
    GrowsRefl(m);
    var b := p.e.addr;
    assert LeafAt(m, b);
    if m.leaves[b].key == p.op.k {
      ClearBelow(m, p.s, b, Path(p.op.k), PATH_LEN, Lo(m, p.op), p.op.crossed);
    } else if p.op.had {
      PathInjective(m.leaves[b].key, p.op.k);
    }
  }

  lemma AtNode(m: Mem, p: Pos, a: Addr)
    requires WF(m) && PosOK(m, p) && p.e.NodeEntry?
    ensures StepAt(m, p, a).eff == Keep && OutOK(m, StepAt(m, p, a), m)
  {
    GrowsRefl(m);
  }

  // splits

  lemma SplitDone(m: Mem, op: Op, s: SlotRef, len: nat, addrs: seq<Addr>, a: Addr, m': Mem)
    requires WF(m) && OpOK(m, op) && Diverges(m, s, op.k, len) && FreshAddrs(m, addrs, a)
    requires SplitTo(m, m', s, op.k, op.v, len, addrs, a)
    requires Clear(m, Path(op.k), |Above(m, s)| + 1, Lo(m, op), op.crossed)
    ensures WF(m') && Grows(m, m') && Published(m', op)
  {
    SplitKeeps(m, m', s, op.k, op.v, len, addrs, a);
    SplitClear(m, m', s, op.k, op.v, len, addrs, a, Lo(m, op), op.crossed);
    OpStable(m, m', op);
    assert a in m'.leaves && m'.leaves[a].key == op.k;
  }

  /** A CAS that fails hands the current entry to the thread. */
  lemma Retry(m: Mem, p: Pos)
    requires WF(m) && PosOK(m, p) && !p.op.find && Fetch(m, p.s) != p.e
    ensures OutOK(m, Out(Keep, At(p.(e := Fetch(m, p.s))), {}), m)
  {
    GrowsRefl(m);
    TakeEntry(m, p.(e := Fetch(m, p.s)));
  }

  lemma LeafDiverges(m: Mem, p: Pos, leaf: Leaf)
    requires WF(m) && LocalOK(m, GotLeaf(p, leaf)) && Fetch(m, p.s) == p.e
    ensures Diverges(m, p.s, p.op.k, LeafLen(p, leaf))
  {
    var y := p.e.addr;
    assert LeafAt(m, y) && EntryAt(m, p.s);
    var n := LeafLen(p, leaf);
    forall i | 0 <= i < p.d + n ensures i < PATH_LEN && Path(p.op.k)[i] == m.pre[y][i] {}
    if p.d + n >= PATH_LEN { PathInjective(leaf.key, p.op.k); }
  }

  lemma GotLeafStep(m: Mem, p: Pos, leaf: Leaf, addrs: seq<Addr>, a: Addr, m': Mem)
    requires WF(m) && LocalOK(m, GotLeaf(p, leaf)) && FreshAddrs(m, addrs, a)
    requires Applies(m, StepGotLeaf(m, p, leaf, addrs, a).eff, m')
    ensures OutOK(m, StepGotLeaf(m, p, leaf, addrs, a), m')
  {
    if Fetch(m, p.s) == p.e {
      LeafDiverges(m, p, leaf);
      SplitDone(m, p.op, p.s, LeafLen(p, leaf), addrs, a, m');
    } else {
      Retry(m, p);
    }
  }

  lemma HeaderDiverges(m: Mem, p: Pos, h: Header, i: nat)
    requires WF(m) && SplitOK(m, p, h, i) && Fetch(m, p.s) == p.e
    ensures h.depth + i >= p.d
    ensures Diverges(m, p.s, p.op.k, SplitLen(p, h, i))
  {
    var x := p.e.addr;
    assert PageAt(m, x) && EntryAt(m, p.s);
    var f := h.depth + i;
    assert h.partial[i] == m.pre[x][f];
    forall l | 0 <= l < f ensures Path(p.op.k)[l] == m.pre[x][l] {
      if l >= p.d { assert Agrees(h, p.op.k, l - h.depth); }
    }
  }

  lemma SplitHeaderOK(h: Header, f: Bytes, i: nat)
    requires HeaderOK(h, f) && i < |h.partial|
    ensures HeaderOK(SplitHeader(h, i).(ntype := NODE_4), f)
  {}

  lemma SplitTrim(m: Mem, p: Pos, h: Header, i: nat, addrs: seq<Addr>, a: Addr, m': Mem)
    requires WF(m) && SplitOK(m, p, h, i) && Fetch(m, p.s) == p.e && FreshAddrs(m, addrs, a)
    requires SplitTo(m, m', p.s, p.op.k, p.op.v, SplitLen(p, h, i), addrs, a) && WF(m') && Grows(m, m')
    ensures AsyncOK(m', Trim(p.e.addr, h, SplitHeader(h, i)))
  {
    HeaderDiverges(m, p, h, i);
    SplitHeaderOK(h, m.pre[p.e.addr], i);
    assert TargetGrows(m, m', p.e.addr);
    SplitTarget(m, m', p.s, p.op.k, p.op.v, SplitLen(p, h, i), addrs, a);
  }

  lemma SplittingStep(m: Mem, p: Pos, h: Header, i: nat, addrs: seq<Addr>, a: Addr, m': Mem)
    requires WF(m) && SplitOK(m, p, h, i) && FreshAddrs(m, addrs, a)
    requires Applies(m, StepSplitting(m, p, h, i, addrs, a).eff, m')
    ensures OutOK(m, StepSplitting(m, p, h, i, addrs, a), m')
  {
    if Fetch(m, p.s) == p.e {
      HeaderDiverges(m, p, h, i);
      SplitDone(m, p.op, p.s, SplitLen(p, h, i), addrs, a, m');
      SplitTrim(m, p, h, i, addrs, a, m');
    } else {
      Retry(m, p);
    }
  }
}
