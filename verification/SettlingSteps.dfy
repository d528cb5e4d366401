/** Every change that insert makes takes a settled memory to a settled one. */
module SettlingSteps {
  import opened Keys
  import opened RemoteMemory
  import opened MemoryOps
  import opened Lookup
  import opened Splits
  import opened StaleEntries
  import opened Machine
  import opened Invariant
  import opened Steps
  import opened Runs
  import opened Views
  import opened Settling

  /** A new leaf in the first free slot below the capacity. */
  lemma PutSettled(m: Mem, s: SlotRef, a: Addr, k: Key, v: Value)
    requires Settled(m) && a !in m.pre && |Above(m, s)| <= KEY_LEN && Ext(Above(m, s), Path(k))
    requires FirstFree(m, s, Path(k)[|Above(m, s)|])
    requires s.Slot? ==> s.idx < Capacity(m.pages[s.page].hdr.ntype)
    ensures var m' := PutLeaf(m, s, a, k, v); Settled(m') && Grows(m, m')
  {
    var m' := PutLeaf(m, s, a, k, v);
    PutLeafWF(m, s, a, k, v);
    PutLeafGrows(m, s, a, k, v);
    forall y ensures SettledAt(m', y) { PutSettledAt(m, s, a, k, v, y); }
    forall x, j ensures CoveredAt(m', x, j) {
      assert CoveredAt(m, x, j);
      FetchPut(m, s, a, k, v, Slot(x, j));
    }
  }

  lemma FetchPut(m: Mem, s: SlotRef, a: Addr, k: Key, v: Value, t: SlotRef)
    requires WF(m) && SlotIn(m, s) && |Above(m, s)| <= KEY_LEN
    ensures Fetch(PutLeaf(m, s, a, k, v), t) == if t == s then LeafEntry(Path(k)[|Above(m, s)|], a) else Fetch(m, t)
  {
    FetchWrite(m, s, LeafEntry(Path(k)[|Above(m, s)|], a), t);
  }

  lemma PutSettledAt(m: Mem, s: SlotRef, a: Addr, k: Key, v: Value, y: Addr)
    requires WF(m) && SettledAt(m, y) && a !in m.pre && SlotIn(m, s) && Fetch(m, s).Null? && |Above(m, s)| <= KEY_LEN
    ensures SettledAt(PutLeaf(m, s, a, k, v), y)
  {
    if y in m.par {
      assert OwnerAt(m, y) && EntryAt(m, m.par[y]);
      FetchPut(m, s, a, k, v, m.par[y]);
      if m.par[y].Slot? { assert PageAt(m, m.par[y].page); FilledIn(m, m.par[y]); }
    }
  }

  /** Node types in header and slot, and everything about other targets, after a type switch. */
  lemma RaiseSettledAt(m: Mem, s: SlotRef, e: Entry, x: Addr, t: NodeType, y: Addr)
    requires WF(m) && SettledAt(m, y) && e.NodeEntry? && e.addr == x && Fetch(m, s) == e
    requires SettledAt(m, x)
    ensures var m' := RaiseHeader(RaiseEntry(m, s, e, t), x, e.ntype, t); SettledAt(m', y)
  {
    assert EntryAt(m, s) && OwnerAt(m, y);
    FilledIn(m, s);
    if y in m.par { FetchWrite(m, s, e.(ntype := t), m.par[y]); }
  }

  /** An insert behind the capacity, followed by the type switch. */
  lemma BehindSettled(m: Mem, s: SlotRef, e: Entry, x: Addr, i: nat, a: Addr, k: Key, v: Value, t: NodeType, m1: Mem,
                      m': Mem)
    requires Settled(m) && a !in m.pre && e.NodeEntry? && e.addr == x && Fetch(m, s) == e && x in m.pages
    requires |m.pre[x]| <= KEY_LEN && Ext(m.pre[x], Path(k)) && FirstFree(m, Slot(x, i), Path(k)[|m.pre[x]|])
    requires e.ntype <= t && t != DELETED && i < Capacity(t)
    requires m1 == PutLeaf(m, Slot(x, i), a, k, v) && m' == RaiseHeader(RaiseEntry(m1, s, e, t), x, e.ntype, t)
    ensures Settled(m') && Grows(m, m')
  {
    assert SettledAt(m, x) && EntryAt(m, s);
    PutLeafWF(m, Slot(x, i), a, k, v);
    PutLeafGrows(m, Slot(x, i), a, k, v);
    FetchPut(m, Slot(x, i), a, k, v, s);
    var m2 := RaiseEntry(m1, s, e, t);
    RaiseEntryShape(m1, s, e, t);
    SameShapeKeeps(m1, m2);
    RaiseHeaderShape(m2, x, e.ntype, t);
    SameShapeKeeps(m2, m');
    GrowsTrans(m, m1, m2);
    GrowsTrans(m, m2, m');
    forall y ensures SettledAt(m', y) {
      assert SettledAt(m, y);
      PutSettledAt(m, Slot(x, i), a, k, v, y);
      PutSettledAt(m, Slot(x, i), a, k, v, x);
      RaiseSettledAt(m1, s, e, x, t, y);
    }
    forall z, j ensures CoveredAt(m', z, j) { BehindCovered(m, s, e, x, i, a, k, v, t, m1, m', z, j); }
  }

  lemma BehindCovered(m: Mem, s: SlotRef, e: Entry, x: Addr, i: nat, a: Addr, k: Key, v: Value, t: NodeType, m1: Mem,
                      m': Mem, z: Addr, j: nat)
    requires Settled(m) && WF(m1) && e.NodeEntry? && e.addr == x && Fetch(m1, s) == e && x in m.pages
    requires m.pages[x].hdr.ntype == e.ntype
    requires |m.pre[x]| <= KEY_LEN && SlotIn(m, Slot(x, i)) && e.ntype <= t && i < Capacity(t) && x in m.pre
    requires m1 == PutLeaf(m, Slot(x, i), a, k, v) && m' == RaiseHeader(RaiseEntry(m1, s, e, t), x, e.ntype, t)
    ensures CoveredAt(m', z, j)
  {
    assert CoveredAt(m, z, j);
    FetchPut(m, Slot(x, i), a, k, v, Slot(z, j));
    FilledIn(m1, s);
    FetchWrite(m1, s, e.(ntype := t), Slot(z, j));
    CapacityMono(e.ntype, t);
    BehindTypes(m, s, e, x, i, a, k, v, t, z);
  }

  lemma BehindTypes(m: Mem, s: SlotRef, e: Entry, x: Addr, i: nat, a: Addr, k: Key, v: Value, t: NodeType, z: Addr)
    requires e.NodeEntry? && x in m.pages && m.pages[x].hdr.ntype == e.ntype
    ensures var m' := RaiseHeader(RaiseEntry(PutLeaf(m, Slot(x, i), a, k, v), s, e, t), x, e.ntype, t);
      (z in m'.pages <==> z in m.pages)
        && (z in m.pages ==> m'.pages[z].hdr.ntype == if z == x then t else m.pages[z].hdr.ntype)
  {}

  lemma WriteSettled(m: Mem, a: Addr, v: Value)
    requires Settled(m) && a in m.leaves
    ensures var m' := WriteLeaf(m, a, m.leaves[a].rev, v); Settled(m') && Grows(m, m')
  {
    var m' := WriteLeaf(m, a, m.leaves[a].rev, v);
    WriteLeafShape(m, a, m.leaves[a].rev, v);
    SameShapeKeeps(m, m');
    forall y ensures SettledAt(m', y) { assert SettledAt(m, y); }
    forall x, j ensures CoveredAt(m', x, j) { assert CoveredAt(m, x, j); }
  }

  // splits

  /** The old target of a split keeps its header, its reverse pointer and the type in the slot above it. */
  ghost predicate CarriedAt(m: Mem, mi: Mem, y: Addr) {
    && (y in m.leaves ==> y in mi.leaves && mi.leaves[y].rev == m.leaves[y].rev)
    && (y in m.pages ==> y in mi.pages && mi.pages[y].rev == m.pages[y].rev && mi.pages[y].hdr == m.pages[y].hdr
                         && EntryType(mi, y) == EntryType(m, y))
  }

  lemma InterposeSettledAt(m: Mem, s: SlotRef, n: Addr, f: Bytes, y: Addr)
    requires WF(m) && CanInterpose(m, s, n, f) && y != Fetch(m, s).addr && (y != n ==> SettledAt(m, y))
    ensures SettledAt(Interpose(m, s, n, f), y)
  {
    assert EntryAt(m, s);
    if y == n {
      InterposeFetch(m, s, n, f, s);
    } else if y in m.par {
      assert OwnerAt(m, y) && EntryAt(m, m.par[y]);
      InterposeFetch(m, s, n, f, m.par[y]);
    }
  }

  lemma InterposeCarried(m: Mem, mi: Mem, s: SlotRef, n: Addr, f: Bytes, y: Addr)
    requires WF(mi) && CanInterpose(mi, s, n, f) && y == Fetch(mi, s).addr && CarriedAt(m, mi, y)
    ensures CarriedAt(m, Interpose(mi, s, n, f), y)
  {
    assert EntryAt(mi, s);
    InterposeFetch(mi, s, n, f, Slot(n, 0));
  }

  /** Along the chain everything but the old target is settled. */
  lemma {:induction false} ChainSettled(ms: seq<Mem>, m: Mem, m': Mem, s: SlotRef, k: Key, v: Value, len: nat,
                                        addrs: seq<Addr>, a: Addr, i: nat, y: Addr)
    requires WF(m) && SettledAt(m, y) && Diverges(m, s, k, len) && FreshAddrs(m, addrs, a)
    requires SplitBy(ms, m, m', s, k, v, len, addrs, a) && i < |addrs|
    ensures if y == Fetch(m, s).addr then CarriedAt(m, ms[i], y) else SettledAt(ms[i], y)
    decreases i
  {
    if i > 0 {
      ChainSettled(ms, m, m', s, k, v, len, addrs, a, i - 1, y);
      ChainHolds(ms, m, m', s, k, v, len, addrs, a, i - 1);
      assert Link(ms, s, k, len, addrs, i - 1);
      ChainSettledNext(m, ms[i - 1], ms[i], s, k, len, addrs, a, i - 1, y);
    }
  }

  lemma ChainSettledNext(m: Mem, mi: Mem, m1: Mem, s: SlotRef, k: Key, len: nat, addrs: seq<Addr>, a: Addr, i: nat,
                         y: Addr)
    requires WF(m) && Diverges(m, s, k, len) && FreshAddrs(m, addrs, a) && |addrs| == ChainLen(len)
    requires i + 1 < |addrs| && ChainAt(m, mi, s, k, len, addrs, a, i)
    requires var t := LinkSlot(s, addrs, i); m1 == Interpose(mi, t, addrs[i], PathTo(mi, t, k, LinkLen(len, i)))
    requires if y == Fetch(m, s).addr then CarriedAt(m, mi, y) else SettledAt(mi, y)
    ensures if y == Fetch(m, s).addr then CarriedAt(m, m1, y) else SettledAt(m1, y)
  {
    LinkSettled(m, mi, LinkSlot(s, addrs, i), k, len - CHUNK * i, addrs[i], HDR_MAX, Fetch(m, s).addr, y);
  }

  lemma LinkSettled(m: Mem, mi: Mem, t: SlotRef, k: Key, len: nat, n: Addr, here: nat, y0: Addr, y: Addr)
    requires WF(mi) && Diverges(mi, t, k, len) && n !in mi.pre && here <= HDR_MAX && here <= len
    requires y0 == Fetch(mi, t).addr
    requires if y == y0 then CarriedAt(m, mi, y) else SettledAt(mi, y)
    ensures var m1 := Interpose(mi, t, n, PathTo(mi, t, k, here));
      if y == y0 then CarriedAt(m, m1, y) else SettledAt(m1, y)
  {
    LinkCan(mi, t, k, len, n, here);
    if y == y0 {
      InterposeCarried(m, mi, t, n, PathTo(mi, t, k, here), y);
    } else {
      InterposeSettledAt(mi, t, n, PathTo(mi, t, k, here), y);
    }
  }

  lemma PutCarried(m: Mem, mi: Mem, s: SlotRef, a: Addr, k: Key, v: Value, y: Addr)
    requires WF(mi) && a !in mi.pre && SlotIn(mi, s) && Fetch(mi, s).Null? && |Above(mi, s)| <= KEY_LEN && y in mi.par
    requires CarriedAt(m, mi, y)
    ensures CarriedAt(m, PutLeaf(mi, s, a, k, v), y)
  {
    assert OwnerAt(mi, y);
    FetchPut(mi, s, a, k, v, mi.par[y]);
  }

  /** After a split everything but the old target is settled. */
  lemma SplitSettled(m: Mem, m': Mem, s: SlotRef, k: Key, v: Value, len: nat, addrs: seq<Addr>, a: Addr, y: Addr)
    requires WF(m) && SettledAt(m, y) && Diverges(m, s, k, len) && FreshAddrs(m, addrs, a)
    requires SplitTo(m, m', s, k, v, len, addrs, a)
    ensures if y == Fetch(m, s).addr then CarriedAt(m, m', y) else SettledAt(m', y)
  {
    var ms :| SplitBy(ms, m, m', s, k, v, len, addrs, a);
    var mi, t, n, x := ChainEnd(ms, m, m', s, k, v, len, addrs, a);
    ChainSettled(ms, m, m', s, k, v, len, addrs, a, |addrs| - 1, y);
    LastSettled(m, mi, m', t, k, v, n, x, a, Fetch(m, s).addr, y);
  }

  lemma LastSettled(m: Mem, mi: Mem, m': Mem, t: SlotRef, k: Key, v: Value, n: nat, x: Addr, a: Addr, y0: Addr, y: Addr)
    requires WF(mi) && Diverges(mi, t, k, n) && x !in mi.pre && n <= HDR_MAX && a !in mi.pre && a != x
    requires y0 == Fetch(mi, t).addr
    requires m' == PutLeaf(Interpose(mi, t, x, PathTo(mi, t, k, n)), Slot(x, 1), a, k, v)
    requires if y == y0 then CarriedAt(m, mi, y) else SettledAt(mi, y)
    ensures if y == y0 then CarriedAt(m, m', y) else SettledAt(m', y)
  {
    var m1 := Interpose(mi, t, x, PathTo(mi, t, k, n));
    LinkSettled(m, mi, t, k, n, x, n, y0, y);
    LinkKeeps(mi, t, k, n, x, n);
    LinkLast(mi, t, k, n, x);
    if y == y0 {
      LinkCan(mi, t, k, n, x, n);
      PutCarried(m, m1, Slot(x, 1), a, k, v, y);
    } else {
      PutSettledAt(m1, Slot(x, 1), a, k, v, y);
    }
  }

  lemma SplitCovered(m: Mem, m': Mem, s: SlotRef, k: Key, v: Value, len: nat, addrs: seq<Addr>, a: Addr)
    requires Settled(m) && Diverges(m, s, k, len) && FreshAddrs(m, addrs, a) && WF(m') && Grows(m, m')
    requires SplitTo(m, m', s, k, v, len, addrs, a)
    ensures Covered(m')
  {
    var eff := SplitAt(s, k, v, len, addrs, a);
    forall x, j ensures CoveredAt(m', x, j) {
      assert CoveredAt(m, x, j);
      if Hidden(m', x, j) { HiddenEffect(m, eff, m', x, j); }
    }
  }

  /** What a split leaves to be settled: the reverse pointer and the header of the old target. */
  ghost predicate Pending(m: Mem, m1: Mem, y0: Addr, t: SlotRef, d: nat) {
    && WF(m1) && Grows(m, m1) && Covered(m1)
    && y0 in m1.par && m1.par[y0] == t && |Above(m1, t)| + 1 == d && CarriedAt(m, m1, y0)
    && (forall y :: y != y0 ==> SettledAt(m1, y))
  }

  lemma SplitPending(m: Mem, m1: Mem, s: SlotRef, k: Key, v: Value, len: nat, addrs: seq<Addr>, a: Addr)
    requires Settled(m) && Diverges(m, s, k, len) && FreshAddrs(m, addrs, a)
    requires SplitTo(m, m1, s, k, v, len, addrs, a) && addrs != []
    ensures Pending(m, m1, Fetch(m, s).addr, Slot(addrs[|addrs| - 1], 0), |Above(m, s)| + 2 + len)
  {
    SplitKeeps(m, m1, s, k, v, len, addrs, a);
    SplitTarget(m, m1, s, k, v, len, addrs, a);
    SplitCovered(m, m1, s, k, v, len, addrs, a);
    assert SettledAt(m, Fetch(m, s).addr);
    SplitSettled(m, m1, s, k, v, len, addrs, a, Fetch(m, s).addr);
    forall y | y != Fetch(m, s).addr ensures SettledAt(m1, y) {
      assert SettledAt(m, y);
      SplitSettled(m, m1, s, k, v, len, addrs, a, y);
    }
  }

  /** The CAS of a leaf's reverse pointer settles a split above the leaf. */
  lemma LeafSettles(m: Mem, m1: Mem, m': Mem, y0: Addr, s: SlotRef, t: SlotRef, d: nat)
    requires Settled(m) && y0 in m.leaves && m.par[y0] == s && Pending(m, m1, y0, t, d)
    requires m' == CasRev(m1, y0, s, t)
    ensures Settled(m') && Grows(m, m')
  {
    CasRevShape(m1, y0, s, t);
    SameShapeKeeps(m1, m');
    GrowsTrans(m, m1, m');
    assert SettledAt(m, y0);
    forall y ensures SettledAt(m', y) { assert y != y0 ==> SettledAt(m1, y); }
    forall x, j ensures CoveredAt(m', x, j) { assert CoveredAt(m1, x, j); }
  }

  lemma PageRev(m: Mem, m1: Mem, m2: Mem, x: Addr, s: SlotRef, t: SlotRef, d: nat)
    requires Settled(m) && x in m.pages && m.par[x] == s && Pending(m, m1, x, t, d)
    requires m2 == CasRev(m1, x, s, t)
    ensures WF(m2) && Grows(m, m2) && Covered(m2) && m2.par == m1.par && m2.pre == m1.pre
    ensures x in m2.pages && m2.pages[x].rev == t && m2.pages[x].hdr == m.pages[x].hdr
    ensures EntryType(m2, x) == m.pages[x].hdr.ntype
    ensures forall y :: y != x ==> SettledAt(m2, y)
  {
    CasRevShape(m1, x, s, t);
    SameShapeKeeps(m1, m2);
    GrowsTrans(m, m1, m2);
    assert SettledAt(m, x);
    forall y | y != x ensures SettledAt(m2, y) { assert SettledAt(m1, y); }
    forall z, j ensures CoveredAt(m2, z, j) { assert CoveredAt(m1, z, j); }
  }

  lemma TrimSettledAt(m: Mem, x: Addr, h: Header, i: nat, y: Addr)
    requires x in m.pages && m.pages[x].hdr == h && i < |h.partial| && (y != x ==> SettledAt(m, y))
    requires x in m.par && x !in m.leaves && m.pages[x].rev == m.par[x] && EntryType(m, x) == h.ntype
    requires |Above(m, m.par[x])| == h.depth + i
    ensures SettledAt(TrimHeader(m, x, h, SplitHeader(h, i)), y)
  {
    var m' := TrimHeader(m, x, h, SplitHeader(h, i));
    if y in m.par {
      assert Above(m', m.par[y]) == Above(m, m.par[y]) && Fetch(m', m.par[y]) == Fetch(m, m.par[y]);
    }
  }

  /** The CAS of a page's reverse pointer and the trim of its header settle a split above the page. */
  lemma PageSettles(m: Mem, m1: Mem, m2: Mem, m': Mem, x: Addr, s: SlotRef, t: SlotRef, i: nat)
    requires Settled(m) && x in m.pages && m.par[x] == s && i < |m.pages[x].hdr.partial|
    requires Pending(m, m1, x, t, m.pages[x].hdr.depth + i + 1)
    requires m2 == CasRev(m1, x, s, t) && m' == TrimHeader(m2, x, m.pages[x].hdr, SplitHeader(m.pages[x].hdr, i))
    ensures Settled(m') && Grows(m, m')
  {
    var h := m.pages[x].hdr;
    PageRev(m, m1, m2, x, s, t, h.depth + i + 1);
    assert PageAt(m, x) && TargetGrows(m, m2, x);
    SplitHeaderOK(h, m.pre[x], i);
    TrimHeaderShape(m2, x, h, SplitHeader(h, i));
    SameShapeKeeps(m2, m');
    GrowsTrans(m, m2, m');
    forall y ensures SettledAt(m', y) { assert y != x ==> SettledAt(m2, y); TrimSettledAt(m2, x, h, i, y); }
    forall z, j ensures CoveredAt(m', z, j) { assert CoveredAt(m2, z, j); }
  }
}
