/** Reading a page, choosing a slot in it, and switching its type. */
module PageSteps {
  import opened Keys
  import opened RemoteMemory
  import opened MemoryOps
  import opened Lookup
  import opened Splits
  import opened StaleEntries
  import opened Publishing
  import opened Machine
  import opened Invariant
  import opened Steps

  /** A slot on the path of a key that was there from the start leads to that key. */
  lemma HadSlot(m: Mem, op: Op, s: SlotRef)
    requires WF(m) && OpOK(m, op) && op.had && OnPath(m, s, op.k)
    ensures Fits(m, op, Fetch(m, s))
    ensures s.Slot? ==> s.idx < Capacity(m.pages[s.page].hdr.ntype)
  {
    var a :| a in m.leaves && m.leaves[a].key == op.k;
    assert LeafAt(m, a);
    Cover(m, s, a);
    if s.Slot? {
      assert PageAt(m, s.page);
      assert ClearAt(m, s.page, Path(op.k), PATH_LEN, 0, {});
    }
  }

  /** One word of a non-atomic page read. */
  lemma WordStep(m: Mem, p: Pos, r: Read, w: Word)
    requires WF(m) && ReadOK(m, p, r)
    ensures ReadOK(m, p, StepWord(m, p, r, w))
  {
    var x, r' := p.e.addr, StepWord(m, p, r, w);
    assert PageAt(m, x);
    forall i ensures SnapOK(m, x, r'.snap, i) {
      assert SnapOK(m, x, r.snap, i);
      if w == SlotWord(i) && !Fetch(m, Slot(x, i)).Null? { HeldNow(m, Slot(x, i)); }
    }
    forall j ensures HadRead(m, p.op, x, r', j) {
      assert HadRead(m, p.op, x, r, j);
      if p.op.had && OnPath(m, Slot(x, j), p.op.k) { HadSlot(m, p.op, Slot(x, j)); }
    }
  }

  /** A key that agrees with the path so far and with the whole header extends the page's full prefix. */
  lemma HeaderExtends(m: Mem, p: Pos, h: Header)
    requires WF(m) && PosOK(m, p) && p.e.NodeEntry? && HdrSeen(m, p.e.addr, h) && h.depth <= p.d
    requires forall l :: 0 <= l < |h.partial| ==> Agrees(h, p.op.k, l)
    ensures |m.pre[p.e.addr]| <= KEY_LEN && Ext(m.pre[p.e.addr], Path(p.op.k))
  {
    var f := m.pre[p.e.addr];
    assert PageAt(m, p.e.addr);
    forall i | 0 <= i < |f| ensures f[i] == Path(p.op.k)[i] {
      if i >= p.d { assert Agrees(h, p.op.k, i - h.depth); }
    }
  }

  /** A key that is there extends every page on its path, so no header on the path differs from it. */
  lemma HadAgrees(m: Mem, p: Pos, h: Header, i: nat)
    requires WF(m) && PosOK(m, p) && p.e.NodeEntry? && HdrSeen(m, p.e.addr, h) && p.op.had && i < |h.partial|
    ensures Agrees(h, p.op.k, i)
  {
    assert PageAt(m, p.e.addr);
    assert h.partial[i] == m.pre[p.e.addr][h.depth + i];
  }

  /** Moving on to slot `j` of the page in hand. */
  lemma ClearNext(m: Mem, op: Op, op': Op, x: Addr, j: nat)
    requires WF(m) && x in m.pages && op'.k == op.k && op'.from == op.from && op.crossed <= op'.crossed
    requires Clear(m, Path(op.k), |m.pre[x]|, Lo(m, op), op.crossed) && OnPath(m, Slot(x, j), op.k)
    requires j < Capacity(m.pages[x].hdr.ntype) || Slot(x, j) in op'.crossed
    ensures Clear(m, Path(op.k), |m.pre[x]| + 1, Lo(m, op'), op'.crossed)
  {
    var d := |m.pre[x]| + 1;
    forall z ensures ClearAt(m, z, Path(op.k), d, Lo(m, op'), op'.crossed) {
      assert ClearAt(m, z, Path(op.k), |m.pre[x]|, Lo(m, op), op.crossed) && PageAt(m, z) && PageAt(m, x);
      if z in m.pages && |m.pre[z]| == |m.pre[x]| && Ext(m.pre[z], Path(op.k)) {
        assert m.pre[z] == m.pre[x];
        Unique(m, z, x);
      }
    }
  }

  lemma PageClear(m: Mem, p: Pos)
    requires WF(m) && PosOK(m, p) && p.e.NodeEntry? && Ext(m.pre[p.e.addr], Path(p.op.k))
    ensures Clear(m, Path(p.op.k), |m.pre[p.e.addr]|, Lo(m, p.op), p.op.crossed)
  {
    assert PageAt(m, p.e.addr);
    ClearBelow(m, p.s, p.e.addr, Path(p.op.k), |m.pre[p.e.addr]|, Lo(m, p.op), p.op.crossed);
  }

  /** A matching slot was read: go on to it. */
  lemma DecideNext(m: Mem, p: Pos, r: Read, j: nat)
    requires WF(m) && ReadOK(m, p, r) && PageRead(p, r)
    requires |m.pre[p.e.addr]| <= KEY_LEN && Ext(m.pre[p.e.addr], Path(p.op.k))
    requires j < Capacity(r.hdr.value.ntype) && !r.snap[j].Null? && r.snap[j].partial == Path(p.op.k)[|m.pre[p.e.addr]|]
    ensures PosOK(m, Pos(p.op, Slot(p.e.addr, j), r.snap[j], |m.pre[p.e.addr]| + 1, false))
  {
    var x := p.e.addr;
    assert SnapOK(m, x, r.snap, j) && HadRead(m, p.op, x, r, j) && PageAt(m, x);
    CapacityMono(r.hdr.value.ntype, m.pages[x].hdr.ntype);
    PageClear(m, p);
    ClearNext(m, p.op, p.op, x, j);
  }

  /** No slot matches: an insert starts to look for a free slot. */
  lemma DecideFill(m: Mem, p: Pos, r: Read)
    requires WF(m) && ReadOK(m, p, r) && PageRead(p, r) && !p.op.find
    requires |m.pre[p.e.addr]| <= KEY_LEN && Ext(m.pre[p.e.addr], Path(p.op.k))
    requires forall j :: 0 <= j < Capacity(r.hdr.value.ntype) ==>
      r.snap[j].Null? || r.snap[j].partial != Path(p.op.k)[|m.pre[p.e.addr]|]
    ensures FillOK(m, p.(e := p.e.(ntype := r.hdr.value.ntype)), r.hdr.value, r.snap, 0)
  {
    var x := p.e.addr;
    PageClear(m, p);
    var b := Path(p.op.k)[|m.pre[x]|];
    forall j | 0 <= j < Capacity(r.hdr.value.ntype) ensures SnapOther(m, x, r.snap, j, b) {
      assert SnapOK(m, x, r.snap, j);
    }
  }

  /** The slot towards a key that was there from the start has been read and matches. */
  lemma HadFound(m: Mem, p: Pos, r: Read) returns (j: nat)
    requires WF(m) && ReadOK(m, p, r) && PageRead(p, r) && p.op.had
    ensures |m.pre[p.e.addr]| <= KEY_LEN && j < Capacity(r.hdr.value.ntype)
    ensures !r.snap[j].Null? && r.snap[j].partial == Path(p.op.k)[|m.pre[p.e.addr]|]
  {
    var x := p.e.addr;
    var a :| a in m.leaves && m.leaves[a].key == p.op.k;
    assert LeafAt(m, a) && PageAt(m, x);
    j := SlotToward(m, x, a);
    assert HadRead(m, p.op, x, r, j) && SnapOK(m, x, r.snap, j);
  }

  /** A search that finds no matching slot began when the key was not there. */
  lemma DecideMiss(m: Mem, p: Pos, r: Read)
    requires WF(m) && ReadOK(m, p, r) && PageRead(p, r)
    requires |m.pre[p.e.addr]| <= KEY_LEN
    requires forall j :: 0 <= j < Capacity(r.hdr.value.ntype) ==>
      r.snap[j].Null? || r.snap[j].partial != Path(p.op.k)[|m.pre[p.e.addr]|]
    ensures !p.op.had
  {
    if p.op.had { var j := HadFound(m, p, r); }
  }

  /** So did a search that a header sent away. */
  lemma MismatchMiss(m: Mem, p: Pos, h: Header, i: nat)
    requires WF(m) && PosOK(m, p) && p.e.NodeEntry? && HdrSeen(m, p.e.addr, h)
    requires i < |h.partial| && !Agrees(h, p.op.k, i)
    ensures !p.op.had
  {
    if p.op.had { HadAgrees(m, p, h, i); }
  }

  lemma DecideSlot(m: Mem, p: Pos, r: Read, f: nat)
    requires WF(m) && ReadOK(m, p, r) && PageRead(p, r)
    requires f == |m.pre[p.e.addr]| <= KEY_LEN && Ext(m.pre[p.e.addr], Path(p.op.k))
    ensures LocalOK(m, StepRecords(p.(e := p.e.(ntype := r.hdr.value.ntype)), r.hdr.value, r.snap, f))
  {
    var j := ScanSnap(r.snap, Path(p.op.k)[f], Capacity(r.hdr.value.ntype));
    if j < Capacity(r.hdr.value.ntype) {
      DecideNext(m, p, r, j);
    } else if p.op.find {
      DecideMiss(m, p, r);
    } else {
      DecideFill(m, p, r);
    }
  }

  lemma DecideHeader(m: Mem, p: Pos, r: Read)
    requires WF(m) && ReadOK(m, p, r) && PageRead(p, r) && !Rejected(p, r)
    requires FirstMismatch(r.hdr.value, p.op.k) < |r.hdr.value.partial|
    ensures StepDecide(p, r).eff == Keep && LocalOK(m, StepDecide(p, r).l)
  {
    MismatchMiss(m, p, r.hdr.value, FirstMismatch(r.hdr.value, p.op.k));
  }

  lemma DecideRecords(m: Mem, p: Pos, r: Read)
    requires WF(m) && ReadOK(m, p, r) && PageRead(p, r) && !Rejected(p, r)
    requires FirstMismatch(r.hdr.value, p.op.k) == |r.hdr.value.partial|
    ensures StepDecide(p, r).eff == Keep && LocalOK(m, StepDecide(p, r).l)
  {
    HeaderExtends(m, p, r.hdr.value);
    DecideSlot(m, p, r, |m.pre[p.e.addr]|);
  }

  lemma DecideStep(m: Mem, p: Pos, r: Read)
    requires WF(m) && ReadOK(m, p, r) && PageRead(p, r)
    ensures StepDecide(p, r).eff == Keep && OutOK(m, StepDecide(p, r), m)
  {
    GrowsRefl(m);
    if Rejected(p, r) {
    } else if FirstMismatch(r.hdr.value, p.op.k) < |r.hdr.value.partial| {
      DecideHeader(m, p, r);
    } else {
      DecideRecords(m, p, r);
    }
  }

  // filling a free slot

  function Below(n: nat): (s: set<int>)
    ensures |s| == n && forall v :: v in s <==> 0 <= v < n
  {
    if n == 0 then {} else Below(n - 1) + {n - 1}
  }

  predicate Distinct(q: seq<int>) {
    forall i, j :: 0 <= i < j < |q| ==> q[i] != q[j]
  }

  function Elements(q: seq<int>): (s: set<int>)
    requires Distinct(q)
    ensures |s| == |q| && forall v :: v in s <==> v in q
  {
    if q == [] then {} else
    assert q == q[..|q| - 1] + [q[|q| - 1]];
    Elements(q[..|q| - 1]) + {q[|q| - 1]}
  }

  lemma ProperSubset(s: set<int>, t: set<int>, b: int)
    requires s <= t && b in t && b !in s
    ensures |s| < |t|
  {
    assert t == s + (t - s);
    assert |t| == |s| + |t - s|;
    assert b in t - s;
  }

  /** Distinct numbers below `size` that all differ from `b` are fewer than `size`. */
  lemma Pigeonhole(q: seq<int>, b: int, size: nat)
    requires Distinct(q) && 0 <= b < size && b !in q
    requires forall v :: v in q ==> 0 <= v < size
    ensures |q| < size
  {
    ProperSubset(Elements(q), Below(size), b);
  }

  /** A page whose first `i` slots hold other bytes has fewer than 256 of them. */
  lemma NotFull(m: Mem, x: Addr, b: Byte, i: nat)
    requires WF(m) && x in m.pages && i <= SLOTS
    requires forall j :: 0 <= j < i ==> HoldsOther(m, x, j, b)
    ensures i < SLOTS
  {
    assert PageAt(m, x);
    var r := m.pages[x].records;
    forall j | 0 <= j < i ensures !r[j].Null? && r[j].partial != b { assert HoldsOther(m, x, j, b); }
    var q := seq(i, j requires 0 <= j < i => r[j].partial as int);
    Pigeonhole(q, b, SLOTS);
  }
}
