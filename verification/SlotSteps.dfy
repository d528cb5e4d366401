/** Filling a free slot, and switching the type of a page that has outgrown it. */
module SlotSteps {
  import opened Keys
  import opened RemoteMemory
  import opened MemoryOps
  import opened Lookup
  import opened Splits
  import opened StaleEntries
  import opened Publishing
  import opened Machine
  import opened Invariant
  import opened Steps
  import opened PageSteps

  lemma CrossStable(m: Mem, op: Op, behind: bool, t: SlotRef)
    requires OpOK(m, op) && !op.find && t.Slot? && OnPath(m, t, op.k)
    ensures OpOK(m, Cross(op, behind, t)) && Lo(m, Cross(op, behind, t)) == Lo(m, op)
  {
    forall u ensures CrossOK(m, Cross(op, behind, t), u) { assert CrossOK(m, op, u); }
  }

  /** Publishing a leaf in the first free slot of a page. */
  lemma PutSlot(m: Mem, op: Op, x: Addr, i: nat, behind: bool, a: Addr)
    requires WF(m) && OpOK(m, op) && !op.find && x in m.pages && a !in m.pre
    requires |m.pre[x]| <= KEY_LEN && Ext(m.pre[x], Path(op.k))
    requires Clear(m, Path(op.k), |m.pre[x]|, Lo(m, op), op.crossed)
    requires FirstFree(m, Slot(x, i), Path(op.k)[|m.pre[x]|])
    requires i < Capacity(m.pages[x].hdr.ntype) || behind
    ensures var m' := PutLeaf(m, Slot(x, i), a, op.k, op.v);
      WF(m') && Grows(m, m') && Published(m', Cross(op, behind, Slot(x, i)))
  {
    var t := Slot(x, i);
    var m' := PutLeaf(m, t, a, op.k, op.v);
    var op' := Cross(op, behind, t);
    PutLeafWF(m, t, a, op.k, op.v);
    PutLeafGrows(m, t, a, op.k, op.v);
    OpStable(m, m', op);
    FetchWrite(m, t, LeafEntry(Path(op.k)[|m.pre[x]|], a), t);
    assert !Fetch(m', t).Null? && Fetch(m', t).partial == Path(op.k)[|m.pre[x]|];
    CrossStable(m', op, behind, t);
    ClearMore(m, Path(op.k), |m.pre[x]|, Lo(m, op), op.crossed, op'.crossed);
    PutClear(m, t, a, op.k, op.v, Lo(m, op), op'.crossed);
    assert a in m'.leaves && m'.leaves[a].key == op.k;
  }

  lemma ClearMore(m: Mem, p: Bytes, d: nat, lo: nat, c: set<SlotRef>, c': set<SlotRef>)
    requires Clear(m, p, d, lo, c) && c <= c'
    ensures Clear(m, p, d, lo, c')
  {
    forall x ensures ClearAt(m, x, p, d, lo, c') { assert ClearAt(m, x, p, d, lo, c); }
  }

  lemma FillPut(m: Mem, p: Pos, h: Header, snap: map<nat, Entry>, i: nat, a: Addr)
    requires WF(m) && FillOK(m, p, h, snap, i) && i < SLOTS && a !in m.pre
    requires Fetch(m, Slot(p.e.addr, i)).Null?
    ensures var m' := PutLeaf(m, Slot(p.e.addr, i), a, p.op.k, p.op.v);
      WF(m') && Grows(m, m') && Published(m', Cross(p.op, i >= Capacity(h.ntype), Slot(p.e.addr, i)))
  {
    CapacityMono(h.ntype, m.pages[p.e.addr].hdr.ntype);
    PutSlot(m, p.op, p.e.addr, i, i >= Capacity(h.ntype), a);
  }

  /** The slot just filled lies behind the capacity that was read: its type switch is set up. */
  lemma FillSwitch(m: Mem, p: Pos, h: Header, snap: map<nat, Entry>, i: nat, m': Mem)
    requires WF(m) && FillOK(m, p, h, snap, i) && Capacity(h.ntype) <= i < SLOTS
    requires WF(m') && Grows(m, m') && Published(m', Cross(p.op, true, Slot(p.e.addr, i)))
    ensures
      var op := Cross(p.op, true, Slot(p.e.addr, i));
      var w := Switch(op, p.s, p.e, p.e.addr, NumToNodeType(i), h.ntype, false, false, CasEntry, ROUNDS);
      LocalOK(m', Switching(w))
  {
    HeldStable(m, m', p.s, p.e);
    assert TargetGrows(m, m', p.e.addr);
    if NumToNodeType(i) <= h.ntype { CapacityMono(NumToNodeType(i), h.ntype); }
  }

  lemma FillStepPut(m: Mem, p: Pos, h: Header, snap: map<nat, Entry>, i: nat, a: Addr, m': Mem)
    requires WF(m) && FillOK(m, p, h, snap, i) && i < SLOTS && a !in m.pre && h.depth + |h.partial| <= KEY_LEN
    requires Fetch(m, Slot(p.e.addr, i)).Null? && !(i < Capacity(h.ntype) && i in snap && !snap[i].Null?)
    requires m' == PutLeaf(m, Slot(p.e.addr, i), a, p.op.k, p.op.v)
    ensures OutOK(m, StepFilling(m, p, h, snap, i, a), m')
  {
    FillPut(m, p, h, snap, i, a);
    if i >= Capacity(h.ntype) { FillSwitch(m, p, h, snap, i, m'); }
  }

  /** Another thread filled the slot with the same byte first: go on below it. */
  lemma FillFound(m: Mem, p: Pos, h: Header, snap: map<nat, Entry>, i: nat)
    requires WF(m) && FillOK(m, p, h, snap, i) && i < SLOTS
    requires OnPath(m, Slot(p.e.addr, i), p.op.k)
    ensures var t := Slot(p.e.addr, i);
      PosOK(m, Pos(Cross(p.op, i >= Capacity(h.ntype), t), t, Fetch(m, t), |m.pre[p.e.addr]| + 1, false))
  {
    var x, t := p.e.addr, Slot(p.e.addr, i);
    var op := Cross(p.op, i >= Capacity(h.ntype), t);
    CapacityMono(h.ntype, m.pages[x].hdr.ntype);
    CrossStable(m, p.op, i >= Capacity(h.ntype), t);
    ClearNext(m, p.op, op, x, i);
    TakeEntry(m, Pos(op, t, Fetch(m, t), |m.pre[x]| + 1, false));
  }

  lemma FillOn(m: Mem, p: Pos, h: Header, snap: map<nat, Entry>, i: nat)
    requires FillOK(m, p, h, snap, i) && i < SLOTS && HoldsOther(m, p.e.addr, i, Path(p.op.k)[|m.pre[p.e.addr]|])
    ensures FillOK(m, p, h, snap, i + 1)
  {}

  lemma FillStep(m: Mem, p: Pos, h: Header, snap: map<nat, Entry>, i: nat, a: Addr, m': Mem)
    requires WF(m) && FillOK(m, p, h, snap, i) && i < SLOTS && a !in m.pre && h.depth + |h.partial| <= KEY_LEN
    requires Applies(m, StepFilling(m, p, h, snap, i, a).eff, m')
    ensures OutOK(m, StepFilling(m, p, h, snap, i, a), m')
  {
    var x := p.e.addr;
    GrowsRefl(m);
    assert PageAt(m, x);
    if i < Capacity(h.ntype) && i in snap && !snap[i].Null? {
      assert SnapOther(m, x, snap, i, Path(p.op.k)[|m.pre[x]|]);
      FillOn(m, p, h, snap, i);
    } else if Fetch(m, Slot(x, i)).Null? {
      FillStepPut(m, p, h, snap, i, a, m');
    } else if Fetch(m, Slot(x, i)).partial == Path(p.op.k)[|m.pre[x]|] {
      FillFound(m, p, h, snap, i);
    } else {
      FillOn(m, p, h, snap, i);
    }
  }

  // cas_node_type

  /** What a switch knows about the entry it has just read from slot `s`. */
  lemma SwitchRead(m: Mem, s: SlotRef, x: Addr)
    requires WF(m) && LeadsTo(m, s, x) && x in m.pages
    ensures var e := Fetch(m, s);
      && e.NodeEntry? && Held(m, s, e) && e.ntype != DELETED && EntryType(m, x) != DELETED
      && (if e.addr == x then e.ntype == EntryType(m, x) && m.par[x] == s
          else LeadsTo(m, Slot(e.addr, 0), x) && |Above(m, s)| < |Above(m, m.par[x])|)
  {
    ChaseStep(m, s, x);
    HeldNow(m, s);
    assert EntryAt(m, s);
    var z := Fetch(m, s).addr;
    assert OwnerAt(m, x) && EntryAt(m, m.par[x]);
    if z != x {
      if |Above(m, m.par[x])| < |m.pre[z]| { Cover(m, m.par[x], z); }
    }
  }

  lemma SwitchEntry(m: Mem, w: Switch, m': Mem)
    requires WF(m) && SwitchOK(m, w) && w.phase.CasEntry? && Applies(m, StepSwitching(m, w).eff, m')
    ensures WF(m') && Grows(m, m') && SwitchOK(m', StepSwitching(m, w).l.w)
  {
    GrowsRefl(m);
    if !w.r1 {
      if Fetch(m, w.s) == w.e {
        assert EntryAt(m, w.s);
        RaiseEntryShape(m, w.s, w.e, w.next);
        SameShapeKeeps(m, m');
        SwitchStable(m, m', w);
        FilledIn(m, w.s);
        FetchWrite(m, w.s, w.e.(ntype := w.next), w.s);
      } else {
        SwitchRead(m, w.s, w.x);
      }
    }
  }

  lemma SwitchHeader(m: Mem, w: Switch, m': Mem)
    requires WF(m) && SwitchOK(m, w) && w.phase.CasHeader? && Applies(m, StepSwitching(m, w).eff, m')
    ensures WF(m') && Grows(m, m') && SwitchOK(m', StepSwitching(m, w).l.w)
  {
    GrowsRefl(m);
    if !w.r2 {
      RaiseHeaderShape(m, w.x, w.was, w.next);
      SameShapeKeeps(m, m');
      SwitchStable(m, m', w);
    }
  }

  lemma SwitchChase(m: Mem, w: Switch)
    requires WF(m) && SwitchOK(m, w) && w.phase.Chase?
    ensures StepSwitching(m, w).eff == Keep
    ensures var l := StepSwitching(m, w).l; if l.Switching? then SwitchOK(m, l.w) else l == Done(w.op, None)
  {
    if !w.r1 && w.e.addr != w.x { SwitchRead(m, Slot(w.e.addr, 0), w.x); }
  }

  /** A failed entry CAS means that the type in the entry has grown or that the page has moved down. */
  lemma RoundsEntry(m: Mem, w: Switch, m': Mem)
    requires WF(m) && SwitchOK(m, w) && RoundsOK(m, w) && w.phase.CasEntry? && Applies(m, StepSwitching(m, w).eff, m')
    requires WF(m') && Grows(m, m')
    ensures RoundsOK(m', StepSwitching(m, w).l.w)
  {
    assert TargetGrows(m, m', w.x);
    if !w.r1 {
      assert PageAt(m, w.x);
      if Fetch(m, w.s) != w.e { SwitchRead(m, w.s, w.x); }
    }
  }

  lemma RoundsHeader(m: Mem, w: Switch, m': Mem)
    requires WF(m) && SwitchOK(m, w) && RoundsOK(m, w) && w.phase.CasHeader? && Applies(m, StepSwitching(m, w).eff, m')
    requires WF(m') && Grows(m, m')
    ensures RoundsOK(m', StepSwitching(m, w).l.w)
  {
    RoundsStable(m, m', w);
  }

  lemma RoundsChase(m: Mem, w: Switch)
    requires WF(m) && SwitchOK(m, w) && RoundsOK(m, w) && w.phase.Chase? && StepSwitching(m, w).l.Switching?
    ensures RoundsOK(m, StepSwitching(m, w).l.w)
  {
    assert PageAt(m, w.x) && OwnerAt(m, w.x) && EntryAt(m, m.par[w.x]);
    if !w.r1 && w.e.addr != w.x { SwitchRead(m, Slot(w.e.addr, 0), w.x); }
  }

  lemma SwitchStep(m: Mem, w: Switch, m': Mem)
    requires WF(m) && SwitchOK(m, w) && RoundsOK(m, w) && !w.phase.Chase? && Applies(m, StepSwitching(m, w).eff, m')
    ensures OutOK(m, StepSwitching(m, w), m')
  {
    if w.phase.CasEntry? { EntryRound(m, w, m'); } else { HeaderRound(m, w, m'); }
  }

  lemma EntryRound(m: Mem, w: Switch, m': Mem)
    requires WF(m) && SwitchOK(m, w) && RoundsOK(m, w) && w.phase.CasEntry? && Applies(m, StepSwitching(m, w).eff, m')
    ensures OutOK(m, StepSwitching(m, w), m')
  {
    SwitchEntry(m, w, m');
    RoundsEntry(m, w, m');
  }

  lemma HeaderRound(m: Mem, w: Switch, m': Mem)
    requires WF(m) && SwitchOK(m, w) && RoundsOK(m, w) && w.phase.CasHeader? && Applies(m, StepSwitching(m, w).eff, m')
    ensures OutOK(m, StepSwitching(m, w), m')
  {
    SwitchHeader(m, w, m');
    RoundsHeader(m, w, m');
  }

  lemma ChaseRound(m: Mem, w: Switch)
    requires WF(m) && SwitchOK(m, w) && RoundsOK(m, w) && w.phase.Chase?
    ensures StepSwitching(m, w).eff == Keep && OutOK(m, StepSwitching(m, w), m)
  {
    GrowsRefl(m);
    SwitchChase(m, w);
    if StepSwitching(m, w).l.Switching? { RoundsChase(m, w); }
  }

  lemma UpdateStep(m: Mem, op: Op, b: Addr, leaf: Leaf, m': Mem)
    requires WF(m) && LocalOK(m, Updating(op, b, leaf)) && Applies(m, WriteAt(b, leaf.rev, op.v), m')
    ensures OutOK(m, Out(WriteAt(b, leaf.rev, op.v), Done(op, None), {}), m')
  {
    WriteLeafShape(m, b, leaf.rev, op.v);
    SameShapeKeeps(m, m');
    PublishedStable(m, m', op);
  }

  /** Every step of every thread keeps the memory well formed, only grows it, and leaves the thread's knowledge true. */
  lemma ThreadStep(m: Mem, l: Local, addrs: seq<Addr>, a: Addr, m': Mem)
    requires WF(m) && LocalOK(m, l) && CanStep(l) && FreshAddrs(m, addrs, a)
    requires Applies(m, StepThread(m, l, addrs, a).eff, m')
    ensures OutOK(m, StepThread(m, l, addrs, a), m')
  {
    match l
    case At(p) =>
      if p.e.Null? { AtNull(m, p, a, m'); } else if p.e.LeafEntry? { AtLeaf(m, p, a); } else { AtNode(m, p, a); }
    case Reread(p) => GrowsRefl(m); TakeEntry(m, p.(e := Fetch(m, p.s), fc := false));
    case GotLeaf(p, leaf) => GotLeafStep(m, p, leaf, addrs, a, m');
    case Updating(op, b, leaf) => UpdateStep(m, op, b, leaf, m');
    case Reading(p, r) => DecideStep(m, p, r);
    case Splitting(p, h, i) => SplittingStep(m, p, h, i, addrs, a, m');
    case Filling(p, h, snap, i) => FillStep(m, p, h, snap, i, a, m');
    case Switching(w) => if w.phase.Chase? { ChaseRound(m, w); } else { SwitchStep(m, w, m'); }
  }

  lemma AsyncStep(m: Mem, q: Async, m': Mem)
    requires WF(m) && AsyncOK(m, q) && Applies(m, AsyncEffect(q), m')
    ensures WF(m') && Grows(m, m')
  {
    match q
    case Trim(x, was, now) => TrimHeaderShape(m, x, was, now); SameShapeKeeps(m, m');
    case Rev(y, src, dst) => CasRevShape(m, y, src, dst); SameShapeKeeps(m, m');
  }
}
