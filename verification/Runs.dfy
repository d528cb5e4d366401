/** Runs of the whole system: any number of threads, interleaved at every remote operation. */
module Runs {
  import opened Keys
  import opened RemoteMemory
  import opened MemoryOps
  import opened Lookup
  import opened Splits
  import opened StaleEntries
  import opened Publishing
  import opened Machine
  import opened Invariant
  import opened Steps
  import opened PageSteps
  import opened SlotSteps

  // a split fills no slot of an old page and no slot of a new one beyond the first two

  ghost predicate OldSlot(m: Mem, mi: Mem, t: SlotRef) {
    t.Slot? && !Fetch(mi, t).Null? ==>
      if t.page in m.pages then !Fetch(m, t).Null? && t.page in mi.pages && mi.pages[t.page].hdr == m.pages[t.page].hdr
      else t.idx < 2
  }

  lemma InterposeOldSlot(m: Mem, mi: Mem, s: SlotRef, n: Addr, f: Bytes, t: SlotRef)
    requires WF(mi) && CanInterpose(mi, s, n, f) && n !in m.pages && OldSlot(m, mi, t)
    ensures OldSlot(m, Interpose(mi, s, n, f), t)
  {
    InterposeFetch(mi, s, n, f, t);
  }

  lemma {:induction false} ChainOldSlot(ms: seq<Mem>, m: Mem, m': Mem, s: SlotRef, k: Key, v: Value, len: nat,
                                        addrs: seq<Addr>, a: Addr, i: nat, t: SlotRef)
    requires WF(m) && Diverges(m, s, k, len) && FreshAddrs(m, addrs, a)
    requires SplitBy(ms, m, m', s, k, v, len, addrs, a) && i < |addrs|
    ensures OldSlot(m, ms[i], t)
    decreases i
  {
    if i > 0 {
      ChainOldSlot(ms, m, m', s, k, v, len, addrs, a, i - 1, t);
      ChainHolds(ms, m, m', s, k, v, len, addrs, a, i - 1);
      assert Link(ms, s, k, len, addrs, i - 1);
      var u := LinkSlot(s, addrs, i - 1);
      LinkCan(ms[i - 1], u, k, len - CHUNK * (i - 1), addrs[i - 1], HDR_MAX);
      InterposeOldSlot(m, ms[i - 1], u, addrs[i - 1], PathTo(ms[i - 1], u, k, HDR_MAX), t);
    }
  }

  lemma PutOldSlot(m: Mem, mi: Mem, n: Addr, a: Addr, k: Key, v: Value, t: SlotRef)
    requires WF(mi) && n in mi.pages && n !in m.pages && OldSlot(m, mi, t)
    ensures OldSlot(m, PutLeaf(mi, Slot(n, 1), a, k, v), t)
  {
    assert PageAt(mi, n);
  }

  lemma LastOldSlot(m: Mem, mi: Mem, m': Mem, s: SlotRef, k: Key, v: Value, n: nat, x: Addr, a: Addr, t: SlotRef)
    requires WF(mi) && Diverges(mi, s, k, n) && n <= HDR_MAX && x !in mi.pre && x !in m.pages && OldSlot(m, mi, t)
    requires m' == PutLeaf(Interpose(mi, s, x, PathTo(mi, s, k, n)), Slot(x, 1), a, k, v)
    ensures OldSlot(m, m', t)
  {
    LinkCan(mi, s, k, n, x, n);
    LinkKeeps(mi, s, k, n, x, n);
    InterposeOldSlot(m, mi, s, x, PathTo(mi, s, k, n), t);
    PutOldSlot(m, Interpose(mi, s, x, PathTo(mi, s, k, n)), x, a, k, v, t);
  }

  lemma SplitOldSlot(m: Mem, m': Mem, s: SlotRef, k: Key, v: Value, len: nat, addrs: seq<Addr>, a: Addr, t: SlotRef)
    requires WF(m) && Diverges(m, s, k, len) && FreshAddrs(m, addrs, a)
    requires SplitTo(m, m', s, k, v, len, addrs, a)
    ensures OldSlot(m, m', t)
  {
    var ms :| SplitBy(ms, m, m', s, k, v, len, addrs, a);
    var mi, u, n, x := ChainEnd(ms, m, m', s, k, v, len, addrs, a);
    ChainOldSlot(ms, m, m', s, k, v, len, addrs, a, |addrs| - 1, t);
    LastOldSlot(m, mi, m', u, k, v, n, x, a, t);
  }

  // the invariant of the whole system

  /** Slot `j` of page `x` is filled but not covered by the capacity that the page advertises. */
  ghost predicate Hidden(m: Mem, x: Addr, j: nat) {
    x in m.pages && !Fetch(m, Slot(x, j)).Null? && j >= Capacity(m.pages[x].hdr.ntype)
  }

  /** Thread state `l` is about to raise the header of page `x` above slot `j`. */
  ghost predicate Owns(l: Local, x: Addr, j: nat) {
    l.Switching? && l.w.x == x && !l.w.r2 && j < Capacity(l.w.next)
  }

  ghost predicate HiddenAt(c: State, x: Addr, j: nat) {
    Hidden(c.m, x, j) ==> exists t :: t in c.th && Owns(c.th[t], x, j)
  }

  ghost predicate ThreadAt(c: State, t: Tid) {
    t in c.th ==> LocalOK(c.m, c.th[t])
  }

  ghost predicate PostAt(c: State, q: Async) {
    q in c.posted ==> AsyncOK(c.m, q)
  }

  ghost predicate SeenAt(c: State, s: SlotRef, e: Entry) {
    (s, e) in c.seen ==> Held(c.m, s, e)
  }

  ghost predicate Inv(c: State) {
    && WF(c.m)
    && (forall t :: ThreadAt(c, t))
    && (forall q :: PostAt(c, q))
    && (forall s, e :: SeenAt(c, s, e))
    && (forall x, j :: HiddenAt(c, x, j))
  }

  lemma InitInv(c: State)
    requires Init(c)
    ensures Inv(c)
  {}

  /** Every thread, every posted operation and every cached entry survives a step that only grows the memory. */
  lemma OthersStable(c: State, c': State, t: Tid)
    requires Inv(c) && WF(c'.m) && Grows(c.m, c'.m)
    requires c'.th.Keys <= c.th.Keys + {t} && (forall u :: u in c'.th && u != t ==> u in c.th && c'.th[u] == c.th[u])
    requires t in c'.th ==> LocalOK(c'.m, c'.th[t])
    requires c'.seen == c.seen && (forall q :: q in c'.posted && q !in c.posted ==> AsyncOK(c'.m, q))
    ensures (forall u :: ThreadAt(c', u)) && (forall q :: PostAt(c', q)) && (forall s, e :: SeenAt(c', s, e))
  {
    forall u ensures ThreadAt(c', u) {
      if u in c'.th && u != t { assert ThreadAt(c, u); LocalStable(c.m, c'.m, c.th[u]); }
    }
    forall q ensures PostAt(c', q) {
      assert PostAt(c, q);
      if q in c'.posted && q in c.posted { AsyncStable(c.m, c'.m, q); }
    }
    forall s, e ensures SeenAt(c', s, e) {
      assert SeenAt(c, s, e);
      if (s, e) in c.seen { HeldStable(c.m, c'.m, s, e); }
    }
  }

  lemma BeginStep(c: State, c': State, t: Tid, op: Op)
    requires Inv(c) && Next(c, c', t, Begin(op))
    ensures Inv(c')
  {
    var p := Pos(op, Root, c.m.root, 1, false);
    ViewIs(c.m, op.k);
    forall u ensures CrossOK(c.m, op, u) {}
    forall x ensures ClearAt(c.m, x, Path(op.k), 1, 0, {}) {}
    TakeEntry(c.m, p);
    GrowsRefl(c.m);
    OthersStable(c, c', t);
    forall x, j ensures HiddenAt(c', x, j) { HiddenKept(c, c', t, x, j); }
  }

  lemma HiddenKept(c: State, c': State, t: Tid, x: Addr, j: nat)
    requires Inv(c) && c'.m == c.m && t !in c.th
    requires forall u :: u in c.th ==> u in c'.th && c'.th[u] == c.th[u]
    ensures HiddenAt(c', x, j)
  {
    assert HiddenAt(c, x, j);
  }

  lemma BeginCachedStep(c: State, c': State, t: Tid, op: Op, s: SlotRef, e: Entry)
    requires Inv(c) && Next(c, c', t, BeginCached(op, s, e))
    ensures Inv(c')
  {
    var d := |Above(c.m, s)| + 1;
    var p := Pos(op, s, e, d, true);
    assert SeenAt(c, s, e);
    FilledIn(c.m, s);
    forall u ensures CrossOK(c.m, op, u) {}
    forall x ensures ClearAt(c.m, x, Path(op.k), d, Lo(c.m, op), op.crossed) {}
    assert PosOK(c.m, p);
    GrowsRefl(c.m);
    OthersStable(c, c', t);
    forall x, j ensures HiddenAt(c', x, j) { HiddenKept(c, c', t, x, j); }
  }

  lemma RememberStep(c: State, c': State, t: Tid, s: SlotRef)
    requires Inv(c) && Next(c, c', t, Remember(s))
    ensures Inv(c')
  {
    HeldNow(c.m, s);
    forall u ensures ThreadAt(c', u) { assert ThreadAt(c, u); }
    forall q ensures PostAt(c', q) { assert PostAt(c, q); }
    forall u, e ensures SeenAt(c', u, e) { assert SeenAt(c, u, e); }
    forall x, j ensures HiddenAt(c', x, j) { assert HiddenAt(c, x, j); }
  }

  lemma WordReadStep(c: State, c': State, t: Tid, w: Word)
    requires Inv(c) && Next(c, c', t, Act.Word(w))
    ensures Inv(c')
  {
    assert ThreadAt(c, t);
    WordStep(c.m, c.th[t].p, c.th[t].r, w);
    GrowsRefl(c.m);
    OthersStable(c, c', t);
    forall x, j ensures HiddenAt(c', x, j) {
      assert HiddenAt(c, x, j);
      if Hidden(c.m, x, j) {
        var u :| u in c.th && Owns(c.th[u], x, j);
        assert u in c'.th && Owns(c'.th[u], x, j);
      }
    }
  }

  /** A split diverges from the old target, as the thread that posts it knows. */
  ghost predicate EffOK(m: Mem, eff: Effect) {
    eff.SplitAt? ==> Diverges(m, eff.s, eff.k, eff.len) && FreshAddrs(m, eff.addrs, eff.a)
  }

  lemma ThreadEffOK(m: Mem, l: Local, addrs: seq<Addr>, a: Addr)
    requires WF(m) && LocalOK(m, l) && CanStep(l) && FreshAddrs(m, addrs, a)
    ensures EffOK(m, StepThread(m, l, addrs, a).eff)
  {
    match l
    case GotLeaf(p, leaf) => if Fetch(m, p.s) == p.e { LeafDiverges(m, p, leaf); }
    case Splitting(p, h, i) => if Fetch(m, p.s) == p.e { HeaderDiverges(m, p, h, i); }
    case _ =>
  }

  /** A slot that is hidden after an effect was hidden before it, or the effect filled it. */
  lemma HiddenEffect(m: Mem, eff: Effect, m': Mem, x: Addr, j: nat)
    requires WF(m) && WF(m') && Grows(m, m') && EffOK(m, eff) && Applies(m, eff, m') && Hidden(m', x, j)
    ensures Hidden(m, x, j) || (eff.PutAt? && eff.s == Slot(x, j))
  {
    assert PageAt(m', x) && TargetGrows(m, m', x);
    if eff.SplitAt? {
      SplitOldSlot(m, m', eff.s, eff.k, eff.v, eff.len, eff.addrs, eff.a, Slot(x, j));
    } else {
      FilledBefore(m, eff, m', x, j);
      CapacityMono(m.pages[x].hdr.ntype, m'.pages[x].hdr.ntype);
    }
  }

  lemma FilledBefore(m: Mem, eff: Effect, m': Mem, x: Addr, j: nat)
    requires WF(m) && Applies(m, eff, m') && !eff.SplitAt? && x in m'.pages && !Fetch(m', Slot(x, j)).Null?
    ensures x in m.pages && x in m.pre && (!Fetch(m, Slot(x, j)).Null? || (eff.PutAt? && eff.s == Slot(x, j)))
  {
    assert PageAt(m, x);
  }

  /** A thread that fills a slot behind the capacity owns it from then on. */
  lemma FillOwns(m: Mem, p: Pos, h: Header, snap: map<nat, Entry>, i: nat, a: Addr, x: Addr, j: nat)
    requires FillOK(m, p, h, snap, i) && i < SLOTS && h.depth + |h.partial| <= KEY_LEN
    requires var o := StepFilling(m, p, h, snap, i, a); o.eff.PutAt? && o.eff.s == Slot(x, j)
    ensures j < Capacity(m.pages[x].hdr.ntype) || Owns(StepFilling(m, p, h, snap, i, a).l, x, j)
  {
    CapacityMono(h.ntype, m.pages[x].hdr.ntype);
  }

  lemma PutOwns(m: Mem, l: Local, addrs: seq<Addr>, a: Addr, m': Mem, x: Addr, j: nat)
    requires WF(m) && LocalOK(m, l) && CanStep(l)
    requires var o := StepThread(m, l, addrs, a); o.eff.PutAt? && o.eff.s == Slot(x, j)
    requires Grows(m, m') && Hidden(m', x, j)
    ensures Owns(StepThread(m, l, addrs, a).l, x, j)
  {
    if l.Filling? {
      assert TargetGrows(m, m', x);
      FillOwns(m, l.p, l.fh, l.snap, l.fi, a, x, j);
      CapacityMono(m.pages[x].hdr.ntype, m'.pages[x].hdr.ntype);
    }
  }

  /** A switch gives up a slot only when the header covers it. */
  lemma OwnsKept(m: Mem, w: Switch, m': Mem, x: Addr, j: nat)
    requires SwitchOK(m, w) && Applies(m, StepSwitching(m, w).eff, m')
    requires Owns(Switching(w), x, j) && Hidden(m', x, j) && Grows(m, m')
    ensures Owns(StepSwitching(m, w).l, x, j)
  {
    assert TargetGrows(m, m', x);
    if w.next <= m'.pages[x].hdr.ntype { CapacityMono(w.next, m'.pages[x].hdr.ntype); }
  }

  lemma HiddenBefore(m: Mem, l: Local, addrs: seq<Addr>, a: Addr, m': Mem, x: Addr, j: nat)
    requires WF(m) && LocalOK(m, l) && CanStep(l) && FreshAddrs(m, addrs, a)
    requires Applies(m, StepThread(m, l, addrs, a).eff, m') && WF(m') && Grows(m, m')
    requires Hidden(m', x, j)
    ensures Hidden(m, x, j) || Owns(StepThread(m, l, addrs, a).l, x, j)
    ensures Owns(l, x, j) ==> Owns(StepThread(m, l, addrs, a).l, x, j)
  {
    var o := StepThread(m, l, addrs, a);
    ThreadEffOK(m, l, addrs, a);
    HiddenEffect(m, o.eff, m', x, j);
    if o.eff.PutAt? && o.eff.s == Slot(x, j) { PutOwns(m, l, addrs, a, m', x, j); }
    if Owns(l, x, j) { OwnsKept(m, l.w, m', x, j); }
  }

  lemma ThreadInvStep(c: State, c': State, t: Tid, addrs: seq<Addr>, a: Addr)
    requires Inv(c) && Next(c, c', t, Act.Thread(addrs, a))
    ensures Inv(c')
  {
    assert ThreadAt(c, t);
    ThreadStep(c.m, c.th[t], addrs, a, c'.m);
    OthersStable(c, c', t);
    forall x, j ensures HiddenAt(c', x, j) { HiddenNext(c, c', t, addrs, a, x, j); }
  }

  /** Whoever owes a raise still owes it, or the step has created the debt. */
  lemma HiddenNext(c: State, c': State, t: Tid, addrs: seq<Addr>, a: Addr, x: Addr, j: nat)
    requires Inv(c) && Next(c, c', t, Act.Thread(addrs, a)) && WF(c'.m) && Grows(c.m, c'.m)
    ensures HiddenAt(c', x, j)
  {
    assert ThreadAt(c, t) && HiddenAt(c, x, j);
    if Hidden(c'.m, x, j) {
      HiddenBefore(c.m, c.th[t], addrs, a, c'.m, x, j);
      if Hidden(c.m, x, j) {
        var u :| u in c.th && Owns(c.th[u], x, j);
        assert u in c'.th && Owns(c'.th[u], x, j);
      } else {
        assert t in c'.th && Owns(c'.th[t], x, j);
      }
    }
  }

  lemma PostStep(c: State, c': State, t: Tid, q: Async)
    requires Inv(c) && Next(c, c', t, Post(q))
    ensures Inv(c')
  {
    assert PostAt(c, q);
    AsyncStep(c.m, q, c'.m);
    forall u ensures ThreadAt(c', u) { assert ThreadAt(c, u); if u in c.th { LocalStable(c.m, c'.m, c.th[u]); } }
    forall r ensures PostAt(c', r) { assert PostAt(c, r); if r in c.posted { AsyncStable(c.m, c'.m, r); } }
    forall s, e ensures SeenAt(c', s, e) {
      assert SeenAt(c, s, e);
      if (s, e) in c.seen { HeldStable(c.m, c'.m, s, e); }
    }
    forall x, j ensures HiddenAt(c', x, j) { assert HiddenAt(c, x, j); }
  }

  /** The invariant holds in every state of every run. */
  lemma NextInv(c: State, c': State, t: Tid, act: Act)
    requires Inv(c) && Next(c, c', t, act)
    ensures Inv(c') && Grows(c.m, c'.m)
  {
    GrowsRefl(c.m);
    match act
    case Begin(op) => BeginStep(c, c', t, op);
    case BeginCached(op, s, e) => BeginCachedStep(c, c', t, op, s, e);
    case Remember(s) => RememberStep(c, c', t, s);
    case Word(w) => WordReadStep(c, c', t, w);
    case Thread(addrs, a) =>
      ThreadInvStep(c, c', t, addrs, a);
      assert ThreadAt(c, t);
      ThreadStep(c.m, c.th[t], addrs, a, c'.m);
    case Post(q) =>
      PostStep(c, c', t, q);
      assert PostAt(c, q);
      AsyncStep(c.m, q, c'.m);
  }
}
