/** Nodes are adaptive: no page ever has a larger type than its records need. */
module TypeSizes {
  import opened Keys
  import opened RemoteMemory
  import opened MemoryOps
  import opened Lookup
  import opened Splits
  import opened Machine
  import opened Invariant
  import opened Steps
  import opened Runs
  import opened RunTheorems

  /** Page `x` has more records than the type before `t` covers. */
  ghost predicate Needs(m: Mem, x: Addr, t: NodeType) {
    t > NODE_4 ==> !Fetch(m, Slot(x, Capacity(t - 1))).Null?
  }

  ghost predicate FitsAt(m: Mem, x: Addr) {
    x in m.pages ==> Needs(m, x, m.pages[x].hdr.ntype)
  }

  ghost predicate Fits(m: Mem) {
    forall x :: FitsAt(m, x)
  }

  /** A type switch raises a page to a type that it needs. */
  ghost predicate SwitchFits(m: Mem, l: Local) {
    l.Switching? ==> Needs(m, l.w.x, l.w.next)
  }

  lemma NeedsStable(m: Mem, m': Mem, x: Addr, t: NodeType)
    requires Grows(m, m') && Needs(m, x, t)
    ensures Needs(m', x, t)
  {
    if t > NODE_4 { assert SlotGrows(m, m', Slot(x, Capacity(t - 1))); }
  }

  lemma InterposeFits(m: Mem, s: SlotRef, n: Addr, f: Bytes)
    requires WF(m) && Fits(m) && CanInterpose(m, s, n, f)
    ensures Fits(Interpose(m, s, n, f))
  {
    InterposeGrows(m, s, n, f);
    var m' := Interpose(m, s, n, f);
    forall x ensures FitsAt(m', x) {
      assert FitsAt(m, x);
      if x in m.pages { NeedsStable(m, m', x, m.pages[x].hdr.ntype); }
    }
  }

  lemma PutFits(m: Mem, s: SlotRef, a: Addr, k: Key, v: Value)
    requires Fits(m) && Grows(m, PutLeaf(m, s, a, k, v))
    ensures Fits(PutLeaf(m, s, a, k, v))
  {
    var m' := PutLeaf(m, s, a, k, v);
    forall x ensures FitsAt(m', x) {
      assert FitsAt(m, x);
      if x in m.pages { NeedsStable(m, m', x, m.pages[x].hdr.ntype); }
    }
  }

  lemma {:induction false} ChainFits(ms: seq<Mem>, m: Mem, m': Mem, s: SlotRef, k: Key, v: Value, len: nat,
                                     addrs: seq<Addr>, a: Addr, i: nat)
    requires WF(m) && Fits(m) && Diverges(m, s, k, len) && FreshAddrs(m, addrs, a)
    requires SplitBy(ms, m, m', s, k, v, len, addrs, a) && i < |addrs|
    ensures Fits(ms[i])
    decreases i
  {
    if i > 0 {
      ChainFits(ms, m, m', s, k, v, len, addrs, a, i - 1);
      ChainHolds(ms, m, m', s, k, v, len, addrs, a, i - 1);
      assert Link(ms, s, k, len, addrs, i - 1);
      var u := LinkSlot(s, addrs, i - 1);
      LinkCan(ms[i - 1], u, k, len - CHUNK * (i - 1), addrs[i - 1], HDR_MAX);
      InterposeFits(ms[i - 1], u, addrs[i - 1], PathTo(ms[i - 1], u, k, HDR_MAX));
    }
  }

  lemma LastFits(m: Mem, s: SlotRef, k: Key, v: Value, len: nat, n: Addr, a: Addr)
    requires WF(m) && Fits(m) && Diverges(m, s, k, len) && len <= HDR_MAX && n !in m.pre && a !in m.pre && n != a
    ensures Fits(PutLeaf(Interpose(m, s, n, PathTo(m, s, k, len)), Slot(n, 1), a, k, v))
  {
    LinkCan(m, s, k, len, n, len);
    LinkKeeps(m, s, k, len, n, len);
    LinkLast(m, s, k, len, n);
    InterposeFits(m, s, n, PathTo(m, s, k, len));
    var m1 := Interpose(m, s, n, PathTo(m, s, k, len));
    PutLeafGrows(m1, Slot(n, 1), a, k, v);
    PutFits(m1, Slot(n, 1), a, k, v);
  }

  lemma SplitFits(m: Mem, m': Mem, s: SlotRef, k: Key, v: Value, len: nat, addrs: seq<Addr>, a: Addr)
    requires WF(m) && Fits(m) && Diverges(m, s, k, len) && FreshAddrs(m, addrs, a)
    requires SplitTo(m, m', s, k, v, len, addrs, a)
    ensures Fits(m')
  {
    var ms :| SplitBy(ms, m, m', s, k, v, len, addrs, a);
    var mi, u, n, x := ChainEnd(ms, m, m', s, k, v, len, addrs, a);
    ChainFits(ms, m, m', s, k, v, len, addrs, a, |addrs| - 1);
    LastFits(mi, u, k, v, n, x, a);
  }

  lemma EffectFits(m: Mem, eff: Effect, m': Mem)
    requires WF(m) && WF(m') && Fits(m) && EffOK(m, eff) && Applies(m, eff, m') && Grows(m, m')
    requires eff.RaiseHeaderAt? ==> Needs(m, eff.x, eff.to)
    ensures Fits(m')
  {
    if eff.SplitAt? {
      SplitFits(m, m', eff.s, eff.k, eff.v, eff.len, eff.addrs, eff.a);
    } else if eff.PutAt? {
      PutFits(m, eff.s, eff.a, eff.k, eff.v);
    } else {
      forall x ensures FitsAt(m', x) { OtherFits(m, eff, m', x); }
    }
  }

  lemma OtherFits(m: Mem, eff: Effect, m': Mem, x: Addr)
    requires WF(m) && FitsAt(m, x) && Applies(m, eff, m') && Grows(m, m') && !eff.SplitAt? && !eff.PutAt?
    requires eff.RaiseHeaderAt? ==> Needs(m, eff.x, eff.to)
    ensures FitsAt(m', x)
  {
    if x in m.pages {
      NeedsStable(m, m', x, m.pages[x].hdr.ntype);
      if eff.RaiseHeaderAt? { NeedsStable(m, m', eff.x, eff.to); }
    }
  }

  /** A slot that was filled behind the capacity needs the type that the switch goes for. */
  lemma FilledNeeds(m: Mem, x: Addr, i: nat)
    requires WF(m) && x in m.pages && 0 < i < SLOTS && !Fetch(m, Slot(x, i)).Null?
    ensures Needs(m, x, NumToNodeType(i))
  {
    assert PageAt(m, x);
    var t := NumToNodeType(i);
    if t > NODE_4 {
      var u: NodeType := t - 1;
      assert u != DELETED && Capacity(u) <= i;
    }
  }

  /** Only a type switch raises a header, to its own type, and only a thread that fills a slot starts one. */
  lemma SwitchKind(m: Mem, l: Local, addrs: seq<Addr>, a: Addr)
    requires CanStep(l)
    ensures var o := StepThread(m, l, addrs, a);
      && (o.eff.RaiseHeaderAt? ==> l.Switching? && o.eff.x == l.w.x && o.eff.to == l.w.next)
      && (o.l.Switching? ==> l.Filling? || (l.Switching? && o.l.w.x == l.w.x && o.l.w.next == l.w.next))
  {}

  lemma ThreadFits(m: Mem, l: Local, addrs: seq<Addr>, a: Addr, m': Mem)
    requires WF(m) && WF(m') && LocalOK(m, l) && CanStep(l) && SwitchFits(m, l) && Grows(m, m')
    requires Applies(m, StepThread(m, l, addrs, a).eff, m')
    ensures SwitchFits(m', StepThread(m, l, addrs, a).l)
    ensures var eff := StepThread(m, l, addrs, a).eff; eff.RaiseHeaderAt? ==> Needs(m, eff.x, eff.to)
  {
    SwitchKind(m, l, addrs, a);
    if l.Switching? {
      NeedsStable(m, m', l.w.x, l.w.next);
    } else if l.Filling? && StepThread(m, l, addrs, a).l.Switching? {
      FillingFits(m, l.p, l.fh, l.snap, l.fi, a, m');
    }
  }

  lemma FillingFits(m: Mem, p: Pos, h: Header, snap: map<nat, Entry>, i: nat, a: Addr, m': Mem)
    requires WF(m) && WF(m') && FillOK(m, p, h, snap, i) && CanStep(Filling(p, h, snap, i))
    requires StepFilling(m, p, h, snap, i, a).l.Switching? && Applies(m, StepFilling(m, p, h, snap, i, a).eff, m')
    ensures SwitchFits(m', StepFilling(m, p, h, snap, i, a).l)
  {
    assert PageAt(m, p.e.addr) && PageAt(m', p.e.addr);
    FilledNeeds(m', p.e.addr, i);
  }

  ghost predicate AllFit(c: State) {
    Fits(c.m) && forall t :: t in c.th ==> SwitchFits(c.m, c.th[t])
  }

  lemma OwnFits(m: Mem, l: Local, addrs: seq<Addr>, a: Addr, m': Mem)
    requires WF(m) && WF(m') && Fits(m) && LocalOK(m, l) && CanStep(l) && SwitchFits(m, l) && Grows(m, m')
    requires FreshAddrs(m, addrs, a) && Applies(m, StepThread(m, l, addrs, a).eff, m')
    ensures Fits(m') && SwitchFits(m', StepThread(m, l, addrs, a).l)
  {
    ThreadFits(m, l, addrs, a, m');
    ThreadEffOK(m, l, addrs, a);
    EffectFits(m, StepThread(m, l, addrs, a).eff, m');
  }

  lemma NextFits(c: State, c': State, t: Tid, act: Act)
    requires Inv(c) && AllFit(c) && Next(c, c', t, act)
    ensures AllFit(c')
  {
    NextInv(c, c', t, act);
    MemFits(c, c', t, act);
    forall u | u in c'.th ensures SwitchFits(c'.m, c'.th[u]) {
      if u != t { OtherThread(c, c', t, act, u); }
    }
  }

  lemma MemFits(c: State, c': State, t: Tid, act: Act)
    requires Inv(c) && AllFit(c) && Next(c, c', t, act) && WF(c'.m) && Grows(c.m, c'.m)
    ensures Fits(c'.m) && (t in c'.th ==> SwitchFits(c'.m, c'.th[t]))
  {
    if act.Thread? {
      assert ThreadAt(c, t);
      OwnFits(c.m, c.th[t], act.addrs, act.a, c'.m);
    } else if act.Post? {
      EffectFits(c.m, AsyncEffect(act.q), c'.m);
      if t in c.th && c.th[t].Switching? { NeedsStable(c.m, c'.m, c.th[t].w.x, c.th[t].w.next); }
    }
  }

  lemma OtherThread(c: State, c': State, t: Tid, act: Act, u: Tid)
    requires Next(c, c', t, act) && Grows(c.m, c'.m) && u in c'.th && u != t && AllFit(c)
    ensures SwitchFits(c'.m, c'.th[u])
  {
    if c.th[u].Switching? { NeedsStable(c.m, c'.m, c.th[u].w.x, c.th[u].w.next); }
  }

  lemma {:induction false} RunFits(cs: seq<State>, ss: seq<Step>, n: nat)
    requires IsRun(cs, ss) && n < |cs|
    ensures AllFit(cs[n])
    decreases n
  {
    if n > 0 {
      RunFits(cs, ss, n - 1);
      RunInv(cs, ss, n - 1);
      assert RunStep(cs, ss, n - 1);
      NextFits(cs[n - 1], cs[n], ss[n - 1].t, ss[n - 1].act);
    }
  }

  /** The capacity of the type before `t`. */
  function Smaller(t: NodeType): nat
    requires t > 1
  {
    if t == 2 then 4 else if t == 3 then 8 else if t == 4 then 16 else if t == 5 then 32 else if t == 6 then 64 else 128
  }

  /** In every state of every run, a page has the least type or more records than the type below its own covers: more
      than 4 for the second type, more than 8 for the third, and so on up to more than 128 for the last. */
  lemma NoLarger(cs: seq<State>, ss: seq<Step>, n: nat, x: Addr, i: nat)
    requires IsRun(cs, ss) && n < |cs| && x in cs[n].m.pages
    ensures var t := cs[n].m.pages[x].hdr.ntype;
      t >= 1 && (t > 1 && i <= Smaller(t) ==> !Fetch(cs[n].m, Slot(x, i)).Null?)
  {
    RunInv(cs, ss, n);
    RunFits(cs, ss, n);
    FilledBelow(cs[n].m, x, i);
  }

  lemma FilledBelow(m: Mem, x: Addr, i: nat)
    requires WF(m) && Fits(m) && x in m.pages
    ensures var t := m.pages[x].hdr.ntype; t >= 1 && (t > 1 && i <= Smaller(t) ==> !Fetch(m, Slot(x, i)).Null?)
  {
    assert PageAt(m, x) && FitsAt(m, x);
  }
}
