/** The pages that a split adds to the tree. */
module NewPages {
  import opened Keys
  import opened RemoteMemory
  import opened MemoryOps
  import opened Invariant
  import opened StaleEntries
  import opened Splits

  /** `made` are exactly the pages of `m'` that `m` does not have, and all of them lie on the path of `k`. */
  ghost predicate Made(m: Mem, m': Mem, k: Key, made: seq<Addr>) {
    forall x :: MadeAt(m, m', k, made, x)
  }

  ghost predicate MadeAt(m: Mem, m': Mem, k: Key, made: seq<Addr>, x: Addr) {
    && (x in made <==> x in m'.pages && x !in m.pages)
    && (x in made ==> x in m'.pre && Ext(m'.pre[x], Path(k)))
  }

  lemma MadeNext(m: Mem, m1: Mem, s: SlotRef, k: Key, len: nat, here: nat, made: seq<Addr>, n: Addr)
    requires WF(m) && WF(m1) && Made(m, m1, k, made) && n !in m1.pre && n !in m.pre
    requires Diverges(m1, s, k, len) && here <= HDR_MAX && here <= len
    ensures Made(m, Interpose(m1, s, n, PathTo(m1, s, k, here)), k, made + [n])
  {
    LinkCan(m1, s, k, len, n, here);
    var m2 := Interpose(m1, s, n, PathTo(m1, s, k, here));
    assert PageAt(m, n) && PageAt(m1, n);
    forall x ensures MadeAt(m, m2, k, made + [n], x) { assert MadeAt(m, m1, k, made, x); }
  }

  lemma LinkMade(ms: seq<Mem>, m: Mem, m': Mem, s: SlotRef, k: Key, v: Value, len: nat, addrs: seq<Addr>, a: Addr,
                 h: nat, m1: Mem, m2: Mem)
    requires WF(m) && Diverges(m, s, k, len) && FreshAddrs(m, addrs, a)
    requires SplitBy(ms, m, m', s, k, v, len, addrs, a) && h < |addrs| && m1 == ms[h] && m2 == ms[h + 1]
    requires Made(m, m1, k, addrs[..h])
    ensures Made(m, m2, k, addrs[..h] + [addrs[h]])
  {
    ChainHolds(ms, m, m', s, k, v, len, addrs, a, h);
    assert Link(ms, s, k, len, addrs, h);
    MadeNext(m, m1, LinkSlot(s, addrs, h), k, len - CHUNK * h, LinkLen(len, h), addrs[..h], addrs[h]);
  }

  lemma {:induction false} ChainMade(ms: seq<Mem>, m: Mem, m': Mem, s: SlotRef, k: Key, v: Value, len: nat,
                                     addrs: seq<Addr>, a: Addr, i: nat)
    requires WF(m) && Diverges(m, s, k, len) && FreshAddrs(m, addrs, a)
    requires SplitBy(ms, m, m', s, k, v, len, addrs, a) && i <= |addrs|
    ensures Made(m, ms[i], k, addrs[..i])
    decreases i
  {
    if i == 0 {
      forall x ensures MadeAt(m, m, k, addrs[..0], x) {}
    } else {
      var h := i - 1;
      ChainMade(ms, m, m', s, k, v, len, addrs, a, h);
      LinkMade(ms, m, m', s, k, v, len, addrs, a, h, ms[h], ms[i]);
      assert addrs[..i] == addrs[..h] + [addrs[h]];
    }
  }

  /** A split adds the pages of its chain, and no others. */
  lemma SplitMade(m: Mem, m': Mem, s: SlotRef, k: Key, v: Value, len: nat, addrs: seq<Addr>, a: Addr)
    requires WF(m) && Diverges(m, s, k, len) && FreshAddrs(m, addrs, a) && SplitTo(m, m', s, k, v, len, addrs, a)
    ensures Made(m, m', k, addrs)
  {
    var ms :| SplitBy(ms, m, m', s, k, v, len, addrs, a);
    var n := |addrs|;
    ChainMade(ms, m, m', s, k, v, len, addrs, a, n);
    assert addrs[..n] == addrs;
    forall x ensures MadeAt(m, m', k, addrs, x) { assert MadeAt(m, ms[n], k, addrs, x); }
  }

  /** A step that keeps the set of pages and their prefixes. */
  lemma MadeKept(m: Mem, m1: Mem, m2: Mem, k: Key, made: seq<Addr>)
    requires Made(m, m1, k, made) && m2.pages.Keys == m1.pages.Keys && m2.pre == m1.pre
    ensures Made(m, m2, k, made)
  {
    forall x ensures MadeAt(m, m2, k, made, x) {
      assert MadeAt(m, m1, k, made, x) && (x in m2.pages.Keys <==> x in m1.pages.Keys);
    }
  }

  // a split changes the entry of no other slot

  lemma {:induction false} ChainKeptSlot(ms: seq<Mem>, m: Mem, m': Mem, s: SlotRef, k: Key, v: Value, len: nat,
                                         addrs: seq<Addr>, a: Addr, i: nat, t: SlotRef)
    requires WF(m) && Diverges(m, s, k, len) && FreshAddrs(m, addrs, a)
    requires SplitBy(ms, m, m', s, k, v, len, addrs, a) && i < |addrs| && t != s && !Fetch(m, t).Null?
    ensures Fetch(ms[i], t) == Fetch(m, t)
    decreases i
  {
    if i > 0 {
      var h := i - 1;
      ChainKeptSlot(ms, m, m', s, k, v, len, addrs, a, h, t);
      ChainHolds(ms, m, m', s, k, v, len, addrs, a, h);
      assert Link(ms, s, k, len, addrs, h);
      LinkKeptSlot(m, ms[h], LinkSlot(s, addrs, h), k, len - CHUNK * h, addrs, h, s, LinkLen(len, h), t);
    }
  }

  /** An old slot other than the split one is not one of the chain. */
  lemma NotLink(m: Mem, s: SlotRef, addrs: seq<Addr>, h: nat, t: SlotRef)
    requires WF(m) && h < |addrs| && addrs[h] !in m.pre && (h > 0 ==> addrs[h - 1] !in m.pre) && t != s
    requires !Fetch(m, t).Null?
    ensures t != LinkSlot(s, addrs, h) && (t.Slot? ==> t.page != addrs[h])
  {
    FilledIn(m, t);
    if t.Slot? { assert PageAt(m, t.page); }
  }

  lemma LinkKeptSlot(m: Mem, mi: Mem, u: SlotRef, k: Key, len: nat, addrs: seq<Addr>, h: nat, s: SlotRef, here: nat,
                     t: SlotRef)
    requires WF(m) && WF(mi) && h < |addrs| && u == LinkSlot(s, addrs, h) && addrs[h] !in mi.pre && addrs[h] !in m.pre
    requires Diverges(mi, u, k, len) && here <= HDR_MAX && here <= len && (h > 0 ==> addrs[h - 1] !in m.pre)
    requires t != s && !Fetch(m, t).Null?
    ensures Fetch(Interpose(mi, u, addrs[h], PathTo(mi, u, k, here)), t) == Fetch(mi, t)
  {
    NotLink(m, s, addrs, h, t);
    LinkCan(mi, u, k, len, addrs[h], here);
    InterposeFetch(mi, u, addrs[h], PathTo(mi, u, k, here), t);
  }

  /** The last page of the chain, and the new leaf in its record 1. */
  lemma LastKeptSlot(m: Mem, mi: Mem, u: SlotRef, k: Key, v: Value, n: nat, x: Addr, a: Addr, t: SlotRef)
    requires WF(m) && WF(mi) && x !in mi.pre && x !in m.pre && Diverges(mi, u, k, n) && n <= HDR_MAX && t != u
    requires !Fetch(m, t).Null?
    ensures Fetch(PutLeaf(Interpose(mi, u, x, PathTo(mi, u, k, n)), Slot(x, 1), a, k, v), t) == Fetch(mi, t)
  {
    FilledIn(m, t);
    if t.Slot? { assert PageAt(m, t.page); }
    LinkCan(mi, u, k, n, x, n);
    InterposeFetch(mi, u, x, PathTo(mi, u, k, n), t);
  }

  lemma SplitKeptSlot(m: Mem, m': Mem, s: SlotRef, k: Key, v: Value, len: nat, addrs: seq<Addr>, a: Addr, t: SlotRef)
    requires WF(m) && Diverges(m, s, k, len) && FreshAddrs(m, addrs, a) && SplitTo(m, m', s, k, v, len, addrs, a)
    requires t != s && !Fetch(m, t).Null?
    ensures Fetch(m', t) == Fetch(m, t)
  {
    var ms :| SplitBy(ms, m, m', s, k, v, len, addrs, a);
    var mi, u, n, x := ChainEnd(ms, m, m', s, k, v, len, addrs, a);
    ChainKeptSlot(ms, m, m', s, k, v, len, addrs, a, |addrs| - 1, t);
    NotLink(m, s, addrs, |addrs| - 1, t);
    LastKeptSlot(m, mi, u, k, v, n, x, a, t);
  }

  /** What an operation at slot `s` does to the filled slots: it changes at most `s`, and `moved` says whether it
      does. */
  ghost predicate SlotsAfter(m: Mem, m': Mem, s: SlotRef, moved: bool) {
    && (forall t :: t != s || !moved ==> SlotKept(m, m', t))
    && (moved ==> Fetch(m', s) != Fetch(m, s))
  }

  ghost predicate SlotKept(m: Mem, m': Mem, t: SlotRef) {
    !Fetch(m, t).Null? ==> Fetch(m', t) == Fetch(m, t)
  }

  /** A split moves the old target of its slot. */
  lemma SplitMoves(m: Mem, m': Mem, s: SlotRef, k: Key, v: Value, len: nat, addrs: seq<Addr>, a: Addr)
    requires WF(m) && Diverges(m, s, k, len) && FreshAddrs(m, addrs, a) && SplitTo(m, m', s, k, v, len, addrs, a)
    ensures SlotsAfter(m, m', s, true)
  {
    SplitKeeps(m, m', s, k, v, len, addrs, a);
    SplitTarget(m, m', s, k, v, len, addrs, a);
    assert EntryAt(m', s) && EntryAt(m, s);
    FilledIn(m, s);
    if s.Slot? { assert PageAt(m, s.page); }
    forall t | t != s ensures SlotKept(m, m', t) {
      if !Fetch(m, t).Null? { SplitKeptSlot(m, m', s, k, v, len, addrs, a, t); }
    }
  }
}
