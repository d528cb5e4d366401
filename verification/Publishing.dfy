/** After an insert has published its leaf, nothing but the slots it crossed can hide the key. */
module Publishing {
  import opened Keys
  import opened RemoteMemory
  import opened MemoryOps
  import opened Lookup
  import opened Splits
  import opened StaleEntries

  lemma PutClear(m: Mem, s: SlotRef, a: Addr, k: Key, v: Value, lo: nat, c: set<SlotRef>)
    requires WF(m) && a !in m.pre && s.Slot?
    requires |Above(m, s)| <= KEY_LEN && Ext(Above(m, s), Path(k)) && FirstFree(m, s, Path(k)[|Above(m, s)|])
    requires Clear(m, Path(k), |Above(m, s)|, lo, c)
    requires s.idx < Capacity(m.pages[s.page].hdr.ntype) || s in c
    ensures Clear(PutLeaf(m, s, a, k, v), Path(k), PATH_LEN, lo, c)
  {
    var m' := PutLeaf(m, s, a, k, v);
    PutLeafWF(m, s, a, k, v);
    forall z ensures ClearAt(m', z, Path(k), PATH_LEN, lo, c) {
      if z in m'.pages && lo < |m'.pre[z]| && Ext(m'.pre[z], Path(k)) {
        assert z in m.pages && m'.pre[z] == m.pre[z];
        if |m.pre[z]| < |Above(m, s)| {
          assert ClearAt(m, z, Path(k), |Above(m, s)|, lo, c);
          forall j: nat ensures Fetch(m', Slot(z, j)) == Fetch(m, Slot(z, j)) {}
        } else if |m.pre[z]| == |Above(m, s)| {
          assert m.pre[z] == m.pre[s.page];
          Unique(m, z, s.page);
          forall j: nat ensures j != s.idx ==> Fetch(m', Slot(z, j)) == Fetch(m, Slot(z, j)) {}
          forall j: nat ensures Fetch(m, Slot(z, j)).Null? || Fetch(m, Slot(z, j)).partial != Path(k)[|Above(m, s)|] {
            FreeByte(m, s, Path(k)[|Above(m, s)|], j);
          }
        } else {
          NothingBelowFree(m, s, k, z);
        }
      }
    }
  }

  /** No page lies below a slot that is still free for the key's byte. */
  lemma NothingBelowFree(m: Mem, s: SlotRef, k: Key, z: Addr)
    requires WF(m) && s.Slot? && |Above(m, s)| <= KEY_LEN && FirstFree(m, s, Path(k)[|Above(m, s)|])
    requires Ext(Above(m, s), Path(k)) && z in m.pages && Ext(m.pre[z], Path(k))
    ensures |m.pre[z]| <= |Above(m, s)|
  {
    if |Above(m, s)| < |m.pre[z]| {
      assert PageAt(m, s.page);
      var j := SlotToward(m, s.page, z);
      FreeByte(m, s, Path(k)[|Above(m, s)|], j);
    }
  }

  /** A page with a free slot for byte `b` holds `b` nowhere. */
  lemma FreeByte(m: Mem, s: SlotRef, b: Byte, j: nat)
    requires WF(m) && s.Slot? && FirstFree(m, s, b)
    ensures Fetch(m, Slot(s.page, j)).Null? || Fetch(m, Slot(s.page, j)).partial != b
  {
    assert PageAt(m, s.page);
    if j < s.idx { assert HoldsOther(m, s.page, j, b); }
  }

  /** Interposing a page above a target does not hide paths that go on below the page. */
  lemma InterposeClear(m: Mem, s: SlotRef, n: Addr, f: Bytes, k: Key, lo: nat, c: set<SlotRef>)
    requires WF(m) && CanInterpose(m, s, n, f) && Ext(f, Path(k)) && |f| <= KEY_LEN
    requires Clear(m, Path(k), |Above(m, s)| + 1, lo, c)
    ensures Clear(Interpose(m, s, n, f), Path(k), |f|, lo, c)
  {
    var m', d := Interpose(m, s, n, f), |f|;
    ClearAbove(m, s, n, f, k, lo, c);
    forall z ensures ClearAt(m', z, Path(k), d, lo, c) {
      assert ClearAt(m', z, Path(k), |Above(m, s)| + 1, lo, c);
      NoneBetween(m, s, n, f, k, z);
    }
  }

  lemma ClearAbove(m: Mem, s: SlotRef, n: Addr, f: Bytes, k: Key, lo: nat, c: set<SlotRef>)
    requires WF(m) && CanInterpose(m, s, n, f) && Ext(f, Path(k)) && |f| <= KEY_LEN
    requires Clear(m, Path(k), |Above(m, s)| + 1, lo, c)
    ensures Clear(Interpose(m, s, n, f), Path(k), |Above(m, s)| + 1, lo, c)
  {
    InterposeWF(m, s, n, f);
    InterposeGrows(m, s, n, f);
    assert EntryAt(m, s);
    ClearStable(m, Interpose(m, s, n, f), Path(k), |Above(m, s)| + 1, lo, c, Fetch(m, s).addr);
  }

  /** No page lies between the slot and the new page. */
  lemma NoneBetween(m: Mem, s: SlotRef, n: Addr, f: Bytes, k: Key, z: Addr)
    requires WF(m) && CanInterpose(m, s, n, f) && Ext(f, Path(k))
    ensures var m' := Interpose(m, s, n, f);
      !(z in m'.pages && z in m'.pre && |Above(m, s)| < |m'.pre[z]| < |f| && Ext(m'.pre[z], Path(k)))
  {
    var m' := Interpose(m, s, n, f);
    assert EntryAt(m, s) && PageAt(m, z);
    if z in m'.pages && z in m'.pre && |Above(m, s)| < |m'.pre[z]| < |f| && Ext(m'.pre[z], Path(k)) { Cover(m, s, z); }
  }

  /** Nor does it hide the path that goes on to the target. */
  lemma InterposeClearOn(m: Mem, s: SlotRef, n: Addr, f: Bytes, k: Key, lo: nat, c: set<SlotRef>)
    requires WF(m) && CanInterpose(m, s, n, f) && Ext(f, Path(k)) && |f| <= KEY_LEN
    requires Clear(m, Path(k), |Above(m, s)| + 1, lo, c)
    requires Path(k)[|f|] == m.pre[Fetch(m, s).addr][|f|]
    ensures Clear(Interpose(m, s, n, f), Path(k), |f| + 1, lo, c)
  {
    var m', d := Interpose(m, s, n, f), |f| + 1;
    InterposeClear(m, s, n, f, k, lo, c);
    InterposeWF(m, s, n, f);
    forall z ensures ClearAt(m', z, Path(k), d, lo, c) {
      assert ClearAt(m', z, Path(k), |f|, lo, c);
      if z in m'.pages && |m'.pre[z]| == |f| && Ext(m'.pre[z], Path(k)) {
        assert m'.pre[z] == m'.pre[n];
        Unique(m', z, n);
        assert PageAt(m', n);
        InterposeFetch(m, s, n, f, Slot(n, 0));
      }
    }
  }

  lemma LinkClearOn(m: Mem, s: SlotRef, k: Key, len: nat, n: Addr, here: nat, lo: nat, c: set<SlotRef>)
    requires WF(m) && Diverges(m, s, k, len) && n !in m.pre && here <= HDR_MAX && here < len
    requires Clear(m, Path(k), |Above(m, s)| + 1, lo, c)
    ensures var m1 := Interpose(m, s, n, PathTo(m, s, k, here));
      Clear(m1, Path(k), |Above(m1, Slot(n, 0))| + 1, lo, c)
  {
    LinkByte(m, s, k, len, n, here);
    InterposeClearOn(m, s, n, PathTo(m, s, k, here), k, lo, c);
  }

  lemma LinkByte(m: Mem, s: SlotRef, k: Key, len: nat, n: Addr, here: nat)
    requires WF(m) && Diverges(m, s, k, len) && n !in m.pre && here <= HDR_MAX && here < len
    ensures var f := PathTo(m, s, k, here);
      CanInterpose(m, s, n, f) && Ext(f, Path(k)) && |f| <= KEY_LEN && Path(k)[|f|] == m.pre[Fetch(m, s).addr][|f|]
  {
    LinkCan(m, s, k, len, n, here);
  }

  lemma LinkClearLast(m: Mem, m': Mem, s: SlotRef, k: Key, v: Value, len: nat, n: Addr, a: Addr, lo: nat,
                      c: set<SlotRef>)
    requires m' == PutLeaf(Interpose(m, s, n, PathTo(m, s, k, len)), Slot(n, 1), a, k, v)
    requires WF(m) && Diverges(m, s, k, len) && n !in m.pre && len <= HDR_MAX && a !in m.pre && a != n
    requires Clear(m, Path(k), |Above(m, s)| + 1, lo, c)
    ensures Clear(m', Path(k), PATH_LEN, lo, c)
  {
    var m1 := Interpose(m, s, n, PathTo(m, s, k, len));
    LinkCan(m, s, k, len, n, len);
    InterposeClear(m, s, n, PathTo(m, s, k, len), k, lo, c);
    LinkKeeps(m, s, k, len, n, len);
    LinkLast(m, s, k, len, n);
    PutClear(m1, Slot(n, 1), a, k, v, lo, c);
  }

  lemma {:induction false} ChainClear(ms: seq<Mem>, m: Mem, m': Mem, s: SlotRef, k: Key, v: Value, len: nat,
                                      addrs: seq<Addr>, a: Addr, lo: nat, c: set<SlotRef>, i: nat)
    requires WF(m) && Diverges(m, s, k, len) && FreshAddrs(m, addrs, a)
    requires SplitBy(ms, m, m', s, k, v, len, addrs, a) && i < |addrs|
    requires Clear(m, Path(k), |Above(m, s)| + 1, lo, c)
    ensures Clear(ms[i], Path(k), |Above(ms[i], LinkSlot(s, addrs, i))| + 1, lo, c)
    decreases i
  {
    if i > 0 {
      ChainClear(ms, m, m', s, k, v, len, addrs, a, lo, c, i - 1);
      ChainHolds(ms, m, m', s, k, v, len, addrs, a, i - 1);
      assert Link(ms, s, k, len, addrs, i - 1);
      LinkClearOn(ms[i - 1], LinkSlot(s, addrs, i - 1), k, len - CHUNK * (i - 1), addrs[i - 1], HDR_MAX, lo, c);
    }
  }

  lemma ChainEndClear(ms: seq<Mem>, m: Mem, m': Mem, s: SlotRef, k: Key, v: Value, len: nat,
                      addrs: seq<Addr>, a: Addr, lo: nat, c: set<SlotRef>, mi: Mem, t: SlotRef)
    requires WF(m) && Diverges(m, s, k, len) && FreshAddrs(m, addrs, a)
    requires SplitBy(ms, m, m', s, k, v, len, addrs, a)
    requires mi == ms[|addrs| - 1] && t == LinkSlot(s, addrs, |addrs| - 1)
    requires Clear(m, Path(k), |Above(m, s)| + 1, lo, c)
    ensures Clear(mi, Path(k), |Above(mi, t)| + 1, lo, c)
  {
    ChainClear(ms, m, m', s, k, v, len, addrs, a, lo, c, |addrs| - 1);
  }

  /** After a split, nothing but the slots `c` hides the new key. */
  lemma SplitClear(m: Mem, m': Mem, s: SlotRef, k: Key, v: Value, len: nat, addrs: seq<Addr>, a: Addr,
                   lo: nat, c: set<SlotRef>)
    requires WF(m) && Diverges(m, s, k, len) && FreshAddrs(m, addrs, a)
    requires SplitTo(m, m', s, k, v, len, addrs, a)
    requires Clear(m, Path(k), |Above(m, s)| + 1, lo, c)
    ensures Clear(m', Path(k), PATH_LEN, lo, c)
  {
    var ms :| SplitBy(ms, m, m', s, k, v, len, addrs, a);
    var mi, t, n, x := ChainEnd(ms, m, m', s, k, v, len, addrs, a);
    ChainEndClear(ms, m, m', s, k, v, len, addrs, a, lo, c, mi, t);
    LinkClearLast(mi, m', t, k, v, n, x, a, lo, c);
  }
}
