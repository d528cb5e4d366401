/** Splitting a slot: a chain of pages is put between the slot and its old target. */
module Splits {
  import opened Keys
  import opened RemoteMemory
  import opened MemoryOps

  /** Bytes that one page of the chain takes off the path: six in the header and one in record 0. */
  const CHUNK: nat := 7

  /** How many pages a split allocates for `len` common bytes. */
  function ChainLen(len: nat): (n: nat)
    ensures n == len / 7 + 1
  {
    if len < CHUNK then 1 else ChainLen(len - CHUNK) + 1
  }

  ghost predicate FreshAddrs(m: Mem, addrs: seq<Addr>, a: Addr) {
    && a !in m.pre
    && (forall i :: 0 <= i < |addrs| ==> addrs[i] !in m.pre && addrs[i] != a)
    && (forall i, j :: 0 <= i < j < |addrs| ==> addrs[i] != addrs[j])
  }

  /** The key leaves the path of the old target of `s` after `len` bytes. */
  ghost predicate Diverges(m: Mem, s: SlotRef, k: Key, len: nat) {
    var e := Fetch(m, s);
    var d := |Above(m, s)| + 1 + len;
    && SlotIn(m, s) && !e.Null? && e.addr in m.pre
    && d < |m.pre[e.addr]| && d <= KEY_LEN
    && (forall i :: 0 <= i < d ==> Path(k)[i] == m.pre[e.addr][i])
    && Path(k)[d] != m.pre[e.addr][d]
  }

  /** The key's path up to `len` bytes below slot `s`. */
  function PathTo(m: Mem, s: SlotRef, k: Key, len: nat): Bytes {
    if |Above(m, s)| + 1 + len <= KEY_LEN then Path(k)[..|Above(m, s)| + 1 + len] else Path(k)
  }

  /** The slot at which page `i` of the chain goes in, and the header bytes it gets. */
  function LinkSlot(s: SlotRef, addrs: seq<Addr>, i: nat): SlotRef
    requires i <= |addrs|
  {
    if i == 0 then s else Slot(addrs[i - 1], 0)
  }

  function LinkLen(len: nat, i: nat): nat {
    if len < CHUNK * i + CHUNK then (if len >= CHUNK * i then len - CHUNK * i else 0) else HDR_MAX
  }

  ghost predicate Link(ms: seq<Mem>, s: SlotRef, k: Key, len: nat, addrs: seq<Addr>, i: nat) {
    i < |addrs| && i + 1 < |ms| ==>
      ms[i + 1] == Interpose(ms[i], LinkSlot(s, addrs, i), addrs[i],
                             PathTo(ms[i], LinkSlot(s, addrs, i), k, LinkLen(len, i)))
  }

  /** `ms` is the split of slot `s` page by page; `m'` adds the new leaf as record 1 of the last page. */
  ghost predicate SplitBy(ms: seq<Mem>, m: Mem, m': Mem, s: SlotRef, k: Key, v: Value, len: nat, addrs: seq<Addr>,
                          a: Addr) {
    && |ms| == |addrs| + 1 && |addrs| == ChainLen(len)
    && ms[0] == m
    && (forall i :: Link(ms, s, k, len, addrs, i))
    && m' == PutLeaf(ms[|addrs|], Slot(addrs[|addrs| - 1], 1), a, k, v)
  }

  ghost predicate SplitTo(m: Mem, m': Mem, s: SlotRef, k: Key, v: Value, len: nat, addrs: seq<Addr>, a: Addr) {
    exists ms :: SplitBy(ms, m, m', s, k, v, len, addrs, a)
  }

  lemma LinkCan(m: Mem, s: SlotRef, k: Key, len: nat, n: Addr, here: nat)
    requires WF(m) && Diverges(m, s, k, len) && n !in m.pre && here <= HDR_MAX && here <= len
    ensures var f := PathTo(m, s, k, here);
      && CanInterpose(m, s, n, f) && Ext(f, Path(k)) && |f| == |Above(m, s)| + 1 + here
      && (forall i :: 0 <= i < |f| ==> f[i] == Path(k)[i])
  {
    assert EntryAt(m, s);
  }

  /** One page of the chain keeps the memory well formed. */
  lemma LinkKeeps(m: Mem, s: SlotRef, k: Key, len: nat, n: Addr, here: nat)
    requires WF(m) && Diverges(m, s, k, len) && n !in m.pre && here <= HDR_MAX && here <= len
    ensures var f := PathTo(m, s, k, here); var m1 := Interpose(m, s, n, f);
      && WF(m1) && Grows(m, m1) && m1.leaves == m.leaves
      && m1.pre == m.pre[n := f] && |f| == |Above(m, s)| + 1 + here && n in m1.pages
  {
    LinkCan(m, s, k, len, n, here);
    InterposeWF(m, s, n, PathTo(m, s, k, here));
    InterposeGrows(m, s, n, PathTo(m, s, k, here));
  }

  /** After a page that is not the last, the split goes on below record 0 of the page. */
  lemma LinkOn(m: Mem, s: SlotRef, k: Key, len: nat, n: Addr, here: nat)
    requires WF(m) && Diverges(m, s, k, len) && n !in m.pre && here <= HDR_MAX && here < len
    ensures var m1 := Interpose(m, s, n, PathTo(m, s, k, here));
      Diverges(m1, Slot(n, 0), k, len - here - 1) && Fetch(m1, Slot(n, 0)).addr == Fetch(m, s).addr
  {
    LinkCan(m, s, k, len, n, here);
    InterposeFetch(m, s, n, PathTo(m, s, k, here), Slot(n, 0));
    assert EntryAt(m, s);
  }

  /** The last page has its record 1 free for the new leaf. */
  lemma LinkLast(m: Mem, s: SlotRef, k: Key, len: nat, n: Addr)
    requires WF(m) && Diverges(m, s, k, len) && n !in m.pre && len <= HDR_MAX
    ensures var f := PathTo(m, s, k, len); var m1 := Interpose(m, s, n, f);
      && Above(m1, Slot(n, 1)) == f && Ext(f, Path(k)) && |f| <= KEY_LEN
      && FirstFree(m1, Slot(n, 1), Path(k)[|f|]) && n in m1.pages && m1.pages[n].hdr.ntype == NODE_4
  {
    var f := PathTo(m, s, k, len);
    var m1 := Interpose(m, s, n, f);
    LinkCan(m, s, k, len, n, len);
    InterposeFetch(m, s, n, f, Slot(n, 0));
    InterposeFetch(m, s, n, f, Slot(n, 1));
    assert HoldsOther(m1, n, 0, Path(k)[|f|]);
  }

  /** What is known of the chain after its first `i` pages. */
  ghost predicate ChainAt(m: Mem, mi: Mem, s: SlotRef, k: Key, len: nat, addrs: seq<Addr>, a: Addr, i: nat)
    requires i <= |addrs| && !Fetch(m, s).Null?
  {
    && WF(mi) && Grows(m, mi) && mi.leaves == m.leaves
    && a !in mi.pre
    && (forall j :: i <= j < |addrs| ==> addrs[j] !in mi.pre)
    && CHUNK * i <= len
    && Diverges(mi, LinkSlot(s, addrs, i), k, len - CHUNK * i)
    && Fetch(mi, LinkSlot(s, addrs, i)).addr == Fetch(m, s).addr
    && |Above(mi, LinkSlot(s, addrs, i))| == |Above(m, s)| + CHUNK * i
  }

  lemma ChainNext(m: Mem, mi: Mem, s: SlotRef, k: Key, len: nat, addrs: seq<Addr>, a: Addr, i: nat)
    requires WF(m) && Diverges(m, s, k, len) && FreshAddrs(m, addrs, a) && |addrs| == ChainLen(len)
    requires i + 1 < |addrs| && ChainAt(m, mi, s, k, len, addrs, a, i)
    ensures var t := LinkSlot(s, addrs, i);
      LinkLen(len, i) == HDR_MAX
        && ChainAt(m, Interpose(mi, t, addrs[i], PathTo(mi, t, k, HDR_MAX)), s, k, len, addrs, a, i + 1)
  {
    var t, n := LinkSlot(s, addrs, i), len - CHUNK * i;
    var m1 := Interpose(mi, t, addrs[i], PathTo(mi, t, k, HDR_MAX));
    LinkKeeps(mi, t, k, n, addrs[i], HDR_MAX);
    LinkOn(mi, t, k, n, addrs[i], HDR_MAX);
    GrowsTrans(m, mi, m1);
    assert LinkSlot(s, addrs, i + 1) == Slot(addrs[i], 0);
  }

  lemma {:induction false} ChainHolds(ms: seq<Mem>, m: Mem, m': Mem, s: SlotRef, k: Key, v: Value, len: nat,
                                      addrs: seq<Addr>, a: Addr, i: nat)
    requires WF(m) && Diverges(m, s, k, len) && FreshAddrs(m, addrs, a)
    requires SplitBy(ms, m, m', s, k, v, len, addrs, a) && i < |addrs|
    ensures ChainAt(m, ms[i], s, k, len, addrs, a, i)
    decreases i
  {
    if i == 0 {
      GrowsRefl(m);
    } else {
      ChainHolds(ms, m, m', s, k, v, len, addrs, a, i - 1);
      assert Link(ms, s, k, len, addrs, i - 1);
      ChainOn(m, ms[i - 1], ms[i], s, k, len, addrs, a, i - 1, i);
    }
  }

  lemma ChainOn(m: Mem, mi: Mem, m1: Mem, s: SlotRef, k: Key, len: nat, addrs: seq<Addr>, a: Addr, i: nat, i1: nat)
    requires WF(m) && Diverges(m, s, k, len) && FreshAddrs(m, addrs, a) && |addrs| == ChainLen(len)
    requires i1 == i + 1 < |addrs| && ChainAt(m, mi, s, k, len, addrs, a, i)
    requires m1 == Interpose(mi, LinkSlot(s, addrs, i), addrs[i], PathTo(mi, LinkSlot(s, addrs, i), k, LinkLen(len, i)))
    ensures ChainAt(m, m1, s, k, len, addrs, a, i1)
  {
    ChainNext(m, mi, s, k, len, addrs, a, i);
  }

  /** The last page of a chain gets the header bytes that are left, and the new leaf goes into its record 1. */
  lemma ChainEnd(ms: seq<Mem>, m: Mem, m': Mem, s: SlotRef, k: Key, v: Value, len: nat, addrs: seq<Addr>, a: Addr)
    returns (mi: Mem, t: SlotRef, n: nat, x: Addr)
    requires WF(m) && Diverges(m, s, k, len) && FreshAddrs(m, addrs, a)
    requires SplitBy(ms, m, m', s, k, v, len, addrs, a)
    ensures mi == ms[|addrs| - 1] && t == LinkSlot(s, addrs, |addrs| - 1) && x == addrs[|addrs| - 1]
    ensures WF(mi) && Grows(m, mi) && mi.leaves == m.leaves
    ensures a !in mi.pre && x !in mi.pre && x != a
    ensures n <= HDR_MAX && Diverges(mi, t, k, n)
    ensures Fetch(mi, t).addr == Fetch(m, s).addr && |Above(mi, t)| + n == |Above(m, s)| + len
    ensures m' == PutLeaf(Interpose(mi, t, x, PathTo(mi, t, k, n)), Slot(x, 1), a, k, v)
  {
    var i := |addrs| - 1;
    mi, t, n, x := ms[i], LinkSlot(s, addrs, i), len - CHUNK * i, addrs[i];
    ChainHolds(ms, m, m', s, k, v, len, addrs, a, i);
    ChainLast(ms, m, m', s, k, v, len, addrs, a);
  }

  lemma ChainLast(ms: seq<Mem>, m: Mem, m': Mem, s: SlotRef, k: Key, v: Value, len: nat, addrs: seq<Addr>, a: Addr)
    requires SplitBy(ms, m, m', s, k, v, len, addrs, a)
    ensures var i := |addrs| - 1; var t := LinkSlot(s, addrs, i);
      && 0 <= len - CHUNK * i <= HDR_MAX
      && m' == PutLeaf(Interpose(ms[i], t, addrs[i], PathTo(ms[i], t, k, len - CHUNK * i)), Slot(addrs[i], 1), a, k, v)
  {
    assert Link(ms, s, k, len, addrs, |addrs| - 1);
  }

  /** A split keeps the memory well formed, only grows it, and stores exactly the new leaf. */
  lemma SplitKeeps(m: Mem, m': Mem, s: SlotRef, k: Key, v: Value, len: nat, addrs: seq<Addr>, a: Addr)
    requires WF(m) && Diverges(m, s, k, len) && FreshAddrs(m, addrs, a)
    requires SplitTo(m, m', s, k, v, len, addrs, a)
    ensures WF(m') && Grows(m, m')
    ensures m'.leaves == m.leaves[a := Leaf(Slot(addrs[|addrs| - 1], 1), k, v)]
  {
    var ms :| SplitBy(ms, m, m', s, k, v, len, addrs, a);
    var mi, t, n, x := ChainEnd(ms, m, m', s, k, v, len, addrs, a);
    var m1 := Interpose(mi, t, x, PathTo(mi, t, k, n));
    LinkKeeps(mi, t, k, n, x, n);
    LinkLast(mi, t, k, n, x);
    PutLeafWF(m1, Slot(x, 1), a, k, v);
    PutLeafGrows(m1, Slot(x, 1), a, k, v);
    GrowsTrans(m, mi, m1);
    GrowsTrans(m, m1, m');
  }

  lemma LinkTarget(m: Mem, s: SlotRef, k: Key, v: Value, len: nat, n: Addr, here: nat, a: Addr)
    requires WF(m) && Diverges(m, s, k, len) && n !in m.pre && here <= HDR_MAX && here <= len && a !in m.pre && a != n
    ensures var m' := PutLeaf(Interpose(m, s, n, PathTo(m, s, k, here)), Slot(n, 1), a, k, v);
      var y := Fetch(m, s).addr;
      y in m'.par && m'.par[y] == Slot(n, 0) && |Above(m', Slot(n, 0))| == |Above(m, s)| + 1 + here
  {
    LinkCan(m, s, k, len, n, here);
    assert EntryAt(m, s);
  }

  /** After a split the old target hangs off record 0 of the last new page. */
  lemma SplitTarget(m: Mem, m': Mem, s: SlotRef, k: Key, v: Value, len: nat, addrs: seq<Addr>, a: Addr)
    requires WF(m) && Diverges(m, s, k, len) && FreshAddrs(m, addrs, a)
    requires SplitTo(m, m', s, k, v, len, addrs, a)
    ensures var y := Fetch(m, s).addr;
      y in m'.par && m'.par[y] == Slot(addrs[|addrs| - 1], 0) && |Above(m', m'.par[y])| == |Above(m, s)| + 1 + len
  {
    var ms :| SplitBy(ms, m, m', s, k, v, len, addrs, a);
    var mi, t, n, x := ChainEnd(ms, m, m', s, k, v, len, addrs, a);
    LinkTarget(mi, t, k, v, n, x, n, a);
  }
}
