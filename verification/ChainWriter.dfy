/** out_of_place_write_node: the chain of pages is written top down, then one CAS puts it in place. */
module ChainWriter {
  import opened Keys
  import opened RemoteMemory
  import opened MemoryOps
  import opened Splits

  function Nulls(n: nat): seq<Entry> {
    seq(n, _ => Null)
  }

  /** A written chain whose last page still misses its record 0: the old entry `e` is put there. */
  ghost function Tied(j: Mem, t: SlotRef, e: Entry): Mem
    requires !e.Null?
  {
    WriteSlot(j, t, e).(par := j.par[e.addr := t])
  }

  lemma WriteBack(j: Mem, t: SlotRef, e: Entry)
    requires t.Slot? ==> t.page in j.pages && t.idx < |j.pages[t.page].records|
    ensures WriteSlot(WriteSlot(j, t, e), t, Fetch(j, t)) == j
    ensures Fetch(WriteSlot(j, t, e), t) == e
  {
    if t.Slot? {
      var r := j.pages[t.page].records;
      assert r[t.idx := e][t.idx := r[t.idx]] == r;
    }
  }

  /** One more page of the chain is one more page interposed above the old target. */
  lemma PageTied(j: Mem, mi: Mem, t: SlotRef, n: Addr, f: Bytes, e: Entry, e': Entry, x: Entry, g: Page, j': Mem)
    requires !e.Null? && mi == Tied(j, t, e) && CanInterpose(mi, t, n, f)
    requires t.Slot? ==> t.page in j.pages && t.idx < |j.pages[t.page].records|
    requires Fetch(j, t) == NodeEntry(e.partial, NODE_4, n) && n !in j.pages
    requires e' == e.(partial := mi.pre[e.addr][|f|]) && e.addr != n
    requires g == Page(t, Header(|Above(mi, t)| + 1, NODE_4, f[|Above(mi, t)| + 1..]), [x] + Nulls(SLOTS - 1))
    requires j' == j.(pages := j.pages[n := g], pre := j.pre[n := f], par := j.par[n := t])
    ensures Interpose(mi, t, n, f) == Tied(j', Slot(n, 0), e')
  {
    WriteBack(j, t, e);
    assert Fetch(mi, t) == e;
    assert ([x] + Nulls(SLOTS - 1))[0 := e'] == [e'] + Nulls(SLOTS - 1);
    assert NewPage(t, |Above(mi, t)| + 1, f, e') == g.(records := g.records[0 := e']);
    var w := WriteSlot(mi, t, NodeEntry(e.partial, NODE_4, n));
    assert w.pages == j.pages && w.root == j.root;
    assert mi.par[n := t][e.addr := Slot(n, 0)] == j'.par[e.addr := Slot(n, 0)];
  }

  /** The parent entry that a split writes. */
  function ParentEntry(e: Entry, addrs: seq<Addr>): Entry
    requires addrs != [] && !e.Null?
  {
    NodeEntry(e.partial, NODE_4, addrs[0])
  }

  /** The pages of a split written so far (`w`), with the parent entry, are the first `i` pages of the chain cut off
      below record 0 of the last one; `mi` is that chain with the old entry tied to it. */
  ghost predicate Written(m: Mem, mi: Mem, w: Mem, s: SlotRef, e: Entry, addrs: seq<Addr>, i: nat, d: nat)
    requires addrs != [] && !e.Null?
  {
    var j := WriteSlot(w, s, ParentEntry(e, addrs));
    && i < |addrs| && 1 <= d <= KEY_LEN && e.addr in m.pre && d <= |m.pre[e.addr]|
    && var t := LinkSlot(s, addrs, i);
    && mi == Tied(j, t, e.(partial := m.pre[e.addr][d - 1]))
    && (t.Slot? ==> t.page in j.pages && t.idx < |j.pages[t.page].records|)
    && Fetch(j, t) == NodeEntry(m.pre[e.addr][d - 1], NODE_4, addrs[i])
    && w.leaves == m.leaves && w.pre == mi.pre
    && (s.Slot? ==> s.page in m.pages && s.page in w.pages && s.idx < |w.pages[s.page].records|)
    && (forall l :: i <= l < |addrs| ==> addrs[l] !in j.pages)
  }

  lemma WrittenStart(m: Mem, s: SlotRef, e: Entry, k: Key, len: nat, addrs: seq<Addr>, a: Addr)
    requires WF(m) && Diverges(m, s, k, len) && FreshAddrs(m, addrs, a) && addrs != [] && e == Fetch(m, s)
    ensures Written(m, m, m, s, e, addrs, 0, |Above(m, s)| + 1)
  {
    assert EntryAt(m, s);
    WriteBack(m, s, ParentEntry(e, addrs));
    if s.Slot? { assert PageAt(m, s.page); }
    var d := |Above(m, s)| + 1;
    assert e.(partial := m.pre[e.addr][d - 1]) == e;
    assert m.par[e.addr := s] == m.par;
  }

  /** Page `n` of a chain below slot `t`: `h` header bytes of the key from depth `d` on. */
  function ChainPage(t: SlotRef, k: Key, d: nat, h: nat, r: seq<Entry>): Page
    requires d + h <= KEY_LEN
  {
    Page(t, Header(d, NODE_4, Path(k)[d..d + h]), r)
  }

  /** The memory with one more chain page, not yet reachable. */
  function WithPage(w: Mem, n: Addr, g: Page, f: Bytes): Mem {
    w.(pages := w.pages[n := g], pre := w.pre[n := f], par := w.par[n := g.rev])
  }

  lemma WithPageWrite(w: Mem, s: SlotRef, p: Entry, n: Addr, g: Page, f: Bytes)
    requires n !in w.pages && (s.Slot? ==> s.page in w.pages)
    ensures WriteSlot(WithPage(w, n, g, f), s, p) == WithPage(WriteSlot(w, s, p), n, g, f)
  {}

  /** A page with prefix `f` fits between slot `t`, at depth `d`, and the old target. */
  ghost predicate Room(m: Mem, mi: Mem, k: Key, e: Entry, n: Addr, d: nat, t: SlotRef, f: Bytes) {
    && !e.Null? && CanInterpose(mi, t, n, f) && |f| <= KEY_LEN && f == Path(k)[..|f|] && d == |Above(mi, t)| + 1 <= |f|
    && e.addr in m.pre && e.addr in mi.pre && mi.pre[e.addr] == m.pre[e.addr] && |f| < |m.pre[e.addr]| && e.addr != n
  }

  lemma WrittenNext(m: Mem, mi: Mem, w: Mem, w': Mem, s: SlotRef, e: Entry, k: Key, addrs: seq<Addr>, i: nat, i1: nat,
                    d: nat, d1: nat, t: SlotRef, f: Bytes, g: Page)
    requires !e.Null? && i1 == i + 1 < |addrs| && Written(m, mi, w, s, e, addrs, i, d) && t == LinkSlot(s, addrs, i)
    requires Room(m, mi, k, e, addrs[i], d, t, f) && |f| == d + HDR_MAX && Path(k)[|f|] == m.pre[e.addr][|f|]
    requires forall l :: i < l < |addrs| ==> addrs[l] != addrs[i]
    requires g == ChainPage(t, k, d, HDR_MAX, [NodeEntry(Path(k)[|f|], NODE_4, addrs[i1])] + Nulls(SLOTS - 1))
    requires w' == WithPage(w, addrs[i], g, f) && d1 == d + CHUNK <= KEY_LEN
    ensures Written(m, Interpose(mi, t, addrs[i], f), w', s, e, addrs, i1, d1)
  {
    var p, n := ParentEntry(e, addrs), addrs[i];
    var j, j' := WriteSlot(w, s, p), WriteSlot(w', s, p);
    var ei := e.(partial := m.pre[e.addr][d - 1]);
    WithPageWrite(w, s, p, n, g, f);
    PageTied(j, mi, t, n, f, ei, ei.(partial := m.pre[e.addr][|f|]), g.records[0], g, j');
  }

  /** The last page with its two records, and the new leaf. */
  function WithLeaf(w: Mem, n: Addr, g: Page, f: Bytes, y: Addr, a: Addr, k: Key, v: Value): Mem {
    Mem(w.root, w.pages[n := g], w.leaves[a := Leaf(Slot(n, 1), k, v)],
        w.pre[n := f][a := Path(k)], w.par[n := g.rev][a := Slot(n, 1)][y := Slot(n, 0)])
  }

  lemma WithLeafWrite(w: Mem, s: SlotRef, p: Entry, n: Addr, g: Page, f: Bytes, y: Addr, a: Addr, k: Key, v: Value)
    requires n !in w.pages && (s.Slot? ==> s.page in w.pages)
    ensures WriteSlot(WithLeaf(w, n, g, f, y, a, k, v), s, p) == WithLeaf(WriteSlot(w, s, p), n, g, f, y, a, k, v)
  {}

  lemma LastTied(j: Mem, n: Addr, g0: Page, g: Page, f: Bytes, e: Entry, a: Addr, k: Key, v: Value)
    requires !e.Null? && |f| <= KEY_LEN && e.addr != a && a != n && n !in j.pages
    requires g0.records == [e] + Nulls(SLOTS - 1)
    requires g == g0.(records := [e, LeafEntry(Path(k)[|f|], a)] + Nulls(SLOTS - 2))
    ensures PutLeaf(Tied(WithPage(j, n, g0, f), Slot(n, 0), e), Slot(n, 1), a, k, v) ==
      WithLeaf(j, n, g, f, e.addr, a, k, v)
  {
    var m1 := Tied(WithPage(j, n, g0, f), Slot(n, 0), e);
    var le := LeafEntry(Path(k)[|f|], a);
    assert m1.pages == j.pages[n := g0] by { assert g0.records[0 := e] == g0.records; }
    assert Above(m1, Slot(n, 1)) == f;
    assert WriteSlot(m1, Slot(n, 1), le).pages == j.pages[n := g] by { assert g0.records[1 := le] == g.records; }
    assert m1.par[a := Slot(n, 1)] == WithLeaf(j, n, g, f, e.addr, a, k, v).par;
  }

  lemma WrittenLast(m: Mem, mi: Mem, w: Mem, w': Mem, s: SlotRef, e: Entry, k: Key, v: Value, addrs: seq<Addr>, a: Addr,
                    i: nat, d: nat, rest: nat, t: SlotRef, f: Bytes, g: Page)
    requires !e.Null? && i < |addrs| && Written(m, mi, w, s, e, addrs, i, d) && t == LinkSlot(s, addrs, i)
    requires Room(m, mi, k, e, addrs[i], d, t, f) && |f| == d + rest && a != addrs[i] && a != e.addr
    requires g ==
      ChainPage(t, k, d, rest,
          [e.(partial := m.pre[e.addr][d + rest]), LeafEntry(Path(k)[d + rest], a)] + Nulls(SLOTS - 2))
    requires w' == WithLeaf(w, addrs[i], g, f, e.addr, a, k, v)
    ensures WriteSlot(w', s, ParentEntry(e, addrs)) ==
      PutLeaf(Interpose(mi, t, addrs[i], f), Slot(addrs[i], 1), a, k, v)
  {
    var p, n := ParentEntry(e, addrs), addrs[i];
    var j := WriteSlot(w, s, p);
    var ei, el := e.(partial := m.pre[e.addr][d - 1]), e.(partial := m.pre[e.addr][|f|]);
    var g0 := g.(records := [el] + Nulls(SLOTS - 1));
    WithLeafWrite(w, s, p, n, g, f, e.addr, a, k, v);
    PageTied(j, mi, t, n, f, ei, el, el, g0, WithPage(j, n, g0, f));
    LastTied(j, n, g0, g, f, el, a, k, v);
  }

  /** The loop invariant of WriteNode: `ms` is the chain so far, and `w` is what has been written of it. */
  ghost predicate Building(ms: seq<Mem>, m: Mem, w: Mem, k: Key, d: nat, len: nat, s: SlotRef, e: Entry,
                           addrs: seq<Addr>, a: Addr, i: nat, depth: nat)
    requires !e.Null? && addrs != [] && !Fetch(m, s).Null?
  {
    && Linked(ms, m, s, k, len, addrs, i) && depth == d + CHUNK * i
    && ChainAt(m, ms[i], s, k, len, addrs, a, i) && Written(m, ms[i], w, s, e, addrs, i, depth)
  }

  ghost predicate Linked(ms: seq<Mem>, m: Mem, s: SlotRef, k: Key, len: nat, addrs: seq<Addr>, i: nat) {
    && i < |addrs| && |ms| == i + 1 && ms[0] == m && |addrs| == ChainLen(len)
    && forall l :: 0 <= l < i ==> Link(ms, s, k, len, addrs, l)
  }

  lemma BuildingStart(m: Mem, k: Key, d: nat, len: nat, s: SlotRef, e: Entry, addrs: seq<Addr>, a: Addr)
    requires WF(m) && Diverges(m, s, k, len) && FreshAddrs(m, addrs, a) && e == Fetch(m, s) && d == |Above(m, s)| + 1
    requires |addrs| == ChainLen(len)
    ensures addrs != [] && Building([m], m, m, k, d, len, s, e, addrs, a, 0, d)
  {
    WrittenStart(m, s, e, k, len, addrs, a);
    GrowsRefl(m);
  }

  lemma LinkMore(ms: seq<Mem>, m1: Mem, s: SlotRef, k: Key, len: nat, addrs: seq<Addr>, i: nat)
    requires |ms| == i + 1 && i < |addrs| && (forall l :: 0 <= l < i ==> Link(ms, s, k, len, addrs, l))
    requires var t := LinkSlot(s, addrs, i); m1 == Interpose(ms[i], t, addrs[i], PathTo(ms[i], t, k, LinkLen(len, i)))
    ensures forall l :: 0 <= l < i + 1 ==> Link(ms + [m1], s, k, len, addrs, l)
  {
    forall l | 0 <= l < i + 1 ensures Link(ms + [m1], s, k, len, addrs, l) {
      if l < i { assert Link(ms, s, k, len, addrs, l); }
    }
  }

  lemma StepRoom(m: Mem, mi: Mem, k: Key, len: nat, s: SlotRef, e: Entry, addrs: seq<Addr>, a: Addr, i: nat, d: nat,
                 t: SlotRef, f: Bytes)
    requires WF(m) && Diverges(m, s, k, len) && FreshAddrs(m, addrs, a) && e == Fetch(m, s) && |addrs| == ChainLen(len)
    requires i + 1 < |addrs| && ChainAt(m, mi, s, k, len, addrs, a, i) && t == LinkSlot(s, addrs, i)
    requires d == |Above(m, s)| + 1 + CHUNK * i && d + HDR_MAX <= KEY_LEN && f == Path(k)[..d + HDR_MAX]
    ensures Room(m, mi, k, e, addrs[i], d, t, f) && f == PathTo(mi, t, k, HDR_MAX) && d + CHUNK <= KEY_LEN
    ensures Path(k)[|f|] == m.pre[e.addr][|f|] && forall l :: i < l < |addrs| ==> addrs[l] != addrs[i]
  {
    LinkCan(mi, t, k, len - CHUNK * i, addrs[i], HDR_MAX);
    assert TargetGrows(m, mi, e.addr);
  }

  /** What is known after one more page that is not the last. */
  lemma StageOn(m: Mem, mi: Mem, m1: Mem, w: Mem, w': Mem, k: Key, d: nat, len: nat, s: SlotRef, e: Entry,
                addrs: seq<Addr>, a: Addr, i: nat, i1: nat, depth: nat, depth1: nat, t: SlotRef, f: Bytes, g: Page)
    requires WF(m) && Diverges(m, s, k, len) && FreshAddrs(m, addrs, a) && e == Fetch(m, s) && d == |Above(m, s)| + 1
    requires |addrs| == ChainLen(len) && i1 == i + 1 < |addrs| && ChainAt(m, mi, s, k, len, addrs, a, i)
    requires Written(m, mi, w, s, e, addrs, i, depth) && t == LinkSlot(s, addrs, i)
    requires depth == d + CHUNK * i && depth1 == d + CHUNK * i1 && depth + HDR_MAX <= KEY_LEN
    requires f == Path(k)[..depth + HDR_MAX]
    requires g ==
      ChainPage(t, k, depth, HDR_MAX, [NodeEntry(Path(k)[depth + HDR_MAX], NODE_4, addrs[i1])] + Nulls(SLOTS - 1))
    requires w' == WithPage(w, addrs[i], g, f) && m1 == Interpose(mi, t, addrs[i], f)
    ensures f == PathTo(mi, t, k, HDR_MAX) && Written(m, m1, w', s, e, addrs, i1, depth1)
  {
    StepRoom(m, mi, k, len, s, e, addrs, a, i, depth, t, f);
    WrittenNext(m, mi, w, w', s, e, k, addrs, i, i1, depth, depth1, t, f, g);
  }

  lemma LinkedNext(ms: seq<Mem>, m: Mem, m1: Mem, s: SlotRef, k: Key, len: nat, addrs: seq<Addr>, i: nat)
    requires Linked(ms, m, s, k, len, addrs, i) && i + 1 < |addrs|
    requires var t := LinkSlot(s, addrs, i); m1 == Interpose(ms[i], t, addrs[i], PathTo(ms[i], t, k, LinkLen(len, i)))
    ensures Linked(ms + [m1], m, s, k, len, addrs, i + 1)
  {
    LinkMore(ms, m1, s, k, len, addrs, i);
  }

  lemma BuildingDepth(ms: seq<Mem>, m: Mem, w: Mem, k: Key, d: nat, len: nat, s: SlotRef, e: Entry, addrs: seq<Addr>,
                      a: Addr, i: nat, depth: nat)
    requires Diverges(m, s, k, len) && e == Fetch(m, s) && d == |Above(m, s)| + 1
    requires addrs != [] && Building(ms, m, w, k, d, len, s, e, addrs, a, i, depth)
    ensures i + 1 < |addrs| ==> depth + HDR_MAX <= KEY_LEN && len - CHUNK * i >= CHUNK
    ensures i + 1 == |addrs| ==> 0 <= len - CHUNK * i <= HDR_MAX
    ensures d + len <= KEY_LEN
  {
  }

  /** The last page and the leaf complete the chain. */
  lemma StageEnds(m: Mem, mi: Mem, m1: Mem, w: Mem, w': Mem, k: Key, v: Value, d: nat, len: nat, s: SlotRef, e: Entry,
                  addrs: seq<Addr>, a: Addr, i: nat, depth: nat, rest: nat, t: SlotRef, f: Bytes, g: Page)
    requires WF(m) && Diverges(m, s, k, len) && FreshAddrs(m, addrs, a) && e == Fetch(m, s) && d == |Above(m, s)| + 1
    requires |addrs| == ChainLen(len) && i + 1 == |addrs| && ChainAt(m, mi, s, k, len, addrs, a, i)
    requires Written(m, mi, w, s, e, addrs, i, depth) && t == LinkSlot(s, addrs, i)
    requires depth == d + CHUNK * i && rest == len - CHUNK * i <= HDR_MAX && depth + rest <= KEY_LEN
    requires f == Path(k)[..depth + rest]
    requires g ==
      ChainPage(t, k, depth, rest,
          [e.(partial := m.pre[e.addr][depth + rest]), LeafEntry(Path(k)[depth + rest], a)] + Nulls(SLOTS - 2))
    requires w' == WithLeaf(w, addrs[i], g, f, e.addr, a, k, v) && m1 == Interpose(mi, t, addrs[i], f)
    ensures f == PathTo(mi, t, k, LinkLen(len, i))
    ensures WriteSlot(w', s, ParentEntry(e, addrs)) == PutLeaf(m1, Slot(addrs[i], 1), a, k, v)
  {
    LastRoom(m, mi, k, len, s, e, addrs, a, i, depth, rest, t, f);
    WrittenLast(m, mi, w, w', s, e, k, v, addrs, a, i, depth, rest, t, f, g);
  }

  lemma SplitFrom(ms: seq<Mem>, mi: Mem, m1: Mem, m: Mem, m': Mem, s: SlotRef, k: Key, v: Value, len: nat,
                  addrs: seq<Addr>, a: Addr, i: nat, t: SlotRef)
    requires Linked(ms, m, s, k, len, addrs, i) && i + 1 == |addrs| && ms[i] == mi && t == LinkSlot(s, addrs, i)
    requires m1 == Interpose(mi, t, addrs[i], PathTo(mi, t, k, LinkLen(len, i)))
    requires m' == PutLeaf(m1, Slot(addrs[i], 1), a, k, v)
    ensures SplitTo(m, m', s, k, v, len, addrs, a)
  {
    LinkMore(ms, m1, s, k, len, addrs, i);
    forall l: nat ensures Link(ms + [m1], s, k, len, addrs, l) {}
    assert SplitBy(ms + [m1], m, m', s, k, v, len, addrs, a);
  }

  lemma LastRoom(m: Mem, mi: Mem, k: Key, len: nat, s: SlotRef, e: Entry, addrs: seq<Addr>, a: Addr, i: nat, d: nat,
                 rest: nat, t: SlotRef, f: Bytes)
    requires WF(m) && Diverges(m, s, k, len) && FreshAddrs(m, addrs, a) && e == Fetch(m, s) && |addrs| == ChainLen(len)
    requires i + 1 == |addrs| && ChainAt(m, mi, s, k, len, addrs, a, i) && t == LinkSlot(s, addrs, i)
    requires d == |Above(m, s)| + 1 + CHUNK * i && rest == len - CHUNK * i <= HDR_MAX && d + rest <= KEY_LEN
    requires f == Path(k)[..d + rest]
    ensures Room(m, mi, k, e, addrs[i], d, t, f) && f == PathTo(mi, t, k, LinkLen(len, i)) && a != addrs[i]
    ensures a != e.addr
  {
    LinkCan(mi, t, k, rest, addrs[i], rest);
    assert TargetGrows(m, mi, e.addr);
  }

  lemma BuildingOn(ms: seq<Mem>, m: Mem, w: Mem, w': Mem, k: Key, d: nat, len: nat, s: SlotRef, e: Entry,
                   addrs: seq<Addr>, a: Addr, i: nat, i1: nat, depth: nat, depth1: nat, t: SlotRef, g: Page)
    returns (ms': seq<Mem>)
    requires WF(m) && Diverges(m, s, k, len) && FreshAddrs(m, addrs, a) && e == Fetch(m, s) && d == |Above(m, s)| + 1
    requires addrs != [] && Building(ms, m, w, k, d, len, s, e, addrs, a, i, depth) && i1 == i + 1 < |addrs|
    requires depth1 == depth + CHUNK
    requires t == LinkSlot(s, addrs, i) && depth + HDR_MAX <= KEY_LEN
    requires g ==
      ChainPage(t, k, depth, HDR_MAX, [NodeEntry(Path(k)[depth + HDR_MAX], NODE_4, addrs[i1])] + Nulls(SLOTS - 1))
    requires w' == WithPage(w, addrs[i], g, Path(k)[..depth + HDR_MAX])
    ensures Building(ms', m, w', k, d, len, s, e, addrs, a, i1, depth1)
  {
    var mi, f := ms[i], Path(k)[..depth + HDR_MAX];
    var m1 := Interpose(mi, t, addrs[i], f);
    StageOn(m, mi, m1, w, w', k, d, len, s, e, addrs, a, i, i1, depth, depth1, t, f, g);
    ChainOn(m, mi, m1, s, k, len, addrs, a, i, i1);
    LinkedNext(ms, m, m1, s, k, len, addrs, i);
    ms' := ms + [m1];
    assert ms'[i1] == m1;
  }

  lemma BuildingEnds(ms: seq<Mem>, m: Mem, w: Mem, w': Mem, m': Mem, k: Key, v: Value, d: nat, len: nat, s: SlotRef,
                     e: Entry, addrs: seq<Addr>, a: Addr, i: nat, depth: nat, rest: nat, t: SlotRef, f: Bytes, g: Page)
    requires WF(m) && Diverges(m, s, k, len) && FreshAddrs(m, addrs, a) && e == Fetch(m, s) && d == |Above(m, s)| + 1
    requires addrs != [] && Building(ms, m, w, k, d, len, s, e, addrs, a, i, depth) && i + 1 == |addrs|
    requires t == LinkSlot(s, addrs, i)
    requires depth == d + CHUNK * i && rest == len - CHUNK * i <= HDR_MAX && depth + rest <= KEY_LEN
    requires f == Path(k)[..depth + rest]
    requires g ==
      ChainPage(t, k, depth, rest,
          [e.(partial := m.pre[e.addr][depth + rest]), LeafEntry(Path(k)[depth + rest], a)] + Nulls(SLOTS - 2))
    requires w' == WithLeaf(w, addrs[i], g, f, e.addr, a, k, v) && m' == WriteSlot(w', s, ParentEntry(e, addrs))
    ensures SplitTo(m, m', s, k, v, len, addrs, a)
  {
    var mi := ms[i];
    var m1 := Interpose(mi, t, addrs[i], f);
    StageEnds(m, mi, m1, w, w', k, v, d, len, s, e, addrs, a, i, depth, rest, t, f, g);
    SplitFrom(ms, mi, m1, m, m', s, k, v, len, addrs, a, i, t);
  }

  /** Writes page `i` of the chain, which is not the last. */
  method WriteLink(m: Mem, w: Mem, k: Key, d: nat, len: nat, s: SlotRef, e: Entry, addrs: seq<Addr>, a: Addr, i: nat,
                   depth: nat, rev: SlotRef, ghost ms: seq<Mem>)
    returns (w': Mem, ghost ms': seq<Mem>)
    requires WF(m) && Diverges(m, s, k, len) && FreshAddrs(m, addrs, a) && e == Fetch(m, s) && d == |Above(m, s)| + 1
    requires addrs != [] && Building(ms, m, w, k, d, len, s, e, addrs, a, i, depth) && i + 1 < |addrs|
    requires rev == LinkSlot(s, addrs, i)
    ensures Building(ms', m, w', k, d, len, s, e, addrs, a, i + 1, depth + CHUNK)
  {
    BuildingDepth(ms, m, w, k, d, len, s, e, addrs, a, i, depth);
    var g := ChainPage(rev, k, depth, HDR_MAX,
        [NodeEntry(Path(k)[depth + HDR_MAX], NODE_4, addrs[i + 1])] + Nulls(SLOTS - 1));
    w' := WithPage(w, addrs[i], g, Path(k)[..depth + HDR_MAX]);
    ms' := BuildingOn(ms, m, w, w', k, d, len, s, e, addrs, a, i, i + 1, depth, depth + CHUNK, rev, g);
  }

  /** Writes the last page of the chain and the new leaf, and swaps the parent entry. */
  method WriteLast(m: Mem, w: Mem, k: Key, v: Value, d: nat, len: nat, diff: Byte, s: SlotRef, e: Entry,
                   addrs: seq<Addr>, a: Addr, i: nat, depth: nat, rest: nat, rev: SlotRef, ghost ms: seq<Mem>)
    returns (m': Mem)
    requires WF(m) && Diverges(m, s, k, len) && FreshAddrs(m, addrs, a) && e == Fetch(m, s) && d == |Above(m, s)| + 1
    requires addrs != [] && Building(ms, m, w, k, d, len, s, e, addrs, a, i, depth) && i + 1 == |addrs|
    requires diff == m.pre[e.addr][d + len]
    requires depth == d + CHUNK * i && rest == len - CHUNK * i && rev == LinkSlot(s, addrs, i)
    ensures SplitTo(m, m', s, k, v, len, addrs, a)
  {
    BuildingDepth(ms, m, w, k, d, len, s, e, addrs, a, i, depth);
    var last := ChainPage(rev, k, depth, rest,
        [e.(partial := diff), LeafEntry(Path(k)[depth + rest], a)] + Nulls(SLOTS - 2));
    var w' := WithLeaf(w, addrs[i], last, Path(k)[..depth + rest], e.addr, a, k, v);
    m' := WriteSlot(w', s, ParentEntry(e, addrs));
    BuildingEnds(ms, m, w, w', m', k, v, d, len, s, e, addrs, a, i, depth, rest, rev, Path(k)[..depth + rest], last);
  }

  /** Writes the pages of a split and then swaps the parent entry: the result is the split, page by page.
      `d` is the depth below slot `s`, `diff` the byte at which the old target leaves the key. */
  method WriteNode(m: Mem, k: Key, v: Value, d: nat, len: nat, diff: Byte, s: SlotRef, e: Entry, addrs: seq<Addr>,
                   a: Addr)
    returns (m': Mem)
    requires WF(m) && Diverges(m, s, k, len) && FreshAddrs(m, addrs, a) && |addrs| == ChainLen(len)
    requires e == Fetch(m, s) && d == |Above(m, s)| + 1 && diff == m.pre[e.addr][d + len]
    ensures SplitTo(m, m', s, k, v, len, addrs, a)
  {
    var w, rev, i: nat, depth: nat, rest := m, s, 0, d, len;
    ghost var ms := [m];
    BuildingStart(m, k, d, len, s, e, addrs, a);
    while i < |addrs| - 1
      invariant Building(ms, m, w, k, d, len, s, e, addrs, a, i, depth)
      invariant rest == len - CHUNK * i && depth == d + CHUNK * i && rev == LinkSlot(s, addrs, i)
    {
      w, ms := WriteLink(m, w, k, d, len, s, e, addrs, a, i, depth, rev, ms);
      rev, rest, depth, i := Slot(addrs[i], 0), rest - CHUNK, depth + CHUNK, i + 1;
    }
    BuildingDepth(ms, m, w, k, d, len, s, e, addrs, a, i, depth);
    m' := WriteLast(m, w, k, v, d, len, diff, s, e, addrs, a, i, depth, rest, rev, ms);
  }
}
