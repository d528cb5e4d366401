/** The remote memory: pages and leaves, and what makes it a well-formed tree. */
module RemoteMemory {
  import opened Keys

  type Addr = nat
  type Value = nat
  type NodeType = t: int | 0 <= t < 8

  const DELETED: NodeType := 0
  const NODE_4: NodeType := 1
  const NODE_256: NodeType := 7
  const SLOTS: nat := 256
  const HDR_MAX: nat := 6

  datatype SlotRef = Root | Slot(page: Addr, idx: nat)

  datatype Entry =
    | Null
    | LeafEntry(partial: Byte, addr: Addr)
    | NodeEntry(partial: Byte, ntype: NodeType, addr: Addr)

  datatype Header = Header(depth: nat, ntype: NodeType, partial: Bytes)
  datatype Page = Page(rev: SlotRef, hdr: Header, records: seq<Entry>)
  datatype Leaf = Leaf(rev: SlotRef, key: Key, value: Value)

  datatype Mem = Mem(root: Entry, pages: map<Addr, Page>, leaves: map<Addr, Leaf>,
                     pre: map<Addr, Bytes>, par: map<Addr, SlotRef>)

  function Fetch(m: Mem, s: SlotRef): Entry {
    match s
    case Root => m.root
    case Slot(x, i) =>
      if x in m.pages && i < |m.pages[x].records| then m.pages[x].records[i] else Null
  }

  function Above(m: Mem, s: SlotRef): Bytes {
    if s.Slot? && s.page in m.pre then m.pre[s.page] else []
  }

  ghost predicate Under(a: Bytes, b: Byte, p: Bytes) {
    |a| < |p| && Ext(a, p) && p[|a|] == b
  }

  ghost predicate HeaderOK(h: Header, f: Bytes) {
    && 1 <= h.depth
    && h.ntype != DELETED
    && |h.partial| <= HDR_MAX
    && h.depth + |h.partial| == |f|
    && (forall i :: 0 <= i < |h.partial| ==> h.partial[i] == f[h.depth + i])
  }

  ghost predicate RecordsOK(r: seq<Entry>) {
    && |r| == SLOTS
    && !r[0].Null?
    && (forall i, j :: 0 <= i < j < SLOTS && !r[j].Null? ==> !r[i].Null? && r[i].partial != r[j].partial)
  }

  ghost predicate PageOK(p: Page, f: Bytes) {
    && 1 <= |f| <= KEY_LEN && f[0] == 0
    && HeaderOK(p.hdr, f)
    && RecordsOK(p.records)
  }

  ghost predicate EntryOK(m: Mem, s: SlotRef, e: Entry)
    requires !e.Null?
  {
    && e.addr in m.pre && e.addr in m.par
    && m.par[e.addr] == s
    && Under(Above(m, s), e.partial, m.pre[e.addr])
    && (if e.LeafEntry? then e.addr in m.leaves
        else e.addr in m.pages && e.ntype != DELETED && m.pages[e.addr].hdr.depth <= |Above(m, s)| + 1)
  }

  ghost predicate PageAt(m: Mem, x: Addr) {
    x in m.pages ==> x in m.pre && PageOK(m.pages[x], m.pre[x])
  }

  ghost predicate LeafAt(m: Mem, a: Addr) {
    a in m.leaves ==> a in m.pre && m.pre[a] == Path(m.leaves[a].key)
  }

  ghost predicate EntryAt(m: Mem, s: SlotRef) {
    !Fetch(m, s).Null? ==> EntryOK(m, s, Fetch(m, s))
  }

  ghost predicate OwnerAt(m: Mem, y: Addr) {
    y in m.par ==> !Fetch(m, m.par[y]).Null? && Fetch(m, m.par[y]).addr == y
  }

  ghost predicate WF(m: Mem) {
    && m.pages.Keys !! m.leaves.Keys
    && m.pre.Keys == m.pages.Keys + m.leaves.Keys
    && m.par.Keys == m.pre.Keys
    && (forall x :: PageAt(m, x))
    && (forall a :: LeafAt(m, a))
    && (forall s :: EntryAt(m, s))
    && (forall y :: OwnerAt(m, y))
  }

  /** A filled slot covers everything below its path: whatever lies under the slot's byte
      extends the full prefix of the slot's target. */
  lemma {:induction false} Cover(m: Mem, s: SlotRef, y: Addr)
    requires WF(m)
    requires !Fetch(m, s).Null?
    requires y in m.pre && Under(Above(m, s), Fetch(m, s).partial, m.pre[y])
    ensures Fetch(m, s).addr in m.pre && Ext(m.pre[Fetch(m, s).addr], m.pre[y])
    decreases |m.pre[y]|, 0
  {
    var t := m.par[y];
    assert EntryAt(m, s) && OwnerAt(m, y) && EntryAt(m, t);
    if t == s {
    } else if |Above(m, t)| > |Above(m, s)| {
      Cover(m, s, t.page);
    } else if |Above(m, t)| < |Above(m, s)| {
      Cover(m, t, s.page);
    } else {
      SameAbove(m, s, t, m.pre[y]);
    }
  }

  /** Two filled slots at the same depth on one path are the same slot. */
  lemma {:induction false} SameAbove(m: Mem, s: SlotRef, t: SlotRef, p: Bytes)
    requires WF(m)
    requires !Fetch(m, s).Null? && !Fetch(m, t).Null?
    requires Under(Above(m, s), Fetch(m, s).partial, p)
    requires Under(Above(m, t), Fetch(m, t).partial, p)
    requires |Above(m, s)| == |Above(m, t)|
    ensures s == t
    decreases |Above(m, s)|, 2
  {
    if s.Slot? { assert PageAt(m, s.page); }
    if t.Slot? { assert PageAt(m, t.page); }
    if s.Slot? && t.Slot? {
      assert m.pre[s.page] == m.pre[t.page];
      Unique(m, s.page, t.page);
    }
  }

  /** No two pages or leaves share a full prefix. */
  lemma {:induction false} Unique(m: Mem, x: Addr, y: Addr)
    requires WF(m)
    requires x in m.pre && y in m.pre && m.pre[x] == m.pre[y]
    ensures x == y
    decreases |m.pre[x]|, 1
  {
    var s, t := m.par[x], m.par[y];
    assert OwnerAt(m, x) && OwnerAt(m, y) && EntryAt(m, s) && EntryAt(m, t);
    if |Above(m, s)| == |Above(m, t)| {
      SameAbove(m, s, t, m.pre[y]);
    } else if |Above(m, s)| < |Above(m, t)| {
      Cover(m, s, t.page);
    } else {
      Cover(m, t, s.page);
    }
  }

  /** Whatever lies below a page hangs off one of the page's slots. */
  lemma {:induction false} SlotToward(m: Mem, x: Addr, y: Addr) returns (j: nat)
    requires WF(m)
    requires x in m.pages && y in m.pre && |m.pre[x]| < |m.pre[y]| && Ext(m.pre[x], m.pre[y])
    ensures j < SLOTS && !Fetch(m, Slot(x, j)).Null?
    ensures Under(m.pre[x], Fetch(m, Slot(x, j)).partial, m.pre[y])
    decreases |m.pre[y]|
  {
    var t := m.par[y];
    assert OwnerAt(m, y) && EntryAt(m, t) && PageAt(m, x);
    if |Above(m, t)| < |m.pre[x]| {
      Cover(m, t, x);
    } else if |Above(m, t)| == |m.pre[x]| {
      assert m.pre[t.page] == m.pre[x];
      Unique(m, t.page, x);
      j := t.idx;
    } else {
      j := SlotToward(m, x, t.page);
    }
  }
}
