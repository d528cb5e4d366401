/** The changes that remote operations make, and why each keeps the memory well formed and only grows it. */
module MemoryOps {
  import opened Keys
  import opened RemoteMemory

  function WriteSlot(m: Mem, s: SlotRef, e: Entry): Mem {
    match s
    case Root => m.(root := e)
    case Slot(x, i) =>
      if x in m.pages && i < |m.pages[x].records|
      then m.(pages := m.pages[x := m.pages[x].(records := m.pages[x].records[i := e])])
      else m
  }

  ghost predicate SlotGrows(m: Mem, m': Mem, s: SlotRef) {
    !Fetch(m, s).Null? ==> !Fetch(m', s).Null? && Fetch(m', s).partial == Fetch(m, s).partial
  }

  ghost predicate TargetGrows(m: Mem, m': Mem, y: Addr) {
    y in m.pre ==>
      && y in m'.pre && m'.pre[y] == m.pre[y]
      && (y in m.pages ==> y in m'.pages && HeaderGrows(m.pages[y].hdr, m'.pages[y].hdr))
      && (y in m.leaves ==> y in m'.leaves && m'.leaves[y].key == m.leaves[y].key)
      && (y in m.par && y in m'.par ==>
            && |Above(m, m.par[y])| <= |Above(m', m'.par[y])|
            && EntryGrows(Fetch(m, m.par[y]), Fetch(m', m'.par[y])))
  }

  ghost predicate HeaderGrows(h: Header, h': Header) {
    h.depth <= h'.depth && h.ntype <= h'.ntype
  }

  ghost predicate EntryGrows(e: Entry, e': Entry) {
    e.NodeEntry? ==> e'.NodeEntry? && e.ntype <= e'.ntype
  }

  /** A page that appeared between `m` and `m'` above an old target leads to it by record 0. */
  ghost predicate NewPageGrows(m: Mem, m': Mem, n: Addr, y: Addr) {
    n in m'.pages && n !in m.pages && y in m.pre ==> ByFirst(m', n, m.pre[y])
  }

  ghost predicate ByFirst(m: Mem, n: Addr, p: Bytes) {
    n in m.pre && |m.pre[n]| < |p| && Ext(m.pre[n], p) ==>
      !Fetch(m, Slot(n, 0)).Null? && Fetch(m, Slot(n, 0)).partial == p[|m.pre[n]|]
  }

  ghost predicate Grows(m: Mem, m': Mem) {
    && (forall s :: SlotGrows(m, m', s))
    && (forall y :: TargetGrows(m, m', y))
    && (forall n, y :: NewPageGrows(m, m', n, y))
  }

  lemma GrowsRefl(m: Mem)
    ensures Grows(m, m)
  {}

  lemma GrowsTrans(m: Mem, m1: Mem, m2: Mem)
    requires WF(m) && WF(m1) && WF(m2) && Grows(m, m1) && Grows(m1, m2)
    ensures Grows(m, m2)
  {
    forall s ensures SlotGrows(m, m2, s) { assert SlotGrows(m, m1, s) && SlotGrows(m1, m2, s); }
    forall y ensures TargetGrows(m, m2, y) { assert TargetGrows(m, m1, y) && TargetGrows(m1, m2, y); }
    forall n, y ensures NewPageGrows(m, m2, n, y) {
      assert NewPageGrows(m, m1, n, y) && NewPageGrows(m1, m2, n, y);
      assert TargetGrows(m, m1, y) && TargetGrows(m1, m2, n) && SlotGrows(m1, m2, Slot(n, 0));
    }
  }

  // publishing a leaf

  function PutLeaf(m: Mem, s: SlotRef, a: Addr, k: Key, v: Value): Mem {
    var b := if |Above(m, s)| <= KEY_LEN then Path(k)[|Above(m, s)|] else 0;
    var w := WriteSlot(m, s, LeafEntry(b, a));
    w.(leaves := m.leaves[a := Leaf(s, k, v)], pre := m.pre[a := Path(k)], par := m.par[a := s])
  }

  predicate SlotIn(m: Mem, s: SlotRef) {
    s.Root? || (s.page in m.pages && s.idx < SLOTS)
  }

  /** Slot `s` is where the insertion of `b` must go: all earlier slots hold other bytes. */
  ghost predicate FirstFree(m: Mem, s: SlotRef, b: Byte) {
    && SlotIn(m, s) && Fetch(m, s).Null?
    && (s.Slot? ==> forall j :: 0 <= j < s.idx ==> HoldsOther(m, s.page, j, b))
  }

  ghost predicate HoldsOther(m: Mem, x: Addr, j: nat, b: Byte) {
    !Fetch(m, Slot(x, j)).Null? && Fetch(m, Slot(x, j)).partial != b
  }

  lemma FetchWrite(m: Mem, s: SlotRef, e: Entry, t: SlotRef)
    requires WF(m) && SlotIn(m, s)
    ensures Fetch(WriteSlot(m, s, e), t) == if t == s then e else Fetch(m, t)
  {
    if s.Slot? { assert PageAt(m, s.page); }
  }

  lemma PutLeafWF(m: Mem, s: SlotRef, a: Addr, k: Key, v: Value)
    requires WF(m) && a !in m.pre
    requires |Above(m, s)| <= KEY_LEN && Ext(Above(m, s), Path(k))
    requires FirstFree(m, s, Path(k)[|Above(m, s)|])
    ensures WF(PutLeaf(m, s, a, k, v))
  {
    var m' := PutLeaf(m, s, a, k, v);
    var e := LeafEntry(Path(k)[|Above(m, s)|], a);
    forall x ensures PageAt(m', x) {
      assert PageAt(m, x);
      if s.Slot? && x == s.page { RecordsPut(m, s, Path(k)[|Above(m, s)|], a); }
    }
    forall b ensures LeafAt(m', b) { assert LeafAt(m, b); }
    forall t ensures EntryAt(m', t) { PutEntryAt(m, s, a, k, v, t); }
    forall y ensures OwnerAt(m', y) {
      assert OwnerAt(m, y);
      if y in m'.par {
        FetchWrite(m, s, e, m'.par[y]);
        assert Fetch(m', m'.par[y]) == Fetch(WriteSlot(m, s, e), m'.par[y]);
      }
    }
  }

  lemma PutEntryAt(m: Mem, s: SlotRef, a: Addr, k: Key, v: Value, t: SlotRef)
    requires WF(m) && a !in m.pre
    requires |Above(m, s)| <= KEY_LEN && Ext(Above(m, s), Path(k))
    requires FirstFree(m, s, Path(k)[|Above(m, s)|])
    ensures EntryAt(PutLeaf(m, s, a, k, v), t)
  {
    var m', e := PutLeaf(m, s, a, k, v), LeafEntry(Path(k)[|Above(m, s)|], a);
    FetchWrite(m, s, e, t);
    assert Fetch(m', t) == Fetch(WriteSlot(m, s, e), t);
    assert EntryAt(m, t);
  }

  lemma PutLeafGrows(m: Mem, s: SlotRef, a: Addr, k: Key, v: Value)
    requires WF(m) && a !in m.pre
    requires |Above(m, s)| <= KEY_LEN && SlotIn(m, s) && Fetch(m, s).Null?
    ensures Grows(m, PutLeaf(m, s, a, k, v))
  {
    var m' := PutLeaf(m, s, a, k, v);
    var e := LeafEntry(Path(k)[|Above(m, s)|], a);
    forall t ensures SlotGrows(m, m', t) {
      FetchWrite(m, s, e, t); assert Fetch(m', t) == Fetch(WriteSlot(m, s, e), t);
    }
    forall y ensures TargetGrows(m, m', y) {
      assert OwnerAt(m, y);
      if y in m.par {
        FetchWrite(m, s, e, m.par[y]);
        assert Fetch(m', m.par[y]) == Fetch(WriteSlot(m, s, e), m.par[y]);
      }
    }
    forall n, y ensures NewPageGrows(m, m', n, y) {}
  }

  lemma RecordsPut(m: Mem, s: SlotRef, b: Byte, a: Addr)
    requires WF(m) && s.Slot? && s.page in m.pages && FirstFree(m, s, b)
    ensures |m.pages[s.page].records| == SLOTS
    ensures RecordsOK(m.pages[s.page].records[s.idx := LeafEntry(b, a)])
  {
    var r := m.pages[s.page].records;
    assert PageAt(m, s.page);
    var r' := r[s.idx := LeafEntry(b, a)];
    forall i, j | 0 <= i < j < SLOTS && !r'[j].Null? ensures !r'[i].Null? && r'[i].partial != r'[j].partial {
      assert i < s.idx ==> HoldsOther(m, s.page, i, b);
      assert j < s.idx ==> HoldsOther(m, s.page, j, b);
    }
  }

  // interposing a page on one edge

  /** The page that a split puts between slot `s` and its old target. */
  function NewPage(s: SlotRef, d: nat, f: Bytes, e: Entry): Page
    requires d <= |f|
  {
    Page(s, Header(d, NODE_4, f[d..]), [e] + seq(SLOTS - 1, _ => Null))
  }

  predicate CanInterpose(m: Mem, s: SlotRef, n: Addr, f: Bytes) {
    && SlotIn(m, s) && !Fetch(m, s).Null? && Fetch(m, s).addr in m.pre
    && n !in m.pre
    && |Above(m, s)| < |f| < |m.pre[Fetch(m, s).addr]|
    && |f| <= |Above(m, s)| + 1 + HDR_MAX
    && Ext(f, m.pre[Fetch(m, s).addr])
  }

  function Interpose(m: Mem, s: SlotRef, n: Addr, f: Bytes): Mem {
    if !CanInterpose(m, s, n, f) then m else
    var e := Fetch(m, s);
    var w := WriteSlot(m, s, NodeEntry(e.partial, NODE_4, n));
    w.(pages := w.pages[n := NewPage(s, |Above(m, s)| + 1, f, e.(partial := m.pre[e.addr][|f|]))],
       pre := m.pre[n := f],
       par := m.par[n := s][e.addr := Slot(n, 0)])
  }

  lemma InterposeFetch(m: Mem, s: SlotRef, n: Addr, f: Bytes, t: SlotRef)
    requires WF(m) && CanInterpose(m, s, n, f)
    ensures Fetch(Interpose(m, s, n, f), t) ==
            if t == s then NodeEntry(Fetch(m, s).partial, NODE_4, n)
            else if t == Slot(n, 0) then Fetch(m, s).(partial := m.pre[Fetch(m, s).addr][|f|])
            else Fetch(m, t)
    ensures t != s && t.Slot? && t.page == n && t.idx != 0 ==> Fetch(Interpose(m, s, n, f), t).Null?
    ensures t.Slot? && t.page == n ==> Fetch(m, t).Null?
  {
    FetchWrite(m, s, NodeEntry(Fetch(m, s).partial, NODE_4, n), t);
    assert n !in m.pages;
  }

  lemma InterposeWF(m: Mem, s: SlotRef, n: Addr, f: Bytes)
    requires WF(m) && CanInterpose(m, s, n, f)
    ensures WF(Interpose(m, s, n, f))
  {
    var m' := Interpose(m, s, n, f);
    assert EntryAt(m, s);
    forall x ensures PageAt(m', x) { InterposePageAt(m, s, n, f, x); }
    forall b ensures LeafAt(m', b) { assert LeafAt(m, b); }
    forall t ensures EntryAt(m', t) { InterposeEntryAt(m, s, n, f, t); }
    forall y ensures OwnerAt(m', y) {
      assert OwnerAt(m, y);
      if y in m'.par { InterposeFetch(m, s, n, f, m'.par[y]); }
    }
  }

  lemma InterposeEntryAt(m: Mem, s: SlotRef, n: Addr, f: Bytes, t: SlotRef)
    requires WF(m) && CanInterpose(m, s, n, f)
    ensures EntryAt(Interpose(m, s, n, f), t)
  {
    InterposeFetch(m, s, n, f, t);
    assert EntryAt(m, s) && EntryAt(m, t);
    if t == Slot(n, 0) { InterposeBelow(m, s, n, f); }
  }

  lemma InterposePageAt(m: Mem, s: SlotRef, n: Addr, f: Bytes, x: Addr)
    requires WF(m) && CanInterpose(m, s, n, f)
    ensures PageAt(Interpose(m, s, n, f), x)
  {
    assert EntryAt(m, s) && PageAt(m, x);
    if x == n {
      InterposePage(m, s, n, f);
    } else if s.Slot? && x == s.page {
      RecordsRetarget(m.pages[x].records, s.idx, NodeEntry(Fetch(m, s).partial, NODE_4, n));
    }
  }

  lemma InterposeBelow(m: Mem, s: SlotRef, n: Addr, f: Bytes)
    requires WF(m) && CanInterpose(m, s, n, f)
    ensures EntryAt(Interpose(m, s, n, f), Slot(n, 0))
  {
    InterposeFetch(m, s, n, f, Slot(n, 0));
    assert EntryAt(m, s);
  }

  lemma InterposePage(m: Mem, s: SlotRef, n: Addr, f: Bytes)
    requires WF(m) && CanInterpose(m, s, n, f)
    ensures PageOK(Interpose(m, s, n, f).pages[n], f)
  {
    assert EntryAt(m, s);
    assert PageAt(m, Fetch(m, s).addr) && LeafAt(m, Fetch(m, s).addr);
  }

  lemma RecordsRetarget(r: seq<Entry>, i: nat, e: Entry)
    requires RecordsOK(r) && i < SLOTS && !r[i].Null? && !e.Null? && e.partial == r[i].partial
    ensures RecordsOK(r[i := e])
  {}

  lemma InterposeGrows(m: Mem, s: SlotRef, n: Addr, f: Bytes)
    requires WF(m) && CanInterpose(m, s, n, f)
    ensures Grows(m, Interpose(m, s, n, f))
  {
    var m' := Interpose(m, s, n, f);
    var e := Fetch(m, s);
    assert EntryAt(m, s);
    forall t ensures SlotGrows(m, m', t) { InterposeFetch(m, s, n, f, t); }
    forall y ensures TargetGrows(m, m', y) {
      assert OwnerAt(m, y);
      if y in m.par {
        InterposeFetch(m, s, n, f, m'.par[y]);
        assert EntryAt(m, m.par[y]);
      }
    }
    forall x, y ensures NewPageGrows(m, m', x, y) {
      InterposeFetch(m, s, n, f, Slot(n, 0));
      if x == n && y in m.pre && |f| < |m.pre[y]| && Ext(f, m.pre[y]) { Cover(m, s, y); }
    }
  }

  // steps that keep the shape of the tree

  ghost predicate SlotShape(m: Mem, m': Mem, s: SlotRef) {
    var e, e' := Fetch(m, s), Fetch(m', s);
    if e.NodeEntry? then e'.NodeEntry? && e'.(ntype := e.ntype) == e && e.ntype <= e'.ntype else e' == e
  }

  ghost predicate TargetShape(m: Mem, m': Mem, y: Addr) {
    && (y in m.pages <==> y in m'.pages)
    && (y in m.leaves <==> y in m'.leaves)
    && (y in m.leaves ==> m'.leaves[y].key == m.leaves[y].key)
    && (y in m.pages && y in m.pre && y in m.par ==>
          && |m'.pages[y].records| == |m.pages[y].records|
          && HeaderOK(m'.pages[y].hdr, m.pre[y])
          && HeaderGrows(m.pages[y].hdr, m'.pages[y].hdr)
          && m'.pages[y].hdr.depth <= |Above(m, m.par[y])| + 1)
  }

  ghost predicate SameShape(m: Mem, m': Mem) {
    && m'.pre == m.pre && m'.par == m.par
    && (forall s :: SlotShape(m, m', s))
    && (forall y :: TargetShape(m, m', y))
  }

  lemma SameShapeKeeps(m: Mem, m': Mem)
    requires WF(m) && SameShape(m, m')
    ensures WF(m') && Grows(m, m')
  {
    forall x ensures PageAt(m', x) {
      assert PageAt(m, x) && TargetShape(m, m', x);
      if x in m'.pages { SameShapeRecords(m, m', x); }
    }
    forall a ensures LeafAt(m', a) { assert LeafAt(m, a) && TargetShape(m, m', a); }
    forall s ensures EntryAt(m', s) {
      assert EntryAt(m, s) && SlotShape(m, m', s);
      if !Fetch(m, s).Null? { assert TargetShape(m, m', Fetch(m, s).addr); }
    }
    forall y ensures OwnerAt(m', y) { assert OwnerAt(m, y); if y in m.par { assert SlotShape(m, m', m.par[y]); } }
    SameShapeDom(m, m');
    SameShapeGrows(m, m');
  }

  lemma SameShapeDom(m: Mem, m': Mem)
    requires WF(m) && SameShape(m, m')
    ensures m'.pages.Keys == m.pages.Keys && m'.leaves.Keys == m.leaves.Keys
  {
    forall y ensures (y in m.pages.Keys <==> y in m'.pages.Keys) && (y in m.leaves.Keys <==> y in m'.leaves.Keys) {
      assert TargetShape(m, m', y);
    }
  }

  lemma SameShapeRecords(m: Mem, m': Mem, x: Addr)
    requires WF(m) && SameShape(m, m') && x in m'.pages && x in m.pages
    ensures RecordsOK(m'.pages[x].records)
  {
    assert PageAt(m, x) && TargetShape(m, m', x);
    forall i | 0 <= i < SLOTS ensures SlotShape(m, m', Slot(x, i)) {}
    var r, r' := m.pages[x].records, m'.pages[x].records;
    forall i | 0 <= i < SLOTS ensures r'[i].Null? == r[i].Null? && (!r[i].Null? ==> r'[i].partial == r[i].partial) {
      assert SlotShape(m, m', Slot(x, i));
    }
  }

  lemma SameShapeGrows(m: Mem, m': Mem)
    requires WF(m) && SameShape(m, m')
    ensures Grows(m, m')
  {
    forall s ensures SlotGrows(m, m', s) { assert SlotShape(m, m', s); }
    forall y ensures TargetGrows(m, m', y) {
      assert TargetShape(m, m', y) && PageAt(m, y);
      if y in m.par { assert SlotShape(m, m', m.par[y]); }
    }
    forall n, y ensures NewPageGrows(m, m', n, y) { assert TargetShape(m, m', n); }
  }

  // header trim

  function SplitHeader(h: Header, i: nat): Header
    requires i < |h.partial|
  {
    Header(h.depth + i + 1, DELETED, h.partial[i + 1..])
  }

  /** Masked CAS on a header: everything but the node type is compared and swapped. */
  function TrimHeader(m: Mem, x: Addr, was: Header, now: Header): Mem {
    if x in m.pages && m.pages[x].hdr.depth == was.depth && m.pages[x].hdr.partial == was.partial
    then m.(pages := m.pages[x := m.pages[x].(hdr := now.(ntype := m.pages[x].hdr.ntype))])
    else m
  }

  /** Masked CAS on a header: only the node type is compared and swapped. */
  function RaiseHeader(m: Mem, x: Addr, was: NodeType, now: NodeType): Mem {
    if x in m.pages && m.pages[x].hdr.ntype == was
    then m.(pages := m.pages[x := m.pages[x].(hdr := m.pages[x].hdr.(ntype := now))])
    else m
  }

  function RaiseEntry(m: Mem, s: SlotRef, e: Entry, now: NodeType): Mem
    requires e.NodeEntry?
  {
    if Fetch(m, s) == e then WriteSlot(m, s, e.(ntype := now)) else m
  }

  /** CAS on the first word of a page or leaf. */
  function CasRev(m: Mem, y: Addr, was: SlotRef, now: SlotRef): Mem {
    if y in m.pages && m.pages[y].rev == was then m.(pages := m.pages[y := m.pages[y].(rev := now)])
    else if y in m.leaves && m.leaves[y].rev == was then m.(leaves := m.leaves[y := m.leaves[y].(rev := now)])
    else m
  }

  /** The in-place update writes the whole leaf back, with the reverse pointer read before. */
  function WriteLeaf(m: Mem, a: Addr, rev: SlotRef, v: Value): Mem {
    if a in m.leaves then m.(leaves := m.leaves[a := Leaf(rev, m.leaves[a].key, v)]) else m
  }

  lemma TrimHeaderShape(m: Mem, x: Addr, was: Header, now: Header)
    requires WF(m)
    requires x in m.pages ==> HeaderOK(now.(ntype := NODE_4), m.pre[x]) && was.depth <= now.depth
                              && now.depth <= |Above(m, m.par[x])| + 1
    ensures SameShape(m, TrimHeader(m, x, was, now))
  {
    var m' := TrimHeader(m, x, was, now);
    forall s ensures SlotShape(m, m', s) {}
    forall y ensures TargetShape(m, m', y) { Shape(m, y); }
  }

  /** The facts about one target that the shape-keeping steps need. */
  lemma Shape(m: Mem, y: Addr)
    requires WF(m)
    ensures TargetShape(m, m, y)
  {
    assert PageAt(m, y) && OwnerAt(m, y);
    if y in m.pages { assert EntryAt(m, m.par[y]); }
  }

  lemma RaiseHeaderShape(m: Mem, x: Addr, was: NodeType, now: NodeType)
    requires WF(m) && was <= now && now != DELETED
    ensures SameShape(m, RaiseHeader(m, x, was, now))
  {
    var m' := RaiseHeader(m, x, was, now);
    forall s ensures SlotShape(m, m', s) {}
    forall y ensures TargetShape(m, m', y) { Shape(m, y); }
  }

  lemma RaiseEntryShape(m: Mem, s: SlotRef, e: Entry, now: NodeType)
    requires WF(m) && e.NodeEntry? && e.ntype <= now
    ensures SameShape(m, RaiseEntry(m, s, e, now))
  {
    var m' := RaiseEntry(m, s, e, now);
    forall t ensures SlotShape(m, m', t) {}
    forall y ensures TargetShape(m, m', y) { Shape(m, y); }
  }

  lemma CasRevShape(m: Mem, y: Addr, was: SlotRef, now: SlotRef)
    requires WF(m)
    ensures SameShape(m, CasRev(m, y, was, now))
  {
    var m' := CasRev(m, y, was, now);
    forall t ensures SlotShape(m, m', t) {}
    forall z ensures TargetShape(m, m', z) { Shape(m, z); }
  }

  lemma WriteLeafShape(m: Mem, a: Addr, rev: SlotRef, v: Value)
    requires WF(m)
    ensures SameShape(m, WriteLeaf(m, a, rev, v))
  {
    var m' := WriteLeaf(m, a, rev, v);
    forall t ensures SlotShape(m, m', t) {}
    forall z ensures TargetShape(m, m', z) { Shape(m, z); }
  }
}
