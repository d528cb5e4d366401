/** What a reader may rely on about an entry it has read from a slot, however long ago. */
module StaleEntries {
  import opened Keys
  import opened RemoteMemory
  import opened MemoryOps
  import opened Lookup

  /** Target `y` hangs below slot `s`, and every page between them leads to it by record 0. */
  ghost predicate LeadsTo(m: Mem, s: SlotRef, y: Addr) {
    && !Fetch(m, s).Null? && y in m.pre
    && Under(Above(m, s), Fetch(m, s).partial, m.pre[y])
    && forall z :: FirstBelow(m, s, z, y)
  }

  ghost predicate FirstBelow(m: Mem, s: SlotRef, z: Addr, y: Addr)
    requires y in m.pre
  {
    z in m.pages && z in m.pre && |Above(m, s)| < |m.pre[z]| ==> ByFirst(m, z, m.pre[y])
  }

  /** Entry `e` is one that slot `s` holds or once held. */
  ghost predicate Held(m: Mem, s: SlotRef, e: Entry) {
    && !e.Null? && LeadsTo(m, s, e.addr)
    && e.partial == Fetch(m, s).partial
    && (e.LeafEntry? ==> e.addr in m.leaves)
    && (e.NodeEntry? ==> e.addr in m.pages)
  }

  lemma HeldNow(m: Mem, s: SlotRef)
    requires WF(m) && !Fetch(m, s).Null?
    ensures Held(m, s, Fetch(m, s))
  {
    var y := Fetch(m, s).addr;
    assert EntryAt(m, s);
    forall z ensures FirstBelow(m, s, z, y) {
      if z in m.pages && |Above(m, s)| < |m.pre[z]| < |m.pre[y]| && Ext(m.pre[z], m.pre[y]) { Cover(m, s, z); }
    }
  }

  lemma LeadsToStable(m: Mem, m': Mem, s: SlotRef, y: Addr)
    requires WF(m) && WF(m') && Grows(m, m') && LeadsTo(m, s, y)
    ensures LeadsTo(m', s, y)
  {
    assert SlotGrows(m, m', s) && TargetGrows(m, m', y) && EntryAt(m, s);
    FilledIn(m, s);
    AboveStable(m, m', s);
    forall z ensures FirstBelow(m', s, z, y) {
      assert FirstBelow(m, s, z, y) && NewPageGrows(m, m', z, y) && TargetGrows(m, m', z)
        && SlotGrows(m, m', Slot(z, 0));
    }
  }

  lemma FilledIn(m: Mem, s: SlotRef)
    requires WF(m) && !Fetch(m, s).Null?
    ensures SlotIn(m, s)
  {
    if s.Slot? { assert PageAt(m, s.page); }
  }

  lemma AboveStable(m: Mem, m': Mem, s: SlotRef)
    requires WF(m) && Grows(m, m') && SlotIn(m, s)
    ensures Above(m', s) == Above(m, s) && (WF(m') ==> SlotIn(m', s))
  {
    if s.Slot? { assert TargetGrows(m, m', s.page); }
  }

  lemma HeldStable(m: Mem, m': Mem, s: SlotRef, e: Entry)
    requires WF(m) && WF(m') && Grows(m, m') && Held(m, s, e)
    ensures Held(m', s, e)
  {
    LeadsToStable(m, m', s, e.addr);
    assert TargetGrows(m, m', e.addr) && SlotGrows(m, m', s);
  }

  /** One step of the chase in cas_node_type: the slot holds the target or a page that leads on to it. */
  lemma ChaseStep(m: Mem, s: SlotRef, x: Addr)
    requires WF(m) && LeadsTo(m, s, x) && x in m.pages
    ensures Fetch(m, s).NodeEntry? && Fetch(m, s).addr in m.pages
    ensures Fetch(m, s).addr != x ==> LeadsTo(m, Slot(Fetch(m, s).addr, 0), x)
    ensures Fetch(m, s).addr != x ==> |Above(m, s)| < |Above(m, Slot(Fetch(m, s).addr, 0))| < |m.pre[x]|
  {
    var z := Fetch(m, s).addr;
    assert EntryAt(m, s) && PageAt(m, x) && LeafAt(m, z) && PageAt(m, z);
    Cover(m, s, x);
    if z != x {
      if |m.pre[z]| == |m.pre[x]| { assert m.pre[z] == m.pre[x]; Unique(m, z, x); }
      assert FirstBelow(m, s, z, x);
      forall w ensures FirstBelow(m, Slot(z, 0), w, x) { assert FirstBelow(m, s, w, x); }
    }
  }

  /** Nothing that a run does can put a slot of an old path behind a capacity. */
  lemma ClearStable(m: Mem, m': Mem, p: Bytes, d: nat, lo: nat, c: set<SlotRef>, y: Addr)
    requires WF(m) && WF(m') && Grows(m, m') && Clear(m, p, d, lo, c)
    requires y in m.pre && d <= |m.pre[y]| && d <= |p| && forall i :: 0 <= i < d ==> m.pre[y][i] == p[i]
    ensures Clear(m', p, d, lo, c)
  {
    forall x ensures ClearAt(m', x, p, d, lo, c) {
      if x in m'.pages && lo < |m'.pre[x]| < d && Ext(m'.pre[x], p) {
        assert PageAt(m', x) && TargetGrows(m, m', x) && TargetGrows(m, m', y) && NewPageGrows(m, m', x, y);
        if x in m.pages {
          var j := SlotToward(m, x, y);
          assert ClearAt(m, x, p, d, lo, c) && SlotGrows(m, m', Slot(x, j));
          CapacityMono(m.pages[x].hdr.ntype, m'.pages[x].hdr.ntype);
        }
      }
    }
  }

  lemma CapacityMono(t: NodeType, u: NodeType)
    requires t <= u
    ensures Capacity(t) <= Capacity(u)
  {}

  /** The pages that a later split puts below a held entry do not hide it. */
  lemma ClearBelow(m: Mem, s: SlotRef, y: Addr, p: Bytes, d: nat, lo: nat, c: set<SlotRef>)
    requires WF(m) && LeadsTo(m, s, y)
    requires d <= |m.pre[y]| && d <= |p| && forall i :: 0 <= i < d ==> m.pre[y][i] == p[i]
    requires |Above(m, s)| < d && Clear(m, p, |Above(m, s)| + 1, lo, c)
    ensures Clear(m, p, d, lo, c)
  {
    forall x ensures ClearAt(m, x, p, d, lo, c) {
      assert ClearAt(m, x, p, |Above(m, s)| + 1, lo, c) && FirstBelow(m, s, x, y) && PageAt(m, x);
    }
  }
}
