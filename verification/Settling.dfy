/** Memories between operations of a sequential run: reverse pointers, header depths and node types are exact. */
module Settling {
  import opened Keys
  import opened RemoteMemory
  import opened MemoryOps
  import opened Lookup
  import opened Splits
  import opened StaleEntries
  import opened Machine
  import opened Invariant
  import opened Runs
  import opened Views

  /** The reverse pointer of `y` names the one slot that points to `y`; the header of a page starts at the depth of
      that slot, and header and slot agree on the page's type. */
  ghost predicate SettledAt(m: Mem, y: Addr) {
    y in m.par ==>
      && (y in m.leaves ==> m.leaves[y].rev == m.par[y])
      && (y in m.pages ==>
            && m.pages[y].rev == m.par[y] && EntryType(m, y) == m.pages[y].hdr.ntype
            && m.pages[y].hdr.depth == |Above(m, m.par[y])| + 1)
  }

  ghost predicate CoveredAt(m: Mem, x: Addr, j: nat) {
    !Hidden(m, x, j)
  }

  /** No slot is filled behind the capacity of its page. */
  ghost predicate Covered(m: Mem) {
    forall x, j :: CoveredAt(m, x, j)
  }

  ghost predicate Settled(m: Mem) {
    WF(m) && (forall y :: SettledAt(m, y)) && Covered(m)
  }

  lemma CoveredClear(m: Mem, p: Bytes, d: nat, lo: nat, c: set<SlotRef>)
    requires Covered(m)
    ensures Clear(m, p, d, lo, c)
  {
    forall x ensures ClearAt(m, x, p, d, lo, c) {
      if x in m.pages {
        forall j: nat | !Fetch(m, Slot(x, j)).Null? ensures j < Capacity(m.pages[x].hdr.ntype) {
          assert CoveredAt(m, x, j);
        }
      }
    }
  }

  /** In a settled memory the root search returns the value of every stored key. */
  lemma SettledView(m: Mem, k: Key)
    requires WF(m) && Covered(m)
    ensures forall a :: a in m.leaves && m.leaves[a].key == k ==> View(m, k) == Some(m.leaves[a].value)
    ensures (forall a :: a in m.leaves ==> m.leaves[a].key != k) ==> View(m, k) == None
  {
    ViewIs(m, k);
    CoveredClear(m, Path(k), PATH_LEN, 0, {});
  }

  // what a search may conclude from what it reads

  /** The leaf in a slot on the key's path decides the search. */
  lemma LeafDecides(m: Mem, s: SlotRef, k: Key)
    requires WF(m) && Covered(m) && OnPath(m, s, k) && Fetch(m, s).LeafEntry?
    ensures Fetch(m, s).addr in m.leaves
    ensures var leaf := m.leaves[Fetch(m, s).addr]; View(m, k) == if leaf.key == k then Some(leaf.value) else None
  {
    var b := Fetch(m, s).addr;
    assert EntryAt(m, s) && LeafAt(m, b);
    SettledView(m, k);
    forall a | a in m.leaves && m.leaves[a].key == k ensures a == b {
      assert LeafAt(m, a);
      Cover(m, s, a);
      assert m.pre[a] == m.pre[b];
      Unique(m, a, b);
    }
  }

  /** A header byte that differs from the key rules the key out. */
  lemma HeaderDecides(m: Mem, s: SlotRef, k: Key, i: nat)
    requires WF(m) && Covered(m) && OnPath(m, s, k) && Fetch(m, s).NodeEntry?
    requires Fetch(m, s).addr in m.pages && var h := m.pages[Fetch(m, s).addr].hdr; i < |h.partial| && !Agrees(h, k, i)
    ensures View(m, k) == None
  {
    var x := Fetch(m, s).addr;
    assert EntryAt(m, s) && PageAt(m, x);
    SettledView(m, k);
    forall a | a in m.leaves ensures m.leaves[a].key != k {
      assert LeafAt(m, a);
      if m.leaves[a].key == k { Cover(m, s, a); }
    }
  }

  /** A page whose records below the capacity miss the key's byte rules the key out. */
  lemma RecordsDecide(m: Mem, x: Addr, k: Key)
    requires WF(m) && Covered(m) && x in m.pages && |m.pre[x]| <= KEY_LEN && Ext(m.pre[x], Path(k))
    requires |m.pages[x].records| == SLOTS
    requires Scan(m.pages[x].records, Path(k)[|m.pre[x]|], Capacity(m.pages[x].hdr.ntype)) ==
      Capacity(m.pages[x].hdr.ntype)
    ensures View(m, k) == None
  {
    assert PageAt(m, x);
    SettledView(m, k);
    forall a | a in m.leaves ensures m.leaves[a].key != k {
      assert LeafAt(m, a);
      if m.leaves[a].key == k {
        var j := SlotToward(m, x, a);
        CoveredSlot(m, x, j);
      }
    }
  }

  lemma CoveredSlot(m: Mem, x: Addr, j: nat)
    requires Covered(m) && x in m.pages && !Fetch(m, Slot(x, j)).Null?
    ensures j < Capacity(m.pages[x].hdr.ntype)
  {
    assert CoveredAt(m, x, j);
  }

  /** A cached entry whose target points back to the slot is what the slot holds now. */
  lemma HeldCurrent(m: Mem, s: SlotRef, e: Entry)
    requires Settled(m) && Held(m, s, e)
    requires (e.LeafEntry? && e.addr in m.leaves && m.leaves[e.addr].rev == s)
      || (e.NodeEntry? && e.addr in m.pages && m.pages[e.addr].rev == s)
    ensures Fetch(m, s) == if e.LeafEntry? then e else e.(ntype := m.pages[e.addr].hdr.ntype)
  {
    assert SettledAt(m, e.addr) && OwnerAt(m, e.addr) && EntryAt(m, s);
  }
}
