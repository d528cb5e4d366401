/** What the steps of a run do to the map that a search from the root sees. */
module Views {
  import opened Keys
  import opened RemoteMemory
  import opened MemoryOps
  import opened Lookup
  import opened Splits
  import opened StaleEntries
  import opened Publishing
  import opened Machine
  import opened Invariant
  import opened Steps
  import opened SlotSteps
  import opened Runs

  /** The leaf of `k` is the same in both memories, with the same value. */
  ghost predicate SameLeaf(m: Mem, m': Mem, k: Key) {
    forall a :: SameLeafAt(m, m', k, a)
  }

  ghost predicate SameLeafAt(m: Mem, m': Mem, k: Key, a: Addr) {
    && (a in m.leaves && m.leaves[a].key == k <==> a in m'.leaves && m'.leaves[a].key == k)
    && (a in m.leaves && a in m'.leaves && m.leaves[a].key == k ==> m'.leaves[a].value == m.leaves[a].value)
  }

  ghost predicate HasKey(m: Mem, k: Key) {
    exists a :: a in m.leaves && m.leaves[a].key == k
  }

  /** No header type of an old page has changed. */
  ghost predicate SameTypes(m: Mem, m': Mem) {
    forall x :: SameTypeAt(m, m', x)
  }

  ghost predicate SameTypeAt(m: Mem, m': Mem, x: Addr) {
    x in m.pages && x in m'.pages ==> m'.pages[x].hdr.ntype == m.pages[x].hdr.ntype
  }

  lemma VisibleBack(m: Mem, m': Mem, k: Key)
    requires WF(m) && WF(m') && Grows(m, m') && SameTypes(m, m') && Visible(m', Path(k))
    ensures Visible(m, Path(k))
  {
    var n := |Path(k)|;
    forall x ensures ClearAt(m, x, Path(k), n, 0, {}) {
      assert ClearAt(m', x, Path(k), n, 0, {}) && TargetGrows(m, m', x) && SameTypeAt(m, m', x);
      if x in m.pages {
        forall j: nat ensures SlotGrows(m, m', Slot(x, j)) {}
      }
    }
  }

  lemma VisibleOn(m: Mem, m': Mem, k: Key)
    requires WF(m) && WF(m') && Grows(m, m') && HasKey(m, k) && Visible(m, Path(k))
    ensures Visible(m', Path(k))
  {
    StoredStable(m, m', k);
  }

  /** A step that changes no header type and leaves the leaf of `k` alone does not change what a search for `k`
      returns. */
  lemma ViewKept(m: Mem, m': Mem, k: Key)
    requires WF(m) && WF(m') && Grows(m, m') && SameTypes(m, m') && SameLeaf(m, m', k)
    ensures View(m', k) == View(m, k)
  {
    ViewIs(m, k);
    ViewIs(m', k);
    if HasKey(m, k) {
      var a :| a in m.leaves && m.leaves[a].key == k;
      assert SameLeafAt(m, m', k, a);
      if Visible(m, Path(k)) { VisibleOn(m, m', k); } else if Visible(m', Path(k)) { VisibleBack(m, m', k); }
    } else {
      forall a | a in m'.leaves ensures m'.leaves[a].key != k { assert SameLeafAt(m, m', k, a); }
    }
  }

  /** An in-place update changes the value of exactly its own key. */
  lemma WriteView(m: Mem, a: Addr, rev: SlotRef, v: Value, k: Key)
    requires WF(m) && a in m.leaves
    ensures var m' := WriteLeaf(m, a, rev, v);
      View(m', k) == if k == m.leaves[a].key && View(m, k).Some? then Some(v) else View(m, k)
  {
    var m' := WriteLeaf(m, a, rev, v);
    WriteLeafShape(m, a, rev, v);
    SameShapeKeeps(m, m');
    forall x ensures SameTypeAt(m, m', x) {}
    if k != m.leaves[a].key {
      forall b ensures SameLeafAt(m, m', k, b) {}
      ViewKept(m, m', k);
    } else {
      ViewIs(m, k);
      ViewIs(m', k);
      if Visible(m, Path(k)) { VisibleOn(m, m', k); } else if Visible(m', Path(k)) { VisibleBack(m, m', k); }
    }
  }

  /** A new leaf changes what a search returns for no other key. */
  lemma NewLeafView(m: Mem, m': Mem, a: Addr, l: Leaf, k: Key)
    requires WF(m) && WF(m') && Grows(m, m') && SameTypes(m, m') && a !in m.pre && m'.leaves == m.leaves[a := l]
    ensures k != l.key ==> View(m', k) == View(m, k)
    ensures k == l.key ==> View(m, k) == None
    ensures k == l.key ==> View(m', k) == if Visible(m', Path(k)) then Some(l.value) else None
  {
    assert a !in m.leaves;
    if k != l.key {
      forall b ensures SameLeafAt(m, m', k, b) {}
      ViewKept(m, m', k);
    } else {
      ViewIs(m', k);
      ViewIs(m, k);
      forall b | b in m.leaves ensures m.leaves[b].key != k {
        if m.leaves[b].key == k {
          assert m'.leaves[b].key == k && b in m'.leaves;
          assert LeafAt(m', a) && LeafAt(m', b) && TargetGrows(m, m', b);
          Unique(m', a, b);
        }
      }
    }
  }

  /** Raising a header type hides nothing and reveals only keys behind the page's old capacity. */
  lemma RaiseView(m: Mem, x: Addr, from: NodeType, to: NodeType, k: Key)
    requires WF(m) && from <= to && to != DELETED
    ensures var m' := RaiseHeader(m, x, from, to);
      && (View(m, k).Some? ==> View(m', k) == View(m, k))
      && (View(m', k) != View(m, k) ==>
        exists j: nat :: Hidden(m, x, j) && j < Capacity(to) && OnPath(m, Slot(x, j), k))
  {
    var m' := RaiseHeader(m, x, from, to);
    RaiseHeaderShape(m, x, from, to);
    SameShapeKeeps(m, m');
    ViewIs(m, k);
    ViewIs(m', k);
    if HasKey(m, k) {
      if Visible(m, Path(k)) {
        VisibleOn(m, m', k);
      } else if Visible(m', Path(k)) {
        Revealed(m, x, from, to, k);
      }
    } else {
      assert forall a :: a in m'.leaves ==> m'.leaves[a].key != k;
    }
  }

  lemma Revealed(m: Mem, x: Addr, from: NodeType, to: NodeType, k: Key)
    requires WF(m) && from <= to && !Visible(m, Path(k)) && Visible(RaiseHeader(m, x, from, to), Path(k))
    ensures exists j: nat :: Hidden(m, x, j) && j < Capacity(to) && OnPath(m, Slot(x, j), k)
  {
    var m', n := RaiseHeader(m, x, from, to), |Path(k)|;
    var z :| !ClearAt(m, z, Path(k), n, 0, {});
    assert ClearAt(m', z, Path(k), n, 0, {}) && PageAt(m, z);
    var j: nat :| !Fetch(m, Slot(z, j)).Null? && Fetch(m, Slot(z, j)).partial == Path(k)[|m.pre[z]|]
                  && j >= Capacity(m.pages[z].hdr.ntype);
    assert Fetch(m', Slot(z, j)) == Fetch(m, Slot(z, j));
    assert z == x && Hidden(m, x, j) && OnPath(m, Slot(x, j), k);
  }
}
