/** The search of a tree state, and which keys it finds. */
module Lookup {
  import opened Keys
  import opened RemoteMemory

  datatype Option<+T> = None | Some(value: T)

  function Capacity(t: NodeType): (n: nat)
    ensures n <= SLOTS
  {
    if t == 0 then 0 else if t == 1 then 4 else if t == 2 then 8 else if t == 3 then 16
    else if t == 4 then 32 else if t == 5 then 64 else if t == 6 then 128 else 256
  }

  /** The first of the first `n` records that holds byte `b`, or `n`. */
  function Scan(r: seq<Entry>, b: Byte, n: nat, i: nat := 0): (j: nat)
    requires n <= |r| && i <= n
    ensures i <= j <= n
    ensures j < n ==> !r[j].Null? && r[j].partial == b
    ensures forall l :: i <= l < j ==> r[l].Null? || r[l].partial != b
    decreases n - i
  {
    if i == n then n
    else if !r[i].Null? && r[i].partial == b then i
    else Scan(r, b, n, i + 1)
  }

  predicate HeaderMatch(h: Header, k: Key) {
    forall i :: 0 <= i < |h.partial| && h.depth + i <= KEY_LEN ==> Path(k)[h.depth + i] == h.partial[i]
  }

  function Limit(p: Page, all: bool): nat {
    if all then SLOTS else Capacity(p.hdr.ntype)
  }

  /** The search of one tree state, from entry `e` of a slot at depth `d`. With `all`, the slots behind
      the advertised capacity are scanned too. */
  function Look(m: Mem, e: Entry, d: nat, k: Key, all: bool): Option<Addr>
    decreases KEY_LEN + 2 - d
  {
    match e
    case Null => None
    case LeafEntry(_, a) => if a in m.leaves && m.leaves[a].key == k then Some(a) else None
    case NodeEntry(_, _, x) =>
      if x !in m.pages || |m.pages[x].records| != SLOTS then None else
      var p := m.pages[x];
      var f := p.hdr.depth + |p.hdr.partial|;
      if !(p.hdr.depth <= d <= f <= KEY_LEN) || !HeaderMatch(p.hdr, k) then None else
      var j := Scan(p.records, Path(k)[f], Limit(p, all));
      if j < Limit(p, all) then Look(m, p.records[j], f + 1, k, all) else None
  }

  /** What a search from the root returns for `k`. */
  function View(m: Mem, k: Key): Option<Value> {
    match Look(m, m.root, 1, k, false)
    case Some(a) => if a in m.leaves then Some(m.leaves[a].value) else None
    case None => None
  }

  /** The slot of page `x` on path `p`, if there is one, is below the page's advertised capacity
      or one of the slots `c`. Only pages whose prefix is longer than `lo` and shorter than `d` count. */
  ghost predicate ClearAt(m: Mem, x: Addr, p: Bytes, d: nat, lo: nat, c: set<SlotRef>) {
    x in m.pages && x in m.pre && lo < |m.pre[x]| < d <= |p| && Ext(m.pre[x], p) ==>
      forall j: nat :: !Fetch(m, Slot(x, j)).Null? && Fetch(m, Slot(x, j)).partial == p[|m.pre[x]|]
        ==> j < Capacity(m.pages[x].hdr.ntype) || Slot(x, j) in c
  }

  ghost predicate Clear(m: Mem, p: Bytes, d: nat, lo: nat, c: set<SlotRef>) {
    forall x :: ClearAt(m, x, p, d, lo, c)
  }

  ghost predicate Visible(m: Mem, p: Bytes) {
    Clear(m, p, |p|, 0, {})
  }

  lemma ScanFinds(r: seq<Entry>, b: Byte, n: nat, j: nat)
    requires RecordsOK(r) && n <= SLOTS && j < SLOTS && !r[j].Null? && r[j].partial == b
    ensures Scan(r, b, n) == if j < n then j else n
  {}

  lemma HeaderAgrees(h: Header, f: Bytes, k: Key)
    requires HeaderOK(h, f) && |f| <= KEY_LEN
    requires Ext(f, Path(k))
    ensures HeaderMatch(h, k)
  {}

  /** One level of a search whose key extends the page's full prefix. */
  lemma LookStep(m: Mem, s: SlotRef, k: Key, all: bool, j: nat)
    requires WF(m) && Fetch(m, s).NodeEntry? && Fetch(m, s).addr in m.pages
    requires !Fetch(m, Slot(Fetch(m, s).addr, j)).Null?
    requires Under(m.pre[Fetch(m, s).addr], Fetch(m, Slot(Fetch(m, s).addr, j)).partial, Path(k))
    ensures var x := Fetch(m, s).addr;
            Look(m, Fetch(m, s), |Above(m, s)| + 1, k, all) ==
            if j < Limit(m.pages[x], all) then Look(m, Fetch(m, Slot(x, j)), |m.pre[x]| + 1, k, all) else None
  {
    var x := Fetch(m, s).addr;
    assert EntryAt(m, s) && PageAt(m, x);
    HeaderAgrees(m.pages[x].hdr, m.pre[x], k);
    ScanFinds(m.pages[x].records, Path(k)[|m.pre[x]|], Limit(m.pages[x], all), j);
  }

  /** A search that is on the path of a stored key finds its leaf. */
  lemma {:induction false} LookFinds(m: Mem, s: SlotRef, a: Addr, all: bool)
    requires WF(m) && a in m.leaves && a in m.pre
    requires !Fetch(m, s).Null? && Under(Above(m, s), Fetch(m, s).partial, m.pre[a])
    requires all || Visible(m, m.pre[a])
    ensures Look(m, Fetch(m, s), |Above(m, s)| + 1, m.leaves[a].key, all) == Some(a)
    decreases KEY_LEN + 1 - |Above(m, s)|
  {
    var x := Fetch(m, s).addr;
    assert LeafAt(m, a) && EntryAt(m, s);
    Cover(m, s, a);
    if Fetch(m, s).LeafEntry? {
      assert LeafAt(m, x);
      assert m.pre[x] == m.pre[a];
      Unique(m, x, a);
    } else {
      assert PageAt(m, x) && (all || ClearAt(m, x, m.pre[a], |m.pre[a]|, 0, {}));
      var j := SlotToward(m, x, a);
      LookStep(m, s, m.leaves[a].key, all, j);
      LookFinds(m, Slot(x, j), a, all);
    }
  }

  /** A search cannot pass a slot that lies behind the advertised capacity. */
  lemma {:induction false} LookStops(m: Mem, s: SlotRef, k: Key, x: Addr)
    requires WF(m) && x in m.pages && Ext(m.pre[x], Path(k))
    requires !ClearAt(m, x, Path(k), PATH_LEN, 0, {})
    requires !Fetch(m, s).Null? && Under(Above(m, s), Fetch(m, s).partial, m.pre[x])
    ensures Look(m, Fetch(m, s), |Above(m, s)| + 1, k, false) == None
    decreases KEY_LEN + 1 - |Above(m, s)|
  {
    var y := Fetch(m, s).addr;
    assert EntryAt(m, s) && PageAt(m, x) && LeafAt(m, y) && PageAt(m, y);
    Cover(m, s, x);
    if |m.pre[y]| == |m.pre[x]| {
      assert m.pre[y] == m.pre[x];
      Unique(m, x, y);
      var j: nat :| !Fetch(m, Slot(x, j)).Null? && Fetch(m, Slot(x, j)).partial == Path(k)[|m.pre[x]|]
                    && j >= Capacity(m.pages[x].hdr.ntype);
      LookStep(m, s, k, false, j);
    } else {
      var j := SlotToward(m, y, x);
      LookStep(m, s, k, false, j);
      if j < Limit(m.pages[y], false) { LookStops(m, Slot(y, j), k, x); }
    }
  }

  lemma RootCovers(m: Mem, y: Addr)
    requires WF(m) && y in m.pre
    ensures !m.root.Null? && Under(Above(m, Root), m.root.partial, m.pre[y])
    decreases |m.pre[y]|
  {
    assert OwnerAt(m, y) && EntryAt(m, m.par[y]);
    if m.par[y].Slot? { RootCovers(m, m.par[y].page); }
  }

  lemma {:induction false} LookSound(m: Mem, e: Entry, d: nat, k: Key, all: bool)
    ensures var r := Look(m, e, d, k, all); r.Some? ==> r.value in m.leaves && m.leaves[r.value].key == k
    decreases KEY_LEN + 2 - d
  {
    if e.NodeEntry? && Look(m, e, d, k, all).Some? {
      var p := m.pages[e.addr];
      var f := p.hdr.depth + |p.hdr.partial|;
      var j := Scan(p.records, Path(k)[f], Limit(p, all));
      LookSound(m, p.records[j], f + 1, k, all);
    }
  }

  /** A root search finds exactly the stored keys whose path crosses no slot behind a capacity. */
  lemma ViewIs(m: Mem, k: Key)
    requires WF(m)
    ensures (forall a :: a in m.leaves && m.leaves[a].key == k ==>
              View(m, k) == if Visible(m, Path(k)) then Some(m.leaves[a].value) else None)
    ensures (forall a :: a in m.leaves ==> m.leaves[a].key != k) ==> View(m, k) == None
  {
    LookSound(m, m.root, 1, k, false);
    forall a | a in m.leaves && m.leaves[a].key == k
      ensures View(m, k) == if Visible(m, Path(k)) then Some(m.leaves[a].value) else None
    {
      assert LeafAt(m, a);
      RootCovers(m, a);
      if Visible(m, Path(k)) {
        LookFinds(m, Root, a, false);
      } else {
        var x :| !ClearAt(m, x, Path(k), PATH_LEN, 0, {});
        RootCovers(m, x);
        LookStops(m, Root, k, x);
      }
    }
  }
}
