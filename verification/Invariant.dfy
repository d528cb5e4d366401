/** What holds in every reachable state of the machine. */
module Invariant {
  import opened Keys
  import opened RemoteMemory
  import opened MemoryOps
  import opened Lookup
  import opened Splits
  import opened StaleEntries
  import opened Machine

  /** A root search finds `k`. */
  ghost predicate Stored(m: Mem, k: Key) {
    (exists a :: a in m.leaves && m.leaves[a].key == k) && Visible(m, Path(k))
  }

  function Lo(m: Mem, op: Op): nat {
    |Above(m, op.from)|
  }

  /** Slot `s` is filled and lies on the path of `k`. */
  ghost predicate OnPath(m: Mem, s: SlotRef, k: Key) {
    SlotIn(m, s) && !Fetch(m, s).Null? && Under(Above(m, s), Fetch(m, s).partial, Path(k))
  }

  ghost predicate CrossOK(m: Mem, op: Op, t: SlotRef) {
    t in op.crossed ==> t.Slot? && OnPath(m, t, op.k)
  }

  ghost predicate OpOK(m: Mem, op: Op) {
    && (op.had ==> Stored(m, op.k))
    && (op.from.Slot? ==> OnPath(m, op.from, op.k))
    && (forall t :: CrossOK(m, op, t))
    && (op.find ==> op.from == Root && op.crossed == {})
  }

  /** An entry on the path of a key that was there from the start leads to that key. */
  ghost predicate Fits(m: Mem, op: Op, e: Entry) {
    op.had ==> !e.Null? && e.addr in m.pre && Ext(m.pre[e.addr], Path(op.k))
  }

  ghost predicate PlaceOK(m: Mem, p: Pos) {
    && SlotIn(m, p.s) && p.d == |Above(m, p.s)| + 1 && p.d <= PATH_LEN
    && Ext(Above(m, p.s), Path(p.op.k))
    && (p.s.Slot? ==> OnPath(m, p.s, p.op.k))
    && OpOK(m, p.op)
    && Clear(m, Path(p.op.k), p.d, Lo(m, p.op), p.op.crossed)
  }

  ghost predicate PosOK(m: Mem, p: Pos) {
    && PlaceOK(m, p)
    && Fits(m, p.op, p.e)
    && (if p.e.Null? then p.s.Root? else Held(m, p.s, p.e) && p.e.partial == Path(p.op.k)[p.d - 1])
  }

  ghost predicate HdrSeen(m: Mem, x: Addr, h: Header) {
    x in m.pages && x in m.pre && HeaderOK(h, m.pre[x])
    && h.ntype <= m.pages[x].hdr.ntype && h.depth <= m.pages[x].hdr.depth
  }

  ghost predicate SnapOK(m: Mem, x: Addr, snap: map<nat, Entry>, i: nat) {
    i in snap ==> i < SLOTS && (!snap[i].Null? ==> Held(m, Slot(x, i), snap[i]))
  }

  ghost predicate HadRead(m: Mem, op: Op, x: Addr, r: Read, j: nat) {
    op.had && OnPath(m, Slot(x, j), op.k) ==>
      && (r.hdr.Some? ==> j < Capacity(r.hdr.value.ntype))
      && (j in r.snap ==> Fits(m, op, r.snap[j]))
  }

  ghost predicate ReadOK(m: Mem, p: Pos, r: Read) {
    && PosOK(m, p) && p.e.NodeEntry?
    && (r.hdr.Some? ==> HdrSeen(m, p.e.addr, r.hdr.value))
    && (forall i :: SnapOK(m, p.e.addr, r.snap, i))
    && (forall j :: HadRead(m, p.op, p.e.addr, r, j))
  }

  ghost predicate SplitOK(m: Mem, p: Pos, h: Header, i: nat) {
    && PosOK(m, p) && !p.op.find && p.e.NodeEntry? && HdrSeen(m, p.e.addr, h) && h.depth <= p.d
    && i < |h.partial| && !Agrees(h, p.op.k, i)
    && (forall l :: 0 <= l < i ==> Agrees(h, p.op.k, l))
  }

  ghost predicate FillOK(m: Mem, p: Pos, h: Header, snap: map<nat, Entry>, i: nat) {
    && OpOK(m, p.op) && !p.op.find && p.e.NodeEntry? && Held(m, p.s, p.e)
    && HdrSeen(m, p.e.addr, h) && p.e.ntype == h.ntype
    && |m.pre[p.e.addr]| <= KEY_LEN && Ext(m.pre[p.e.addr], Path(p.op.k))
    && Clear(m, Path(p.op.k), |m.pre[p.e.addr]|, Lo(m, p.op), p.op.crossed)
    && i <= SLOTS
    && (forall j :: 0 <= j < i ==> HoldsOther(m, p.e.addr, j, Path(p.op.k)[|m.pre[p.e.addr]|]))
    && (forall j :: i <= j < Capacity(h.ntype) ==> SnapOther(m, p.e.addr, snap, j, Path(p.op.k)[|m.pre[p.e.addr]|]))
  }

  ghost predicate SnapOther(m: Mem, x: Addr, snap: map<nat, Entry>, j: nat, b: Byte) {
    j in snap && (!snap[j].Null? ==> HoldsOther(m, x, j, b))
  }

  /** The key of an insert is stored, and only slots that the insert crossed can hide it. */
  ghost predicate Published(m: Mem, op: Op) {
    && OpOK(m, op)
    && (exists a :: a in m.leaves && m.leaves[a].key == op.k)
    && Clear(m, Path(op.k), PATH_LEN, Lo(m, op), op.crossed)
  }

  /** The node type in the slot that points to page `x`. */
  function EntryType(m: Mem, x: Addr): NodeType {
    if x in m.par && Fetch(m, m.par[x]).NodeEntry? then Fetch(m, m.par[x]).ntype else DELETED
  }

  ghost predicate SwitchOK(m: Mem, w: Switch) {
    && Published(m, w.op) && !w.op.find && w.x in m.pages && w.x in m.pre && w.next != DELETED
    && (w.r2 ==> w.next <= m.pages[w.x].hdr.ntype)
    && (!w.r2 ==> w.was < w.next)
    && (w.r1 ==> w.next <= EntryType(m, w.x))
    && (!w.r1 ==> w.e.NodeEntry? && Held(m, w.s, w.e) && LeadsTo(m, w.s, w.x))
    && (!w.r1 && w.phase.CasEntry? ==> w.e.addr == w.x && w.e.ntype < w.next)
    && (!w.r1 && !w.phase.CasEntry? ==>
          if w.e.addr == w.x then DELETED < w.e.ntype <= EntryType(m, w.x) else LeadsTo(m, Slot(w.e.addr, 0), w.x))
  }

  /** How far the page's parent entry can still change under a switch, and its header. */
  function EntryPart(m: Mem, w: Switch): int
    requires w.x in m.par
  {
    if w.r1 then 0
    else if w.e.NodeEntry? && w.e.addr == w.x then (NODE_256 - w.e.ntype) + (PATH_LEN - |Above(m, w.s)|)
    else (NODE_256 - EntryType(m, w.x)) + (PATH_LEN - |Above(m, m.par[w.x])|)
  }

  function HeaderPart(w: Switch): int {
    if w.r2 then 0 else NODE_256 - w.was
  }

  /** Every failed round has used up one of the changes that were still possible. */
  ghost predicate RoundsOK(m: Mem, w: Switch) {
    && w.x in m.par && w.x in m.pages && DELETED < w.was <= m.pages[w.x].hdr.ntype
    && 0 <= w.left <= ROUNDS
    && (w.phase.CasEntry? ==>
          && EntryPart(m, w) + HeaderPart(w) <= w.left
          && (!w.r1 ==> w.e.NodeEntry? && w.e.ntype != DELETED && (w.left == ROUNDS || w.e.ntype <= EntryType(m, w.x))))
    && (w.phase.CasHeader? ==> EntryPart(m, w) + HeaderPart(w) <= if w.r1 then w.left else w.left - 1)
    && (w.phase.Chase? && !(w.r1 && w.r2) ==> EntryPart(m, w) + HeaderPart(w) <= w.left - 1)
  }

  ghost predicate LocalOK(m: Mem, l: Local) {
    match l
    case At(p) => PosOK(m, p)
    case Reread(p) => PlaceOK(m, p)
    case GotLeaf(p, leaf) =>
      PosOK(m, p) && !p.op.find && p.e.LeafEntry? && m.leaves[p.e.addr].key == leaf.key && leaf.key != p.op.k
    case Updating(op, a, leaf) =>
      && Published(m, op) && !op.find && a in m.leaves && m.leaves[a].key == op.k
      && !op.load && leaf.key == op.k && leaf.value != op.v
    case Reading(p, r) => ReadOK(m, p, r)
    case Splitting(p, h, i) => SplitOK(m, p, h, i)
    case Filling(p, h, snap, i) => FillOK(m, p, h, snap, i)
    case Switching(w) => SwitchOK(m, w) && RoundsOK(m, w)
    case Done(op, res) => OpOK(m, op) && (if op.find then res.None? ==> !op.had else Published(m, op))
  }

  ghost predicate AsyncOK(m: Mem, q: Async) {
    q.Trim? ==>
      && q.x in m.pages && q.x in m.pre && q.x in m.par
      && HeaderOK(q.now.(ntype := NODE_4), m.pre[q.x])
      && q.was.depth <= q.now.depth <= |Above(m, m.par[q.x])| + 1
  }

  // stability: what a thread knows survives every step of every other thread

  lemma OnPathStable(m: Mem, m': Mem, s: SlotRef, k: Key)
    requires WF(m) && WF(m') && Grows(m, m') && OnPath(m, s, k)
    ensures OnPath(m', s, k)
  {
    assert SlotGrows(m, m', s);
    AboveStable(m, m', s);
  }

  lemma StoredStable(m: Mem, m': Mem, k: Key)
    requires WF(m) && WF(m') && Grows(m, m') && Stored(m, k)
    ensures Stored(m', k)
  {
    var a :| a in m.leaves && m.leaves[a].key == k;
    assert LeafAt(m, a) && TargetGrows(m, m', a);
    ClearStable(m, m', Path(k), PATH_LEN, 0, {}, a);
  }

  lemma OpStable(m: Mem, m': Mem, op: Op)
    requires WF(m) && WF(m') && Grows(m, m') && OpOK(m, op)
    ensures OpOK(m', op) && Lo(m', op) == Lo(m, op)
  {
    if op.had { StoredStable(m, m', op.k); }
    if op.from.Slot? { OnPathStable(m, m', op.from, op.k); AboveStable(m, m', op.from); }
    forall t ensures CrossOK(m', op, t) {
      assert CrossOK(m, op, t);
      if t in op.crossed { OnPathStable(m, m', t, op.k); }
    }
  }

  lemma ClearPlaceStable(m: Mem, m': Mem, s: SlotRef, k: Key, d: nat, lo: nat, c: set<SlotRef>)
    requires WF(m) && WF(m') && Grows(m, m') && Clear(m, Path(k), d, lo, c)
    requires SlotIn(m, s) && d == |Above(m, s)| + 1 <= PATH_LEN && (s.Slot? ==> OnPath(m, s, k))
    ensures Clear(m', Path(k), d, lo, c)
  {
    if s.Slot? {
      assert EntryAt(m, s);
      ClearStable(m, m', Path(k), d, lo, c, Fetch(m, s).addr);
    } else {
      forall x ensures ClearAt(m', x, Path(k), d, lo, c) {}
    }
  }

  lemma PlaceStable(m: Mem, m': Mem, p: Pos)
    requires WF(m) && WF(m') && Grows(m, m') && PlaceOK(m, p)
    ensures PlaceOK(m', p)
  {
    OpStable(m, m', p.op);
    AboveStable(m, m', p.s);
    if p.s.Slot? { OnPathStable(m, m', p.s, p.op.k); }
    ClearPlaceStable(m, m', p.s, p.op.k, p.d, Lo(m, p.op), p.op.crossed);
  }

  lemma PosStable(m: Mem, m': Mem, p: Pos)
    requires WF(m) && WF(m') && Grows(m, m') && PosOK(m, p)
    ensures PosOK(m', p)
  {
    PlaceStable(m, m', p);
    if !p.e.Null? {
      HeldStable(m, m', p.s, p.e);
      assert TargetGrows(m, m', p.e.addr);
    }
  }

  lemma HdrSeenStable(m: Mem, m': Mem, x: Addr, h: Header)
    requires Grows(m, m') && HdrSeen(m, x, h)
    ensures HdrSeen(m', x, h)
  {
    assert TargetGrows(m, m', x);
  }

  /** The slot of a page that lies on the path of a stored key is there already, so later steps cannot add another. */
  lemma HadReadStable(m: Mem, m': Mem, op: Op, x: Addr, r: Read, j: nat)
    requires WF(m) && WF(m') && Grows(m, m') && OpOK(m, op) && HadRead(m, op, x, r, j)
    requires x in m.pages
    ensures HadRead(m', op, x, r, j)
  {
    if op.had && OnPath(m', Slot(x, j), op.k) {
      var a :| a in m.leaves && m.leaves[a].key == op.k;
      assert LeafAt(m, a) && TargetGrows(m, m', x) && PageAt(m', x);
      var i := SlotToward(m, x, a);
      assert SlotGrows(m, m', Slot(x, i));
      if j in r.snap && !r.snap[j].Null? { assert TargetGrows(m, m', r.snap[j].addr); }
    }
  }

  lemma ReadStable(m: Mem, m': Mem, p: Pos, r: Read)
    requires WF(m) && WF(m') && Grows(m, m') && ReadOK(m, p, r)
    ensures ReadOK(m', p, r)
  {
    PosStable(m, m', p);
    if r.hdr.Some? { HdrSeenStable(m, m', p.e.addr, r.hdr.value); }
    forall i ensures SnapOK(m', p.e.addr, r.snap, i) {
      assert SnapOK(m, p.e.addr, r.snap, i);
      if i in r.snap && !r.snap[i].Null? { HeldStable(m, m', Slot(p.e.addr, i), r.snap[i]); }
    }
    forall j ensures HadRead(m', p.op, p.e.addr, r, j) {
      assert HadRead(m, p.op, p.e.addr, r, j);
      HadReadStable(m, m', p.op, p.e.addr, r, j);
    }
  }

  lemma FillStable(m: Mem, m': Mem, p: Pos, h: Header, snap: map<nat, Entry>, i: nat)
    requires WF(m) && WF(m') && Grows(m, m') && FillOK(m, p, h, snap, i)
    ensures FillOK(m', p, h, snap, i)
  {
    var x := p.e.addr;
    OpStable(m, m', p.op);
    HeldStable(m, m', p.s, p.e);
    HdrSeenStable(m, m', x, h);
    assert TargetGrows(m, m', x);
    ClearStable(m, m', Path(p.op.k), |m.pre[x]|, Lo(m, p.op), p.op.crossed, x);
    var b := Path(p.op.k)[|m.pre[x]|];
    forall j | 0 <= j < i ensures HoldsOther(m', x, j, b) {
      assert HoldsOther(m, x, j, b) && SlotGrows(m, m', Slot(x, j));
    }
    forall j | i <= j < Capacity(h.ntype) ensures SnapOther(m', x, snap, j, b) {
      assert SnapOther(m, x, snap, j, b) && SlotGrows(m, m', Slot(x, j));
    }
  }

  lemma PublishedStable(m: Mem, m': Mem, op: Op)
    requires WF(m) && WF(m') && Grows(m, m') && Published(m, op)
    ensures Published(m', op)
  {
    var a :| a in m.leaves && m.leaves[a].key == op.k;
    assert LeafAt(m, a) && TargetGrows(m, m', a);
    OpStable(m, m', op);
    ClearStable(m, m', Path(op.k), PATH_LEN, Lo(m, op), op.crossed, a);
  }

  lemma SwitchStable(m: Mem, m': Mem, w: Switch)
    requires WF(m) && WF(m') && Grows(m, m') && SwitchOK(m, w)
    ensures SwitchOK(m', w)
  {
    PublishedStable(m, m', w.op);
    assert TargetGrows(m, m', w.x);
    if !w.r1 {
      HeldStable(m, m', w.s, w.e);
      LeadsToStable(m, m', w.s, w.x);
      if !w.phase.CasEntry? && w.e.addr != w.x { LeadsToStable(m, m', Slot(w.e.addr, 0), w.x); }
    }
  }

  lemma RoundsStable(m: Mem, m': Mem, w: Switch)
    requires WF(m) && WF(m') && Grows(m, m') && SwitchOK(m, w) && RoundsOK(m, w)
    ensures RoundsOK(m', w)
  {
    assert TargetGrows(m, m', w.x);
    if !w.r1 { FilledIn(m, w.s); AboveStable(m, m', w.s); }
  }

  lemma LocalStable(m: Mem, m': Mem, l: Local)
    requires WF(m) && WF(m') && Grows(m, m') && LocalOK(m, l)
    ensures LocalOK(m', l)
  {
    match l
    case At(p) => PosStable(m, m', p);
    case Reread(p) => PlaceStable(m, m', p);
    case GotLeaf(p, leaf) => PosStable(m, m', p); assert TargetGrows(m, m', p.e.addr);
    case Updating(op, a, leaf) => PublishedStable(m, m', op); assert LeafAt(m, a) && TargetGrows(m, m', a);
    case Reading(p, r) => ReadStable(m, m', p, r);
    case Splitting(p, h, i) => PosStable(m, m', p); HdrSeenStable(m, m', p.e.addr, h);
    case Filling(p, h, snap, i) => FillStable(m, m', p, h, snap, i);
    case Switching(w) => SwitchStable(m, m', w); RoundsStable(m, m', w);
    case Done(op, res) => OpStable(m, m', op); if !op.find { PublishedStable(m, m', op); }
  }

  lemma AsyncStable(m: Mem, m': Mem, q: Async)
    requires WF(m) && WF(m') && Grows(m, m') && AsyncOK(m, q)
    ensures AsyncOK(m', q)
  {
    if q.Trim? { assert TargetGrows(m, m', q.x); }
  }
}
