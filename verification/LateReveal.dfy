/** A run in which an insert returns before its key can be found from the root. */
module LateReveal {
  import opened Keys
  import opened RemoteMemory
  import opened MemoryOps
  import opened Lookup
  import opened Splits
  import opened Machine
  import opened Invariant
  import opened Runs
  import opened RunTheorems
  import opened Views

  ghost predicate Reach(c: State) {
    exists cs, ss :: IsRun(cs, ss) && cs[|ss|] == c
  }

  lemma ReachNext(c: State, c': State, t: Tid, act: Act)
    requires Reach(c) && Next(c, c', t, act)
    ensures Reach(c')
  {
    var cs, ss :| IsRun(cs, ss) && cs[|ss|] == c;
    var cs', ss' := cs + [c'], ss + [Step(t, act)];
    forall i: nat ensures RunStep(cs', ss', i) { assert RunStep(cs, ss, i); }
    assert IsRun(cs', ss') && cs'[|ss'|] == c';
  }

  lemma ReachInv(c: State)
    requires Reach(c)
    ensures Inv(c)
  {
    var cs, ss :| IsRun(cs, ss) && cs[|ss|] == c;
    RunInv(cs, ss, |ss|);
  }

  function Writer(c: State, k: Key): Op {
    Op(false, k, 0, false, Root, {}, View(c.m, k).Some?)
  }

  /** Thread `t` starts to insert `k`. */
  lemma Start(c: State, t: Tid, k: Key) returns (c': State)
    requires Reach(c) && t !in c.th
    ensures Reach(c') && Quiet(c, c') && c'.th == c.th[t := At(Pos(Writer(c, k), Root, c.m.root, 1, false))]
  {
    c' := StartOp(c, t, Writer(c, k));
  }

  /** Memory, posted operations and caches are the same. */
  predicate Quiet(c: State, c': State) {
    c'.m == c.m && c'.posted == c.posted && c'.seen == c.seen
  }

  lemma StartOp(c: State, t: Tid, op: Op) returns (c': State)
    requires Reach(c) && t !in c.th && op.from == Root && op.crossed == {} && op.had == View(c.m, op.k).Some?
    ensures Reach(c') && Quiet(c, c') && c'.th == c.th[t := At(Pos(op, Root, c.m.root, 1, false))]
  {
    c' := c.(th := c.th[t := At(Pos(op, Root, c.m.root, 1, false))]);
    ReachNext(c, c', t, Begin(op));
  }

  /** Thread `t` takes its next step. */
  lemma Take(c: State, t: Tid, addrs: seq<Addr>, a: Addr, m': Mem) returns (c': State)
    requires Reach(c) && t in c.th && CanStep(c.th[t]) && FreshAddrs(c.m, addrs, a) && |addrs| == Pages(c.th[t])
    requires Applies(c.m, StepThread(c.m, c.th[t], addrs, a).eff, m')
    ensures Reach(c') && c'.m == m' && c'.th == c.th[t := StepThread(c.m, c.th[t], addrs, a).l]
    ensures c'.seen == c.seen && c'.posted == c.posted + multiset(StepThread(c.m, c.th[t], addrs, a).sent)
  {
    var o := StepThread(c.m, c.th[t], addrs, a);
    c' := c.(m := m', th := c.th[t := o.l], posted := c.posted + multiset(o.sent));
    ReachNext(c, c', t, Act.Thread(addrs, a));
  }

  function Snap(m: Mem, x: Addr, n: nat): map<nat, Entry> {
    map i: nat | i < n :: Fetch(m, Slot(x, i))
  }

  lemma TakeWord(c: State, t: Tid, w: Word) returns (c': State)
    requires Reach(c) && t in c.th && c.th[t].Reading?
    ensures Reach(c') && Quiet(c, c')
    ensures c'.th == c.th[t := Reading(c.th[t].p, StepWord(c.m, c.th[t].p, c.th[t].r, w))]
  {
    c' := c.(th := c.th[t := Reading(c.th[t].p, StepWord(c.m, c.th[t].p, c.th[t].r, w))]);
    ReachNext(c, c', t, Act.Word(w));
  }

  /** Thread `t` reads header, reverse pointer and the first `n` slots of its page. */
  lemma {:induction false} ReadWords(c: State, t: Tid, p: Pos, n: nat) returns (c': State)
    requires Reach(c) && t in c.th && c.th[t] == Reading(p, Read(None, None, map[])) && n <= SLOTS
    requires p.e.NodeEntry? && p.e.addr in c.m.pages
    ensures Reach(c') && Quiet(c, c')
    ensures var g := c.m.pages[p.e.addr];
      c'.th == c.th[t := Reading(p, Read(Some(g.hdr), Some(g.rev), Snap(c.m, p.e.addr, n)))]
    decreases n
  {
    if n == 0 {
      c' := TakeWord(c, t, HdrWord);
      c' := TakeWord(c', t, RevWord);
      assert Snap(c.m, p.e.addr, 0) == map[];
    } else {
      c' := ReadWords(c, t, p, n - 1);
      c' := TakeWord(c', t, SlotWord(n - 1));
      assert Snap(c.m, p.e.addr, n) == Snap(c.m, p.e.addr, n - 1)[n - 1 := Fetch(c.m, Slot(p.e.addr, n - 1))];
    }
  }

  // a root page of type NODE_4 whose slots are filled one by one

  function KeyOf(b: Byte, c: Byte): Key {
    [b, c, 0, 0, 0, 0, 0, 0]
  }

  ghost predicate SlotHas(m: Mem, x: Addr, i: nat) {
    var e := Fetch(m, Slot(x, i));
    i < 256 && e.LeafEntry? && e.partial == i && e.addr in m.leaves && m.leaves[e.addr].key == KeyOf(i, 0)
  }

  ghost predicate SlotFree(m: Mem, x: Addr, i: nat) {
    Fetch(m, Slot(x, i)).Null?
  }

  /** The root points to page `x`, whose first `n` slots hold the keys with first bytes 0 to n - 1. */
  ghost predicate Filled(m: Mem, x: Addr, n: nat) {
    && m.root == NodeEntry(0, NODE_4, x) && x in m.pages && x in m.pre && m.pre[x] == [0]
    && m.pages[x].hdr == Header(1, NODE_4, [])
    && (forall i :: 0 <= i < n ==> SlotHas(m, x, i))
    && SlotFree(m, x, n)
  }

  function RootPos(c: State, k: Key): Pos {
    Pos(Writer(c, k), Root, c.m.root, 1, false)
  }

  /** An insert whose first byte is in none of the first four slots gets to look for a free slot. */
  lemma ToFilling(c: State, x: Addr, n: nat, t: Tid, k: Key, a: Addr) returns (c': State)
    requires Reach(c) && Filled(c.m, x, n) && t !in c.th && a !in c.m.pre && (k[0] >= n || k[0] >= 4)
    requires forall i :: n <= i < 4 ==> SlotFree(c.m, x, i)
    ensures Reach(c') && c'.m == c.m
    ensures c'.th == c.th[t := Filling(RootPos(c, k), c.m.pages[x].hdr, Snap(c.m, x, 4), 0)]
  {
    c' := Start(c, t, k);
    c' := Take(c', t, [], a, c.m);
    var p := RootPos(c, k);
    c' := ReadWords(c', t, p, 4);
    var r := c'.th[t].r;
    assert PageRead(p, r);
    assert p.(e := p.e.(ntype := NODE_4)) == p;
    var j := ScanSnap(r.snap, k[0], 4);
    assert j < 4 && j < n ==> SlotHas(c.m, x, j);
    assert j < 4 && j >= n ==> SlotFree(c.m, x, j);
    c' := Take(c', t, [], a, c.m);
  }

  /** It passes over the filled slots. */
  lemma {:induction false} SkipTo(c: State, x: Addr, n: nat, t: Tid, p: Pos, a: Addr, i: nat) returns (c': State)
    requires Reach(c) && Filled(c.m, x, n) && t in c.th && a !in c.m.pre && i <= n <= 8 && i <= p.op.k[0]
    requires c.th[t] == Filling(p, c.m.pages[x].hdr, Snap(c.m, x, 4), 0) && p.e.NodeEntry? && p.e.addr == x
    ensures Reach(c') && c'.m == c.m
    ensures c'.th == c.th[t := Filling(p, c.m.pages[x].hdr, Snap(c.m, x, 4), i)]
    decreases i
  {
    if i == 0 {
      c' := c;
    } else {
      c' := SkipTo(c, x, n, t, p, a, i - 1);
      assert SlotHas(c.m, x, i - 1);
      c' := Take(c', t, [], a, c.m);
    }
  }

  lemma FilledNext(m: Mem, m': Mem, x: Addr, n: nat, a: Addr)
    requires WF(m) && Filled(m, x, n) && a !in m.pre && n <= 4 && (forall i :: n <= i <= 5 ==> SlotFree(m, x, i))
    requires m' == PutLeaf(m, Slot(x, n), a, KeyOf(n, 0), 0)
    ensures Filled(m', x, n + 1) && m'.pre.Keys == m.pre.Keys + {a}
    ensures forall i :: n + 1 <= i <= 5 ==> SlotFree(m', x, i)
  {
    assert PageAt(m, x);
    assert m'.pages[x].records == m.pages[x].records[n := LeafEntry(n, a)];
    forall i | 0 <= i < n + 1 ensures SlotHas(m', x, i) { if i < n { assert SlotHas(m, x, i); } }
    forall i | n + 1 <= i <= 5 ensures SlotFree(m', x, i) { assert SlotFree(m, x, i); }
  }

  /** A thread that has filled slot 4 of the NODE_4 page `x` below the root slot and is about to raise the page's
      type. */
  predicate Raiser(l: Local, x: Addr) {
    && l.Switching? && l.w.x == x && l.w.s == Root && l.w.was == NODE_4 && l.w.next == NODE_8
    && !l.w.r1 && !l.w.r2 && l.w.phase.CasEntry?
  }

  const NODE_8: NodeType := 2

  /** The insert of the key with first byte `n` takes slot `n`. */
  lemma FillOne(c: State, x: Addr, n: nat, t: Tid, a: Addr) returns (c': State)
    requires Reach(c) && Filled(c.m, x, n) && t !in c.th && a !in c.m.pre && n <= 4
    requires forall i :: n <= i <= 5 ==> SlotFree(c.m, x, i)
    ensures Reach(c') && Filled(c'.m, x, n + 1) && c'.th.Keys == c.th.Keys + {t} && c'.m.pre.Keys == c.m.pre.Keys + {a}
    ensures forall i :: n + 1 <= i <= 5 ==> SlotFree(c'.m, x, i)
    ensures n == 4 ==> Raiser(c'.th[t], x)
  {
    c' := ReachesFree(c, x, n, t, a);
    c' := FillNow(c', x, n, t, RootPos(c, KeyOf(n, 0)), a);
    assert WF(c.m) by { ReachInv(c); }
    FilledNext(c.m, c'.m, x, n, a);
  }

  lemma ReachesFree(c: State, x: Addr, n: nat, t: Tid, a: Addr) returns (c': State)
    requires Reach(c) && Filled(c.m, x, n) && t !in c.th && a !in c.m.pre && n <= 4
    requires forall i :: n <= i <= 5 ==> SlotFree(c.m, x, i)
    ensures Reach(c') && c'.m == c.m
    ensures c'.th == c.th[t := Filling(RootPos(c, KeyOf(n, 0)), c.m.pages[x].hdr, Snap(c.m, x, 4), n)]
  {
    var k := KeyOf(n, 0);
    c' := ToFilling(c, x, n, t, k, a);
    c' := SkipTo(c', x, n, t, RootPos(c, k), a, n);
  }

  lemma FillNow(c: State, x: Addr, n: nat, t: Tid, p: Pos, a: Addr) returns (c': State)
    requires Reach(c) && Filled(c.m, x, n) && t in c.th && a !in c.m.pre && n <= 4
    requires p.e == NodeEntry(0, NODE_4, x) && p.s == Root && p.op.k == KeyOf(n, 0) && p.op.v == 0
    requires c.th[t] == Filling(p, c.m.pages[x].hdr, Snap(c.m, x, 4), n)
    ensures Reach(c') && c'.m == PutLeaf(c.m, Slot(x, n), a, KeyOf(n, 0), 0) && c'.th.Keys == c.th.Keys
    ensures n == 4 ==> Raiser(c'.th[t], x)
  {
    assert SlotFree(c.m, x, n);
    c' := Take(c, t, [], a, PutLeaf(c.m, Slot(x, n), a, KeyOf(n, 0), 0));
  }

  /** A split with no common byte: one page, the old target in record 0 and the new leaf in record 1. */
  lemma ShortSplit(m: Mem, s: SlotRef, k: Key, v: Value, x: Addr, a: Addr) returns (m': Mem)
    requires |Above(m, s)| + 1 <= KEY_LEN
    ensures m' == PutLeaf(Interpose(m, s, x, Path(k)[..|Above(m, s)| + 1]), Slot(x, 1), a, k, v)
    ensures SplitTo(m, m', s, k, v, 0, [x], a)
  {
    var m1 := Interpose(m, s, x, Path(k)[..|Above(m, s)| + 1]);
    m' := PutLeaf(m1, Slot(x, 1), a, k, v);
    var ms := [m, m1];
    forall i: nat ensures Link(ms, s, k, 0, [x], i) {}
    assert SplitBy(ms, m, m', s, k, v, 0, [x], a);
  }

  /** The first insert fills the root slot. */
  lemma FirstLeaf() returns (c: State)
    ensures Reach(c) && c.th.Keys == {0} && c.th[0].Done? && c.posted == multiset{} && c.seen == {}
    ensures c.m ==
      Mem(LeafEntry(0, 0), map[], map[0 := Leaf(Root, KeyOf(0, 0), 0)], map[0 := Path(KeyOf(0, 0))], map[0 := Root])
  {
    var m0 := Mem(Null, map[], map[], map[], map[]);
    var c0 := State(m0, map[], multiset{}, {});
    var cs, ss: seq<Step> := [c0], [];
    assert IsRun(cs, ss) && cs[|ss|] == c0;
    c := Start(c0, 0, KeyOf(0, 0));
    c := Take(c, 0, [], 0, PutLeaf(m0, Root, 0, KeyOf(0, 0), 0));
  }

  lemma ForkAtOnce(p: Bytes, q: Bytes, d: nat)
    requires |p| == |q| && d < |p| && p[d] != q[d]
    ensures CommonLen(p, q, d) == 0
  {}

  /** What the split of a root leaf leaves behind. */
  lemma RootSplit(m: Mem, m': Mem, k: Key, v: Value, x: Addr, a: Addr)
    requires WF(m) && m.root.LeafEntry? && m.root.partial == 0 && m.root.addr in m.leaves
    requires m.leaves[m.root.addr].key == KeyOf(0, 0)
    requires k == KeyOf(1, 0) && x !in m.pre && a !in m.pre && a != x && m.pages.Keys == {}
    requires m' == PutLeaf(Interpose(m, Root, x, Path(k)[..1]), Slot(x, 1), a, k, v)
    ensures Filled(m', x, 2) && m'.pre.Keys == m.pre.Keys + {x, a}
    ensures forall i :: 2 <= i <= 5 ==> SlotFree(m', x, i)
    ensures m'.pages.Keys == {x} && m'.pages[x].rev == Root && Fetch(m', Slot(x, 1)) == LeafEntry(1, a)
    ensures m'.leaves == m.leaves[a := Leaf(Slot(x, 1), k, v)]
  {
    var f, b := Path(k)[..1], m.root.addr;
    assert f == [0];
    assert LeafAt(m, b) && EntryAt(m, Root);
    assert CanInterpose(m, Root, x, f);
    var m1 := Interpose(m, Root, x, f);
    assert m1.pages[x] == NewPage(Root, 1, f, LeafEntry(0, b));
    assert m1.pages[x].hdr.partial == [];
    assert m'.pages[x].records == m1.pages[x].records[1 := LeafEntry(1, a)];
    assert SlotHas(m', x, 0) && SlotHas(m', x, 1);
  }

  lemma ReadLeaf(c: State, t: Tid, p: Pos, a: Addr) returns (c': State)
    requires Reach(c) && t in c.th && c.th[t] == At(p) && a !in c.m.pre
    requires !p.fc && !p.op.find && p.e.LeafEntry? && p.e.addr in c.m.leaves && c.m.leaves[p.e.addr].key != p.op.k
    ensures Reach(c') && c'.th == c.th[t := GotLeaf(p, c.m.leaves[p.e.addr])] && c'.m == c.m && c'.seen == c.seen
    ensures c.m.leaves[p.e.addr].rev == p.s ==> c'.posted == c.posted
  {
    c' := Take(c, t, [], a, c.m);
  }

  /** A thread that holds a leaf whose key differs from its own at once splits and returns. */
  lemma SplitLeaf(c: State, t: Tid, p: Pos, leaf: Leaf, x: Addr, a: Addr) returns (c': State)
    requires Reach(c) && t in c.th && c.th[t] == GotLeaf(p, leaf) && FreshAddrs(c.m, [x], a)
    requires p.e.LeafEntry? && Fetch(c.m, p.s) == p.e
    requires p.d == |Above(c.m, p.s)| + 1 <= KEY_LEN && Path(leaf.key)[p.d] != Path(p.op.k)[p.d]
    ensures Reach(c') && c'.th == c.th[t := Done(p.op, None)] && c'.seen == c.seen
    ensures c'.posted == c.posted + multiset{Rev(p.e.addr, p.s, Slot(x, 0))}
    ensures c'.m == PutLeaf(Interpose(c.m, p.s, x, Path(p.op.k)[..p.d]), Slot(x, 1), a, p.op.k, p.op.v)
  {
    ForkAtOnce(Path(leaf.key), Path(p.op.k), p.d);
    var m' := ShortSplit(c.m, p.s, p.op.k, p.op.v, x, a);
    c' := Take(c, t, [x], a, m');
  }

  /** The second insert reads the root leaf, */
  lemma SecondReads() returns (c: State, p: Pos, leaf: Leaf)
    ensures Reach(c) && c.th.Keys == {0, 1} && c.th[0].Done? && c.th[1] == GotLeaf(p, leaf) && c.posted == multiset{}
    ensures c.seen == {}
    ensures p.s == Root && p.e == c.m.root && p.d == 1 && p.op.k == KeyOf(1, 0) && p.op.v == 0
    ensures leaf == Leaf(Root, KeyOf(0, 0), 0)
    ensures c.m == Mem(LeafEntry(0, 0), map[], map[0 := leaf], map[0 := Path(KeyOf(0, 0))], map[0 := Root])
  {
    c := FirstLeaf();
    c := Start(c, 1, KeyOf(1, 0));
    p := c.th[1].p;
    leaf := c.m.leaves[0];
    c := ReadLeaf(c, 1, p, 1);
  }

  /** and splits the root slot. */
  lemma FirstPage() returns (c: State)
    ensures Reach(c) && Filled(c.m, 2, 2) && c.th.Keys == {0, 1} && c.m.pre.Keys == {0, 1, 2}
    ensures forall i :: 2 <= i <= 5 ==> SlotFree(c.m, 2, i)
    ensures c.th[0].Done? && c.th[1].Done? && c.posted == multiset{Rev(0, Root, Slot(2, 0))} && c.seen == {}
    ensures c.m.pages.Keys == {2} && c.m.pages[2].rev == Root && Fetch(c.m, Slot(2, 1)) == LeafEntry(1, 1)
    ensures 0 in c.m.leaves
    ensures 1 in c.m.leaves && c.m.leaves[1] == Leaf(Slot(2, 1), KeyOf(1, 0), 0)
  {
    var p, leaf;
    c, p, leaf := SecondReads();
    var m := c.m;
    assert WF(m) by { ReachInv(c); }
    c := SplitLeaf(c, 1, p, leaf, 2, 1);
    RootSplit(m, c.m, p.op.k, 0, 2, 1);
  }

  /** Five inserts, the last of which has filled slot 4 of a NODE_4 page and not raised its type. */
  lemma FivePublished() returns (c: State)
    ensures Reach(c) && Filled(c.m, 2, 5) && c.th.Keys == {0, 1, 2, 3, 4} && c.m.pre.Keys == {0, 1, 2, 3, 4, 5}
    ensures Raiser(c.th[4], 2)
  {
    c := FirstPage();
    c := FillOne(c, 2, 2, 2, 3);
    c := FillOne(c, 2, 3, 3, 4);
    c := FillOne(c, 2, 4, 4, 5);
  }

  /** A sixth insert meets slot 4 while it looks for a free slot. */
  lemma MeetsSlot() returns (c: State, op: Op)
    ensures Reach(c) && Filled(c.m, 2, 5) && c.m.pre.Keys == {0, 1, 2, 3, 4, 5} && 5 in c.th
    ensures !op.find && op.from == Root && op.k == KeyOf(4, 1) && op.crossed == {Slot(2, 4)} && !op.load
    ensures c.th[5] == At(Pos(op, Slot(2, 4), Fetch(c.m, Slot(2, 4)), 2, false)) && 4 in c.th && Raiser(c.th[4], 2)
  {
    c := FivePublished();
    var p := RootPos(c, KeyOf(4, 1));
    c := ToFilling(c, 2, 5, 5, p.op.k, 6);
    c := SkipTo(c, 2, 5, 5, p, 6, 4);
    op := Cross(p.op, true, Slot(2, 4));
    c := GoesThrough(c, p, 5, 6);
  }

  /** A thread that comes to slot 4 with a key of the same byte goes on below it. */
  lemma GoesThrough(c: State, p: Pos, t: Tid, a: Addr) returns (c': State)
    requires Reach(c) && Filled(c.m, 2, 5) && t in c.th && a !in c.m.pre && p.op.k == KeyOf(4, 1)
    requires c.th[t] == Filling(p, c.m.pages[2].hdr, Snap(c.m, 2, 4), 4) && p.e.NodeEntry? && p.e.addr == 2
    ensures Reach(c') && c'.m == c.m
    ensures var q := Pos(Cross(p.op, true, Slot(2, 4)), Slot(2, 4), Fetch(c.m, Slot(2, 4)), 2, false);
      c'.th == c.th[t := At(q)]
  {
    assert SlotHas(c.m, 2, 4);
    c' := Take(c, t, [], a, c.m);
  }

  /** A split below slot 4 of page 2 leaves the page's header as it is. */
  lemma HeaderKept(m: Mem, m': Mem, k: Key, v: Value, f: Bytes)
    requires 2 in m.pages && 7 !in m.pages && 8 !in m.pre
    requires m' == PutLeaf(Interpose(m, Slot(2, 4), 7, f), Slot(7, 1), 6, k, v)
    ensures 2 in m'.pages && m'.pages[2].hdr == m.pages[2].hdr && HasKey(m', k) && 8 !in m'.pre
  {
    var m1 := Interpose(m, Slot(2, 4), 7, f);
    assert 2 in m1.pages && m1.pages[2].hdr == m.pages[2].hdr;
    assert 6 in m'.leaves && m'.leaves[6].key == k;
  }

  lemma StillHidden(c: State, t: Tid, op: Op, x: Addr)
    requires Reach(c) && t in c.th && c.th[t] == Done(op, None) && !op.find && op.from == Root
    requires Slot(x, 4) in op.crossed
    requires x in c.m.pages && c.m.pages[x].hdr.ntype == NODE_4
    ensures View(c.m, op.k) == None
  {
    ReachInv(c);
    assert ThreadAt(c, t);
    PublishedVisible(c.m, op);
    assert !CrossedClearAt(c.m, Slot(x, 4));
  }

  /** It reads the leaf in slot 4, which has another key. */
  lemma GetsLeaf() returns (c: State, op: Op, p: Pos, leaf: Leaf)
    ensures Reach(c) && 5 in c.th && c.th[5] == GotLeaf(p, leaf) && leaf.key == KeyOf(4, 0) && 4 in c.th
    ensures Raiser(c.th[4], 2)
    ensures !op.find && op.from == Root && op.k == KeyOf(4, 1) && op.crossed == {Slot(2, 4)}
    ensures p.op == op && p.s == Slot(2, 4) && p.d == 2 && p.e.LeafEntry? && Fetch(c.m, p.s) == p.e
    ensures |Above(c.m, p.s)| == 1
    ensures FreshAddrs(c.m, [7], 6) && 8 !in c.m.pre && 2 in c.m.pages && c.m.pages[2].hdr.ntype == NODE_4
  {
    c, op := MeetsSlot();
    assert SlotHas(c.m, 2, 4);
    p := c.th[5].p;
    leaf := c.m.leaves[p.e.addr];
    c := ReadLeaf(c, 5, p, 6);
  }

  lemma SplitsSlot() returns (c: State, op: Op)
    ensures Reach(c) && 5 in c.th && c.th[5] == Done(op, None) && !op.find && op.from == Root
    ensures op.crossed == {Slot(2, 4)}
    ensures 2 in c.m.pages && c.m.pages[2].hdr.ntype == NODE_4 && HasKey(c.m, op.k) && 4 in c.th && Raiser(c.th[4], 2)
    ensures 8 !in c.m.pre
  {
    var p, leaf;
    c, op, p, leaf := GetsLeaf();
    var m := c.m;
    assert 7 !in m.pages by { ReachInv(c); assert [7][0] !in m.pre; }
    c := SplitLeaf(c, 5, p, leaf, 7, 6);
    HeaderKept(m, c.m, op.k, op.v, Path(op.k)[..2]);
  }

  /** It is false that a key can be found from the root once its insert has returned: an insert that passes through
      a slot behind the capacity returns although the type of the page has not been raised yet. */
  lemma ReturnedButHidden() returns (c: State, t: Tid)
    ensures Reach(c) && t in c.th && c.th[t].Done? && !c.th[t].op.find && c.th[t].op.from == Root
    ensures View(c.m, c.th[t].op.k) == None && HasKey(c.m, c.th[t].op.k)
  {
    var op;
    c, op := SplitsSlot();
    t := 5;
    StillHidden(c, t, op, 2);
  }

  /** The raiser's first step, on the parent entry, leaves the header alone. */
  lemma EntryCas(c: State, u: Tid, x: Addr) returns (c': State)
    requires Reach(c) && u in c.th && Raiser(c.th[u], x) && 8 !in c.m.pre && x in c.m.pages
    ensures Reach(c') && c'.th.Keys == c.th.Keys && (forall t :: t in c.th && t != u ==> c'.th[t] == c.th[t])
    ensures c'.m.pages == c.m.pages && c'.m.pre == c.m.pre && c'.th[u].Switching?
    ensures var w := c'.th[u].w; w.x == x && w.was == NODE_4 && w.next == NODE_8 && !w.r2 && w.phase.CasHeader?
  {
    var w := c.th[u].w;
    var m' := if w.e.NodeEntry? && Fetch(c.m, Root) == w.e then RaiseEntry(c.m, Root, w.e, w.next) else c.m;
    c' := Take(c, u, [], 8, m');
  }

  lemma HeaderCas(c: State, u: Tid, x: Addr) returns (c': State)
    requires Reach(c) && u in c.th && c.th[u].Switching? && 8 !in c.m.pre && x in c.m.pages
    requires c.m.pages[x].hdr.ntype == NODE_4
    requires var w := c.th[u].w; w.x == x && w.was == NODE_4 && w.next == NODE_8 && !w.r2 && w.phase.CasHeader?
    ensures Reach(c') && Next(c, c', u, Act.Thread([], 8))
    ensures StepThread(c.m, c.th[u], [], 8).eff == RaiseHeaderAt(x, NODE_4, NODE_8)
    ensures (forall t :: t in c.th && t != u ==> t in c'.th && c'.th[t] == c.th[t])
    ensures x in c'.m.pages && c'.m.pages[x].hdr.ntype == NODE_8
  {
    var m' := RaiseHeader(c.m, x, NODE_4, NODE_8);
    var o := StepThread(c.m, c.th[u], [], 8);
    c' := c.(m := m', th := c.th[u := o.l], posted := c.posted + multiset(o.sent));
    ReachNext(c, c', u, Act.Thread([], 8));
  }

  lemma NowVisible(c: State, t: Tid, op: Op, x: Addr)
    requires Reach(c) && t in c.th && c.th[t] == Done(op, None) && !op.find && op.from == Root
    requires op.crossed == {Slot(x, 4)}
    requires x in c.m.pages && c.m.pages[x].hdr.ntype == NODE_8
    ensures View(c.m, op.k).Some?
  {
    ReachInv(c);
    assert ThreadAt(c, t);
    PublishedVisible(c.m, op);
    assert CrossedClearAt(c.m, Slot(x, 4));
  }

  /** It is false that a header-type raise only reveals keys whose insert has not returned: in this step the raise by
      thread `u` makes a root search find the key of an insert that returned before. */
  lemma RaiseRevealsReturned() returns (c: State, c': State, t: Tid, u: Tid)
    ensures Reach(c) && Reach(c') && Next(c, c', u, Act.Thread([], 8)) && u in c.th && CanStep(c.th[u])
    ensures StepThread(c.m, c.th[u], [], 8).eff.RaiseHeaderAt?
    ensures t in c.th && c.th[t].Done? && !c.th[t].op.find && c.th[t].op.from == Root
    ensures View(c.m, c.th[t].op.k) == None && View(c'.m, c.th[t].op.k).Some?
  {
    var op;
    c, op := SplitsSlot();
    t, u := 5, 4;
    c := EntryCas(c, u, 2);
    StillHidden(c, t, op, 2);
    c' := HeaderCas(c, u, 2);
    NowVisible(c', t, op, 2);
  }
}
