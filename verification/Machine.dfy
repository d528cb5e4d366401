/** insert and search of src/Tree.cpp as threads that interleave at every remote operation. */
module Machine {
  import opened Keys
  import opened RemoteMemory
  import opened MemoryOps
  import opened Lookup
  import opened Splits

  /** One operation. `from` is the slot it started at, `crossed` the slots it went through that lay behind the
      capacity it had read, and `had` records whether a root search would have found the key when it began. */
  datatype Op = Op(find: bool, k: Key, v: Value, load: bool, from: SlotRef, crossed: set<SlotRef>, had: bool)

  /** Where a traversal is: entry `e` was read from slot `s` at depth `d`; `fc` says it came from a cache. */
  datatype Pos = Pos(op: Op, s: SlotRef, e: Entry, d: nat, fc: bool)

  /** The words of a page that have been read so far. */
  datatype Read = Read(hdr: Option<Header>, rev: Option<SlotRef>, snap: map<nat, Entry>)

  datatype Phase = CasEntry | CasHeader | Chase

  /** A type switch of page `x`: `s` and `e` are the entry in hand, `was` the header type in hand.
      `left` counts down with every failed round. */
  datatype Switch = Switch(op: Op, s: SlotRef, e: Entry, x: Addr, next: NodeType, was: NodeType,
                           r1: bool, r2: bool, phase: Phase, left: int)

  /** More rounds than a switch can ever need. */
  const ROUNDS: nat := 22

  datatype Local =
    | At(p: Pos)
    | Reread(p: Pos)
    | GotLeaf(p: Pos, leaf: Leaf)
    | Updating(uop: Op, a: Addr, ulf: Leaf)
    | Reading(p: Pos, r: Read)
    | Splitting(p: Pos, h: Header, i: nat)
    | Filling(p: Pos, fh: Header, snap: map<nat, Entry>, fi: nat)
    | Switching(w: Switch)
    | Done(op: Op, res: Option<Value>)

  /** The operation that a thread carries out. */
  function OpOf(l: Local): Op {
    match l
    case At(p) => p.op
    case Reread(p) => p.op
    case GotLeaf(p, _) => p.op
    case Updating(op, _, _) => op
    case Reading(p, _) => p.op
    case Splitting(p, _, _) => p.op
    case Filling(p, _, _, _) => p.op
    case Switching(w) => w.op
    case Done(op, _) => op
  }

  /** Remote operations that are posted and not waited for. */
  datatype Async =
    | Trim(x: Addr, was: Header, now: Header)
    | Rev(y: Addr, src: SlotRef, dst: SlotRef)

  /** What a remote operation does to the shared memory. */
  datatype Effect =
    | Keep
    | PutAt(s: SlotRef, k: Key, v: Value, a: Addr)
    | SplitAt(s: SlotRef, k: Key, v: Value, len: nat, addrs: seq<Addr>, a: Addr)
    | TrimAt(x: Addr, was: Header, now: Header)
    | RaiseHeaderAt(x: Addr, from: NodeType, to: NodeType)
    | RaiseEntryAt(s: SlotRef, e: Entry, to: NodeType)
    | RevAt(y: Addr, src: SlotRef, dst: SlotRef)
    | WriteAt(a: Addr, rev: SlotRef, v: Value)

  ghost predicate Applies(m: Mem, eff: Effect, m': Mem) {
    match eff
    case Keep => m' == m
    case PutAt(s, k, v, a) => m' == PutLeaf(m, s, a, k, v)
    case SplitAt(s, k, v, len, addrs, a) => SplitTo(m, m', s, k, v, len, addrs, a)
    case TrimAt(x, was, now) => m' == TrimHeader(m, x, was, now)
    case RaiseHeaderAt(x, from, to) => m' == RaiseHeader(m, x, from, to)
    case RaiseEntryAt(s, e, to) => e.NodeEntry? && m' == RaiseEntry(m, s, e, to)
    case RevAt(y, src, dst) => m' == CasRev(m, y, src, dst)
    case WriteAt(a, rev, v) => m' == WriteLeaf(m, a, rev, v)
  }

  /** What a thread does in one step: its effect on the memory, its next local state, what it posts. */
  datatype Out = Out(eff: Effect, l: Local, sent: set<Async>)

  datatype Word = HdrWord | RevWord | SlotWord(i: nat)

  /** The common length of two paths from depth `d` on. */
  function CommonLen(p: Bytes, q: Bytes, d: nat): (n: nat)
    requires |p| == |q|
    ensures forall i :: d <= i < d + n && i < |p| ==> p[i] == q[i]
    ensures d + n < |p| ==> p[d + n] != q[d + n]
    ensures d <= |p| ==> d + n <= |p|
    decreases |p| - d
  {
    if d >= |p| || p[d] != q[d] then 0 else 1 + CommonLen(p, q, d + 1)
  }

  /** Header byte `i` is the key's byte at its depth. */
  predicate Agrees(h: Header, k: Key, i: nat) {
    i < |h.partial| && h.depth + i <= KEY_LEN && Path(k)[h.depth + i] == h.partial[i]
  }

  /** The first header byte that differs from the key, or the header's length. */
  function FirstMismatch(h: Header, k: Key, i: nat := 0): (j: nat)
    requires i <= |h.partial|
    ensures i <= j <= |h.partial| && (j < |h.partial| ==> !Agrees(h, k, j))
    ensures forall l :: i <= l < j ==> Agrees(h, k, l)
    decreases |h.partial| - i
  {
    if Agrees(h, k, i) then FirstMismatch(h, k, i + 1) else i
  }

  /** The first read slot below `n` that holds byte `b`, or `n`. */
  function ScanSnap(snap: map<nat, Entry>, b: Byte, n: nat, i: nat := 0): (j: nat)
    requires i <= n
    ensures i <= j <= n
    ensures j < n ==> j in snap && !snap[j].Null? && snap[j].partial == b
    ensures forall l :: i <= l < j && l in snap ==> snap[l].Null? || snap[l].partial != b
    decreases n - i
  {
    if i == n then n
    else if i in snap && !snap[i].Null? && snap[i].partial == b then i
    else ScanSnap(snap, b, n, i + 1)
  }

  function NumToNodeType(n: nat): (t: NodeType)
    requires n < SLOTS
    ensures n > 0 ==> t != DELETED && n < Capacity(t)
    ensures n > 0 ==> forall u: NodeType :: u != DELETED && n < Capacity(u) ==> t <= u
  {
    if n == 0 then 0 else if n < 4 then 1 else if n < 8 then 2 else if n < 16 then 3
    else if n < 32 then 4 else if n < 64 then 5 else if n < 128 then 6 else 7
  }

  /** label `next`: look at the entry in hand. */
  function StepAt(m: Mem, p: Pos, a: Addr): Out {
    match p.e
    case Null =>
      if p.op.find then Out(Keep, Done(p.op, None), {})
      else if Fetch(m, p.s).Null? then Out(PutAt(p.s, p.op.k, p.op.v, a), Done(p.op, None), {})
      else Out(Keep, At(p.(e := Fetch(m, p.s))), {})
    case LeafEntry(_, b) =>
      if b !in m.leaves then Out(Keep, At(p), {}) else
      var leaf := m.leaves[b];
      var sent := if !p.fc && leaf.rev != p.s then {Rev(b, leaf.rev, p.s)} else {};
      if p.fc && leaf.rev != p.s then Out(Keep, Reread(p), sent)
      else if p.op.find then Out(Keep, Done(p.op, if leaf.key == p.op.k then Some(leaf.value) else None), sent)
      else if leaf.key != p.op.k then Out(Keep, GotLeaf(p, leaf), sent)
      else if p.op.load || leaf.value == p.op.v then Out(Keep, Done(p.op, None), sent)
      else Out(Keep, Updating(p.op, b, leaf), sent)
    case NodeEntry(_, _, x) => Out(Keep, Reading(p, Read(None, None, map[])), {})
  }

  function StepReread(m: Mem, p: Pos): Out {
    Out(Keep, At(p.(e := Fetch(m, p.s), fc := false)), {})
  }

  function LastAddr(addrs: seq<Addr>): Addr {
    if addrs == [] then 0 else addrs[|addrs| - 1]
  }

  /** The leaf in hand has another key: put a chain of pages above both. */
  function StepGotLeaf(m: Mem, p: Pos, leaf: Leaf, addrs: seq<Addr>, a: Addr): Out {
    if Fetch(m, p.s) == p.e && !p.e.Null? then
      Out(SplitAt(p.s, p.op.k, p.op.v, LeafLen(p, leaf), addrs, a), Done(p.op, None),
          {Rev(p.e.addr, p.s, Slot(LastAddr(addrs), 0))})
    else
      Out(Keep, At(p.(e := Fetch(m, p.s))), {})
  }

  function LeafLen(p: Pos, leaf: Leaf): nat {
    CommonLen(Path(leaf.key), Path(p.op.k), p.d)
  }

  /** One word of a page read; the words of one read may come from different moments. */
  function StepWord(m: Mem, p: Pos, r: Read, w: Word): Read {
    if !p.e.NodeEntry? || p.e.addr !in m.pages then r else
    match w
    case HdrWord => if r.hdr.None? then r.(hdr := Some(m.pages[p.e.addr].hdr)) else r
    case RevWord => if r.rev.None? then r.(rev := Some(m.pages[p.e.addr].rev)) else r
    case SlotWord(i) =>
      if i < SLOTS && i !in r.snap then r.(snap := r.snap[i := Fetch(m, Slot(p.e.addr, i))]) else r
  }

  predicate PageRead(p: Pos, r: Read) {
    && p.e.NodeEntry? && r.hdr.Some? && r.rev.Some?
    && (forall i :: 0 <= i < Capacity(r.hdr.value.ntype) ==> i in r.snap)
  }

  /** `is_valid`: the header is not deeper than the slot, and a cached entry is confirmed by the reverse pointer. */
  predicate Rejected(p: Pos, r: Read)
    requires PageRead(p, r)
  {
    r.hdr.value.ntype == DELETED || r.hdr.value.depth > p.d || (p.fc && r.rev.value != p.s)
  }

  /** The page is read: check it, compare the header, look for the next slot. */
  function StepDecide(p: Pos, r: Read): Out
    requires PageRead(p, r)
  {
    var h := r.hdr.value;
    var q := p.(e := p.e.(ntype := h.ntype));
    var sent := if !p.fc && r.rev.value != p.s then {Rev(p.e.addr, r.rev.value, p.s)} else {};
    if Rejected(p, r) then Out(Keep, Reread(p), sent) else
    var i := FirstMismatch(h, p.op.k);
    if i < |h.partial| then
      Out(Keep, if p.op.find then Done(p.op, None) else Splitting(q, h, i), sent)
    else if h.depth + |h.partial| > KEY_LEN then Out(Keep, Done(p.op, None), sent)
    else Out(Keep, StepRecords(q, h, r.snap, h.depth + |h.partial|), sent)
  }

  /** The header matches up to depth `f`: take the slot with the key's next byte, or look for a free one. */
  function StepRecords(p: Pos, h: Header, snap: map<nat, Entry>, f: nat): Local
    requires f <= KEY_LEN && p.e.NodeEntry?
  {
    var n := Capacity(h.ntype);
    var j := ScanSnap(snap, Path(p.op.k)[f], n);
    if j < n then At(Pos(p.op, Slot(p.e.addr, j), snap[j], f + 1, false))
    else if p.op.find then Done(p.op, None)
    else Filling(p, h, snap, 0)
  }

  /** The header differs from the key at byte `i`: split above the page and post the trim of its header. */
  function StepSplitting(m: Mem, p: Pos, h: Header, i: nat, addrs: seq<Addr>, a: Addr): Out
    requires i < |h.partial|
  {
    if Fetch(m, p.s) == p.e && !p.e.Null? then
      Out(SplitAt(p.s, p.op.k, p.op.v, SplitLen(p, h, i), addrs, a), Done(p.op, None),
          {Rev(p.e.addr, p.s, Slot(LastAddr(addrs), 0)), Trim(p.e.addr, h, SplitHeader(h, i))})
    else
      Out(Keep, At(p.(e := Fetch(m, p.s))), {})
  }

  function SplitLen(p: Pos, h: Header, i: nat): nat {
    if h.depth + i >= p.d then h.depth + i - p.d else 0
  }

  function Cross(op: Op, behind: bool, t: SlotRef): Op {
    if behind then op.(crossed := op.crossed + {t}) else op
  }

  /** No slot matches: try the free slots in order, then the slots behind the capacity. */
  function StepFilling(m: Mem, p: Pos, h: Header, snap: map<nat, Entry>, i: nat, a: Addr): Out
    requires p.e.NodeEntry? && i < SLOTS && h.depth + |h.partial| <= KEY_LEN
  {
    var n := Capacity(h.ntype);
    var f := h.depth + |h.partial|;
    var t := Slot(p.e.addr, i);
    var op := Cross(p.op, i >= n, t);
    if i < n && i in snap && !snap[i].Null? then
      Out(Keep, Filling(p, h, snap, i + 1), {})
    else if Fetch(m, t).Null? then
      Out(PutAt(t, op.k, op.v, a),
          if i < n then Done(op, None)
          else Switching(Switch(op, p.s, p.e, p.e.addr, NumToNodeType(i), h.ntype, false, false, CasEntry, ROUNDS)),
          {})
    else if Fetch(m, t).partial == Path(op.k)[f] then
      Out(Keep, At(Pos(op, t, Fetch(m, t), f + 1, false)), {})
    else
      Out(Keep, Filling(p, h, snap, i + 1), {})
  }

  /** cas_node_type: raise the type in the parent entry and in the header; after a failed entry CAS, chase the page. */
  function StepSwitching(m: Mem, w: Switch): Out {
    match w.phase
    case CasEntry =>
      if w.r1 then Out(Keep, Switching(w.(phase := CasHeader)), {})
      else if w.e.NodeEntry? && Fetch(m, w.s) == w.e then
        Out(RaiseEntryAt(w.s, w.e, w.next), Switching(w.(r1 := true, phase := CasHeader)), {})
      else Out(Keep, Switching(w.(e := Fetch(m, w.s), phase := CasHeader)), {})
    case CasHeader =>
      if w.r2 || w.x !in m.pages then Out(Keep, Switching(w.(phase := Chase)), {})
      else
        var t := m.pages[w.x].hdr.ntype;
        Out(RaiseHeaderAt(w.x, w.was, w.next),
            Switching(w.(was := t, r2 := t == w.was || t >= w.next, phase := Chase)), {})
    case Chase =>
      if !w.r1 && w.e.NodeEntry? && w.e.addr != w.x then
        Out(Keep, Switching(w.(s := Slot(w.e.addr, 0), e := Fetch(m, Slot(w.e.addr, 0)))), {})
      else
        var r1 := w.r1 || !w.e.NodeEntry? || w.e.addr != w.x || w.e.ntype >= w.next;
        var again := Switching(w.(r1 := r1, phase := CasEntry, left := w.left - 1));
        Out(Keep, if r1 && w.r2 then Done(w.op, None) else again, {})
  }

  /** How many pages the next step allocates. */
  function Pages(l: Local): nat {
    match l
    case GotLeaf(p, leaf) => ChainLen(LeafLen(p, leaf))
    case Splitting(p, h, i) => ChainLen(SplitLen(p, h, i))
    case _ => 0
  }

  predicate CanStep(l: Local) {
    match l
    case Reading(p, r) => PageRead(p, r)
    case Splitting(_, h, i) => i < |h.partial|
    case Filling(p, h, _, i) => p.e.NodeEntry? && i < SLOTS && h.depth + |h.partial| <= KEY_LEN
    case Done(_, _) => false
    case _ => true
  }

  /** The next remote operation of a thread, other than the words of a page read. */
  function StepThread(m: Mem, l: Local, addrs: seq<Addr>, a: Addr): Out
    requires CanStep(l)
  {
    match l
    case At(p) => StepAt(m, p, a)
    case Reread(p) => StepReread(m, p)
    case GotLeaf(p, leaf) => StepGotLeaf(m, p, leaf, addrs, a)
    case Updating(op, b, leaf) => Out(WriteAt(b, leaf.rev, op.v), Done(op, None), {})
    case Reading(p, r) => StepDecide(p, r)
    case Splitting(p, h, i) => StepSplitting(m, p, h, i, addrs, a)
    case Filling(p, h, snap, i) => StepFilling(m, p, h, snap, i, a)
    case Switching(w) => StepSwitching(m, w)
  }

  function AsyncEffect(q: Async): Effect {
    match q
    case Trim(x, was, now) => TrimAt(x, was, now)
    case Rev(y, src, dst) => RevAt(y, src, dst)
  }

  // the whole system

  type Tid = nat

  /** `seen` is what the caches of the compute nodes remember: entries and the slots they were read from. */
  datatype State = State(m: Mem, th: map<Tid, Local>, posted: multiset<Async>, seen: set<(SlotRef, Entry)>)

  datatype Act =
    | Begin(op: Op)
    | BeginCached(op: Op, s: SlotRef, e: Entry)
    | Remember(s: SlotRef)
    | Word(w: Word)
    | Thread(addrs: seq<Addr>, a: Addr)
    | Post(q: Async)

  ghost predicate Init(c: State) {
    c == State(Mem(Null, map[], map[], map[], map[]), map[], multiset{}, {})
  }

  ghost predicate Next(c: State, c': State, t: Tid, act: Act) {
    match act
    case Begin(op) =>
      && t !in c.th
      && op.from == Root && op.crossed == {} && op.had == View(c.m, op.k).Some?
      && c' == c.(th := c.th[t := At(Pos(op, Root, c.m.root, 1, false))])
    case BeginCached(op, s, e) =>
      && t !in c.th && !op.find
      && (s, e) in c.seen && s.Slot? && !e.Null?
      && Under(Above(c.m, s), e.partial, Path(op.k))
      && op.from == s && op.crossed == {} && !op.had
      && c' == c.(th := c.th[t := At(Pos(op, s, e, |Above(c.m, s)| + 1, true))])
    case Remember(s) =>
      && !Fetch(c.m, s).Null?
      && c' == c.(seen := c.seen + {(s, Fetch(c.m, s))})
    case Word(w) =>
      && t in c.th && c.th[t].Reading?
      && c' == c.(th := c.th[t := Reading(c.th[t].p, StepWord(c.m, c.th[t].p, c.th[t].r, w))])
    case Thread(addrs, a) =>
      && t in c.th && CanStep(c.th[t]) && FreshAddrs(c.m, addrs, a) && |addrs| == Pages(c.th[t])
      && var o := StepThread(c.m, c.th[t], addrs, a);
      Applies(c.m, o.eff, c'.m) && c' == c.(m := c'.m, th := c.th[t := o.l], posted := c.posted + multiset(o.sent))
    case Post(q) =>
      && q in c.posted
      && Applies(c.m, AsyncEffect(q), c'.m) && c' == c.(m := c'.m, posted := c.posted - multiset{q})
  }
}
