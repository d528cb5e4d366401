/** insert and search in a sequential run, from the root or from any cached entry. */
module SequentialTree {
  import opened Keys
  import opened RemoteMemory
  import opened MemoryOps
  import opened Lookup
  import opened Splits
  import opened StaleEntries
  import opened Machine
  import opened Invariant
  import opened Steps
  import opened PageSteps
  import opened Runs
  import opened Views
  import opened Settling
  import opened SettlingSteps
  import opened ChainWriter
  import opened NewPages
  import TypeSizes

  /** A cache hit: entry `e` was once read from slot `s`, whose page ends at `depth`. */
  datatype Hit = Hit(s: SlotRef, e: Entry, depth: nat)

  ghost predicate HitOK(m: Mem, h: Hit) {
    h.s.Slot? && Held(m, h.s, h.e) && h.depth == |Above(m, h.s)|
  }

  /** The cached entry lies on the path of `k`. */
  ghost predicate Toward(m: Mem, h: Hit, k: Key) {
    !h.e.Null? && Under(Above(m, h.s), h.e.partial, Path(k))
  }

  /** A hit stays good while the tree grows: an entry read at any earlier time may be used. */
  lemma HitStable(m: Mem, m': Mem, h: Hit, k: Key)
    requires WF(m) && WF(m') && Grows(m, m') && HitOK(m, h)
    ensures HitOK(m', h) && (Toward(m', h, k) <==> Toward(m, h, k))
  {
    HeldStable(m, m', h.s, h.e);
    FilledIn(m, h.s);
    AboveStable(m, m', h.s);
  }

  /** A traversal for `k` holds entry `e` of slot `s` at depth `d`; `fc` says that it came from the cache. */
  ghost predicate On(m: Mem, k: Key, s: SlotRef, e: Entry, d: nat, fc: bool) {
    && SlotIn(m, s) && d == |Above(m, s)| + 1 <= PATH_LEN && Ext(Above(m, s), Path(k))
    && (if e.Null? then s.Root? && m.root.Null? else Held(m, s, e) && OnPath(m, s, k))
    && (!fc ==> e == Fetch(m, s))
  }

  lemma OnRoot(m: Mem, k: Key)
    requires WF(m)
    ensures On(m, k, Root, m.root, 1, false)
  {
    if !m.root.Null? { HeldNow(m, Root); RootByte(m); }
  }

  lemma OnHit(m: Mem, k: Key, h: Hit)
    requires WF(m) && HitOK(m, h) && Toward(m, h, k)
    ensures On(m, k, h.s, h.e, h.depth + 1, true)
  {
    FilledIn(m, h.s);
  }

  lemma OnReread(m: Mem, k: Key, s: SlotRef, e: Entry, d: nat)
    requires WF(m) && On(m, k, s, e, d, true) && !e.Null?
    ensures On(m, k, s, Fetch(m, s), d, false)
  {
    HeldNow(m, s);
  }

  lemma OnRecord(m: Mem, k: Key, x: Addr, j: nat)
    requires WF(m) && x in m.pages && |m.pre[x]| <= KEY_LEN && Ext(m.pre[x], Path(k))
    requires j < SLOTS && !Fetch(m, Slot(x, j)).Null? && Fetch(m, Slot(x, j)).partial == Path(k)[|m.pre[x]|]
    ensures On(m, k, Slot(x, j), Fetch(m, Slot(x, j)), |m.pre[x]| + 1, false)
  {
    HeldNow(m, Slot(x, j));
  }

  lemma PageKind(m: Mem, k: Key, s: SlotRef, e: Entry, d: nat, fc: bool)
    requires WF(m) && On(m, k, s, e, d, fc) && e.NodeEntry? && e.addr in m.pages
    ensures m.pages[e.addr].hdr.ntype != DELETED && (!fc ==> m.pages[e.addr].hdr.depth <= d)
  {
    assert EntryAt(m, s) && PageAt(m, e.addr);
  }

  /** A valid page is what the slot points to now, and its header starts at the slot's depth. */
  lemma PageNow(m: Mem, k: Key, s: SlotRef, e: Entry, d: nat, fc: bool)
    requires Settled(m) && On(m, k, s, e, d, fc) && e.NodeEntry? && e.addr in m.pages
    requires fc ==> m.pages[e.addr].rev == s
    ensures m.par[e.addr] == s && m.pages[e.addr].rev == s && e.addr in m.pre
    ensures Fetch(m, s) == e.(ntype := m.pages[e.addr].hdr.ntype) && m.pages[e.addr].hdr.depth == d
    ensures |m.pages[e.addr].records| == SLOTS && PageOK(m.pages[e.addr], m.pre[e.addr])
  {
    var x := e.addr;
    assert SettledAt(m, x) && EntryAt(m, s) && OwnerAt(m, x) && PageAt(m, x);
    if fc { HeldCurrent(m, s, e); }
  }

  lemma LeafNow(m: Mem, k: Key, s: SlotRef, e: Entry, d: nat, fc: bool)
    requires Settled(m) && On(m, k, s, e, d, fc) && e.LeafEntry? && e.addr in m.leaves
    requires fc ==> m.leaves[e.addr].rev == s
    ensures Fetch(m, s) == e && m.leaves[e.addr].rev == s && e.addr in m.par && m.par[e.addr] == s
  {
    assert SettledAt(m, e.addr) && EntryAt(m, s) && OwnerAt(m, e.addr);
    if fc { HeldCurrent(m, s, e); }
  }

  /** A header whose bytes all agree with the key puts the key below the page. */
  lemma PageMatches(m: Mem, k: Key, s: SlotRef, x: Addr)
    requires WF(m) && OnPath(m, s, k) && Fetch(m, s).NodeEntry? && Fetch(m, s).addr == x && x in m.pages
    requires FirstMismatch(m.pages[x].hdr, k) == |m.pages[x].hdr.partial|
    ensures |m.pre[x]| <= KEY_LEN && Ext(m.pre[x], Path(k))
    ensures m.pages[x].hdr.depth + |m.pages[x].hdr.partial| == |m.pre[x]|
  {
    assert EntryAt(m, s) && PageAt(m, x);
    var h, f := m.pages[x].hdr, m.pre[x];
    forall i | 0 <= i < |f| ensures f[i] == Path(k)[i] {
      if i >= h.depth { assert Agrees(h, k, i - h.depth); }
    }
  }

  /** The first header byte that differs from the key, or the header's length. */
  method CompareHeader(h: Header, k: Key) returns (i: nat)
    ensures i == FirstMismatch(h, k)
  {
    i := 0;
    while i < |h.partial| && Agrees(h, k, i)
      invariant i <= |h.partial| && FirstMismatch(h, k) == FirstMismatch(h, k, i)
    {
      i := i + 1;
    }
  }

  /** The first of the first `n` records that holds byte `b`, or `n`. */
  method FindRecord(r: seq<Entry>, b: Byte, n: nat) returns (j: nat)
    requires n <= |r|
    ensures j == Scan(r, b, n)
  {
    j := 0;
    while j < n && (r[j].Null? || r[j].partial != b)
      invariant j <= n && Scan(r, b, n) == Scan(r, b, n, j)
    {
      j := j + 1;
    }
  }

  /** What a root search sees after an insert. */
  ghost predicate Updated(m: Mem, m': Mem, k: Key, v: Value) {
    forall j: Key :: View(m', j) == if j == k then Some(v) else View(m, j)
  }

  ghost predicate SameRest(m: Mem, m': Mem, a: Addr, b: Addr) {
    b != a ==> (b in m.leaves <==> b in m'.leaves)
               && (b in m.leaves ==> m'.leaves[b].key == m.leaves[b].key && m'.leaves[b].value == m.leaves[b].value)
  }

  /** Two settled memories whose leaves differ only in leaf `a` of key `k`. */
  lemma LeafUpdated(m: Mem, m': Mem, a: Addr, k: Key, v: Value)
    requires Settled(m) && Settled(m') && a in m'.leaves && m'.leaves[a].key == k && m'.leaves[a].value == v
    requires if a in m.leaves then m.leaves[a].key == k else View(m, k) == None
    requires forall b :: SameRest(m, m', a, b)
    ensures Updated(m, m', k, v)
  {
    forall j: Key ensures View(m', j) == if j == k then Some(v) else View(m, j) {
      SettledView(m, j);
      SettledView(m', j);
      forall b ensures SameRest(m, m', a, b) {}
      if j != k { OtherKey(m, m', a, j); }
    }
  }

  lemma OtherKey(m: Mem, m': Mem, a: Addr, j: Key)
    requires Settled(m) && Settled(m') && a in m'.leaves && m'.leaves[a].key != j
    requires a in m.leaves ==> m.leaves[a].key != j
    requires forall b :: SameRest(m, m', a, b)
    ensures View(m', j) == View(m, j)
  {
    SettledView(m, j);
    SettledView(m', j);
    if b :| b in m.leaves && m.leaves[b].key == j {
      assert SameRest(m, m', a, b);
    } else {
      forall b | b in m'.leaves ensures m'.leaves[b].key != j { assert SameRest(m, m', a, b); }
    }
  }

  method CommonPrefix(p: Bytes, q: Bytes, d: nat) returns (n: nat)
    requires |p| == |q| && d <= |p|
    ensures n == CommonLen(p, q, d)
  {
    n := 0;
    while d + n < |p| && p[d + n] == q[d + n]
      invariant d + n <= |p| && CommonLen(p, q, d) == n + CommonLen(p, q, d + n)
    {
      n := n + 1;
    }
  }

  /** The key in hand and the key of the leaf fork below the slot. */
  lemma LeafForks(m: Mem, k: Key, s: SlotRef, e: Entry, d: nat, j: Key)
    requires WF(m) && On(m, k, s, e, d, false) && e.LeafEntry? && e.addr in m.leaves && m.leaves[e.addr].key == j != k
    ensures var len := CommonLen(Path(j), Path(k), d);
      Diverges(m, s, k, len) && d + len <= KEY_LEN && m.pre[e.addr][d + len] == Path(j)[d + len]
  {
    assert m.pre[e.addr] == Path(j) by { assert LeafAt(m, e.addr); }
    assert Path(j)[..d] == Path(k)[..d] by {
      assert EntryAt(m, s);
      SameStart(Above(m, s), e.partial, Path(j), Path(k), d);
    }
    if d + CommonLen(Path(j), Path(k), d) > KEY_LEN { SamePath(j, k, d); }
    ForkHere(Path(j), Path(k), d);
  }

  lemma SameStart(f: Bytes, b: Byte, p: Bytes, q: Bytes, d: nat)
    requires Under(f, b, p) && Under(f, b, q) && d == |f| + 1
    ensures p[..d] == q[..d]
  {}

  lemma ForkHere(p: Bytes, q: Bytes, d: nat)
    requires |p| == |q| && d <= |p| && p[..d] == q[..d]
    ensures forall i :: 0 <= i < d + CommonLen(p, q, d) ==> p[i] == q[i]
  {
    forall i | 0 <= i < d + CommonLen(p, q, d) ensures p[i] == q[i] {
      if i < d { assert p[..d][i] == q[..d][i]; }
    }
  }

  lemma SamePath(j: Key, k: Key, d: nat)
    requires d <= PATH_LEN && d + CommonLen(Path(j), Path(k), d) >= PATH_LEN && Path(j)[..d] == Path(k)[..d]
    ensures j == k
  {
    forall i | 0 <= i < PATH_LEN ensures Path(j)[i] == Path(k)[i] {
      if i < d { assert Path(j)[..d][i] == Path(k)[..d][i]; }
    }
    PathInjective(j, k);
  }

  /** The key leaves the page's header at byte `i`. */
  lemma HeaderForks(m: Mem, k: Key, s: SlotRef, x: Addr, d: nat, i: nat)
    requires WF(m) && OnPath(m, s, k) && d == |Above(m, s)| + 1 && Fetch(m, s).NodeEntry? && Fetch(m, s).addr == x
    requires x in m.pages
    requires m.pages[x].hdr.depth == d && i == FirstMismatch(m.pages[x].hdr, k) < |m.pages[x].hdr.partial|
    ensures Diverges(m, s, k, i) && d + i < |m.pre[x]| && m.pre[x][d + i] == m.pages[x].hdr.partial[i]
  {
    assert EntryAt(m, s) && PageAt(m, x);
    var h, f := m.pages[x].hdr, m.pre[x];
    forall l | 0 <= l < d + i ensures f[l] == Path(k)[l] {
      if l >= d { assert Agrees(h, k, l - d); }
    }
  }

  /** `n` addresses from `next` on. */
  function Block(next: Addr, n: nat): seq<Addr> {
    seq(n, i requires 0 <= i => next + i)
  }

  lemma BlockFresh(m: Mem, next: Addr, n: nat)
    requires forall y :: y in m.pre ==> y < next
    ensures FreshAddrs(m, Block(next, n), next + n)
  {}

  lemma {:induction false} ChainKeys(ms: seq<Mem>, s: SlotRef, k: Key, len: nat, addrs: seq<Addr>, i: nat, y: Addr)
    requires |ms| == |addrs| + 1 && i <= |addrs| && (forall l :: Link(ms, s, k, len, addrs, l)) && y in ms[i].pre
    ensures y in ms[0].pre || y in addrs
    decreases i
  {
    if i > 0 {
      assert Link(ms, s, k, len, addrs, i - 1);
      if y != addrs[i - 1] { ChainKeys(ms, s, k, len, addrs, i - 1, y); }
    }
  }

  /** A split uses no other addresses than those it was given. */
  lemma SplitBelow(m: Mem, m': Mem, s: SlotRef, k: Key, v: Value, len: nat, n: nat, next: Addr)
    requires SplitTo(m, m', s, k, v, len, Block(next, n), next + n) && forall y :: y in m.pre ==> y < next
    ensures forall y :: y in m'.pre ==> y < next + n + 1
  {
    var addrs := Block(next, n);
    var ms :| SplitBy(ms, m, m', s, k, v, len, addrs, next + n);
    forall y | y in m'.pre ensures y < next + n + 1 {
      if y != next + n { ChainKeys(ms, s, k, len, addrs, |addrs|, y); }
    }
  }

  lemma FreeAt(m: Mem, x: Addr, b: Byte, j: nat)
    requires WF(m) && x in m.pages && j < SLOTS && Fetch(m, Slot(x, j)).Null?
    requires forall l :: 0 <= l < j ==> HoldsOther(m, x, l, b)
    ensures FirstFree(m, Slot(x, j), b)
  {}

  /** The first free one of the first `n` records, or `n`. */
  method FindFree(r: seq<Entry>, n: nat) returns (j: nat)
    requires n <= |r|
    ensures j <= n && (j < n ==> r[j].Null?) && forall l :: 0 <= l < j ==> !r[l].Null?
  {
    j := 0;
    while j < n && !r[j].Null?
      invariant j <= n && forall l :: 0 <= l < j ==> !r[l].Null?
    {
      j := j + 1;
    }
  }

  /** The first slot from `n` on that is free or holds byte `b`. */
  method FindBehind(m: Mem, x: Addr, b: Byte, n: nat) returns (i: nat)
    requires WF(m) && x in m.pages && n <= SLOTS && forall l :: 0 <= l < n ==> HoldsOther(m, x, l, b)
    ensures n <= i < SLOTS && (Fetch(m, Slot(x, i)).Null? || Fetch(m, Slot(x, i)).partial == b)
    ensures forall l :: 0 <= l < i ==> HoldsOther(m, x, l, b)
  {
    i := n;
    NotFull(m, x, b, i);
    while !Fetch(m, Slot(x, i)).Null? && Fetch(m, Slot(x, i)).partial != b
      invariant n <= i < SLOTS && forall l :: 0 <= l < i ==> HoldsOther(m, x, l, b)
      decreases SLOTS - i
    {
      i := i + 1;
      NotFull(m, x, b, i);
    }
  }

  /** Slots that hold no free record and not the byte hold other bytes. */
  lemma OthersBelow(m: Mem, x: Addr, b: Byte, n: nat, j: nat)
    requires WF(m) && x in m.pages && |m.pages[x].records| == SLOTS && j <= n <= SLOTS
    requires Scan(m.pages[x].records, b, n) == n && forall l :: 0 <= l < j ==> !m.pages[x].records[l].Null?
    ensures forall l :: 0 <= l < j ==> HoldsOther(m, x, l, b)
  {}

  /** Between operations: the tree is settled, and addresses from `next` on are free. */
  ghost predicate Good(m: Mem, next: Addr) {
    Settled(m) && forall y :: y in m.pre ==> y < next
  }

  /** out_of_place_write_node: write the chain, swap the parent entry, CAS the reverse pointer of the old target. */
  method WriteAbove(m: Mem, next: Addr, k: Key, v: Value, s: SlotRef, e: Entry, d: nat, len: nat, diff: Byte)
    returns (ghost m1: Mem, m': Mem, n: nat)
    requires WF(m) && Diverges(m, s, k, len) && (forall y :: y in m.pre ==> y < next)
    requires e == Fetch(m, s) && d == |Above(m, s)| + 1 && diff == m.pre[e.addr][d + len]
    ensures n == ChainLen(len) && SplitTo(m, m1, s, k, v, len, Block(next, n), next + n)
    ensures m' == CasRev(m1, e.addr, s, Slot(Block(next, n)[n - 1], 0))
  {
    n := ChainLen(len);
    var addrs := Block(next, n);
    BlockFresh(m, next, n);
    m' := WriteNode(m, k, v, d, len, diff, s, e, addrs, next + n);
    m1 := m';
    m' := CasRev(m', e.addr, s, Slot(addrs[n - 1], 0));
  }

  lemma AboveMade(m: Mem, m1: Mem, m': Mem, k: Key, v: Value, s: SlotRef, len: nat, n: nat, next: Addr)
    requires WF(m) && Diverges(m, s, k, len) && (forall y :: y in m.pre ==> y < next)
    requires SplitTo(m, m1, s, k, v, len, Block(next, n), next + n) && m'.pages.Keys == m1.pages.Keys
    requires m'.pre == m1.pre
    ensures Made(m, m', k, Block(next, n))
  {
    BlockFresh(m, next, n);
    SplitMade(m, m1, s, k, v, len, Block(next, n), next + n);
    MadeKept(m, m1, m', k, Block(next, n));
  }

  ghost predicate SameEntries(m: Mem, m': Mem) {
    forall t :: Fetch(m', t) == Fetch(m, t)
  }

  lemma AboveMoves(m: Mem, m1: Mem, m': Mem, k: Key, v: Value, s: SlotRef, len: nat, n: nat, next: Addr)
    requires WF(m) && Diverges(m, s, k, len) && (forall y :: y in m.pre ==> y < next)
    requires SplitTo(m, m1, s, k, v, len, Block(next, n), next + n) && SameEntries(m1, m')
    ensures SlotsAfter(m, m', s, true)
  {
    BlockFresh(m, next, n);
    SplitMoves(m, m1, s, k, v, len, Block(next, n), next + n);
    forall t | t != s ensures SlotKept(m, m', t) { assert SlotKept(m, m1, t); }
  }

  lemma CasRevKeeps(m: Mem, y: Addr, was: SlotRef, now: SlotRef)
    ensures var m' := CasRev(m, y, was, now); m'.pages.Keys == m.pages.Keys && m'.pre == m.pre && SameEntries(m, m')
  {}

  lemma RepairKeeps(m: Mem, y: Addr, was: SlotRef, now: SlotRef, h: Header, h': Header)
    ensures var m' := TrimHeader(CasRev(m, y, was, now), y, h, h');
      m'.pages.Keys == m.pages.Keys && m'.pre == m.pre && SameEntries(m, m')
  {
    CasRevKeeps(m, y, was, now);
    TrimKeeps(CasRev(m, y, was, now), y, h, h');
  }

  lemma TrimKeeps(m: Mem, y: Addr, h: Header, h': Header)
    ensures var m' := TrimHeader(m, y, h, h'); m'.pages.Keys == m.pages.Keys && m'.pre == m.pre && SameEntries(m, m')
  {}

  /** The new page or pages go above the leaf in the slot. */
  method AboveLeaf(m: Mem, next: Addr, k: Key, v: Value, s: SlotRef, e: Entry, d: nat)
    returns (m': Mem, made: seq<Addr>)
    requires Good(m, next) && On(m, k, s, e, d, false) && e.LeafEntry? && m.leaves[e.addr].key != k
    requires View(m, k) == None
    ensures Good(m', next + |made| + 1) && Grows(m, m') && Updated(m, m', k, v) && Made(m, m', k, made)
    ensures SlotsAfter(m, m', s, true)
  {
    var j := m.leaves[e.addr].key;
    var len := CommonPrefix(Path(j), Path(k), d);
    LeafForks(m, k, s, e, d, j);
    ghost var m1;
    var n;
    m1, m', n := WriteAbove(m, next, k, v, s, e, d, len, Path(j)[d + len]);
    made := Block(next, n);
    LeafSplit(m, m1, m', k, v, s, e, d, len, n, next);
    CasRevKeeps(m1, e.addr, s, Slot(made[n - 1], 0));
    AboveMade(m, m1, m', k, v, s, len, n, next);
    AboveMoves(m, m1, m', k, v, s, len, n, next);
  }

  /** Above a page, the trim of the page's header follows. */
  method AbovePage(m: Mem, next: Addr, k: Key, v: Value, s: SlotRef, e: Entry, d: nat, i: nat)
    returns (m': Mem, made: seq<Addr>)
    requires Good(m, next) && On(m, k, s, e, d, false) && e.NodeEntry? && View(m, k) == None
    requires m.pages[e.addr].hdr.depth == d
    requires i == FirstMismatch(m.pages[e.addr].hdr, k) < |m.pages[e.addr].hdr.partial|
    ensures Good(m', next + |made| + 1) && Grows(m, m') && Updated(m, m', k, v) && Made(m, m', k, made)
    ensures SlotsAfter(m, m', s, true)
  {
    var h := m.pages[e.addr].hdr;
    HeaderForks(m, k, s, e.addr, d, i);
    ghost var m1;
    var m2, n;
    m1, m2, n := WriteAbove(m, next, k, v, s, e, d, h.depth + i - d, h.partial[i]);
    m' := TrimHeader(m2, e.addr, h, SplitHeader(h, i));
    made := Block(next, n);
    PageSplit(m, m1, m2, m', k, v, s, e, d, i, n, next);
    RepairKeeps(m1, e.addr, s, Slot(made[n - 1], 0), h, SplitHeader(h, i));
    AboveMade(m, m1, m', k, v, s, i, n, next);
    AboveMoves(m, m1, m', k, v, s, i, n, next);
  }

  /** The pages that a search for `k` reads from entry `e` at depth `d` on. */
  function Trail(m: Mem, e: Entry, d: nat, k: Key): (xs: seq<Addr>)
    decreases KEY_LEN + 2 - d
  {
    if !e.NodeEntry? || e.addr !in m.pages || |m.pages[e.addr].records| != SLOTS then [] else
    var p := m.pages[e.addr];
    var f := p.hdr.depth + |p.hdr.partial|;
    if !(p.hdr.depth <= d <= f <= KEY_LEN) then [] else
    [e.addr] +
    if FirstMismatch(p.hdr, k) < |p.hdr.partial| then [] else
    var j := Scan(p.records, Path(k)[f], Capacity(p.hdr.ntype));
    if j < Capacity(p.hdr.ntype) then Trail(m, p.records[j], f + 1, k) else []
  }

  /** The pages that a search reads from the slot of a hit on, or from the root. */
  function TrailFrom(m: Mem, start: Option<Hit>, k: Key): seq<Addr> {
    if start.Some? then Trail(m, Fetch(m, start.value.s), start.value.depth + 1, k) else Trail(m, m.root, 1, k)
  }

  /** The pages handed on so far, and those to come from slot `s` on. */
  ghost predicate HandedOn(m: Mem, visits: seq<Addr>, s: SlotRef, d: nat, k: Key, all: seq<Addr>) {
    visits + Trail(m, Fetch(m, s), d, k) == all
  }

  lemma HandOn(m: Mem, visits: seq<Addr>, s: SlotRef, d: nat, k: Key, all: seq<Addr>, x: Addr, rest: seq<Addr>)
    requires HandedOn(m, visits, s, d, k, all) && Trail(m, Fetch(m, s), d, k) == [x] + rest
    ensures (visits + [x]) + rest == all
  {
    assert visits + ([x] + rest) == (visits + [x]) + rest;
  }

  /** What a valid page tells a traversal: the key leaves its header at byte `i`, no record has the key's next byte, or
      the traversal goes down. */
  datatype Turn = Leaves(i: nat) | Misses | Down(s: SlotRef, e: Entry, d: nat)

  ghost predicate TurnOK(m: Mem, k: Key, e: Entry, d: nat, t: Turn)
    requires e.NodeEntry? && e.addr in m.pages && e.addr in m.pre && |m.pages[e.addr].records| == SLOTS
  {
    var page, f := m.pages[e.addr], m.pre[e.addr];
    match t
    case Leaves(i) => i == FirstMismatch(page.hdr, k) < |page.hdr.partial| && View(m, k) == None
    case Misses =>
      |f| <= KEY_LEN && Ext(f, Path(k)) && Capacity(page.hdr.ntype) <= SLOTS && View(m, k) == None
      && Scan(page.records, Path(k)[|f|], Capacity(page.hdr.ntype)) == Capacity(page.hdr.ntype)
    case Down(s', e', d') => On(m, k, s', e', d', false) && !e'.Null? && d' > d
  }

  /** Compares the header and looks for the key's byte. */
  method Descend(m: Mem, k: Key, s: SlotRef, e: Entry, d: nat) returns (t: Turn)
    requires Settled(m) && On(m, k, s, e, d, false) && e.NodeEntry?
    requires m.pages[e.addr].hdr.depth == d && |m.pages[e.addr].records| == SLOTS
    ensures TurnOK(m, k, e, d, t)
    ensures Trail(m, Fetch(m, s), d, k) == [e.addr] + if t.Down? then Trail(m, t.e, t.d, k) else []
  {
    var x := e.addr;
    var page := m.pages[x];
    PageKind(m, k, s, e, d, false);
    PageNow(m, k, s, e, d, false);
    var i := CompareHeader(page.hdr, k);
    if i < |page.hdr.partial| {
      HeaderDecides(m, s, k, i);
      return Leaves(i);
    }
    PageMatches(m, k, s, x);
    var f := page.hdr.depth + |page.hdr.partial|;
    var n := Capacity(page.hdr.ntype);
    var j := FindRecord(page.records, Path(k)[f], n);
    if j == n {
      RecordsDecide(m, x, k);
      return Misses;
    }
    OnRecord(m, k, x, j);
    return Down(Slot(x, j), page.records[j], f + 1);
  }

  /** read_leaf and read_node: what the entry points to is read and checked. If it is not valid, the slot is read again;
      the entry of a valid page takes over the type in the header. */
  method ReadTarget(m: Mem, k: Key, s: SlotRef, e: Entry, d: nat, fc: bool) returns (ok: bool, e': Entry)
    requires Settled(m) && On(m, k, s, e, d, fc) && !e.Null?
    ensures On(m, k, s, e', d, false) && !e'.Null? && (!ok ==> fc)
    ensures ok <==> Fetch(m, s).addr == e.addr
    ensures ok ==> e'.addr == e.addr && (e'.NodeEntry? <==> e.NodeEntry?)
    ensures ok && e'.NodeEntry? ==>
      && e'.addr in m.pages && e'.ntype == m.pages[e'.addr].hdr.ntype
      && m.pages[e'.addr].hdr.depth == d && |m.pages[e'.addr].records| == SLOTS
  {
    OnNow(m, k, s, d);
    FilledIn(m, s);
    assert EntryAt(m, s) && SettledAt(m, Fetch(m, s).addr);
    if e.LeafEntry? {
      ok := !(fc && m.leaves[e.addr].rev != s);
      if ok { LeafNow(m, k, s, e, d, fc); }
      e' := if ok then e else Fetch(m, s);
    } else {
      var page := m.pages[e.addr];
      PageKind(m, k, s, e, d, fc);
      ok := !(page.hdr.ntype == DELETED || page.hdr.depth > d || (fc && page.rev != s));
      if ok { PageNow(m, k, s, e, d, fc); }
      e' := if ok then e.(ntype := page.hdr.ntype) else Fetch(m, s);
    }
  }

  /** The root, or the slot of a cache hit. */
  method StartFrom(m: Mem, k: Key, start: Option<Hit>) returns (s: SlotRef, e: Entry, d: nat, fc: bool)
    requires WF(m) && (start.Some? ==> HitOK(m, start.value) && Toward(m, start.value, k))
    ensures On(m, k, s, e, d, fc) && (e.Null? ==> m.root.Null? && start.None?)
    ensures HandedOn(m, [], s, d, k, TrailFrom(m, start, k)) && Noted(m, start, s, e, d, fc, false)
  {
    s, e, d, fc := Root, m.root, 1, false;
    OnRoot(m, k);
    if start.Some? {
      s, e, d, fc := start.value.s, start.value.e, start.value.depth + 1, true;
      OnHit(m, k, start.value);
    }
  }

  /** The slot no longer holds the entry of the hit. */
  ghost predicate Stale(m: Mem, start: Option<Hit>) {
    start.Some? && Fetch(m, start.value.s) != start.value.e
  }

  /** The hit was a page that its slot still pointed to, and an operation from `m` to `m'` replaced the slot's entry. */
  ghost predicate Replaced(m: Mem, m': Mem, start: Option<Hit>) {
    && start.Some? && start.value.e.NodeEntry? && !Fetch(m, start.value.s).Null?
    && Fetch(m, start.value.s).addr == start.value.e.addr && Fetch(m', start.value.s) != Fetch(m, start.value.s)
  }

  /** What a traversal knows of the hit it started with. */
  ghost predicate Noted(m: Mem, start: Option<Hit>, s: SlotRef, e: Entry, d: nat, fc: bool, stale: bool) {
    match start
    case None => !fc && !stale
    case Some(h) =>
      && HitOK(m, h) && h.depth < d
      && if fc then s == h.s && e == h.e && !stale else (stale <==> Stale(m, start)) && (s == h.s ==> !Points(m, h))
  }

  /** The slot of the hit still points to the hit's target. */
  ghost predicate Points(m: Mem, h: Hit) {
    !Fetch(m, h.s).Null? && !h.e.Null? && Fetch(m, h.s).addr == h.e.addr
  }

  /** The same after a target has been read and accepted; `hit` says that it is the target of the hit. */
  ghost predicate Accepted(m: Mem, start: Option<Hit>, s: SlotRef, d: nat, hit: bool) {
    match start
    case None => !hit
    case Some(h) =>
      && HitOK(m, h) && h.depth < d && (s == h.s ==> (hit <==> Points(m, h)))
      && (hit ==> s == h.s && (h.e.NodeEntry? <==> Fetch(m, s).NodeEntry?))
  }

  /** What the read of a target adds to it. */
  lemma ReadNotes(m: Mem, k: Key, start: Option<Hit>, s: SlotRef, e: Entry, d: nat, fc: bool, stale: bool, ok: bool,
                  e': Entry)
    requires WF(m) && Noted(m, start, s, e, d, fc, stale) && !e.Null? && On(m, k, s, e', d, false) && !e'.Null?
    requires !ok ==> fc
    requires (ok <==> Fetch(m, s).addr == e.addr) && (ok ==> (e'.NodeEntry? <==> e.NodeEntry?))
    ensures var stale' := stale || (fc && (!ok || e' != e));
      && (stale' <==> Stale(m, start))
      && (if ok then Accepted(m, start, s, d, fc) else Noted(m, start, s, e', d, false, stale'))
  {}

  /** A traversal that goes down leaves the slot of the hit behind. */
  lemma DownNotes(m: Mem, k: Key, start: Option<Hit>, s: SlotRef, d: nat, hit: bool, t: SlotRef, e: Entry, d': nat,
                  stale: bool)
    requires Accepted(m, start, s, d, hit) && (stale <==> Stale(m, start)) && On(m, k, t, e, d', false) && d < d'
    requires d == |Above(m, s)| + 1
    ensures Noted(m, start, t, e, d', false, stale)
  {}

  /** An insert at a page replaces the entry of the hit exactly if it is at the hit and moves the slot's target. */
  lemma PageNotes(m: Mem, m': Mem, start: Option<Hit>, s: SlotRef, d: nat, hit: bool, moved: bool)
    requires Accepted(m, start, s, d, hit) && SlotsAfter(m, m', s, moved) && Fetch(m, s).NodeEntry?
    ensures hit && moved <==> Replaced(m, m', start)
  {
    if start.Some? { assert SlotKept(m, m', start.value.s) || (start.value.s == s && moved); }
  }

  lemma LeafNotes(m: Mem, m': Mem, start: Option<Hit>, s: SlotRef, d: nat, hit: bool)
    requires Accepted(m, start, s, d, hit) && (forall t :: t != s ==> SlotKept(m, m', t)) && Fetch(m, s).LeafEntry?
    ensures !Replaced(m, m', start)
  {
    if start.Some? && start.value.s != s { assert SlotKept(m, m', start.value.s); }
  }

  class Tree {
    var m: Mem
    var next: Addr

    ghost predicate Valid()
      reads this
    {
      Good(m, next)
    }

    /** The empty tree. */
    constructor ()
      ensures Valid() && m.root.Null? && forall k: Key :: View(m, k) == None
    {
      m, next := Mem(Null, map[], map[], map[], map[]), 0;
    }

    /** Finds what a root search finds, from the root or from any entry on the key's path that was read at any earlier
        time. `visits` are the pages that it hands to the cache: all that it reads on its way. `stale` says that the
        entry it started with was rejected or had an old type. */
    method Search(k: Key, start: Option<Hit>) returns (r: Option<Value>, visits: seq<Addr>, stale: bool)
      requires Valid() && !m.root.Null?
      requires start.Some? ==> HitOK(m, start.value) && Toward(m, start.value, k)
      ensures r == View(m, k) && visits == TrailFrom(m, start, k) && (stale <==> Stale(m, start))
    {
      var s, e, d, fc := StartFrom(m, k, start);
      visits, stale := [], false;
      while true
        invariant On(m, k, s, e, d, fc) && !e.Null? && HandedOn(m, visits, s, d, k, TrailFrom(m, start, k))
        invariant Noted(m, start, s, e, d, fc, stale)
        decreases fc, PATH_LEN + 1 - d
      {
        var ok, e' := ReadTarget(m, k, s, e, d, fc);
        ReadNotes(m, k, start, s, e, d, fc, stale, ok, e');
        stale := stale || (fc && (!ok || e' != e));
        ghost var hit := fc;
        e, fc := e', false;
        if !ok { continue; }
        if e.LeafEntry? {
          LeafDecides(m, s, k);
          var leaf := m.leaves[e.addr];
          r := if leaf.key == k then Some(leaf.value) else None;
          return;
        }
        var t := Descend(m, k, s, e, d);
        HandOn(m, visits, s, d, k, TrailFrom(m, start, k), e.addr, if t.Down? then Trail(m, t.e, t.d, k) else []);
        if d == m.pages[e.addr].hdr.depth { visits := visits + [e.addr]; }
        if !t.Down? {
          r := None;
          return;
        }
        DownNotes(m, k, start, s, d, hit, t.s, t.e, t.d, stale);
        s, e, d := t.s, t.e, t.d;
      }
    }

    /** A new leaf in a free slot below the capacity, or in the root slot. */
    method PutNew(k: Key, v: Value, s: SlotRef)
      requires Valid() && |Above(m, s)| <= KEY_LEN && Ext(Above(m, s), Path(k))
      requires FirstFree(m, s, Path(k)[|Above(m, s)|])
      requires (s.Slot? ==> s.idx < Capacity(m.pages[s.page].hdr.ntype)) && View(m, k) == None
      modifies this
      ensures Valid() && Grows(old(m), m) && Updated(old(m), m, k, v) && m.pages.Keys == old(m.pages.Keys)
      ensures SlotsAfter(old(m), m, s, false)
    {
      var a := next;
      PutSettled(m, s, a, k, v);
      PutKept(m, s, a, k, v);
      var m' := PutLeaf(m, s, a, k, v);
      assert Updated(m, m', k, v) by { forall b ensures SameRest(m, m', a, b) {} LeafUpdated(m, m', a, k, v); }
      m, next := m', next + 1;
    }

    /** The in-place update of a leaf. */
    method Rewrite(k: Key, v: Value, a: Addr)
      requires Valid() && a in m.leaves && m.leaves[a].key == k
      modifies this
      ensures Valid() && Grows(old(m), m) && Updated(old(m), m, k, v) && m.pages.Keys == old(m.pages.Keys)
      ensures SameEntries(old(m), m)
    {
      WriteSettled(m, a, v);
      var m' := WriteLeaf(m, a, m.leaves[a].rev, v);
      assert Updated(m, m', k, v) by { forall b ensures SameRest(m, m', a, b) {} LeafUpdated(m, m', a, k, v); }
      m := m';
    }

    /** A split above the leaf in slot `s`. */
    method SplitLeaf(k: Key, v: Value, s: SlotRef, e: Entry, d: nat) returns (made: seq<Addr>)
      requires Valid() && On(m, k, s, e, d, false) && e.LeafEntry? && m.leaves[e.addr].key != k && View(m, k) == None
      modifies this
      ensures Valid() && Grows(old(m), m) && Updated(old(m), m, k, v) && Made(old(m), m, k, made)
      ensures SlotsAfter(old(m), m, s, true)
    {
      var m', xs := AboveLeaf(m, next, k, v, s, e, d);
      m, next, made := m', next + |xs| + 1, xs;
    }

    /** A split above the page in slot `s`, whose header differs from the key at byte `i`. */
    method SplitPage(k: Key, v: Value, s: SlotRef, e: Entry, d: nat, i: nat) returns (made: seq<Addr>)
      requires Valid() && On(m, k, s, e, d, false) && e.NodeEntry? && View(m, k) == None
      requires m.pages[e.addr].hdr.depth == d
      requires i == FirstMismatch(m.pages[e.addr].hdr, k) < |m.pages[e.addr].hdr.partial|
      modifies this
      ensures Valid() && Grows(old(m), m) && Updated(old(m), m, k, v) && Made(old(m), m, k, made)
      ensures SlotsAfter(old(m), m, s, true)
    {
      var m', xs := AbovePage(m, next, k, v, s, e, d, i);
      m, next, made := m', next + |xs| + 1, xs;
    }

    /** The page is full: fill the first slot behind the capacity and raise the type in entry and header. */
    method InsertBehind(k: Key, v: Value, s: SlotRef, e: Entry, n: nat)
      requires Valid() && On(m, k, s, e, |Above(m, s)| + 1, false) && e.NodeEntry? && View(m, k) == None
      requires |m.pre[e.addr]| <= KEY_LEN && Ext(m.pre[e.addr], Path(k)) && n == Capacity(e.ntype)
      requires e.ntype == m.pages[e.addr].hdr.ntype
      requires forall l :: 0 <= l < n ==> HoldsOther(m, e.addr, l, Path(k)[|m.pre[e.addr]|])
      modifies this
      ensures Valid() && Grows(old(m), m) && Updated(old(m), m, k, v) && m.pages.Keys == old(m.pages.Keys)
      ensures SlotsAfter(old(m), m, s, true)
      ensures e.ntype < m.pages[e.addr].hdr.ntype && TypeSizes.Needs(m, e.addr, m.pages[e.addr].hdr.ntype)
    {
      var x := e.addr;
      var h := m.pages[x].hdr;
      assert PageAt(m, x);
      var b := Path(k)[h.depth + |h.partial|];
      var i := FindBehind(m, x, b, n);
      assert CoveredAt(m, x, i);
      var t := NumToNodeType(i);
      var a := next;
      var m1 := PutLeaf(m, Slot(x, i), a, k, v);
      var m' := RaiseHeader(RaiseEntry(m1, s, e, t), x, e.ntype, t);
      BehindDone(m, m1, m', k, v, s, e, x, i, a, t);
      m, next := m', next + 1;
    }

    /** The traversal ends at a leaf: split above it, update it, or leave it. */
    method InsertAtLeaf(k: Key, v: Value, load: bool, s: SlotRef, e: Entry, d: nat) returns (made: seq<Addr>)
      requires Valid() && On(m, k, s, e, d, false) && e.LeafEntry?
      modifies this
      ensures Valid() && Grows(old(m), m) && Made(old(m), m, k, made) && forall t :: t != s ==> SlotKept(old(m), m, t)
      ensures Updated(old(m), m, k, if load && old(View(m, k)).Some? then old(View(m, k)).value else v)
    {
      var leaf := m.leaves[e.addr];
      LeafDecides(m, s, k);
      if leaf.key != k {
        made := SplitLeaf(k, v, s, e, d);
        return;
      }
      GrowsRefl(m);
      if !load && leaf.value != v { Rewrite(k, v, e.addr); }
      made := [];
      NoneMade(old(m), m, k);
    }

    /** The traversal ends at a page without a record for the key's byte: take a free slot or go behind the capacity. */
    method InsertAtPage(k: Key, v: Value, s: SlotRef, e: Entry, n: nat) returns (behind: bool)
      requires Valid() && On(m, k, s, e, |Above(m, s)| + 1, false) && e.NodeEntry? && View(m, k) == None
      requires |m.pre[e.addr]| <= KEY_LEN && Ext(m.pre[e.addr], Path(k)) && n == Capacity(e.ntype)
      requires e.ntype == m.pages[e.addr].hdr.ntype
      requires |m.pages[e.addr].records| == SLOTS && Scan(m.pages[e.addr].records, Path(k)[|m.pre[e.addr]|], n) == n
      modifies this
      ensures Valid() && Grows(old(m), m) && Updated(old(m), m, k, v) && m.pages.Keys == old(m.pages.Keys)
      ensures SlotsAfter(old(m), m, s, behind)
    {
      var x := e.addr;
      var j := FindFree(m.pages[x].records, n);
      ghost var b := Path(k)[|m.pre[x]|];
      OthersBelow(m, x, b, n, j);
      behind := j == n;
      if j < n {
        FreeAt(m, x, b, j);
        PutNew(k, v, Slot(x, j));
      } else {
        InsertBehind(k, v, s, e, n);
      }
    }

    /** The traversal is at a valid page: insert here, or go on to the slot with the key's next byte. `moved` says
        whether the entry in the slot was replaced, by a split above the page or a type switch. */
    method InsertOrGo(k: Key, v: Value, s: SlotRef, e: Entry, d: nat) returns (t: Turn, made: seq<Addr>, moved: bool)
      requires Valid() && On(m, k, s, e, d, false) && e.NodeEntry? && e.ntype == m.pages[e.addr].hdr.ntype
      requires m.pages[e.addr].hdr.depth == d && |m.pages[e.addr].records| == SLOTS
      modifies this
      ensures Valid() && Grows(old(m), m) && Made(old(m), m, k, made)
      ensures !t.Down? ==> old(View(m, k)) == None && Updated(old(m), m, k, v)
      ensures t.Down? ==> m == old(m) && On(m, k, t.s, t.e, t.d, false) && !t.e.Null? && t.d > d
      ensures Trail(old(m), old(Fetch(m, s)), d, k) == [e.addr] + if t.Down? then Trail(m, t.e, t.d, k) else []
      ensures SlotsAfter(old(m), m, s, moved)
    {
      GrowsRefl(m);
      t := Descend(m, k, s, e, d);
      moved := t.Leaves?;
      if t.Leaves? {
        made := SplitPage(k, v, s, e, d, t.i);
        return;
      }
      if t.Misses? { moved := InsertAtPage(k, v, s, e, Capacity(e.ntype)); }
      made := [];
      NoneMade(old(m), m, k);
    }

    /** The same, and what it means for the entry that the insert started with. */
    method InsertFrom(k: Key, v: Value, s: SlotRef, e: Entry, d: nat, hit: bool, ghost start: Option<Hit>,
                      ghost stale: bool)
      returns (t: Turn, made: seq<Addr>, late: bool)
      requires Valid() && On(m, k, s, e, d, false) && e.NodeEntry? && e.ntype == m.pages[e.addr].hdr.ntype
      requires m.pages[e.addr].hdr.depth == d && |m.pages[e.addr].records| == SLOTS
      requires Accepted(m, start, s, d, hit) && (stale <==> Stale(m, start))
      modifies this
      ensures Valid() && Grows(old(m), m) && Made(old(m), m, k, made)
      ensures !t.Down? ==> old(View(m, k)) == None && Updated(old(m), m, k, v)
      ensures t.Down? ==> m == old(m) && On(m, k, t.s, t.e, t.d, false) && !t.e.Null? && t.d > d && !late
      ensures t.Down? ==> Noted(m, start, t.s, t.e, t.d, false, stale)
      ensures Trail(old(m), old(Fetch(m, s)), d, k) == [e.addr] + if t.Down? then Trail(m, t.e, t.d, k) else []
      ensures late <==> Replaced(old(m), m, start)
    {
      var moved;
      t, made, moved := InsertOrGo(k, v, s, e, d);
      late := hit && moved;
      PageNotes(old(m), m, start, s, d, hit, moved);
      if t.Down? { DownNotes(m, k, start, s, d, hit, t.s, t.e, t.d, stale); }
    }

    /** The slot is empty: the key is the first one. */
    method InsertFirst(k: Key, v: Value, s: SlotRef, ghost start: Option<Hit>) returns (made: seq<Addr>)
      requires Valid() && s.Root? && m.root.Null? && View(m, k) == None
      modifies this
      ensures Valid() && Grows(old(m), m) && Made(old(m), m, k, made) && Updated(old(m), m, k, v)
      ensures !Replaced(old(m), m, start)
    {
      PutNew(k, v, s);
      if start.Some? { assert SlotKept(old(m), m, start.value.s); }
      made := [];
      NoneMade(old(m), m, k);
    }

    /** Inserts or updates `k`, from the root or from any entry on the key's path that was read at any earlier time:
        afterwards a root search finds `v` for `k` and what it found before for every other key. With `load`, a key that
        is already there keeps its value. `visits` are the pages that it hands to the cache as it finds them, `made`
        those that it adds to the tree. `stale` says that the entry it started with was rejected or had an old type,
        `late` that it replaced the entry of the page it started with. */
    method Insert(k: Key, v: Value, load: bool, start: Option<Hit>)
      returns (visits: seq<Addr>, made: seq<Addr>, stale: bool, late: bool)
      requires Valid() && (start.Some? ==> HitOK(m, start.value) && Toward(m, start.value, k))
      modifies this
      ensures Valid() && Grows(old(m), m) && Made(old(m), m, k, made)
      ensures Updated(old(m), m, k, if load && old(View(m, k)).Some? then old(View(m, k)).value else v)
      ensures visits == TrailFrom(old(m), start, k) && (stale <==> Stale(old(m), start))
      ensures late <==> Replaced(old(m), m, start)
    {
      var s, e, d, fc := StartFrom(m, k, start);
      visits, stale, late := [], false, false;
      while !e.Null?
        invariant Valid() && On(m, k, s, e, d, fc) && m == old(m)
        invariant HandedOn(m, visits, s, d, k, TrailFrom(m, start, k)) && Noted(m, start, s, e, d, fc, stale) && !late
        decreases fc, PATH_LEN + 1 - d
      {
        var ok, e' := ReadTarget(m, k, s, e, d, fc);
        ReadNotes(m, k, start, s, e, d, fc, stale, ok, e');
        stale := stale || (fc && (!ok || e' != e));
        var hit := fc;
        e, fc := e', false;
        if !ok { continue; }
        if e.LeafEntry? {
          made := InsertAtLeaf(k, v, load, s, e, d);
          LeafNotes(old(m), m, start, s, d, hit);
          return;
        }
        if d == m.pages[e.addr].hdr.depth { visits := visits + [e.addr]; }
        var t;
        t, made, late := InsertFrom(k, v, s, e, d, hit, start, stale);
        ghost var rest := if t.Down? then Trail(m, t.e, t.d, k) else [];
        HandOn(old(m), visits[..|visits| - 1], s, d, k, TrailFrom(old(m), start, k), e.addr, rest);
        if !t.Down? { return; }
        s, e, d := t.s, t.e, t.d;
      }
      assert View(m, k) == None;
      made := InsertFirst(k, v, s, start);
    }
  }

  lemma NoneMade(m: Mem, m': Mem, k: Key)
    requires m'.pages.Keys == m.pages.Keys
    ensures Made(m, m', k, [])
  {
    forall x ensures MadeAt(m, m', k, [], x) { assert x in m'.pages.Keys <==> x in m.pages.Keys; }
  }

  lemma OnNow(m: Mem, k: Key, s: SlotRef, d: nat)
    requires WF(m) && OnPath(m, s, k) && d == |Above(m, s)| + 1
    ensures On(m, k, s, Fetch(m, s), d, false)
  {
    HeldNow(m, s);
  }

  lemma BehindKeeps(m: Mem, p: SlotRef, a: Addr, k: Key, v: Value, s: SlotRef, e: Entry, x: Addr, t: NodeType)
    requires e.NodeEntry?
    ensures RaiseHeader(RaiseEntry(PutLeaf(m, p, a, k, v), s, e, t), x, e.ntype, t).pages.Keys == m.pages.Keys
  {}

  /** The page gets no larger type than it needs. */
  lemma BehindNeeds(m: Mem, m': Mem, x: Addr, i: nat, a: Addr, k: Key, v: Value, s: SlotRef, e: Entry)
    requires WF(m) && WF(m') && e.NodeEntry? && e == Fetch(m, s) && e.addr == x && x in m.pages
    requires e.ntype == m.pages[x].hdr.ntype && e.ntype != DELETED && Capacity(e.ntype) <= i < SLOTS
    requires var t := NumToNodeType(i);
      m' == RaiseHeader(RaiseEntry(PutLeaf(m, Slot(x, i), a, k, v), s, e, t), x, e.ntype, t)
    ensures e.ntype < m'.pages[x].hdr.ntype && TypeSizes.Needs(m', x, m'.pages[x].hdr.ntype)
  {
    assert PageAt(m, x) && PageAt(m', x);
    var t := NumToNodeType(i);
    if t <= e.ntype { CapacityMono(t, e.ntype); }
    FilledAfter(m, x, i, a, k, v, s, e, t);
    TypeSizes.FilledNeeds(m', x, i);
  }

  lemma FilledAfter(m: Mem, x: Addr, i: nat, a: Addr, k: Key, v: Value, s: SlotRef, e: Entry, t: NodeType)
    requires WF(m) && e.NodeEntry? && x in m.pages && i < SLOTS
    ensures !Fetch(RaiseHeader(RaiseEntry(PutLeaf(m, Slot(x, i), a, k, v), s, e, t), x, e.ntype, t), Slot(x, i)).Null?
  {
    assert PageAt(m, x);
  }

  lemma PutKept(m: Mem, s: SlotRef, a: Addr, k: Key, v: Value)
    requires WF(m) && SlotIn(m, s) && Fetch(m, s).Null?
    ensures forall t :: SlotKept(m, PutLeaf(m, s, a, k, v), t)
  {
    if s.Slot? { assert PageAt(m, s.page); }
  }

  /** A type switch replaces the entry of its slot. */
  lemma BehindMoves(m: Mem, x: Addr, i: nat, a: Addr, k: Key, v: Value, s: SlotRef, e: Entry, t: NodeType)
    requires WF(m) && e.NodeEntry? && e == Fetch(m, s) && x in m.pages && i < SLOTS && Fetch(m, Slot(x, i)).Null?
    requires Capacity(e.ntype) <= i < Capacity(t)
    ensures SlotsAfter(m, RaiseHeader(RaiseEntry(PutLeaf(m, Slot(x, i), a, k, v), s, e, t), x, e.ntype, t), s, true)
  {
    FilledIn(m, s);
    if s.Slot? { assert PageAt(m, s.page); }
    assert PageAt(m, x);
    PutKept(m, Slot(x, i), a, k, v);
    var m1 := PutLeaf(m, Slot(x, i), a, k, v);
    RaiseMoves(m1, x, s, e, t);
    forall u | u != s ensures SlotKept(m, RaiseHeader(RaiseEntry(m1, s, e, t), x, e.ntype, t), u) {
      assert SlotKept(m, m1, u);
    }
  }

  lemma RaiseMoves(m: Mem, x: Addr, s: SlotRef, e: Entry, t: NodeType)
    requires e.NodeEntry? && e == Fetch(m, s) && SlotIn(m, s) && (s.Slot? ==> |m.pages[s.page].records| == SLOTS)
    requires t != e.ntype
    ensures var m' := RaiseHeader(RaiseEntry(m, s, e, t), x, e.ntype, t);
      Fetch(m', s) != e && forall u :: u != s ==> Fetch(m', u) == Fetch(m, u)
  {}

  /** A leaf behind the capacity and a type switch insert the key. */
  lemma BehindInsert(m: Mem, m1: Mem, m': Mem, k: Key, v: Value, s: SlotRef, e: Entry, x: Addr, i: nat, a: Addr,
                     t: NodeType)
    requires Settled(m) && a !in m.pre && View(m, k) == None
    requires e.NodeEntry? && e.addr == x && Fetch(m, s) == e && x in m.pages && e.ntype == m.pages[x].hdr.ntype
    requires |m.pre[x]| <= KEY_LEN && Ext(m.pre[x], Path(k)) && FirstFree(m, Slot(x, i), Path(k)[|m.pre[x]|])
    requires Capacity(e.ntype) <= i < Capacity(t) && t != DELETED
    requires m1 == PutLeaf(m, Slot(x, i), a, k, v) && m' == RaiseHeader(RaiseEntry(m1, s, e, t), x, e.ntype, t)
    ensures Settled(m') && m'.pre == m.pre[a := Path(k)]
    ensures Grows(m, m') && Updated(m, m', k, v)
  {
    if t < e.ntype { CapacityMono(t, e.ntype); }
    BehindSettled(m, s, e, x, i, a, k, v, t, m1, m');
    BehindLeaves(m1, s, e, x, t);
    forall b ensures SameRest(m, m', a, b) {}
    LeafUpdated(m, m', a, k, v);
  }

  lemma BehindDone(m: Mem, m1: Mem, m': Mem, k: Key, v: Value, s: SlotRef, e: Entry, x: Addr, i: nat, a: Addr,
                   t: NodeType)
    requires Settled(m) && a !in m.pre && View(m, k) == None
    requires e.NodeEntry? && e.addr == x && Fetch(m, s) == e && x in m.pages && e.ntype == m.pages[x].hdr.ntype
    requires |m.pre[x]| <= KEY_LEN && Ext(m.pre[x], Path(k)) && FirstFree(m, Slot(x, i), Path(k)[|m.pre[x]|])
    requires Capacity(e.ntype) <= i && t == NumToNodeType(i)
    requires m1 == PutLeaf(m, Slot(x, i), a, k, v) && m' == RaiseHeader(RaiseEntry(m1, s, e, t), x, e.ntype, t)
    ensures Settled(m') && m'.pre == m.pre[a := Path(k)] && m'.pages.Keys == m.pages.Keys
    ensures Grows(m, m') && Updated(m, m', k, v) && SlotsAfter(m, m', s, true)
    ensures e.ntype < m'.pages[x].hdr.ntype && TypeSizes.Needs(m', x, m'.pages[x].hdr.ntype)
  {
    assert PageAt(m, x);
    BehindInsert(m, m1, m', k, v, s, e, x, i, a, t);
    BehindKeeps(m, Slot(x, i), a, k, v, s, e, x, t);
    BehindMoves(m, x, i, a, k, v, s, e, t);
    BehindNeeds(m, m', x, i, a, k, v, s, e);
  }

  lemma BehindLeaves(m: Mem, s: SlotRef, e: Entry, x: Addr, t: NodeType)
    requires e.NodeEntry?
    ensures RaiseHeader(RaiseEntry(m, s, e, t), x, e.ntype, t).leaves == m.leaves
  {}

  /** A search sees a split's new leaf and no other change. */
  lemma SplitSeen(m: Mem, m1: Mem, m': Mem, y: Addr, was: SlotRef, now: SlotRef, a: Addr, k: Key, v: Value)
    requires Settled(m) && Settled(m') && View(m, k) == None && a !in m.leaves
    requires a in m1.leaves && m1.leaves == m.leaves[a := Leaf(m1.leaves[a].rev, k, v)]
    requires m'.leaves == CasRev(m1, y, was, now).leaves
    ensures Updated(m, m', k, v)
  {
    RestSame(m, m1, m', y, was, now, a, k, v, a);
    forall b ensures SameRest(m, m', a, b) { RestSame(m, m1, m', y, was, now, a, k, v, b); }
    LeafUpdated(m, m', a, k, v);
  }

  lemma RestSame(m: Mem, m1: Mem, m': Mem, y: Addr, was: SlotRef, now: SlotRef, a: Addr, k: Key, v: Value, b: Addr)
    requires a in m1.leaves && m1.leaves == m.leaves[a := Leaf(m1.leaves[a].rev, k, v)]
    requires m'.leaves == CasRev(m1, y, was, now).leaves
    ensures SameRest(m, m', a, b) && a in m'.leaves && m'.leaves[a].key == k && m'.leaves[a].value == v
  {}

  /** A split above a leaf and the CAS of its reverse pointer insert the key. */
  lemma LeafSplit(m: Mem, m1: Mem, m': Mem, k: Key, v: Value, s: SlotRef, e: Entry, d: nat, len: nat, n: nat,
                  next: Addr)
    requires Settled(m) && (forall y :: y in m.pre ==> y < next)
    requires On(m, k, s, e, d, false) && e.LeafEntry? && View(m, k) == None && Diverges(m, s, k, len)
    requires n == ChainLen(len)
    requires SplitTo(m, m1, s, k, v, len, Block(next, n), next + n)
    requires m' == CasRev(m1, e.addr, s, Slot(Block(next, n)[n - 1], 0))
    ensures Settled(m') && (forall y :: y in m'.pre ==> y < next + n + 1)
    ensures Grows(m, m') && Updated(m, m', k, v)
  {
    var addrs, a := Block(next, n), next + n;
    BlockFresh(m, next, n);
    SplitPending(m, m1, s, k, v, len, addrs, a);
    SplitKeeps(m, m1, s, k, v, len, addrs, a);
    SplitBelow(m, m1, s, k, v, len, n, next);
    LeafNow(m, k, s, e, d, false);
    LeafSettles(m, m1, m', e.addr, s, Slot(addrs[n - 1], 0), d + 1 + len);
    SplitSeen(m, m1, m', e.addr, s, Slot(addrs[n - 1], 0), a, k, v);
  }

  /** A split above a page, the CAS of its reverse pointer and the trim of its header insert the key. */
  lemma PageSplit(m: Mem, m1: Mem, m2: Mem, m': Mem, k: Key, v: Value, s: SlotRef, e: Entry, d: nat, i: nat, n: nat,
                  next: Addr)
    requires Settled(m) && (forall y :: y in m.pre ==> y < next)
    requires On(m, k, s, e, d, false) && e.NodeEntry? && e.addr in m.pages && View(m, k) == None && Diverges(m, s, k, i)
    requires n == ChainLen(i)
    requires i < |m.pages[e.addr].hdr.partial| && m.pages[e.addr].hdr.depth == d
    requires SplitTo(m, m1, s, k, v, i, Block(next, n), next + n)
    requires m2 == CasRev(m1, e.addr, s, Slot(Block(next, n)[n - 1], 0))
    requires m' == TrimHeader(m2, e.addr, m.pages[e.addr].hdr, SplitHeader(m.pages[e.addr].hdr, i))
    ensures Settled(m') && (forall y :: y in m'.pre ==> y < next + n + 1)
    ensures Grows(m, m') && Updated(m, m', k, v)
  {
    var addrs, a := Block(next, n), next + n;
    BlockFresh(m, next, n);
    SplitPending(m, m1, s, k, v, i, addrs, a);
    SplitKeeps(m, m1, s, k, v, i, addrs, a);
    SplitBelow(m, m1, s, k, v, i, n, next);
    PageNow(m, k, s, e, d, false);
    PageSettles(m, m1, m2, m', e.addr, s, Slot(addrs[n - 1], 0), i);
    SplitSeen(m, m1, m', e.addr, s, Slot(addrs[n - 1], 0), a, k, v);
  }
}
