/** The level-by-level scan of a range on a quiescent tree. */
module RangeScan {
  import opened Keys
  import opened KeyMath
  import opened RemoteMemory
  import opened MemoryOps
  import opened Lookup
  import opened Machine
  import opened Invariant
  import opened Settling
  import opened Steps
  import opened SequentialTree
  import opened RangePruning

  /** An entry that a scan has yet to follow, with the bounds and sides that hold below it. */
  datatype Scan = Scan(e: Entry, s: SlotRef, depth: nat, from: Key, to: Key, l: Side, r: Side)

  ghost predicate ScanOK(c: Scan, p: Bytes, from: Key, to: Key) {
    LeftOK(c.l, p, from, c.from) && RightOK(c.r, p, to, c.to)
  }

  /** Scan `c` is for a filled record of the page and has the right sides and bounds. */
  ghost predicate Kept(g: Page, x: Addr, f: Bytes, from: Key, to: Key, c: Scan) {
    && c.s.Slot? && c.s.page == x && c.s.idx < Capacity(g.hdr.ntype) && c.s.idx < |g.records|
    && c.e == g.records[c.s.idx] && !c.e.Null? && c.depth == |f| && ScanOK(c, f + [c.e.partial], from, to)
  }

  ghost predicate KeptAt(g: Page, x: Addr, f: Bytes, from: Key, to: Key, res: seq<Scan>, i: nat) {
    i < |res| ==> Kept(g, x, f, from, to, res[i])
  }

  /** Record `j` of the page is in the result exactly if some key below it is in the range. */
  ghost predicate ChosenAt(g: Page, x: Addr, f: Bytes, from: Key, to: Key, res: seq<Scan>, j: nat) {
    j < |g.records| && j < Capacity(g.hdr.ntype) && !g.records[j].Null? ==>
      (Meets(f + [g.records[j].partial], from, to) <==> exists i :: 0 <= i < |res| && res[i].s == Slot(x, j))
  }

  /** One record: whether it is kept, with which sides and bounds. */
  method OnRecord(g: Page, x: Addr, j: nat, bf: Key, bt: Key, l: Side, r: Side, ghost f: Bytes, ghost from: Key,
                  ghost to: Key)
    returns (keep: bool, c: Scan)
    requires HeaderOK(g.hdr, f) && 1 <= |f| <= KEY_LEN && f[0] == 0 && AtMost(from, to) && j < |g.records|
    requires j < Capacity(g.hdr.ntype)
    requires !g.records[j].Null? && l != OUTSIDE && r != OUTSIDE && Left(f, Path(from)) == l && Right(f, Path(to)) == r
    requires Ext(f[..g.hdr.depth], Path(bf)) && (l.BORDER? ==> bf == from)
    requires Ext(f[..g.hdr.depth], Path(bt)) && (r.BORDER? ==> bt == to)
    ensures keep <==> Meets(f + [g.records[j].partial], from, to)
    ensures keep ==> c.s == Slot(x, j) && Kept(g, x, f, from, to, c)
  {
    var h, e := g.hdr, g.records[j];
    var d := h.depth + |h.partial|;
    var el := Sided(l, e.partial, Path(bf)[d], true);
    var er := Sided(r, e.partial, Path(bt)[d], false);
    LeftByte(f, e.partial, Path(from));
    RightByte(f, e.partial, Path(to));
    MeetsIff(f + [e.partial], from, to);
    keep := el != OUTSIDE && er != OUTSIDE;
    var nf, nt := bf, bt;
    if keep {
      if el.INSIDE? { nf := NextBound(bf, h, e.partial, f); }
      if er.INSIDE? { nt := NextBound(bt, h, e.partial, f); }
    }
    c := Scan(e, Slot(x, j), d, nf, nt, el, er);
  }

  /** range_query_on_page: the records whose keys can be in the range, with sides and bounds that are right for them. */
  method OnPage(g: Page, x: Addr, bf: Key, bt: Key, l0: Side, r0: Side, ghost f: Bytes, ghost from: Key, ghost to: Key)
    returns (res: seq<Scan>)
    requires HeaderOK(g.hdr, f) && 1 <= |f| <= KEY_LEN && f[0] == 0 && AtMost(from, to) && |g.records| == SLOTS
    requires LeftOK(l0, f[..g.hdr.depth], from, bf) && RightOK(r0, f[..g.hdr.depth], to, bt)
    ensures forall i :: KeptAt(g, x, f, from, to, res, i)
    ensures forall j :: ChosenAt(g, x, f, from, to, res, j)
  {
    var l := LeftOfPage(g.hdr, l0, bf, f, from);
    var r := RightOfPage(g.hdr, r0, bt, f, to);
    if l == OUTSIDE || r == OUTSIDE {
      res := [];
      forall j: nat ensures ChosenAt(g, x, f, from, to, res, j) {
        if j < |g.records| && !g.records[j].Null? { OutsideBelow(f, g.records[j].partial, from, to); }
      }
      return;
    }
    res := OnRecords(g, x, bf, bt, l, r, f, from, to);
  }

  /** The side of a page: a border is decided by the first header byte that differs from the bound. */
  method LeftOfPage(h: Header, l0: Side, bound: Key, ghost f: Bytes, ghost from: Key) returns (l: Side)
    requires HeaderOK(h, f) && |f| <= KEY_LEN && LeftOK(l0, f[..h.depth], from, bound)
    ensures l == Left(f, Path(from)) && (l.BORDER? ==> bound == from)
  {
    l := l0;
    HeaderLeft(h, f, from);
    if l.BORDER? {
      var j := CompareHeader(h, bound);
      if j < |h.partial| {
        HeaderSame(h, f, from, j);
        l := Sided(l, h.partial[j], Path(bound)[h.depth + j], true);
      }
    }
  }

  method RightOfPage(h: Header, r0: Side, bound: Key, ghost f: Bytes, ghost to: Key) returns (r: Side)
    requires HeaderOK(h, f) && |f| <= KEY_LEN && RightOK(r0, f[..h.depth], to, bound)
    ensures r == Right(f, Path(to)) && (r.BORDER? ==> bound == to)
  {
    r := r0;
    HeaderRight(h, f, to);
    if r.BORDER? {
      var j := CompareHeader(h, bound);
      if j < |h.partial| {
        HeaderSame(h, f, to, j);
        r := Sided(r, h.partial[j], Path(bound)[h.depth + j], false);
      }
    }
  }

  method OnRecords(g: Page, x: Addr, bf: Key, bt: Key, l: Side, r: Side, ghost f: Bytes, ghost from: Key, ghost to: Key)
    returns (res: seq<Scan>)
    requires HeaderOK(g.hdr, f) && 1 <= |f| <= KEY_LEN && f[0] == 0 && AtMost(from, to) && |g.records| == SLOTS
    requires l != OUTSIDE && r != OUTSIDE && Left(f, Path(from)) == l && Right(f, Path(to)) == r
    requires Ext(f[..g.hdr.depth], Path(bf)) && (l.BORDER? ==> bf == from)
    requires Ext(f[..g.hdr.depth], Path(bt)) && (r.BORDER? ==> bt == to)
    ensures forall i :: KeptAt(g, x, f, from, to, res, i)
    ensures forall j :: ChosenAt(g, x, f, from, to, res, j)
  {
    res := [];
    var n := Capacity(g.hdr.ntype);
    var j := 0;
    while j < n
      invariant 0 <= j <= n
      invariant forall i :: KeptAt(g, x, f, from, to, res, i)
      invariant forall i :: 0 <= i < |res| ==> res[i].s.Slot? && res[i].s.idx < j
      invariant forall i: nat :: i < j ==> ChosenAt(g, x, f, from, to, res, i)
    {
      if !g.records[j].Null? {
        var keep, c := OnRecord(g, x, j, bf, bt, l, r, f, from, to);
        ghost var before := res;
        if keep { res := res + [c]; }
        Appended(g, x, f, from, to, before, res, c, j, keep);
      }
      j := j + 1;
    }
  }

  lemma Appended(g: Page, x: Addr, f: Bytes, from: Key, to: Key, before: seq<Scan>, res: seq<Scan>, c: Scan, j: nat,
                 keep: bool)
    requires forall i :: KeptAt(g, x, f, from, to, before, i)
    requires forall i: nat :: i < j ==> ChosenAt(g, x, f, from, to, before, i)
    requires forall i :: 0 <= i < |before| ==> before[i].s.Slot? && before[i].s.idx < j
    requires j < |g.records| && !g.records[j].Null? && keep == Meets(f + [g.records[j].partial], from, to)
    requires res == (if keep then before + [c] else before)
    requires keep ==> c.s == Slot(x, j) && Kept(g, x, f, from, to, c)
    ensures forall i :: KeptAt(g, x, f, from, to, res, i)
    ensures forall i: nat :: i < j + 1 ==> ChosenAt(g, x, f, from, to, res, i)
  {
    forall i: nat ensures KeptAt(g, x, f, from, to, res, i) { assert KeptAt(g, x, f, from, to, before, i); }
    forall i: nat | i < j + 1 ensures ChosenAt(g, x, f, from, to, res, i) {
      if i < j {
        assert ChosenAt(g, x, f, from, to, before, i);
        forall l | 0 <= l < |before| && before[l].s == Slot(x, i)
          ensures exists o :: 0 <= o < |res| && res[o].s == Slot(x, i)
        {
          assert res[l].s == Slot(x, i);
        }
      } else if keep {
        assert res[|before|].s == Slot(x, j);
      }
    }
  }

  // the whole tree

  /** Scan `c` stands for a filled slot of the tree, at level `n` or deeper. */
  ghost predicate CtxOK(m: Mem, from: Key, to: Key, n: nat, c: Scan) {
    && SlotIn(m, c.s) && !c.e.Null? && c.e == Fetch(m, c.s) && c.depth == |Above(m, c.s)|
    && n <= |Above(m, c.s)| <= KEY_LEN
    && ScanOK(c, Above(m, c.s) + [c.e.partial], from, to)
  }

  ghost predicate CtxAt(m: Mem, from: Key, to: Key, n: nat, todo: seq<Scan>, c: Scan) {
    c in todo ==> CtxOK(m, from, to, n, c)
  }

  /** A leaf in the range has been returned or lies below a slot that is still to be followed. */
  ghost predicate ReachedAt(m: Mem, from: Key, to: Key, ret: map<Key, Value>, todo: seq<Scan>, a: Addr) {
    a in m.leaves && InRange(from, to, m.leaves[a].key) ==>
      m.leaves[a].key in ret || exists c :: c in todo && OnPath(m, c.s, m.leaves[a].key)
  }

  ghost predicate ReturnedAt(m: Mem, from: Key, to: Key, ret: map<Key, Value>, k: Key) {
    k in ret ==> InRange(from, to, k) && View(m, k) == Some(ret[k])
  }

  lemma LeafOnPath(m: Mem, s: SlotRef, a: Addr)
    requires WF(m) && a in m.leaves && OnPath(m, s, m.leaves[a].key) && Fetch(m, s).LeafEntry?
    ensures Fetch(m, s).addr == a
  {
    var b := Fetch(m, s).addr;
    assert EntryAt(m, s) && LeafAt(m, a) && LeafAt(m, b);
    Cover(m, s, a);
    assert m.pre[a] == m.pre[b];
    Unique(m, a, b);
  }

  /** The scan follows a leaf. */
  lemma LeafFollowed(m: Mem, from: Key, to: Key, ret: map<Key, Value>, ret': map<Key, Value>, c: Scan, rest: seq<Scan>,
                     a: Addr)
    requires WF(m) && CtxOK(m, from, to, 0, c) && c.e.LeafEntry? && c.e.addr in m.leaves
    requires ReachedAt(m, from, to, ret, [c] + rest, a)
    requires var leaf := m.leaves[c.e.addr];
      ret' == if InRange(from, to, leaf.key) then ret[leaf.key := leaf.value] else ret
    ensures ReachedAt(m, from, to, ret', rest, a)
  {
    if a in m.leaves && InRange(from, to, m.leaves[a].key) && m.leaves[a].key !in ret {
      var d :| d in [c] + rest && OnPath(m, d.s, m.leaves[a].key);
      if d == c { LeafOnPath(m, c.s, a); } else { assert d in rest; }
    }
  }

  /** The page below a scan, with the prefix that the scan's sides are about. */
  lemma PageBelow(m: Mem, from: Key, to: Key, n: nat, c: Scan)
    requires Settled(m) && CtxOK(m, from, to, n, c) && c.e.NodeEntry?
    ensures c.e.addr in m.pages && c.e.addr in m.pre && PageOK(m.pages[c.e.addr], m.pre[c.e.addr])
    ensures n < |m.pre[c.e.addr]|
    ensures m.pages[c.e.addr].hdr.depth == c.depth + 1 <= |m.pre[c.e.addr]|
    ensures m.pre[c.e.addr][..c.depth + 1] == Above(m, c.s) + [c.e.partial]
  {
    var x := c.e.addr;
    assert EntryAt(m, c.s) && PageAt(m, x) && SettledAt(m, x);
  }

  /** The records that a page keeps are scans of the next level. */
  lemma RecordCtx(m: Mem, from: Key, to: Key, n: nat, x: Addr, res: seq<Scan>, d: Scan)
    requires WF(m) && x in m.pages && PageOK(m.pages[x], m.pre[x]) && n < |m.pre[x]|
    requires (forall i :: KeptAt(m.pages[x], x, m.pre[x], from, to, res, i)) && d in res
    ensures CtxOK(m, from, to, n + 1, d)
  {
    var i :| 0 <= i < |res| && res[i] == d;
    assert KeptAt(m.pages[x], x, m.pre[x], from, to, res, i);
  }

  /** A leaf below a page is below one of the records that the page keeps. */
  lemma PageFollowed(m: Mem, from: Key, to: Key, c: Scan, x: Addr, res: seq<Scan>, a: Addr) returns (d: Scan)
    requires Settled(m) && CtxOK(m, from, to, 0, c) && c.e.NodeEntry? && c.e.addr == x && x in m.pages
    requires forall j :: ChosenAt(m.pages[x], x, m.pre[x], from, to, res, j)
    requires a in m.leaves && InRange(from, to, m.leaves[a].key) && OnPath(m, c.s, m.leaves[a].key)
    ensures d in res && OnPath(m, d.s, m.leaves[a].key)
  {
    var k, g := m.leaves[a].key, m.pages[x];
    assert EntryAt(m, c.s) && LeafAt(m, a) && PageAt(m, x);
    Cover(m, c.s, a);
    var j := SlotToward(m, x, a);
    CoveredSlot(m, x, j);
    var p := m.pre[x] + [g.records[j].partial];
    assert Ext(p, Path(k));
    assert Meets(p, from, to);
    assert ChosenAt(g, x, m.pre[x], from, to, res, j);
    var i :| 0 <= i < |res| && res[i].s == Slot(x, j);
    d := res[i];
  }

  lemma PageReached(m: Mem, from: Key, to: Key, ret: map<Key, Value>, c: Scan, x: Addr, res: seq<Scan>, rest: seq<Scan>,
                    todo: seq<Scan>, a: Addr)
    requires Settled(m) && CtxOK(m, from, to, 0, c) && c.e.NodeEntry? && c.e.addr == x && x in m.pages
    requires forall j :: ChosenAt(m.pages[x], x, m.pre[x], from, to, res, j)
    requires ReachedAt(m, from, to, ret, [c] + rest, a)
    requires forall d :: d in res || d in rest ==> d in todo
    ensures ReachedAt(m, from, to, ret, todo, a)
  {
    if a in m.leaves && InRange(from, to, m.leaves[a].key) && m.leaves[a].key !in ret {
      var d :| d in [c] + rest && OnPath(m, d.s, m.leaves[a].key);
      if d == c { d := PageFollowed(m, from, to, c, x, res, a); } else { assert d in rest; }
      assert d in todo;
    }
  }

  /** What a scan has done: `todo` is left, `ret` is found. */
  ghost predicate Scanned(m: Mem, from: Key, to: Key, n: nat, ret: map<Key, Value>, todo: seq<Scan>) {
    && (forall c :: CtxAt(m, from, to, n, todo, c))
    && (forall a :: ReachedAt(m, from, to, ret, todo, a))
    && (forall k :: ReturnedAt(m, from, to, ret, k))
  }

  lemma ScanStart(m: Mem, from: Key, to: Key, todo: seq<Scan>)
    requires Settled(m) && AtMost(from, to)
    requires todo == if m.root.Null? then [] else [Scan(m.root, Root, 0, from, to, BORDER, BORDER)]
    ensures Scanned(m, from, to, 0, map[], todo)
  {
    forall a ensures ReachedAt(m, from, to, map[], todo, a) {
      if a in m.leaves {
        assert LeafAt(m, a);
        RootCovers(m, a);
        assert todo[0] in todo && OnPath(m, Root, m.leaves[a].key);
      }
    }
    forall c ensures CtxAt(m, from, to, 0, todo, c) {
      if c in todo { RootByte(m); assert Above(m, Root) + [m.root.partial] == [0]; }
    }
  }

  /** Follows one scan: a leaf is returned if its key is in the range, a page gives scans of the next level. */
  method Follow(m: Mem, from: Key, to: Key, ret: map<Key, Value>, c: Scan, ghost n: nat, ghost n1: nat)
    returns (ret': map<Key, Value>, next: seq<Scan>)
    requires n1 == n + 1 && Settled(m) && AtMost(from, to) && CtxOK(m, from, to, n, c)
    requires forall k :: ReturnedAt(m, from, to, ret, k)
    ensures forall k :: ReturnedAt(m, from, to, ret', k)
    ensures forall d :: CtxAt(m, from, to, n1, next, d)
    ensures forall a, rest :: FollowedAt(m, from, to, ret, ret', c, next, rest, a)
  {
    assert EntryAt(m, c.s);
    if c.e.LeafEntry? {
      var leaf := m.leaves[c.e.addr];
      ret', next := ret, [];
      if AtMost(from, leaf.key) && AtMost(leaf.key, to) {
        SettledView(m, leaf.key);
        ret' := ret[leaf.key := leaf.value];
      }
      forall k ensures ReturnedAt(m, from, to, ret', k) { assert ReturnedAt(m, from, to, ret, k); }
      forall a, rest ensures FollowedAt(m, from, to, ret, ret', c, next, rest, a) {
        if ReachedAt(m, from, to, ret, [c] + rest, a) {
          LeafFollowed(m, from, to, ret, ret', c, rest, a);
          assert rest + [] == rest;
        }
      }
    } else {
      var x := c.e.addr;
      PageBelow(m, from, to, n, c);
      ret' := ret;
      next := OnPage(m.pages[x], x, c.from, c.to, c.l, c.r, m.pre[x], from, to);
      forall d ensures CtxAt(m, from, to, n1, next, d) { if d in next { RecordCtx(m, from, to, n, x, next, d); } }
      forall a, rest ensures FollowedAt(m, from, to, ret, ret', c, next, rest, a) {
        if ReachedAt(m, from, to, ret, [c] + rest, a) {
          PageReached(m, from, to, ret, c, x, next, rest, rest + next, a);
        }
      }
    }
  }

  /** Whatever was reached through scan `c` is reached through what came of it. */
  ghost predicate FollowedAt(m: Mem, from: Key, to: Key, ret: map<Key, Value>, ret': map<Key, Value>, c: Scan,
                             next: seq<Scan>, rest: seq<Scan>, a: Addr) {
    ReachedAt(m, from, to, ret, [c] + rest, a) ==> ReachedAt(m, from, to, ret', rest + next, a)
  }

  /** After one scan of a level was followed: `todo` is the rest of the level and the next one so far. */
  lemma Advanced(m: Mem, from: Key, to: Key, was: map<Key, Value>, ret: map<Key, Value>, c: Scan, rest: seq<Scan>,
                 more: seq<Scan>, todo: seq<Scan>, todo': seq<Scan>)
    requires todo == [c] + rest && todo' == rest + more && (forall a :: ReachedAt(m, from, to, was, todo, a))
    requires forall a, r :: FollowedAt(m, from, to, was, ret, c, more, r, a)
    ensures forall a :: ReachedAt(m, from, to, ret, todo', a)
  {
    forall a ensures ReachedAt(m, from, to, ret, todo', a) {
      assert ReachedAt(m, from, to, was, todo, a) && FollowedAt(m, from, to, was, ret, c, more, rest, a);
    }
  }

  lemma CtxJoin(m: Mem, from: Key, to: Key, n: nat, s: seq<Scan>, t: seq<Scan>, u: seq<Scan>)
    requires (forall c :: CtxAt(m, from, to, n, s, c)) && (forall c :: CtxAt(m, from, to, n, t, c)) && u == s + t
    ensures forall c :: CtxAt(m, from, to, n, u, c)
  {
    forall c ensures CtxAt(m, from, to, n, u, c) { assert CtxAt(m, from, to, n, s, c) && CtxAt(m, from, to, n, t, c); }
  }

  /** Follows all scans of one level. */
  method Level(m: Mem, from: Key, to: Key, ret0: map<Key, Value>, ss: seq<Scan>, ghost n: nat, ghost n1: nat)
    returns (ret: map<Key, Value>, next: seq<Scan>)
    requires n1 == n + 1 && Settled(m) && AtMost(from, to) && Scanned(m, from, to, n, ret0, ss)
    ensures Scanned(m, from, to, n1, ret, next)
  {
    ret, next := ret0, [];
    var i := 0;
    ghost var todo := ss;
    while i < |ss|
      invariant 0 <= i <= |ss| && todo == ss[i..] + next && (forall k :: ReturnedAt(m, from, to, ret, k))
      invariant forall a :: ReachedAt(m, from, to, ret, todo, a)
      invariant forall c :: CtxAt(m, from, to, n1, next, c)
    {
      assert CtxAt(m, from, to, n, ss, ss[i]);
      ghost var was, rest := ret, ss[i + 1..] + next;
      var more;
      ret, more := Follow(m, from, to, ret, ss[i], n, n1);
      Advanced(m, from, to, was, ret, ss[i], rest, more, todo, rest + more);
      CtxJoin(m, from, to, n1, next, more, next + more);
      todo := rest + more;
      next, i := next + more, i + 1;
    }
    assert todo == next;
  }

  /** The scan from the root returns exactly the keys of the tree between `from` and `to`, with their values. */
  method ScanRange(m: Mem, from: Key, to: Key) returns (ret: map<Key, Value>)
    requires Settled(m) && AtMost(from, to)
    ensures forall k: Key :: k in ret <==> InRange(from, to, k) && View(m, k).Some?
    ensures forall k: Key :: k in ret ==> View(m, k) == Some(ret[k])
  {
    var ss := if m.root.Null? then [] else [Scan(m.root, Root, 0, from, to, BORDER, BORDER)];
    ScanStart(m, from, to, ss);
    ret := Levels(m, from, to, ss);
  }

  /** Level by level, the scans that a search starts with lead to exactly the keys between `from` and `to`. */
  method Levels(m: Mem, from: Key, to: Key, start: seq<Scan>) returns (ret: map<Key, Value>)
    requires Settled(m) && AtMost(from, to) && Scanned(m, from, to, 0, map[], start)
    ensures forall k: Key :: k in ret <==> InRange(from, to, k) && View(m, k).Some?
    ensures forall k: Key :: k in ret ==> View(m, k) == Some(ret[k])
  {
    ret := map[];
    var ss := start;
    ghost var n := 0;
    while ss != []
      invariant Scanned(m, from, to, n, ret, ss)
      decreases PATH_LEN - n
    {
      assert CtxAt(m, from, to, n, ss, ss[0]);
      ret, ss := Level(m, from, to, ret, ss, n, n + 1);
      n := n + 1;
    }
    forall k: Key ensures k in ret <==> InRange(from, to, k) && View(m, k).Some? { AllReached(m, from, to, ret, k); }
    forall k: Key | k in ret ensures View(m, k) == Some(ret[k]) { assert ReturnedAt(m, from, to, ret, k); }
  }

  lemma AllReached(m: Mem, from: Key, to: Key, ret: map<Key, Value>, k: Key)
    requires Settled(m) && (forall a :: ReachedAt(m, from, to, ret, [], a))
    requires forall k :: ReturnedAt(m, from, to, ret, k)
    ensures k in ret <==> InRange(from, to, k) && View(m, k).Some?
  {
    assert ReturnedAt(m, from, to, ret, k);
    SettledView(m, k);
    if InRange(from, to, k) && View(m, k).Some? {
      var a :| a in m.leaves && m.leaves[a].key == k;
      assert ReachedAt(m, from, to, ret, [], a);
    }
  }
}
