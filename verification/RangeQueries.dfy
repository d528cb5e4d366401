/** range_query on a quiescent tree of which nothing is cached: where the scan starts, and which keys it can miss. */
module RangeQueries {
  import opened Keys
  import opened KeyMath
  import opened RemoteMemory
  import opened MemoryOps
  import opened Lookup
  import opened StaleEntries
  import opened Machine
  import opened Invariant
  import opened Settling
  import opened Steps
  import opened SequentialTree
  import opened RangePruning
  import opened RangeScan

  /** The depth at which the two ends of a range part. */
  function Target(from: Key, to: Key): nat {
    CommonLen(Path(from), Path(to), 0)
  }

  /** A stored key of the range whose leaf hangs off a slot above the depth at which the ends part. */
  ghost predicate Shallow(m: Mem, from: Key, to: Key, a: Addr) {
    && a in m.leaves && a in m.par && InRange(from, to, m.leaves[a].key)
    && |Above(m, m.par[a])| + 1 < Target(from, to)
  }

  /** All keys between two keys share what these share. */
  lemma {:induction false} BetweenShares(from: Key, to: Key, k: Key, n: nat)
    requires InRange(from, to, k) && n <= Target(from, to) && n <= PATH_LEN
    ensures forall i :: 0 <= i < n ==> Path(k)[i] == Path(from)[i] == Path(to)[i]
    decreases n
  {
    if n > 1 {
      BetweenShares(from, to, k, n - 1);
      var i := n - 2;
      assert from[i] == Path(from)[i + 1] == Path(to)[i + 1] == to[i];
      forall l | 0 <= l < i ensures from[l] == k[l] == to[l] {
        assert Path(k)[l + 1] == Path(from)[l + 1] == Path(to)[l + 1];
      }
      assert from[..i] == k[..i] == to[..i];
      if k[i] != from[i] { NotBetween(from, k, to, i); }
    }
  }

  /** Above that depth, what lies on the path of `from` lies on the path of every key of the range. */
  lemma RangeOnPath(m: Mem, s: SlotRef, from: Key, to: Key, k: Key)
    requires OnPath(m, s, from) && |Above(m, s)| < Target(from, to) && InRange(from, to, k)
    ensures OnPath(m, s, k) && Ext(Above(m, s) + [Fetch(m, s).partial], Path(to))
    ensures Ext(Above(m, s) + [Fetch(m, s).partial], Path(from))
  {
    BetweenShares(from, to, k, |Above(m, s)| + 1);
  }

  function FirstScan(e: Entry, s: SlotRef, d: nat, from: Key, to: Key): RangeScan.Scan
    requires d > 0
  {
    RangeScan.Scan(e, s, d - 1, from, to, BORDER, BORDER)
  }

  /** A slot on the path of `from` above that depth is a place to start. */
  lemma StartHere(m: Mem, s: SlotRef, d: nat, from: Key, to: Key)
    requires Settled(m) && AtMost(from, to) && OnPath(m, s, from) && d == |Above(m, s)| + 1 <= Target(from, to)
    requires d <= PATH_LEN
    ensures CtxOK(m, from, to, 0, FirstScan(Fetch(m, s), s, d, from, to))
    ensures Scanned(m, from, to, 0, map[], [FirstScan(Fetch(m, s), s, d, from, to)])
  {
    var c := FirstScan(Fetch(m, s), s, d, from, to);
    RangeOnPath(m, s, from, to, from);
    forall a ensures ReachedAt(m, from, to, map[], [c], a) {
      if a in m.leaves && InRange(from, to, m.leaves[a].key) {
        RangeOnPath(m, s, from, to, m.leaves[a].key);
        assert c in [c];
      }
    }
    forall x ensures CtxAt(m, from, to, 0, [c], x) {}
    forall k ensures ReturnedAt(m, from, to, map[], k) {}
  }

  /** A leaf on whose path slot `s` lies hangs off `s` or deeper. */
  lemma HangsDeeper(m: Mem, s: SlotRef, a: Addr)
    requires WF(m) && a in m.leaves && a in m.par && OnPath(m, s, m.leaves[a].key)
    ensures |Above(m, s)| <= |Above(m, m.par[a])|
  {
    var u := m.par[a];
    assert LeafAt(m, a) && OwnerAt(m, a) && EntryAt(m, u);
    if |Above(m, u)| < |Above(m, s)| {
      assert PageAt(m, s.page);
      Cover(m, u, s.page);
    }
  }

  /** No key of the range is stored. */
  ghost predicate NoneStored(m: Mem, from: Key, to: Key) {
    forall a :: a in m.leaves ==> !InRange(from, to, m.leaves[a].key)
  }

  lemma NothingToScan(m: Mem, from: Key, to: Key)
    requires NoneStored(m, from, to)
    ensures Scanned(m, from, to, 0, map[], []) && forall a :: !Shallow(m, from, to, a)
  {
    forall a ensures ReachedAt(m, from, to, map[], [], a) {}
    forall c ensures CtxAt(m, from, to, 0, [], c) {}
    forall k ensures ReturnedAt(m, from, to, map[], k) {}
  }

  /** The only leaf below a slot with a leaf. */
  lemma OnlyLeaf(m: Mem, s: SlotRef, from: Key, to: Key, a: Addr)
    requires WF(m) && OnPath(m, s, from) && |Above(m, s)| < Target(from, to) && Fetch(m, s).LeafEntry?
    requires a in m.leaves && InRange(from, to, m.leaves[a].key)
    ensures a == Fetch(m, s).addr && a in m.par && m.par[a] == s
  {
    RangeOnPath(m, s, from, to, m.leaves[a].key);
    LeafOnPath(m, s, a);
    assert EntryAt(m, s);
  }

  /** How the header of a page lies to the target depth: it leaves the path of `from` above it, reaches it, or ends
      above. */
  datatype Way = Off | Reaches | Through

  method WalkHeader(h: Header, from: Key, t: nat) returns (w: Way)
    requires h.depth + |h.partial| <= KEY_LEN && h.depth < t
    ensures w.Off? ==> FirstMismatch(h, from) < |h.partial| && h.depth + FirstMismatch(h, from) < t
    ensures w.Reaches? ==> t <= h.depth + |h.partial| && h.depth + FirstMismatch(h, from) >= t
    ensures w.Through? ==> FirstMismatch(h, from) == |h.partial| && h.depth + |h.partial| < t
  {
    var i := 0;
    while i < |h.partial|
      invariant 0 <= i <= |h.partial| && FirstMismatch(h, from) == FirstMismatch(h, from, i) && h.depth + i < t
    {
      if Path(from)[h.depth + i] != h.partial[i] { return Off; }
      if h.depth + i + 1 == t {
        assert FirstMismatch(h, from) >= i + 1;
        return Reaches;
      }
      i := i + 1;
    }
    return Through;
  }

  /** A header byte above the target depth that differs from `from` rules out the range. */
  lemma OffRules(m: Mem, s: SlotRef, x: Addr, from: Key, to: Key)
    requires Settled(m) && OnPath(m, s, from) && Fetch(m, s).NodeEntry? && Fetch(m, s).addr == x && x in m.pages
    requires var h := m.pages[x].hdr; var i := FirstMismatch(h, from); i < |h.partial| && h.depth + i < Target(from, to)
    ensures NoneStored(m, from, to)
  {
    var h := m.pages[x].hdr;
    var i := FirstMismatch(h, from);
    assert EntryAt(m, s) && PageAt(m, x) && SettledAt(m, x);
    forall a | a in m.leaves ensures !InRange(from, to, m.leaves[a].key) {
      if InRange(from, to, m.leaves[a].key) {
        RangeOnPath(m, s, from, to, m.leaves[a].key);
        BetweenShares(from, to, m.leaves[a].key, h.depth + i + 1);
        assert LeafAt(m, a);
        Cover(m, s, a);
      }
    }
  }

  /** So does a page above the target depth without a record for the next byte of `from`. */
  lemma MissRules(m: Mem, s: SlotRef, x: Addr, from: Key, to: Key)
    requires Settled(m) && OnPath(m, s, from) && Fetch(m, s).NodeEntry? && Fetch(m, s).addr == x && x in m.pages
    requires |m.pre[x]| < Target(from, to) && |m.pre[x]| <= KEY_LEN && |m.pages[x].records| == SLOTS
    requires Ext(m.pre[x], Path(from))
    requires var n := Capacity(m.pages[x].hdr.ntype); Lookup.Scan(m.pages[x].records, Path(from)[|m.pre[x]|], n) == n
    ensures NoneStored(m, from, to)
  {
    assert EntryAt(m, s) && PageAt(m, x);
    forall a | a in m.leaves ensures !InRange(from, to, m.leaves[a].key) {
      if InRange(from, to, m.leaves[a].key) {
        var k := m.leaves[a].key;
        RangeOnPath(m, s, from, to, k);
        BetweenShares(from, to, k, |m.pre[x]| + 1);
        assert LeafAt(m, a);
        Cover(m, s, a);
        var j := SlotToward(m, x, a);
        CoveredSlot(m, x, j);
      }
    }
  }

  /** A page whose header reaches the target depth gives all places to start. */
  lemma ReachesAll(m: Mem, s: SlotRef, d: nat, x: Addr, from: Key, to: Key, res: seq<RangeScan.Scan>)
    requires Settled(m) && AtMost(from, to) && OnPath(m, s, from) && d == |Above(m, s)| + 1 <= Target(from, to)
    requires d <= PATH_LEN
    requires Fetch(m, s).NodeEntry? && Fetch(m, s).addr == x && x in m.pages && x in m.pre
    requires Target(from, to) <= |m.pre[x]|
    requires forall i :: KeptAt(m.pages[x], x, m.pre[x], from, to, res, i)
    requires forall j :: ChosenAt(m.pages[x], x, m.pre[x], from, to, res, j)
    ensures Scanned(m, from, to, 0, map[], res) && forall a :: !Shallow(m, from, to, a)
  {
    var c := FirstScan(Fetch(m, s), s, d, from, to);
    StartHere(m, s, d, from, to);
    assert PageAt(m, x);
    forall a ensures ReachedAt(m, from, to, map[], res, a) {
      assert ReachedAt(m, from, to, map[], [c], a);
      assert [c] + [] == [c];
      PageReached(m, from, to, map[], c, x, res, [], res, a);
    }
    forall e ensures CtxAt(m, from, to, 0, res, e) { if e in res { RecordCtx(m, from, to, 0, x, res, e); } }
    forall k ensures ReturnedAt(m, from, to, map[], k) {}
    forall a ensures !Shallow(m, from, to, a) {
      if a in m.leaves && a in m.par && InRange(from, to, m.leaves[a].key) {
        RangeOnPath(m, s, from, to, m.leaves[a].key);
        assert LeafAt(m, a) && EntryAt(m, s);
        Cover(m, s, a);
        var j := SlotToward(m, x, a);
        HangsDeeper(m, Slot(x, j), a);
      }
    }
  }

  /** A slot at the target depth is the one place to start. */
  lemma AtTarget(m: Mem, s: SlotRef, d: nat, from: Key, to: Key)
    requires Settled(m) && AtMost(from, to) && OnPath(m, s, from) && d == |Above(m, s)| + 1 == Target(from, to)
    requires d <= PATH_LEN
    ensures Scanned(m, from, to, 0, map[], [FirstScan(Fetch(m, s), s, d, from, to)])
    ensures forall a :: !Shallow(m, from, to, a)
  {
    StartHere(m, s, d, from, to);
    forall a ensures !Shallow(m, from, to, a) {
      if a in m.leaves && a in m.par && InRange(from, to, m.leaves[a].key) {
        RangeOnPath(m, s, from, to, m.leaves[a].key);
        HangsDeeper(m, s, a);
      }
    }
  }

  /** A leaf above the target depth: the walk gives up, though the leaf may hold the one key of the range. */
  lemma LeafAbove(m: Mem, s: SlotRef, d: nat, from: Key, to: Key)
    requires Settled(m) && AtMost(from, to) && OnPath(m, s, from) && d == |Above(m, s)| + 1 < Target(from, to)
    requires Fetch(m, s).LeafEntry?
    ensures Scanned(m, from, to, 0, map[], []) || exists a :: Shallow(m, from, to, a)
  {
    if a :| a in m.leaves && InRange(from, to, m.leaves[a].key) {
      OnlyLeaf(m, s, from, to, a);
      assert Shallow(m, from, to, a);
    } else {
      NothingToScan(m, from, to);
    }
  }

  lemma EmptyTree(m: Mem, from: Key, to: Key)
    requires WF(m) && m.root.Null?
    ensures NoneStored(m, from, to)
  {
    forall a ensures a !in m.leaves {
      assert LeafAt(m, a);
      if a in m.leaves { RootCovers(m, a); }
    }
  }

  /** search_entries: walks along `from` down to the depth at which the ends of the range part. What it returns leads to
      all keys of the range, unless one of them hangs off a slot above that depth; then it returns nothing. */
  method SearchEntries(m: Mem, from: Key, to: Key) returns (res: seq<RangeScan.Scan>)
    requires Settled(m) && AtMost(from, to)
    ensures if exists a :: Shallow(m, from, to, a) then res == [] else Scanned(m, from, to, 0, map[], res)
  {
    var t := CommonPrefix(Path(from), Path(to), 0);
    var s, e, d := Root, m.root, 1;
    OnRoot(m, from);
    while !e.Null?
      invariant On(m, from, s, e, d, false) && 1 <= d <= t
      decreases t - d
    {
      if d == t {
        AtTarget(m, s, d, from, to);
        return [FirstScan(e, s, d, from, to)];
      }
      if e.LeafEntry? {
        LeafAbove(m, s, d, from, to);
        return [];
      }
      var x := e.addr;
      PageNow(m, from, s, e, d, false);
      var g := m.pages[x];
      var w := WalkHeader(g.hdr, from, t);
      if w.Off? {
        OffRules(m, s, x, from, to);
        NothingToScan(m, from, to);
        return [];
      }
      if w.Reaches? {
        res := StartOnPage(m, s, d, x, from, to);
        return;
      }
      PageMatches(m, from, s, x);
      var f := g.hdr.depth + |g.hdr.partial|;
      var n := Capacity(g.hdr.ntype);
      var j := FindRecord(g.records, Path(from)[f], n);
      if j == n {
        MissRules(m, s, x, from, to);
        NothingToScan(m, from, to);
        return [];
      }
      SequentialTree.OnRecord(m, from, x, j);
      s, e, d := Slot(x, j), g.records[j], f + 1;
    }
    EmptyTree(m, from, to);
    NothingToScan(m, from, to);
    return [];
  }

  method StartOnPage(m: Mem, s: SlotRef, d: nat, x: Addr, from: Key, to: Key) returns (res: seq<RangeScan.Scan>)
    requires Settled(m) && AtMost(from, to) && OnPath(m, s, from) && d == |Above(m, s)| + 1 < Target(from, to)
    requires d <= PATH_LEN
    requires Fetch(m, s).NodeEntry? && Fetch(m, s).addr == x && x in m.pages && Target(from, to) <= |m.pre[x]|
    ensures Scanned(m, from, to, 0, map[], res) && forall a :: !Shallow(m, from, to, a)
  {
    StartHere(m, s, d, from, to);
    PageBelow(m, from, to, 0, FirstScan(Fetch(m, s), s, d, from, to));
    res := OnPage(m.pages[x], x, from, to, BORDER, BORDER, m.pre[x], from, to);
    ReachesAll(m, s, d, x, from, to, res);
  }

  // the query

  ghost predicate Between(from: Key, to: Key, k: Key) {
    AtMost(from, k) && Less(k, to)
  }

  /** `ret` is what the query is asked for. */
  ghost predicate Exact(m: Mem, from: Key, to: Key, ret: map<Key, Value>) {
    forall k: Key :: ExactAt(m, from, to, ret, k)
  }

  ghost predicate ExactAt(m: Mem, from: Key, to: Key, ret: map<Key, Value>, k: Key) {
    && (k in ret <==> Between(from, to, k) && View(m, k).Some?)
    && (k in ret ==> View(m, k) == Some(ret[k]))
  }

  /** The last key of the range. */
  lemma LastKey(from: Key, to: Key, last: Key, k: Key)
    requires Less(from, to) && ToNat(last) == (ToNat(to) - 1) % Pow(KEY_LEN)
    ensures ToNat(last) + 1 == ToNat(to) && AtMost(from, last) && (InRange(from, last, k) <==> Between(from, to, k))
  {
    LessIsNumeric(from, to);
    Bounded(to);
    WrapMod(ToNat(to) - 1, ToNat(to) - 1, 0, Pow(KEY_LEN));
    LessIsNumeric(k, to);
    LessIsNumeric(k, last);
    LessIsNumeric(from, last);
    LessIsNumeric(from, k);
    if ToNat(k) == ToNat(last) { Injective(k, last); }
    if ToNat(from) == ToNat(last) { Injective(from, last); }
    if ToNat(from) == ToNat(k) { Injective(from, k); }
  }

  /** When a key of the range hangs too high, it is the only one. */
  lemma OnlyKey(m: Mem, from: Key, to: Key, a: Addr, k: Key)
    requires Settled(m) && AtMost(from, to) && Shallow(m, from, to, a)
    ensures InRange(from, to, k) && View(m, k).Some? <==> k == m.leaves[a].key
  {
    SettledView(m, k);
    SettledView(m, m.leaves[a].key);
    if InRange(from, to, k) && View(m, k).Some? {
      var b :| b in m.leaves && m.leaves[b].key == k;
      var s := m.par[a];
      assert LeafAt(m, a) && OwnerAt(m, a) && EntryAt(m, s);
      FilledIn(m, s);
      SharedSlot(m, s, from, to, m.leaves[a].key, k);
      LeafOnPath(m, s, b);
    }
  }

  lemma SharedSlot(m: Mem, s: SlotRef, from: Key, to: Key, j: Key, k: Key)
    requires OnPath(m, s, j) && |Above(m, s)| < Target(from, to) && InRange(from, to, j) && InRange(from, to, k)
    ensures OnPath(m, s, k)
  {
    BetweenShares(from, to, j, |Above(m, s)| + 1);
    BetweenShares(from, to, k, |Above(m, s)| + 1);
  }

  /** range_query over the keys from `from` up to but not including `to`: it returns exactly the stored keys of the
      range if and only if none of them hangs off a slot above the depth at which `from` and the last key of the range
      part. If one does, it is the only stored key of the range, and nothing is returned. */
  method RangeQuery(m: Mem, from: Key, to: Key) returns (ret: map<Key, Value>, ghost last: Key)
    requires Settled(m)
    ensures !Less(from, to) ==> ret == map[] && Exact(m, from, to, ret)
    ensures Less(from, to) ==> ToNat(last) + 1 == ToNat(to)
    ensures Less(from, to) ==> (Exact(m, from, to, ret) <==> forall a :: !Shallow(m, from, last, a))
    ensures Less(from, to) ==>
      forall a :: Shallow(m, from, last, a) ==>
        ret == map[] && forall k: Key :: Between(from, to, k) && View(m, k).Some? <==> k == m.leaves[a].key
  {
    last := from;
    if !Less(from, to) {
      ret := map[];
      forall k: Key ensures !Between(from, to, k) { EmptyRange(from, to, k); }
      return;
    }
    var end := Minus(to, 1);
    last := end;
    LastKey(from, to, end, from);
    var ss := SearchEntries(m, from, end);
    if ss == [] {
      ret := map[];
      NothingReturned(m, from, to, end);
    } else {
      ret := Levels(m, from, end, ss);
      forall k: Key ensures ExactAt(m, from, to, ret, k) { LastKey(from, to, end, k); }
    }
  }

  /** Nothing is returned: either nothing is stored, or the one key that is stored hangs too high. */
  lemma NothingReturned(m: Mem, from: Key, to: Key, last: Key)
    requires Settled(m) && Less(from, to) && ToNat(last) == (ToNat(to) - 1) % Pow(KEY_LEN)
    requires Scanned(m, from, last, 0, map[], []) || exists a :: Shallow(m, from, last, a)
    ensures Exact(m, from, to, map[]) <==> forall a :: !Shallow(m, from, last, a)
    ensures forall a :: Shallow(m, from, last, a) ==>
      forall k: Key :: Between(from, to, k) && View(m, k).Some? <==> k == m.leaves[a].key
  {
    forall a | Shallow(m, from, last, a)
      ensures forall k: Key :: Between(from, to, k) && View(m, k).Some? <==> k == m.leaves[a].key
      ensures !Exact(m, from, to, map[])
    {
      forall k: Key ensures Between(from, to, k) && View(m, k).Some? <==> k == m.leaves[a].key {
        LastKey(from, to, last, k);
        OnlyKey(m, from, last, a, k);
      }
      assert !ExactAt(m, from, to, map[], m.leaves[a].key);
    }
    if forall a :: !Shallow(m, from, last, a) {
      forall k: Key ensures ExactAt(m, from, to, map[], k) {
        LastKey(from, to, last, k);
        AllReached(m, from, last, map[], k);
      }
    }
  }

  lemma EmptyRange(from: Key, to: Key, k: Key)
    requires !Less(from, to)
    ensures !Between(from, to, k)
  {
    LessIsNumeric(from, to);
    LessIsNumeric(from, k);
    LessIsNumeric(k, to);
  }

  // a tree that holds one key

  function Lone(k: Key, v: Value): Mem {
    Mem(LeafEntry(0, 0), map[], map[0 := Leaf(Root, k, v)], map[0 := Path(k)], map[0 := Root])
  }

  lemma LoneSettled(k: Key, v: Value)
    ensures Settled(Lone(k, v)) && View(Lone(k, v), k) == Some(v)
  {
    var m := Lone(k, v);
    forall x ensures PageAt(m, x) {}
    forall a ensures LeafAt(m, a) {}
    forall s ensures EntryAt(m, s) {}
    forall y ensures OwnerAt(m, y) {}
    forall y ensures SettledAt(m, y) {}
    forall x, j ensures CoveredAt(m, x, j) {}
  }

  /** It is false that a query returns the stored keys of its range: on a tree that holds only `k`, the query for `k`
      alone returns nothing. */
  method MissesLone(k: Key, to: Key, v: Value) returns (m: Mem, ret: map<Key, Value>)
    requires ToNat(k) + 1 == ToNat(to)
    ensures Settled(m) && View(m, k) == Some(v) && Between(k, to, k) && ret == map[]
  {
    m := Lone(k, v);
    LoneSettled(k, v);
    LessIsNumeric(k, to);
    ghost var last;
    ret, last := RangeQuery(m, k, to);
    Injective(k, last);
    assert Target(k, k) == PATH_LEN;
    assert Shallow(m, k, last, 0);
  }
}
