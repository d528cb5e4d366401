/** Searches that start with a cached entry while the tree changes: when they agree with a search from the root. */
module CachedSearches {
  import opened Keys
  import opened RemoteMemory
  import opened MemoryOps
  import opened Lookup
  import opened StaleEntries
  import opened Splits
  import opened NewPages
  import opened Machine
  import opened Invariant
  import opened Steps
  import opened Runs
  import opened RunTheorems
  import opened Views
  import opened Settling

  /** What the search reads through the cached entry confirms it: the target still names the slot, and the header of a
      page does not start below the slot. */
  ghost predicate Confirmed(m: Mem, s: SlotRef, e: Entry) {
    match e
    case Null => false
    case LeafEntry(_, a) => a in m.leaves && m.leaves[a].rev == s
    case NodeEntry(_, _, x) =>
      x in m.pages && m.pages[x].hdr.ntype != DELETED && m.pages[x].hdr.depth <= |Above(m, s)| + 1
        && m.pages[x].rev == s
  }

  ghost function ValueOf(m: Mem, r: Option<Addr>): Option<Value> {
    if r.Some? && r.value in m.leaves then Some(m.leaves[r.value].value) else None
  }

  /** What a search finds in `m` that starts with entry `e` from the cache: a target that is not confirmed is looked up
      in the slot again. */
  ghost function CachedView(m: Mem, s: SlotRef, e: Entry, k: Key): Option<Value> {
    ValueOf(m, Look(m, if Confirmed(m, s, e) then e else Fetch(m, s), |Above(m, s)| + 1, k, false))
  }

  /** Where no slot is hidden, a search from a slot on the key's path finds what a root search finds. */
  lemma FromSlot(m: Mem, s: SlotRef, k: Key)
    requires WF(m) && Covered(m) && OnPath(m, s, k)
    ensures ValueOf(m, Look(m, Fetch(m, s), |Above(m, s)| + 1, k, false)) == View(m, k)
  {
    SettledView(m, k);
    LookSound(m, Fetch(m, s), |Above(m, s)| + 1, k, false);
    if a :| a in m.leaves && m.leaves[a].key == k {
      assert LeafAt(m, a);
      CoveredClear(m, m.pre[a], |m.pre[a]|, 0, {});
      LookFinds(m, s, a, false);
    }
  }

  lemma SameTarget(m: Mem, s: SlotRef, e: Entry, d: nat, k: Key)
    requires WF(m) && Held(m, s, e) && Fetch(m, s).addr == e.addr
    ensures Look(m, e, d, k, false) == Look(m, Fetch(m, s), d, k, false)
  {
    assert EntryAt(m, s);
  }

  /** Leaf `a` hangs below slot `s` and not below target `y`. */
  ghost predicate StrayLeaf(m: Mem, s: SlotRef, y: Addr, a: Addr) {
    && !Fetch(m, s).Null? && y in m.pre && a in m.leaves && a in m.pre
    && Under(Above(m, s), Fetch(m, s).partial, m.pre[a]) && !Ext(m.pre[y], m.pre[a])
  }

  /** Slot `s` still holds target `y`, or it has been split: some leaf below it is not below `y`. */
  ghost predicate Strays(m: Mem, s: SlotRef, y: Addr) {
    Fetch(m, s).Null? || Fetch(m, s).addr == y || exists a :: StrayLeaf(m, s, y, a)
  }

  /** A confirmed entry whose target is no longer in the slot hides the stray leaf. */
  lemma StrayMissed(m: Mem, s: SlotRef, e: Entry, a: Addr)
    requires WF(m) && Covered(m) && Held(m, s, e) && Confirmed(m, s, e) && StrayLeaf(m, s, e.addr, a)
    ensures var k := m.leaves[a].key;
      Under(Above(m, s), e.partial, Path(k)) && View(m, k).Some? && CachedView(m, s, e, k) == None
  {
    var k := m.leaves[a].key;
    assert LeafAt(m, a) && LeafAt(m, e.addr) && PageAt(m, e.addr);
    SettledView(m, k);
    if e.NodeEntry? && HeaderMatch(m.pages[e.addr].hdr, k) {
      var h, f := m.pages[e.addr].hdr, m.pre[e.addr];
      forall i | 0 <= i < |f| ensures f[i] == Path(k)[i] {
        if i >= h.depth { assert Path(k)[h.depth + (i - h.depth)] == h.partial[i - h.depth]; }
      }
    }
  }

  // only a split changes the target of a filled slot

  lemma TargetKept(m: Mem, eff: Effect, m': Mem, t: SlotRef)
    requires WF(m) && EffOK(m, eff) && Applies(m, eff, m') && (eff.PutAt? ==> Fetch(m, eff.s).Null?)
    requires !Fetch(m, t).Null?
    requires WF(m') && Grows(m, m')
    ensures !Fetch(m', t).Null? && (Fetch(m', t).addr == Fetch(m, t).addr || (eff.SplitAt? && eff.s == t))
  {
    assert SlotGrows(m, m', t);
    if eff.SplitAt? && eff.s != t { SplitKeptSlot(m, m', eff.s, eff.k, eff.v, eff.len, eff.addrs, eff.a, t); }
  }

  /** The key of a split leaves the path of the old target. */
  lemma SplitStrays(m: Mem, m': Mem, s: SlotRef, k: Key, v: Value, len: nat, addrs: seq<Addr>, a: Addr)
    requires WF(m) && Diverges(m, s, k, len) && FreshAddrs(m, addrs, a) && SplitTo(m, m', s, k, v, len, addrs, a)
    ensures StrayLeaf(m', s, Fetch(m, s).addr, a)
  {
    var y := Fetch(m, s).addr;
    SplitKeeps(m, m', s, k, v, len, addrs, a);
    FilledIn(m, s);
    AboveStable(m, m', s);
    assert EntryAt(m, s) && SlotGrows(m, m', s) && TargetGrows(m, m', y) && LeafAt(m', a);
  }

  lemma StrayStays(m: Mem, m': Mem, s: SlotRef, y: Addr, a: Addr)
    requires WF(m) && WF(m') && Grows(m, m') && StrayLeaf(m, s, y, a)
    ensures StrayLeaf(m', s, y, a)
  {
    FilledIn(m, s);
    AboveStable(m, m', s);
    assert SlotGrows(m, m', s) && TargetGrows(m, m', y) && TargetGrows(m, m', a);
  }

  lemma StraysEffect(m: Mem, eff: Effect, m': Mem, s: SlotRef, y: Addr)
    requires WF(m) && WF(m') && Grows(m, m') && EffOK(m, eff) && Applies(m, eff, m')
    requires eff.PutAt? ==> Fetch(m, eff.s).Null?
    requires !Fetch(m, s).Null? && Strays(m, s, y)
    ensures Strays(m', s, y)
  {
    if Fetch(m, s).addr == y {
      TargetKept(m, eff, m', s);
      if eff.SplitAt? && eff.s == s { SplitStrays(m, m', s, eff.k, eff.v, eff.len, eff.addrs, eff.a); }
    } else {
      var a :| StrayLeaf(m, s, y, a);
      StrayStays(m, m', s, y, a);
    }
  }

  lemma PutsInNull(m: Mem, l: Local, addrs: seq<Addr>, a: Addr)
    requires CanStep(l)
    ensures var eff := StepThread(m, l, addrs, a).eff; eff.PutAt? ==> Fetch(m, eff.s).Null?
  {}

  lemma StraysStep(c: State, c': State, t: Tid, act: Act, s: SlotRef, e: Entry)
    requires Inv(c) && Next(c, c', t, act) && (s, e) in c.seen && !e.Null? && Strays(c.m, s, e.addr)
    ensures Strays(c'.m, s, e.addr)
  {
    NextInv(c, c', t, act);
    assert SeenAt(c, s, e);
    match act
    case Thread(addrs, a) =>
      assert ThreadAt(c, t);
      ThreadEffOK(c.m, c.th[t], addrs, a);
      PutsInNull(c.m, c.th[t], addrs, a);
      StraysEffect(c.m, StepThread(c.m, c.th[t], addrs, a).eff, c'.m, s, e.addr);
    case Post(q) => StraysEffect(c.m, AsyncEffect(q), c'.m, s, e.addr);
    case _ =>
  }

  /** In every run, a slot that no longer holds a cached target has leaves that are not below the target. */
  lemma {:induction false} SeenStrays(cs: seq<State>, ss: seq<Step>, n: nat, s: SlotRef, e: Entry)
    requires IsRun(cs, ss) && n < |cs| && (s, e) in cs[n].seen
    ensures !e.Null? && Strays(cs[n].m, s, e.addr)
    decreases n
  {
    if n > 0 {
      assert RunStep(cs, ss, n - 1);
      RunInv(cs, ss, n - 1);
      if (s, e) in cs[n - 1].seen {
        SeenStrays(cs, ss, n - 1, s, e);
        StraysStep(cs[n - 1], cs[n], ss[n - 1].t, ss[n - 1].act, s, e);
      } else {
        NewlySeen(cs[n - 1], cs[n], ss[n - 1].t, ss[n - 1].act, s, e);
      }
    }
  }

  lemma NewlySeen(c: State, c': State, t: Tid, act: Act, s: SlotRef, e: Entry)
    requires Next(c, c', t, act) && (s, e) in c'.seen && (s, e) !in c.seen
    ensures !e.Null? && e == Fetch(c'.m, s)
  {}

  /** The slot still points to the entry's target. */
  ghost predicate StillThere(m: Mem, s: SlotRef, e: Entry)
    requires !e.Null?
  {
    !Fetch(m, s).Null? && Fetch(m, s).addr == e.addr
  }

  ghost predicate AgreesAt(m: Mem, s: SlotRef, e: Entry, k: Key)
    requires !e.Null?
  {
    Under(Above(m, s), e.partial, Path(k)) ==> CachedView(m, s, e, k) == View(m, k)
  }

  lemma AllCovered(c: State)
    requires Inv(c) && forall t :: t in c.th ==> !c.th[t].Switching?
    ensures Covered(c.m)
  {
    forall x, j: nat ensures CoveredAt(c.m, x, j) { assert HiddenAt(c, x, j); }
  }

  /** When no type switch is under way, a cached entry gives for every key below it the answer of a root search exactly
      if what it points to either does not confirm it or still is what the slot points to. */
  lemma CachedAgrees(cs: seq<State>, ss: seq<Step>, n: nat, s: SlotRef, e: Entry)
    requires IsRun(cs, ss) && n < |cs| && (s, e) in cs[n].seen
    requires forall t :: t in cs[n].th ==> !cs[n].th[t].Switching?
    ensures !e.Null?
    ensures (forall k: Key :: AgreesAt(cs[n].m, s, e, k)) <==> (Confirmed(cs[n].m, s, e) ==> StillThere(cs[n].m, s, e))
  {
    RunInv(cs, ss, n);
    SeenStrays(cs, ss, n, s, e);
    AllCovered(cs[n]);
    var m := cs[n].m;
    assert SeenAt(cs[n], s, e);
    FilledIn(m, s);
    if Confirmed(m, s, e) && !StillThere(m, s, e) {
      var a :| StrayLeaf(m, s, e.addr, a);
      StrayMissed(m, s, e, a);
      assert !AgreesAt(m, s, e, m.leaves[a].key);
    } else {
      forall k: Key ensures AgreesAt(m, s, e, k) {
        if Under(Above(m, s), e.partial, Path(k)) {
          FromSlot(m, s, k);
          if Confirmed(m, s, e) { SameTarget(m, s, e, |Above(m, s)| + 1, k); }
        }
      }
    }
  }

  // with type switches under way

  /** Slot `j` of page `x` hides `k`, and the page's prefix is longer than `lo`. */
  ghost predicate BehindBelow(m: Mem, k: Key, lo: nat, x: Addr, j: nat) {
    Behind(m, k, x, j) && x in m.pre && lo < |m.pre[x]|
  }

  ghost predicate HiddenBelow(m: Mem, k: Key, lo: nat) {
    exists x, j :: BehindBelow(m, k, lo, x, j)
  }

  ghost predicate BehindAbove(m: Mem, k: Key, lo: nat, x: Addr, j: nat) {
    Behind(m, k, x, j) && x in m.pre && |m.pre[x]| <= lo
  }

  ghost predicate HiddenAbove(m: Mem, k: Key, lo: nat) {
    exists x, j :: BehindAbove(m, k, lo, x, j)
  }

  /** The entry is confirmed although a split has moved its target, and the key is not below the target. */
  ghost predicate Misled(m: Mem, s: SlotRef, e: Entry, k: Key) {
    !e.Null? && Confirmed(m, s, e) && !StillThere(m, s, e) && e.addr in m.pre && !Ext(m.pre[e.addr], Path(k))
  }

  lemma ClearBelowSlot(m: Mem, k: Key, lo: nat)
    requires WF(m) && !HiddenBelow(m, k, lo)
    ensures Clear(m, Path(k), PATH_LEN, lo, {})
  {
    forall x ensures ClearAt(m, x, Path(k), PATH_LEN, lo, {}) {
      if x in m.pages && x in m.pre && lo < |m.pre[x]| < PATH_LEN && Ext(m.pre[x], Path(k)) {
        forall j: nat | !Fetch(m, Slot(x, j)).Null? && Fetch(m, Slot(x, j)).partial == Path(k)[|m.pre[x]|]
          ensures j < Capacity(m.pages[x].hdr.ntype)
        {
          assert PageAt(m, x) && !BehindBelow(m, k, lo, x, j);
        }
      }
    }
  }

  /** A search that goes on from a slot finds the leaf of its key if nothing below the slot hides it. */
  lemma {:induction false} FoundFrom(m: Mem, s: SlotRef, a: Addr)
    requires WF(m) && a in m.leaves && OnPath(m, s, m.leaves[a].key)
    requires Clear(m, Path(m.leaves[a].key), PATH_LEN, |Above(m, s)|, {})
    ensures Look(m, Fetch(m, s), |Above(m, s)| + 1, m.leaves[a].key, false) == Some(a)
    decreases KEY_LEN + 1 - |Above(m, s)|
  {
    var x, k := Fetch(m, s).addr, m.leaves[a].key;
    assert LeafAt(m, a) && EntryAt(m, s);
    Cover(m, s, a);
    if Fetch(m, s).LeafEntry? {
      assert LeafAt(m, x);
      assert m.pre[x] == m.pre[a];
      Unique(m, x, a);
    } else {
      assert PageAt(m, x) && ClearAt(m, x, Path(k), PATH_LEN, |Above(m, s)|, {});
      var j := SlotToward(m, x, a);
      LookStep(m, s, k, false, j);
      forall z ensures ClearAt(m, z, Path(k), PATH_LEN, |m.pre[x]|, {}) {
        assert ClearAt(m, z, Path(k), PATH_LEN, |Above(m, s)|, {});
      }
      FoundFrom(m, Slot(x, j), a);
    }
  }

  /** What a search that goes on from a slot finds. */
  lemma FromSlotExact(m: Mem, s: SlotRef, k: Key)
    requires WF(m) && OnPath(m, s, k)
    ensures var r := Look(m, Fetch(m, s), |Above(m, s)| + 1, k, false);
      (r.Some? <==> HasKey(m, k) && !HiddenBelow(m, k, |Above(m, s)|))
        && (r.Some? ==> r.value in m.leaves && m.leaves[r.value].key == k)
  {
    LookSound(m, Fetch(m, s), |Above(m, s)| + 1, k, false);
    if HiddenBelow(m, k, |Above(m, s)|) {
      var x, j :| BehindBelow(m, k, |Above(m, s)|, x, j);
      assert PageAt(m, x) && !ClearAt(m, x, Path(k), PATH_LEN, 0, {});
      LookStops(m, s, k, x);
    } else if HasKey(m, k) {
      var a :| a in m.leaves && m.leaves[a].key == k;
      ClearBelowSlot(m, k, |Above(m, s)|);
      FoundFrom(m, s, a);
    }
  }

  /** The slot that points to the target of a confirmed entry now: a search from there reads the same. */
  lemma ConfirmedLook(m: Mem, s: SlotRef, e: Entry, k: Key) returns (t: SlotRef)
    requires WF(m) && Held(m, s, e) && Confirmed(m, s, e) && OnPath(m, s, k) && Ext(m.pre[e.addr], Path(k))
    ensures OnPath(m, t, k) && Fetch(m, t).addr == e.addr && |Above(m, s)| <= |Above(m, t)| < |m.pre[e.addr]|
    ensures Look(m, e, |Above(m, s)| + 1, k, false) == Look(m, Fetch(m, t), |Above(m, t)| + 1, k, false)
  {
    var y := e.addr;
    t := m.par[y];
    assert OwnerAt(m, y) && EntryAt(m, t) && EntryAt(m, s) && PageAt(m, y) && LeafAt(m, y);
    FilledIn(m, t);
    if |Above(m, t)| < |Above(m, s)| {
      assert PageAt(m, s.page);
      Cover(m, t, s.page);
    }
  }

  /** Between the slot and the target nothing is hidden: the way leads by records 0. */
  lemma NothingBetween(m: Mem, s: SlotRef, e: Entry, t: SlotRef, k: Key)
    requires WF(m) && Held(m, s, e) && OnPath(m, t, k) && Fetch(m, t).addr == e.addr && Ext(m.pre[e.addr], Path(k))
    requires |Above(m, s)| <= |Above(m, t)| < |m.pre[e.addr]|
    ensures HiddenBelow(m, k, |Above(m, s)|) <==> HiddenBelow(m, k, |Above(m, t)|)
  {
    var y := e.addr;
    if HiddenBelow(m, k, |Above(m, s)|) {
      var x, j :| BehindBelow(m, k, |Above(m, s)|, x, j);
      assert FirstBelow(m, s, x, y) && PageAt(m, x);
      assert BehindBelow(m, k, |Above(m, t)|, x, j);
    }
    if HiddenBelow(m, k, |Above(m, t)|) {
      var x, j :| BehindBelow(m, k, |Above(m, t)|, x, j);
      assert BehindBelow(m, k, |Above(m, s)|, x, j);
    }
  }

  /** A page that is confirmed although it has moved rules out all keys that are not below it. */
  lemma MisledMisses(m: Mem, s: SlotRef, e: Entry, k: Key)
    requires WF(m) && Held(m, s, e) && OnPath(m, s, k) && Misled(m, s, e, k)
    ensures Look(m, e, |Above(m, s)| + 1, k, false) == None
  {
    assert LeafAt(m, e.addr) && PageAt(m, e.addr);
    if e.NodeEntry? && HeaderMatch(m.pages[e.addr].hdr, k) {
      var h, f := m.pages[e.addr].hdr, m.pre[e.addr];
      forall i | 0 <= i < |f| ensures f[i] == Path(k)[i] {
        if i >= h.depth { assert Path(k)[h.depth + (i - h.depth)] == h.partial[i - h.depth]; }
      }
    }
  }

  /** What a search with a once-held entry finds. */
  lemma CachedFinds(m: Mem, s: SlotRef, e: Entry, k: Key)
    requires WF(m) && Held(m, s, e) && Under(Above(m, s), e.partial, Path(k))
    ensures CachedView(m, s, e, k).Some? <==> HasKey(m, k) && !HiddenBelow(m, k, |Above(m, s)|) && !Misled(m, s, e, k)
    ensures forall a :: a in m.leaves && m.leaves[a].key == k ==>
      CachedView(m, s, e, k) == None || CachedView(m, s, e, k) == Some(m.leaves[a].value)
  {
    FilledIn(m, s);
    LookSound(m, if Confirmed(m, s, e) then e else Fetch(m, s), |Above(m, s)| + 1, k, false);
    forall a, b | a in m.leaves && m.leaves[a].key == k && b in m.leaves && m.leaves[b].key == k ensures a == b {
      assert LeafAt(m, a) && LeafAt(m, b);
      Unique(m, a, b);
    }
    if Misled(m, s, e, k) {
      MisledMisses(m, s, e, k);
    } else if Confirmed(m, s, e) && !StillThere(m, s, e) {
      var t := ConfirmedLook(m, s, e, k);
      NothingBetween(m, s, e, t, k);
      FromSlotExact(m, t, k);
    } else {
      FromSlotExact(m, s, k);
      if Confirmed(m, s, e) { SameTarget(m, s, e, |Above(m, s)| + 1, k); }
    }
  }

  lemma HiddenSomewhere(m: Mem, k: Key, lo: nat)
    requires WF(m) && HasKey(m, k)
    ensures View(m, k) == None <==> HiddenBelow(m, k, lo) || HiddenAbove(m, k, lo)
  {
    HiddenKey(m, k);
    if x, j :| Behind(m, k, x, j) {
      assert PageAt(m, x);
      assert BehindBelow(m, k, lo, x, j) || BehindAbove(m, k, lo, x, j);
    }
  }

  /** In every state of every run, also while types are being switched: a cached entry gives for a key below it the
      answer of a root search exactly if the key is not stored, or a slot below the entry's slot hides it from both,
      or it is missed by both or by neither: by the cached search because the entry is confirmed although its target
      has moved away from the key, by the root search because a slot from the root down to the entry's slot hides the
      key. */
  lemma CachedAgreesAlways(cs: seq<State>, ss: seq<Step>, n: nat, s: SlotRef, e: Entry, k: Key)
    requires IsRun(cs, ss) && n < |cs| && (s, e) in cs[n].seen
    ensures !e.Null?
    ensures Under(Above(cs[n].m, s), e.partial, Path(k)) ==>
      var m := cs[n].m; var lo := |Above(m, s)|;
      CachedView(m, s, e, k) == View(m, k) <==>
        !HasKey(m, k) || HiddenBelow(m, k, lo) || (Misled(m, s, e, k) <==> HiddenAbove(m, k, lo))
  {
    RunInv(cs, ss, n);
    var m := cs[n].m;
    assert SeenAt(cs[n], s, e);
    if Under(Above(m, s), e.partial, Path(k)) {
      CachedFinds(m, s, e, k);
      ViewIs(m, k);
      if HasKey(m, k) { HiddenSomewhere(m, k, |Above(m, s)|); }
    }
  }
}
