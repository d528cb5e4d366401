/** What operations post: the reverse-pointer CASes and header trims that tell readers of old entries that they are out
    of date. */
module Repairs {
  import opened Keys
  import opened RemoteMemory
  import opened MemoryOps
  import opened Lookup
  import opened StaleEntries
  import opened Splits
  import opened Machine
  import opened Invariant
  import opened Steps
  import opened Runs
  import opened Views
  import opened RunTheorems
  import opened CachedSearches

  /** The reverse pointer of a page or leaf. */
  ghost function RevOf(m: Mem, y: Addr): Option<SlotRef> {
    if y in m.pages then Some(m.pages[y].rev) else if y in m.leaves then Some(m.leaves[y].rev) else None
  }

  /** The step of thread `t` splits slot `s` above `y`. */
  ghost predicate SplitStep(c: State, t: Tid, act: Act, s: SlotRef, y: Addr) {
    && act.Thread? && t in c.th && CanStep(c.th[t]) && StepThread(c.m, c.th[t], act.addrs, act.a).eff.SplitAt?
    && StepThread(c.m, c.th[t], act.addrs, act.a).eff.s == s && !Fetch(c.m, s).Null? && Fetch(c.m, s).addr == y
  }

  /** Header `h` starts where the slot of `y` ends and fits the prefix of `y`. */
  ghost predicate Trimmed(m: Mem, y: Addr, h: Header) {
    && y in m.pre && y in m.par && h.depth == |Above(m, m.par[y])| + 1 && HeaderOK(h.(ntype := NODE_4), m.pre[y])
  }

  /** The old target of a split hangs deeper afterwards. */
  lemma TargetSinks(m: Mem, eff: Effect, m': Mem, y: Addr)
    requires WF(m) && eff.SplitAt? && EffOK(m, eff) && Applies(m, eff, m') && y == Fetch(m, eff.s).addr
    ensures WF(m') && Grows(m, m') && y in m'.par && m'.par[y] == Slot(LastAddr(eff.addrs), 0)
    ensures |Above(m', m'.par[y])| == |Above(m, eff.s)| + 1 + eff.len && m'.par[y] != eff.s
  {
    SplitTarget(m, m', eff.s, eff.k, eff.v, eff.len, eff.addrs, eff.a);
    SplitKeeps(m, m', eff.s, eff.k, eff.v, eff.len, eff.addrs, eff.a);
    FilledIn(m, eff.s);
    AboveStable(m, m', eff.s);
  }

  /** What the step of a thread that splits slot `s` above `y` sends. */
  ghost predicate Sends(m: Mem, m': Mem, s: SlotRef, y: Addr, l: Local, sent: set<Async>) {
    && y in m'.par && m'.par[y] != s && |Above(m, s)| < |Above(m', m'.par[y])|
    && match l
       case GotLeaf(_, _) => y in m.leaves && sent == {Rev(y, s, m'.par[y])}
       case Splitting(_, h, i) =>
         && i < |h.partial| && y in m.pages && Trimmed(m', y, SplitHeader(h, i))
         && sent == {Rev(y, s, m'.par[y]), Trim(y, h, SplitHeader(h, i))}
       case _ => false
  }

  lemma LeafSends(m: Mem, p: Pos, leaf: Leaf, addrs: seq<Addr>, a: Addr, m': Mem, y: Addr)
    requires WF(m) && LocalOK(m, GotLeaf(p, leaf)) && FreshAddrs(m, addrs, a) && y == p.e.addr
    requires var eff := StepGotLeaf(m, p, leaf, addrs, a).eff; eff.SplitAt? && Applies(m, eff, m')
    ensures Sends(m, m', p.s, y, GotLeaf(p, leaf), StepGotLeaf(m, p, leaf, addrs, a).sent)
  {
    LeafDiverges(m, p, leaf);
    TargetSinks(m, StepGotLeaf(m, p, leaf, addrs, a).eff, m', y);
  }

  lemma PageSends(m: Mem, p: Pos, h: Header, i: nat, addrs: seq<Addr>, a: Addr, m': Mem, y: Addr)
    requires WF(m) && SplitOK(m, p, h, i) && FreshAddrs(m, addrs, a) && y == p.e.addr
    requires var eff := StepSplitting(m, p, h, i, addrs, a).eff; eff.SplitAt? && Applies(m, eff, m')
    ensures Sends(m, m', p.s, y, Splitting(p, h, i), StepSplitting(m, p, h, i, addrs, a).sent)
  {
    HeaderDiverges(m, p, h, i);
    TargetSinks(m, StepSplitting(m, p, h, i, addrs, a).eff, m', y);
    SplitHeaderOK(h, m.pre[y], i);
    assert TargetGrows(m, m', y);
  }

  lemma ThreadSends(m: Mem, l: Local, addrs: seq<Addr>, a: Addr, m': Mem, s: SlotRef, y: Addr)
    requires WF(m) && LocalOK(m, l) && CanStep(l) && FreshAddrs(m, addrs, a)
    requires var eff := StepThread(m, l, addrs, a).eff; eff.SplitAt? && eff.s == s && Applies(m, eff, m')
    requires !Fetch(m, s).Null? && Fetch(m, s).addr == y
    ensures Sends(m, m', s, y, l, StepThread(m, l, addrs, a).sent)
  {
    SplitKind(m, l, addrs, a);
    if l.GotLeaf? {
      LeafSends(m, l.p, l.leaf, addrs, a, m', y);
    } else {
      PageSends(m, l.p, l.h, l.i, addrs, a, m', y);
    }
  }

  lemma SplitKind(m: Mem, l: Local, addrs: seq<Addr>, a: Addr)
    requires CanStep(l) && StepThread(m, l, addrs, a).eff.SplitAt?
    ensures (l.GotLeaf? || l.Splitting?) && StepThread(m, l, addrs, a).eff.s == l.p.s && Fetch(m, l.p.s) == l.p.e
  {}

  /** A split posts the CAS of the reverse pointer of its old target, from the split slot to the slot that points to the
      target now. Above a page it also posts the trim of the page's header, from the header that the thread has compared
      to one that starts below the new slot. Nothing else is posted. */
  lemma SplitPosts(c: State, c': State, t: Tid, act: Act, s: SlotRef, y: Addr)
    requires Inv(c) && Next(c, c', t, act) && SplitStep(c, t, act, s, y)
    ensures y in c'.m.par && c'.m.par[y] != s && |Above(c.m, s)| < |Above(c'.m, c'.m.par[y])|
    ensures if c.th[t].GotLeaf? then y in c.m.leaves else c.th[t].Splitting? && y in c.m.pages
    ensures c.th[t].GotLeaf? ==> c'.posted == c.posted + multiset{Rev(y, s, c'.m.par[y])}
    ensures c.th[t].Splitting? ==> exists h :: PostsTrim(c, c', t, s, y, h)
  {
    assert ThreadAt(c, t);
    ThreadSends(c.m, c.th[t], act.addrs, act.a, c'.m, s, y);
    AllPosted(c, c', t, s, y, StepThread(c.m, c.th[t], act.addrs, act.a).sent);
  }

  lemma AllPosted(c: State, c': State, t: Tid, s: SlotRef, y: Addr, sent: set<Async>)
    requires t in c.th && Sends(c.m, c'.m, s, y, c.th[t], sent) && c'.posted == c.posted + multiset(sent)
    ensures c.th[t].GotLeaf? ==> c'.posted == c.posted + multiset{Rev(y, s, c'.m.par[y])}
    ensures c.th[t].Splitting? ==> exists h :: PostsTrim(c, c', t, s, y, h)
  {
    if c.th[t].Splitting? {
      var h := SplitHeader(c.th[t].h, c.th[t].i);
      assert multiset(sent) == multiset{Rev(y, s, c'.m.par[y]), Trim(y, c.th[t].h, h)};
      assert PostsTrim(c, c', t, s, y, h);
    } else {
      assert multiset(sent) == multiset{Rev(y, s, c'.m.par[y])};
    }
  }

  /** The step posts the reverse-pointer CAS of page `y` and the trim of its header to `h`. */
  ghost predicate PostsTrim(c: State, c': State, t: Tid, s: SlotRef, y: Addr, h: Header) {
    && y in c'.m.par && t in c.th && c.th[t].Splitting? && Trimmed(c'.m, y, h)
    && c'.posted == c.posted + multiset{Rev(y, s, c'.m.par[y]), Trim(y, c.th[t].h, h)}
  }

  /** If nobody has trimmed the header since the thread read it, the posted trim takes effect. */
  lemma TrimMatches(m: Mem, y: Addr, was: Header, h: Header)
    requires WF(m) && HdrSeen(m, y, was)
    ensures was.depth <= m.pages[y].hdr.depth
    ensures was.depth == m.pages[y].hdr.depth ==>
      TrimHeader(m, y, was, h).pages[y].hdr == h.(ntype := m.pages[y].hdr.ntype)
  {
    assert PageAt(m, y);
    if was.depth == m.pages[y].hdr.depth { assert was.partial == m.pages[y].hdr.partial; }
  }

  // when they land

  /** A reverse-pointer CAS that lands while the pointer still names the old slot moves it; then no entry that names the
      target is confirmed for the old slot. */
  lemma RevLands(c: State, c': State, t: Tid, y: Addr, src: SlotRef, dst: SlotRef, e: Entry)
    requires Inv(c) && Next(c, c', t, Post(Rev(y, src, dst))) && src != dst && RevOf(c.m, y) == Some(src)
    requires !e.Null? && e.addr == y
    ensures RevOf(c'.m, y) == Some(dst) && !Confirmed(c'.m, src, e)
  {
    assert PageAt(c.m, y) && LeafAt(c.m, y) && OwnerAt(c.m, y);
    if y in c.m.pages && y in c.m.leaves { BothKinds(c.m, y); }
  }

  /** No address holds a page and a leaf. */
  lemma BothKinds(m: Mem, y: Addr)
    requires WF(m)
    ensures !(y in m.pages && y in m.leaves)
  {
    assert PageAt(m, y) && LeafAt(m, y);
  }

  /** A trim that lands while the header is as it was moves the header's start; then the page is not confirmed for a
      slot above that. */
  lemma TrimLands(c: State, c': State, t: Tid, x: Addr, was: Header, now: Header, s: SlotRef, e: Entry)
    requires Inv(c) && Next(c, c', t, Post(Trim(x, was, now))) && x in c.m.pages
    requires c.m.pages[x].hdr.depth == was.depth && c.m.pages[x].hdr.partial == was.partial
    requires e.NodeEntry? && e.addr == x && |Above(c.m, s)| + 1 < now.depth
    ensures x in c'.m.pages && c'.m.pages[x].hdr.depth == now.depth && c'.m.pages[x].hdr.partial == now.partial
    ensures !Confirmed(c'.m, s, e)
  {}

  /** A search with an entry that is not confirmed finds every stored key that nothing below the slot hides. */
  lemma FoundUnconfirmed(m: Mem, s: SlotRef, e: Entry, k: Key)
    requires WF(m) && Held(m, s, e) && Under(Above(m, s), e.partial, Path(k)) && !Confirmed(m, s, e)
    ensures CachedView(m, s, e, k).Some? <==> HasKey(m, k) && !HiddenBelow(m, k, |Above(m, s)|)
  {
    CachedFinds(m, s, e, k);
  }

  /** What the split of slot `s` above `y` has posted in state `c` lands in state `d` while it still matches. */
  ghost predicate Lands(c: State, s: SlotRef, y: Addr, d: State, q: Async) {
    match q
    case Rev(z, src, dst) => z == y && src == s && y in c.m.par && dst == c.m.par[y] && RevOf(d.m, y) == Some(s)
    case Trim(x, was, now) =>
      && x == y && Trimmed(c.m, y, now)
      && y in d.m.pages && d.m.pages[y].hdr.depth == was.depth && d.m.pages[y].hdr.partial == was.partial
  }

  /** In every run: slot `s` is split above `y` in step `n`, and what the split has posted lands later, in step `j`,
      while it still matches. Then a search with any entry for `y` that a cache has from slot `s` finds every stored key
      below the entry that nothing below the slot hides. */
  lemma SplitRepaired(cs: seq<State>, ss: seq<Step>, n: nat, j: nat, s: SlotRef, y: Addr, e: Entry, k: Key)
    requires IsRun(cs, ss) && n < j < |ss| && SplitStep(cs[n], ss[n].t, ss[n].act, s, y)
    requires (s, e) in cs[j].seen && !e.Null? && e.addr == y && Under(Above(cs[j].m, s), e.partial, Path(k))
    requires ss[j].act.Post? && Lands(cs[n + 1], s, y, cs[j], ss[j].act.q)
    ensures var m := cs[j + 1].m; CachedView(m, s, e, k).Some? <==> HasKey(m, k) && !HiddenBelow(m, k, |Above(m, s)|)
  {
    SplitSank(cs, ss, n, j, s, y);
    RunInv(cs, ss, j);
    assert RunStep(cs, ss, j) && SeenAt(cs[j], s, e);
    LandedUnconfirms(cs[n + 1], cs[j], cs[j + 1], ss[j].t, ss[j].act.q, s, y, e);
    StillHeld(cs[j], cs[j + 1], ss[j].t, ss[j].act, s, e);
    FoundUnconfirmed(cs[j + 1].m, s, e, k);
  }

  lemma SplitSank(cs: seq<State>, ss: seq<Step>, n: nat, j: nat, s: SlotRef, y: Addr)
    requires IsRun(cs, ss) && n < j < |cs| && SplitStep(cs[n], ss[n].t, ss[n].act, s, y)
    ensures var m := cs[n + 1].m; y in m.par && m.par[y] != s && |Above(cs[j].m, s)| < |Above(m, m.par[y])|
  {
    RunInv(cs, ss, n);
    assert RunStep(cs, ss, n);
    SplitPosts(cs[n], cs[n + 1], ss[n].t, ss[n].act, s, y);
    SlotKeeps(cs, ss, n, j, s);
  }

  lemma SlotKeeps(cs: seq<State>, ss: seq<Step>, n: nat, j: nat, s: SlotRef)
    requires IsRun(cs, ss) && n <= j < |cs| && !Fetch(cs[n].m, s).Null?
    ensures Above(cs[j].m, s) == Above(cs[n].m, s)
  {
    RunInv(cs, ss, n);
    RunGrows(cs, ss, n, j);
    FilledIn(cs[n].m, s);
    AboveStable(cs[n].m, cs[j].m, s);
  }

  lemma StillHeld(c: State, c': State, t: Tid, act: Act, s: SlotRef, e: Entry)
    requires Inv(c) && Next(c, c', t, act) && (s, e) in c.seen
    ensures WF(c'.m) && Held(c'.m, s, e) && Above(c'.m, s) == Above(c.m, s)
  {
    NextInv(c, c', t, act);
    assert SeenAt(c, s, e);
    HeldStable(c.m, c'.m, s, e);
    FilledIn(c.m, s);
    AboveStable(c.m, c'.m, s);
  }

  lemma LandedUnconfirms(c: State, d: State, d': State, t: Tid, q: Async, s: SlotRef, y: Addr, e: Entry)
    requires Inv(d) && Next(d, d', t, Post(q)) && Lands(c, s, y, d, q) && !e.Null? && e.addr == y
    requires y in c.m.par && c.m.par[y] != s && |Above(d.m, s)| < |Above(c.m, c.m.par[y])| && Held(d.m, s, e)
    ensures !Confirmed(d'.m, s, e)
  {
    match q
    case Rev(_, _, dst) => RevLands(d, d', t, y, s, dst, e);
    case Trim(_, was, now) =>
      BothKinds(d.m, y);
      TrimLands(d, d', t, y, was, now, s, e);
  }

  // what reads post

  /** A traversal that has not come from the cache and reads a target whose reverse pointer names another slot posts the
      repair; other reads post nothing. */
  lemma ReadPosts(c: State, c': State, t: Tid, act: Act)
    requires Inv(c) && Next(c, c', t, act) && act.Thread? && (c.th[t].At? || c.th[t].Reading?) && !c.th[t].p.e.Null?
    ensures var p := c.th[t].p;
      var rev := if c.th[t].Reading? then c.th[t].r.rev else if p.e.LeafEntry? then RevOf(c.m, p.e.addr) else None;
      c'.posted == c.posted +
        if !p.fc && rev.Some? && rev.value != p.s then multiset{Rev(p.e.addr, rev.value, p.s)} else multiset{}
  {
    assert ThreadAt(c, t);
    BothKinds(c.m, c.th[t].p.e.addr);
  }

  /** No other step of a thread posts anything. */
  lemma OthersPostNothing(c: State, c': State, t: Tid, act: Act)
    requires Inv(c) && Next(c, c', t, act) && act.Thread?
    requires !c.th[t].At? && !c.th[t].Reading? && !StepThread(c.m, c.th[t], act.addrs, act.a).eff.SplitAt?
    ensures c'.posted == c.posted
  {}

  /** A cached leaf is read again from its slot exactly if it is not confirmed. */
  lemma LeafChecked(m: Mem, p: Pos, a: Addr)
    requires WF(m) && PosOK(m, p) && p.fc && p.e.LeafEntry?
    ensures StepAt(m, p, a).l.Reread? <==> !Confirmed(m, p.s, p.e)
  {
    BothKinds(m, p.e.addr);
  }

  /** So is a cached page whose header and reverse pointer were read in one memory. */
  lemma PageChecked(m: Mem, p: Pos, r: Read)
    requires WF(m) && PosOK(m, p) && p.fc && PageRead(p, r) && p.e.addr in m.pages
    requires r.hdr == Some(m.pages[p.e.addr].hdr) && r.rev == Some(m.pages[p.e.addr].rev)
    ensures StepDecide(p, r).l.Reread? <==> !Confirmed(m, p.s, p.e)
  {
    FilledIn(m, p.s);
  }

  /** A thread goes by an entry from a cache. */
  predicate FromCache(l: Local) {
    match l
    case At(p) => p.fc
    case Reread(p) => p.fc
    case GotLeaf(p, _) => p.fc
    case Reading(p, _) => p.fc
    case Splitting(p, _, _) => p.fc
    case Filling(p, _, _, _) => p.fc
    case _ => false
  }

  lemma FreshThread(m: Mem, l: Local, addrs: seq<Addr>, a: Addr)
    requires CanStep(l) && !FromCache(l)
    ensures !FromCache(StepThread(m, l, addrs, a).l)
  {}

  lemma FreshStep(c: State, c': State, t: Tid, act: Act, u: Tid)
    requires Next(c, c', t, act) && u in c.th && !FromCache(c.th[u])
    ensures u in c'.th && !FromCache(c'.th[u])
  {
    if act.Thread? && t == u { FreshThread(c.m, c.th[t], act.addrs, act.a); }
  }

  lemma RereadFresh(c: State, c': State, t: Tid, act: Act)
    requires Next(c, c', t, act) && act.Thread? && c.th[t].Reread?
    ensures t in c'.th && !FromCache(c'.th[t])
  {}

  lemma {:induction false} StaysFresh(cs: seq<State>, ss: seq<Step>, i: nat, j: nat, t: Tid)
    requires IsRun(cs, ss) && i <= j < |cs| && t in cs[i].th && !FromCache(cs[i].th[t])
    ensures t in cs[j].th && !FromCache(cs[j].th[t])
    decreases j
  {
    if i < j {
      StaysFresh(cs, ss, i, j - 1, t);
      assert RunStep(cs, ss, j - 1);
      FreshStep(cs[j - 1], cs[j], ss[j - 1].t, ss[j - 1].act, t);
    }
  }

  /** Once a thread has read an entry again from its slot, it never goes by the cache again: it accepts every leaf it
      reads, whatever its reverse pointer, and every page whose header does not start below the slot. */
  lemma RereadOnce(cs: seq<State>, ss: seq<Step>, i: nat, j: nat, t: Tid)
    requires IsRun(cs, ss) && i < j < |cs| && ss[i].t == t && ss[i].act.Thread?
    requires t in cs[i].th && cs[i].th[t].Reread?
    ensures t in cs[j].th && !FromCache(cs[j].th[t])
    ensures cs[j].th[t].At? && cs[j].th[t].p.e.LeafEntry? ==> forall m, a :: !StepAt(m, cs[j].th[t].p, a).l.Reread?
    ensures cs[j].th[t].Reading? && CanStep(cs[j].th[t]) ==>
      var p, r := cs[j].th[t].p, cs[j].th[t].r;
      StepDecide(p, r).l.Reread? <==> r.hdr.value.ntype == DELETED || r.hdr.value.depth > p.d
  {
    assert RunStep(cs, ss, i);
    RereadFresh(cs[i], cs[i + 1], t, ss[i].act);
    StaysFresh(cs, ss, i + 1, j, t);
  }
}
