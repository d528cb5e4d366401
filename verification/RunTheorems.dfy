/** The main results about runs. */
module RunTheorems {
  import opened Keys
  import opened RemoteMemory
  import opened MemoryOps
  import opened Lookup
  import opened Splits
  import opened StaleEntries
  import opened Publishing
  import opened Machine
  import opened Invariant
  import opened Steps
  import opened PageSteps
  import opened SlotSteps
  import opened Runs
  import opened Views

  datatype Step = Step(t: Tid, act: Act)

  ghost predicate RunStep(cs: seq<State>, ss: seq<Step>, i: nat) {
    i < |ss| && i + 1 < |cs| ==> Next(cs[i], cs[i + 1], ss[i].t, ss[i].act)
  }

  ghost predicate IsRun(cs: seq<State>, ss: seq<Step>) {
    |cs| == |ss| + 1 && Init(cs[0]) && forall i :: RunStep(cs, ss, i)
  }

  /** The invariant holds in every state of every run. */
  lemma {:induction false} RunInv(cs: seq<State>, ss: seq<Step>, i: nat)
    requires IsRun(cs, ss) && i < |cs|
    ensures Inv(cs[i])
    decreases i
  {
    if i == 0 {
      InitInv(cs[0]);
    } else {
      RunInv(cs, ss, i - 1);
      assert RunStep(cs, ss, i - 1);
      NextInv(cs[i - 1], cs[i], ss[i - 1].t, ss[i - 1].act);
    }
  }

  /** Along a run the memory only grows: prefixes and slot bytes are fixed, types and depths never fall. */
  lemma {:induction false} RunGrows(cs: seq<State>, ss: seq<Step>, i: nat, j: nat)
    requires IsRun(cs, ss) && i <= j < |cs|
    ensures WF(cs[i].m) && WF(cs[j].m) && Grows(cs[i].m, cs[j].m)
    decreases j
  {
    RunInv(cs, ss, i);
    RunInv(cs, ss, j);
    if i == j {
      GrowsRefl(cs[i].m);
    } else {
      RunGrows(cs, ss, i, j - 1);
      RunInv(cs, ss, j - 1);
      assert RunStep(cs, ss, j - 1);
      NextInv(cs[j - 1], cs[j], ss[j - 1].t, ss[j - 1].act);
      GrowsTrans(cs[i].m, cs[j - 1].m, cs[j].m);
    }
  }

  /** Slot discipline: the filled slots of a page form a prefix with distinct bytes, and a filled slot stays filled
      with the byte it has. */
  lemma SlotDiscipline(cs: seq<State>, ss: seq<Step>, i: nat, j: nat, x: Addr, p: nat, q: nat)
    requires IsRun(cs, ss) && i <= j < |cs| && x in cs[i].m.pages && q < p
    requires !Fetch(cs[i].m, Slot(x, p)).Null?
    ensures var e, f := Fetch(cs[i].m, Slot(x, q)), Fetch(cs[i].m, Slot(x, p)); !e.Null? && e.partial != f.partial
    ensures var f := Fetch(cs[j].m, Slot(x, p)); !f.Null? && f.partial == Fetch(cs[i].m, Slot(x, p)).partial
  {
    RunGrows(cs, ss, i, j);
    assert PageAt(cs[i].m, x) && SlotGrows(cs[i].m, cs[j].m, Slot(x, p));
  }

  /** The full prefix of a page is fixed, its header always covers the end of it, and the header's depth never
      exceeds the depth of the slot that points to the page. */
  lemma PrefixFixed(cs: seq<State>, ss: seq<Step>, i: nat, j: nat, x: Addr)
    requires IsRun(cs, ss) && i <= j < |cs| && x in cs[i].m.pages
    ensures x in cs[j].m.pages && x in cs[i].m.pre && x in cs[j].m.pre && cs[j].m.pre[x] == cs[i].m.pre[x]
    ensures var h, f := cs[j].m.pages[x].hdr, cs[i].m.pre[x];
      h.depth + |h.partial| == |f| && forall l :: 0 <= l < |h.partial| ==> h.partial[l] == f[h.depth + l]
    ensures x in cs[j].m.par && cs[j].m.pages[x].hdr.depth <= |Above(cs[j].m, cs[j].m.par[x])| + 1
  {
    RunGrows(cs, ss, i, j);
    var m := cs[j].m;
    assert TargetGrows(cs[i].m, m, x) && PageAt(m, x) && OwnerAt(m, x) && EntryAt(m, m.par[x]);
  }

  /** insert_behind is never called on a full page and never runs off the end of the page. */
  lemma NeverFull(cs: seq<State>, ss: seq<Step>, n: nat, t: Tid)
    requires IsRun(cs, ss) && n < |cs| && t in cs[n].th && cs[n].th[t].Filling?
    ensures cs[n].th[t].fi < SLOTS
    ensures cs[n].th[t].fi >= Capacity(cs[n].th[t].fh.ntype) ==> cs[n].th[t].fh.ntype != NODE_256
  {
    RunInv(cs, ss, n);
    var l := cs[n].th[t];
    assert ThreadAt(cs[n], t);
    NotFull(cs[n].m, l.p.e.addr, Path(l.p.op.k)[|cs[n].m.pre[l.p.e.addr]|], l.fi);
  }

  /** When a switch is over, both the header and the parent entry of the page have the new type. */
  lemma SwitchRaises(c: State, c': State, t: Tid, addrs: seq<Addr>, a: Addr)
    requires Inv(c) && Next(c, c', t, Act.Thread(addrs, a)) && c.th[t].Switching? && c'.th[t].Done?
    ensures var w := c.th[t].w;
      w.x in c'.m.pages && w.next <= c'.m.pages[w.x].hdr.ntype && w.next <= EntryType(c'.m, w.x)
  {
    assert ThreadAt(c, t);
  }

  lemma SwitchKeeps(m: Mem, w: Switch)
    ensures var l := StepSwitching(m, w).l;
      if l.Switching? then l.w.x == w.x && l.w.next == w.next && l.w.op == w.op else l == Done(w.op, None)
  {}

  /** What thread `t` was switching is raised when the switch is over, and stays raised. */
  ghost predicate Raised(m: Mem, l: Local, w: Switch) {
    if l.Switching? then l.w.x == w.x && l.w.next == w.next && l.w.op == w.op
    else l == Done(w.op, None) && w.x in m.pages && w.next <= m.pages[w.x].hdr.ntype && w.next <= EntryType(m, w.x)
  }

  lemma RaisedStep(c: State, c': State, t: Tid, st: Step, w: Switch)
    requires Inv(c) && Next(c, c', st.t, st.act) && t in c.th && Raised(c.m, c.th[t], w)
    ensures t in c'.th && Raised(c'.m, c'.th[t], w)
  {
    NextInv(c, c', st.t, st.act);
    assert ThreadAt(c, t);
    if c.th[t].Switching? {
      if st.act.Thread? && st.t == t {
        SwitchKeeps(c.m, c.th[t].w);
        if c'.th[t].Done? { SwitchRaises(c, c', t, st.act.addrs, st.act.a); }
      }
    } else {
      RaisedStays(c.m, c'.m, w);
    }
  }

  lemma RaisedStays(m: Mem, m': Mem, w: Switch)
    requires WF(m) && WF(m') && Grows(m, m') && w.x in m.pages && w.next <= m.pages[w.x].hdr.ntype
    requires w.next <= EntryType(m, w.x)
    ensures w.x in m'.pages && w.next <= m'.pages[w.x].hdr.ntype && w.next <= EntryType(m', w.x)
  {
    assert PageAt(m, w.x) && TargetGrows(m, m', w.x);
  }

  lemma {:induction false} SwitchReturns(cs: seq<State>, ss: seq<Step>, i: nat, j: nat, t: Tid)
    requires IsRun(cs, ss) && i <= j < |cs| && t in cs[i].th && cs[i].th[t].Switching?
    ensures t in cs[j].th && Raised(cs[j].m, cs[j].th[t], cs[i].th[t].w)
    decreases j
  {
    if i < j {
      SwitchReturns(cs, ss, i, j - 1, t);
      RunInv(cs, ss, j - 1);
      assert RunStep(cs, ss, j - 1);
      RaisedStep(cs[j - 1], cs[j], t, ss[j - 1], cs[i].th[t].w);
    }
  }

  /** When an insert that filled a slot behind the capacity returns, the capacity covers its slot, and goes on to. */
  lemma BehindReturns(cs: seq<State>, ss: seq<Step>, i: nat, j: nat, t: Tid)
    requires IsRun(cs, ss) && i < |ss| && i < j < |cs| && ss[i].t == t && ss[i].act.Thread?
    requires t in cs[i].th && cs[i].th[t].Filling? && t in cs[i + 1].th && cs[i + 1].th[t].Switching?
    requires t in cs[j].th && cs[j].th[t].Done?
    ensures cs[i].th[t].p.e.NodeEntry? && cs[i].th[t].p.e.addr in cs[j].m.pages
    ensures cs[i].th[t].fi < Capacity(cs[j].m.pages[cs[i].th[t].p.e.addr].hdr.ntype)
  {
    RunInv(cs, ss, i);
    assert RunStep(cs, ss, i) && ThreadAt(cs[i], t);
    var l, w := cs[i].th[t], cs[i + 1].th[t].w;
    CapacityMono(NODE_4, l.fh.ntype);
    assert w.x == l.p.e.addr && l.fi < Capacity(w.next);
    SwitchReturns(cs, ss, i + 1, j, t);
    CapacityMono(w.next, cs[j].m.pages[w.x].hdr.ntype);
  }

  /** Once a slot has pointed to a page or leaf, the slot leads to it for the rest of the run: whatever was put in
      between leads on to it by its record 0. */
  lemma StaysReachable(cs: seq<State>, ss: seq<Step>, i: nat, j: nat, s: SlotRef)
    requires IsRun(cs, ss) && i <= j < |cs| && !Fetch(cs[i].m, s).Null?
    ensures LeadsTo(cs[j].m, s, Fetch(cs[i].m, s).addr)
  {
    RunGrows(cs, ss, i, j);
    HeldNow(cs[i].m, s);
    HeldStable(cs[i].m, cs[j].m, s, Fetch(cs[i].m, s));
  }

  /** Two headers of one page, of which neither starts below the slot, differ from a key at the same depth or not at
      all: a search through an untrimmed header decides what a search through the trimmed one decides. */
  lemma LateTrim(h: Header, h': Header, f: Bytes, k: Key, d: nat)
    requires HeaderOK(h, f) && HeaderOK(h', f) && h.depth <= d && h'.depth <= d <= |f| <= KEY_LEN
    requires Ext(f[..d], Path(k))
    ensures h.depth + FirstMismatch(h, k) == h'.depth + FirstMismatch(h', k)
    ensures FirstMismatch(h, k) == |h.partial| <==> Ext(f, Path(k))
  {
    MismatchDepth(h, f, k, d);
    MismatchDepth(h', f, k, d);
  }

  lemma MismatchDepth(h: Header, f: Bytes, k: Key, d: nat)
    requires HeaderOK(h, f) && h.depth <= d <= |f| <= KEY_LEN && Ext(f[..d], Path(k))
    ensures var i := h.depth + FirstMismatch(h, k);
      i <= |f| && (i < |f| ==> f[i] != Path(k)[i]) && (forall l :: 0 <= l < i ==> f[l] == Path(k)[l])
  {
    var j := FirstMismatch(h, k);
    forall l | 0 <= l < h.depth + j ensures f[l] == Path(k)[l] {
      if l < d { assert f[..d][l] == f[l]; } else { assert Agrees(h, k, l - h.depth); }
    }
  }

  // visibility

  ghost predicate CrossedClear(m: Mem, c: set<SlotRef>) {
    forall t :: t in c ==> CrossedClearAt(m, t)
  }

  ghost predicate CrossedClearAt(m: Mem, t: SlotRef) {
    t.Slot? && t.page in m.pages && t.idx < Capacity(m.pages[t.page].hdr.ntype)
  }

  /** A published key is found from the root exactly when every slot that its insert crossed behind a capacity is
      covered by the capacity now, and so is the way to the slot the insert started from. */
  lemma PublishedVisible(m: Mem, op: Op)
    requires WF(m) && Published(m, op)
    ensures View(m, op.k).Some? <==> Clear(m, Path(op.k), Lo(m, op) + 1, 0, {}) && CrossedClear(m, op.crossed)
    ensures op.from.Root? ==> Clear(m, Path(op.k), Lo(m, op) + 1, 0, {})
  {
    var p, d := Path(op.k), Lo(m, op) + 1;
    ViewIs(m, op.k);
    if Visible(m, p) {
      forall t | t in op.crossed ensures CrossedClearAt(m, t) {
        assert CrossOK(m, op, t) && PageAt(m, t.page) && ClearAt(m, t.page, p, PATH_LEN, 0, {});
      }
      forall x ensures ClearAt(m, x, p, d, 0, {}) { assert ClearAt(m, x, p, PATH_LEN, 0, {}); }
    }
    if Clear(m, p, Lo(m, op) + 1, 0, {}) && CrossedClear(m, op.crossed) {
      forall x ensures ClearAt(m, x, p, PATH_LEN, 0, {}) {
        assert ClearAt(m, x, p, Lo(m, op) + 1, 0, {}) && ClearAt(m, x, p, PATH_LEN, Lo(m, op), op.crossed);
        forall j: nat | Slot(x, j) in op.crossed ensures CrossedClearAt(m, Slot(x, j)) {}
      }
    }
  }

  /** Slot `j` of page `x` lies on the path of `k`, and the capacity of the page does not cover it. */
  ghost predicate Behind(m: Mem, k: Key, x: Addr, j: nat) {
    Hidden(m, x, j) && OnPath(m, Slot(x, j), k)
  }

  /** A stored key is not found exactly if a slot on its path is behind a capacity. */
  lemma HiddenKey(m: Mem, k: Key)
    requires WF(m) && HasKey(m, k)
    ensures View(m, k) == None <==> exists x, j :: Behind(m, k, x, j)
  {
    var p := Path(k);
    ViewIs(m, k);
    if x, j :| Behind(m, k, x, j) {
      assert PageAt(m, x) && !ClearAt(m, x, p, PATH_LEN, 0, {});
    }
    if x :| !ClearAt(m, x, p, PATH_LEN, 0, {}) {
      assert PageAt(m, x);
      var j: nat :| !Fetch(m, Slot(x, j)).Null? && Fetch(m, Slot(x, j)).partial == p[|m.pre[x]|]
        && j >= Capacity(m.pages[x].hdr.ntype);
      assert Behind(m, k, x, j);
    }
  }

  /** The slots that hide a published key are above the slot its insert started from, or were crossed by it. */
  lemma BehindWhere(m: Mem, op: Op, x: Addr, j: nat)
    requires WF(m) && Published(m, op) && Behind(m, op.k, x, j)
    ensures |m.pre[x]| <= Lo(m, op) || Slot(x, j) in op.crossed
  {
    assert PageAt(m, x) && ClearAt(m, x, Path(op.k), PATH_LEN, Lo(m, op), op.crossed);
  }

  /** Thread `u` has yet to raise the type of page `x`, one of whose slots hides the key of `op`. */
  ghost predicate HiddenBy(c: State, op: Op, u: Tid, x: Addr, j: nat) {
    && u in c.th && Owns(c.th[u], x, j) && Behind(c.m, op.k, x, j)
    && (|Above(c.m, Slot(x, j))| <= Lo(c.m, op) || Slot(x, j) in op.crossed)
  }

  /** An insert that has returned, in any later state: its key is not found exactly if some thread has yet to raise the
      type of a page that hides it, by a slot that lies above the insert's start or that the insert crossed behind the
      capacity. For an insert that started at the root, only the crossed slots matter. */
  lemma InsertReturned(cs: seq<State>, ss: seq<Step>, n: nat, t: Tid)
    requires IsRun(cs, ss) && n < |cs| && t in cs[n].th && cs[n].th[t].Done? && !cs[n].th[t].op.find
    ensures View(cs[n].m, cs[n].th[t].op.k) == None <==> exists u, x, j :: HiddenBy(cs[n], cs[n].th[t].op, u, x, j)
    ensures cs[n].th[t].op.from.Root? ==>
              (View(cs[n].m, cs[n].th[t].op.k).Some? <==> CrossedClear(cs[n].m, cs[n].th[t].op.crossed))
  {
    RunInv(cs, ss, n);
    var c, op := cs[n], cs[n].th[t].op;
    assert ThreadAt(c, t);
    PublishedVisible(c.m, op);
    HiddenKey(c.m, op.k);
    if x, j :| Behind(c.m, op.k, x, j) {
      assert HiddenAt(c, x, j) && PageAt(c.m, x);
      var u :| u in c.th && Owns(c.th[u], x, j);
      BehindWhere(c.m, op, x, j);
      assert HiddenBy(c, op, u, x, j);
    }
  }

  lemma RaiseBehind(m: Mem, x: Addr, from: NodeType, to: NodeType, m': Mem, k: Key, y: Addr, j: nat)
    requires m' == RaiseHeader(m, x, from, to) && Capacity(from) <= Capacity(to)
    ensures Behind(m', k, y, j) <==> Behind(m, k, y, j) && !(y == x && m.pages[x].hdr.ntype == from && j < Capacity(to))
  {
    assert OnPath(m', Slot(y, j), k) <==> OnPath(m, Slot(y, j), k);
  }

  /** A header raise reveals the key of an insert that has returned exactly if the raised page holds all slots that
      still hide the key, and the raise covers them. */
  lemma RaiseReveals(cs: seq<State>, ss: seq<Step>, n: nat, t: Tid, u: Tid, x: Addr, from: NodeType, to: NodeType)
    requires IsRun(cs, ss) && n < |ss| && ss[n].t == u && ss[n].act.Thread? && u in cs[n].th && CanStep(cs[n].th[u])
    requires StepThread(cs[n].m, cs[n].th[u], ss[n].act.addrs, ss[n].act.a).eff == RaiseHeaderAt(x, from, to)
    requires t in cs[n].th && cs[n].th[t].Done? && !cs[n].th[t].op.find
    ensures var m, m', k := cs[n].m, cs[n + 1].m, cs[n].th[t].op.k;
      (View(m, k) == None && View(m', k).Some?) <==>
        && (exists y, j: nat :: Behind(m, k, y, j))
        && (forall y, j: nat :: Behind(m, k, y, j) ==> y == x && m.pages[x].hdr.ntype == from && j < Capacity(to))
  {
    RaiseFacts(cs, ss, n, t, u, x, from, to);
    RaiseRevealsKey(cs[n].m, x, from, to, cs[n + 1].m, cs[n].th[t].op.k);
  }

  lemma RaiseFacts(cs: seq<State>, ss: seq<Step>, n: nat, t: Tid, u: Tid, x: Addr, from: NodeType, to: NodeType)
    requires IsRun(cs, ss) && n < |ss| && ss[n].t == u && ss[n].act.Thread? && u in cs[n].th && CanStep(cs[n].th[u])
    requires StepThread(cs[n].m, cs[n].th[u], ss[n].act.addrs, ss[n].act.a).eff == RaiseHeaderAt(x, from, to)
    requires t in cs[n].th && cs[n].th[t].Done? && !cs[n].th[t].op.find
    ensures WF(cs[n].m) && WF(cs[n + 1].m) && cs[n + 1].m == RaiseHeader(cs[n].m, x, from, to) && from <= to
    ensures HasKey(cs[n].m, cs[n].th[t].op.k) && HasKey(cs[n + 1].m, cs[n].th[t].op.k)
  {
    assert RunStep(cs, ss, n);
    RaiseUp(cs, ss, n, u, x, from, to);
    ReturnedStored(cs, ss, n, t);
    ReturnedStored(cs, ss, n + 1, t);
  }

  /** The key of an insert that has returned is stored. */
  lemma ReturnedStored(cs: seq<State>, ss: seq<Step>, n: nat, t: Tid)
    requires IsRun(cs, ss) && n < |cs| && t in cs[n].th && cs[n].th[t].Done? && !cs[n].th[t].op.find
    ensures WF(cs[n].m) && HasKey(cs[n].m, cs[n].th[t].op.k)
  {
    RunInv(cs, ss, n);
    assert ThreadAt(cs[n], t);
  }

  lemma RaiseUp(cs: seq<State>, ss: seq<Step>, n: nat, u: Tid, x: Addr, from: NodeType, to: NodeType)
    requires IsRun(cs, ss) && n < |ss| && ss[n].t == u && ss[n].act.Thread? && u in cs[n].th && CanStep(cs[n].th[u])
    requires StepThread(cs[n].m, cs[n].th[u], ss[n].act.addrs, ss[n].act.a).eff == RaiseHeaderAt(x, from, to)
    requires Next(cs[n], cs[n + 1], u, ss[n].act)
    ensures from <= to
  {
    RunInv(cs, ss, n);
    assert ThreadAt(cs[n], u);
    ThreadEffect(cs[n].m, cs[n].th[u], ss[n].act.addrs, ss[n].act.a);
  }

  lemma RaiseRevealsKey(m: Mem, x: Addr, from: NodeType, to: NodeType, m': Mem, k: Key)
    requires WF(m) && WF(m') && m' == RaiseHeader(m, x, from, to) && from <= to && HasKey(m, k) && HasKey(m', k)
    ensures (View(m, k) == None && View(m', k).Some?) <==>
        && (exists y, j: nat :: Behind(m, k, y, j))
        && (forall y, j: nat :: Behind(m, k, y, j) ==> y == x && m.pages[x].hdr.ntype == from && j < Capacity(to))
  {
    CapacityMono(from, to);
    HiddenKey(m, k);
    HiddenKey(m', k);
    forall y, j: nat
      ensures Behind(m', k, y, j) <==>
        Behind(m, k, y, j) && !(y == x && m.pages[x].hdr.ntype == from && j < Capacity(to))
    {
      RaiseBehind(m, x, from, to, m', k, y, j);
    }
  }

  /** When no type switch is under way, every stored key is found from the root. */
  lemma QuiescentView(cs: seq<State>, ss: seq<Step>, n: nat, k: Key)
    requires IsRun(cs, ss) && n < |cs| && (forall t :: t in cs[n].th ==> !cs[n].th[t].Switching?)
    ensures View(cs[n].m, k).Some? <==> HasKey(cs[n].m, k)
  {
    RunInv(cs, ss, n);
    var m, p := cs[n].m, Path(k);
    ViewIs(m, k);
    forall x ensures ClearAt(m, x, p, PATH_LEN, 0, {}) {
      if x in m.pages {
        forall j: nat | !Fetch(m, Slot(x, j)).Null? ensures j < Capacity(m.pages[x].hdr.ntype) {
          assert HiddenAt(cs[n], x, j);
        }
      }
    }
  }

  /** A key that a root search finds is found for the rest of the run. */
  lemma NeverLost(cs: seq<State>, ss: seq<Step>, i: nat, j: nat, k: Key)
    requires IsRun(cs, ss) && i <= j < |cs| && View(cs[i].m, k).Some?
    ensures View(cs[j].m, k).Some?
  {
    RunGrows(cs, ss, i, j);
    ViewIs(cs[i].m, k);
    ViewIs(cs[j].m, k);
    StoredStable(cs[i].m, cs[j].m, k);
  }

  // what one step may do to the view

  /** The change that `eff` may make to what a root search for `k` returns. */
  ghost predicate Allowed(m: Mem, eff: Effect, m': Mem, k: Key) {
    match eff
    case PutAt(_, k0, v, _) => k == k0 && View(m, k) == None && View(m', k) == Some(v)
    case SplitAt(_, k0, v, _, _, _) => k == k0 && View(m, k) == None && View(m', k) == Some(v)
    case WriteAt(a, _, v) => a in m.leaves && m.leaves[a].key == k && View(m, k).Some? && View(m', k) == Some(v)
    case RaiseHeaderAt(x, _, to) =>
      View(m, k) == None && exists j: nat :: Hidden(m, x, j) && j < Capacity(to) && OnPath(m, Slot(x, j), k)
    case _ => false
  }

  lemma SplitSameTypes(m: Mem, eff: Effect, m': Mem)
    requires WF(m) && WF(m') && Grows(m, m') && eff.SplitAt? && EffOK(m, eff) && Applies(m, eff, m')
    ensures SameTypes(m, m')
  {
    forall x ensures SameTypeAt(m, m', x) {
      if x in m.pages {
        assert PageAt(m, x) && SlotGrows(m, m', Slot(x, 0));
        SplitOldSlot(m, m', eff.s, eff.k, eff.v, eff.len, eff.addrs, eff.a, Slot(x, 0));
      }
    }
  }

  lemma NewLeafAllowed(m: Mem, eff: Effect, m': Mem, k: Key)
    requires WF(m) && WF(m') && Grows(m, m') && EffOK(m, eff) && Applies(m, eff, m')
    requires (eff.PutAt? && eff.a !in m.pre) || eff.SplitAt?
    ensures View(m', k) == View(m, k) || Allowed(m, eff, m', k)
  {
    if eff.PutAt? {
      forall x ensures SameTypeAt(m, m', x) {}
      NewLeafView(m, m', eff.a, Leaf(eff.s, eff.k, eff.v), k);
    } else {
      SplitSameTypes(m, eff, m');
      SplitKeeps(m, m', eff.s, eff.k, eff.v, eff.len, eff.addrs, eff.a);
      NewLeafView(m, m', eff.a, m'.leaves[eff.a], k);
    }
  }

  /** Header trims, entry-type raises and reverse-pointer CASes change nothing that a search sees. */
  lemma QuietEffect(m: Mem, eff: Effect, m': Mem, k: Key)
    requires WF(m) && WF(m') && Grows(m, m') && Applies(m, eff, m')
    requires eff.Keep? || eff.TrimAt? || eff.RaiseEntryAt? || eff.RevAt?
    ensures View(m', k) == View(m, k)
  {
    forall x ensures SameTypeAt(m, m', x) {}
    forall a ensures SameLeafAt(m, m', k, a) {}
    ViewKept(m, m', k);
  }

  lemma EffectView(m: Mem, eff: Effect, m': Mem, k: Key)
    requires WF(m) && WF(m') && Grows(m, m') && EffOK(m, eff) && Applies(m, eff, m')
    requires eff.PutAt? ==> eff.a !in m.pre
    requires eff.RaiseHeaderAt? ==> eff.from <= eff.to && eff.to != DELETED
    requires eff.WriteAt? ==> eff.a in m.leaves
    ensures View(m', k) == View(m, k) || Allowed(m, eff, m', k)
  {
    match eff
    case PutAt(_, _, _, _) => NewLeafAllowed(m, eff, m', k);
    case SplitAt(_, _, _, _, _, _) => NewLeafAllowed(m, eff, m', k);
    case WriteAt(a, rev, v) => WriteView(m, a, rev, v, k);
    case RaiseHeaderAt(x, from, to) => RaiseView(m, x, from, to, k);
    case _ => QuietEffect(m, eff, m', k);
  }

  lemma ThreadEffect(m: Mem, l: Local, addrs: seq<Addr>, a: Addr)
    requires WF(m) && LocalOK(m, l) && CanStep(l) && FreshAddrs(m, addrs, a)
    ensures var eff := StepThread(m, l, addrs, a).eff;
      && EffOK(m, eff) && (eff.PutAt? ==> eff.a !in m.pre)
      && (eff.RaiseHeaderAt? ==> eff.from <= eff.to && eff.to != DELETED)
      && (eff.WriteAt? ==> eff.a in m.leaves)
  {
    ThreadEffOK(m, l, addrs, a);
  }

  /** The key and the value in what a thread does to the memory are those of its operation, and searches do nothing. */
  lemma EffectOp(m: Mem, l: Local, addrs: seq<Addr>, a: Addr)
    requires LocalOK(m, l) && CanStep(l)
    ensures var eff, op := StepThread(m, l, addrs, a).eff, OpOf(l);
      && (eff.PutAt? ==> !op.find && eff.k == op.k && eff.v == op.v)
      && (eff.SplitAt? ==> !op.find && eff.k == op.k && eff.v == op.v)
      && (eff.WriteAt? ==> !op.find && !op.load && eff.v == op.v && eff.a in m.leaves && m.leaves[eff.a].key == op.k)
  {}

  /** What a step of a thread with operation `op` and effect `eff` may do to the result of a root search for `k`. */
  ghost predicate Intended(m: Mem, op: Op, eff: Effect, m': Mem, k: Key) {
    match eff
    case PutAt(_, _, _, _) => !op.find && k == op.k && View(m, k) == None && View(m', k) == Some(op.v)
    case SplitAt(_, _, _, _, _, _) => !op.find && k == op.k && View(m, k) == None && View(m', k) == Some(op.v)
    case WriteAt(_, _, _) => !op.find && !op.load && k == op.k && View(m, k).Some? && View(m', k) == Some(op.v)
    case RaiseHeaderAt(x, _, to) =>
      View(m, k) == None && exists j: nat :: Hidden(m, x, j) && j < Capacity(to) && OnPath(m, Slot(x, j), k)
    case _ => false
  }

  /** What a root search sees changes only by a publish, a split or a leaf write, which set the key of the thread's own
      insert to the insert's value, or by a header raise, which only reveals keys behind the raised page's capacity. An
      insert that only loads changes nothing that is found. */
  lemma ViewStep(c: State, c': State, t: Tid, act: Act, k: Key)
    requires Inv(c) && Next(c, c', t, act)
    ensures View(c'.m, k) == View(c.m, k)
      || (act.Thread? && Intended(c.m, OpOf(c.th[t]), StepThread(c.m, c.th[t], act.addrs, act.a).eff, c'.m, k))
    ensures act.Thread? && OpOf(c.th[t]).load && View(c.m, k).Some? ==> View(c'.m, k) == View(c.m, k)
  {
    NextInv(c, c', t, act);
    if act.Thread? {
      assert ThreadAt(c, t);
      ThreadEffect(c.m, c.th[t], act.addrs, act.a);
      EffectView(c.m, StepThread(c.m, c.th[t], act.addrs, act.a).eff, c'.m, k);
      EffectOp(c.m, c.th[t], act.addrs, act.a);
    } else if act.Post? {
      QuietEffect(c.m, AsyncEffect(act.q), c'.m, k);
    }
  }
}
