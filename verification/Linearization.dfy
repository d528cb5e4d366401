/** When searches and inserts take effect: every operation has a moment between its begin and its end that its result
    or its value belongs to. */
module Linearization {
  import opened Keys
  import opened RemoteMemory
  import opened MemoryOps
  import opened Lookup
  import opened Splits
  import opened StaleEntries
  import opened Machine
  import opened Invariant
  import opened Runs
  import opened Views
  import opened RunTheorems

  // searches

  lemma FindKeepsOp(m: Mem, l: Local, addrs: seq<Addr>, a: Addr)
    requires LocalOK(m, l) && CanStep(l) && OpOf(l).find
    ensures OpOf(StepThread(m, l, addrs, a).l) == OpOf(l)
  {}

  /** A thread that searches began with a search of the same key from the root. */
  lemma {:induction false} FindBegan(cs: seq<State>, ss: seq<Step>, n: nat, t: Tid) returns (b: nat)
    requires IsRun(cs, ss) && n < |cs| && t in cs[n].th && OpOf(cs[n].th[t]).find
    ensures b < n && ss[b] == Step(t, Begin(OpOf(cs[n].th[t])))
    decreases n
  {
    RunInv(cs, ss, n);
    if n > 0 {
      assert RunStep(cs, ss, n - 1);
      var st := ss[n - 1];
      if t in cs[n - 1].th {
        RunInv(cs, ss, n - 1);
        assert ThreadAt(cs[n - 1], t) && ThreadAt(cs[n], t);
        FindKept(cs[n - 1], cs[n], st, t);
        b := FindBegan(cs, ss, n - 1, t);
      } else {
        b := n - 1;
      }
    }
  }

  lemma FindKept(c: State, c': State, st: Step, t: Tid)
    requires Inv(c) && Next(c, c', st.t, st.act) && t in c.th && t in c'.th && OpOf(c'.th[t]).find
    ensures OpOf(c.th[t]) == OpOf(c'.th[t])
  {
    assert ThreadAt(c, t);
    if st.act.Thread? && st.t == t {
      StepJob(c.m, c.th[t], st.act.addrs, st.act.a);
      FindKeepsOp(c.m, c.th[t], st.act.addrs, st.act.a);
    }
  }

  /** A search that reads a leaf with its key sees the value that a root search would return at that moment. */
  lemma FoundNow(m: Mem, p: Pos)
    requires WF(m) && PosOK(m, p) && p.op.find && p.e.LeafEntry? && m.leaves[p.e.addr].key == p.op.k
    ensures View(m, p.op.k) == Some(m.leaves[p.e.addr].value)
  {
    assert LeafAt(m, p.e.addr);
    ViewIs(m, p.op.k);
    ClearBelow(m, p.s, p.e.addr, Path(p.op.k), PATH_LEN, 0, {});
  }

  lemma FindResult(m: Mem, l: Local, addrs: seq<Addr>, a: Addr)
    requires WF(m) && LocalOK(m, l) && CanStep(l) && OpOf(l).find
    requires var d := StepThread(m, l, addrs, a).l; d.Done? && d.res.Some?
    ensures View(m, OpOf(l).k) == StepThread(m, l, addrs, a).l.res
  {
    if l.At? && l.p.e.LeafEntry? && m.leaves[l.p.e.addr].key == l.p.op.k { FoundNow(m, l.p); }
  }

  /** The state of the run in which a search that found its key read the leaf. */
  lemma {:induction false} FoundAt(cs: seq<State>, ss: seq<Step>, n: nat, t: Tid) returns (i: nat)
    requires IsRun(cs, ss) && n < |cs| && t in cs[n].th && cs[n].th[t].Done?
    requires cs[n].th[t].op.find && cs[n].th[t].res.Some?
    ensures i < n && t in cs[i].th && OpOf(cs[i].th[t]) == cs[n].th[t].op
    ensures View(cs[i].m, cs[n].th[t].op.k) == cs[n].th[t].res
    decreases n
  {
    RunInv(cs, ss, n);
    if n > 0 {
      RunInv(cs, ss, n - 1);
      assert RunStep(cs, ss, n - 1);
      var st := ss[n - 1];
      assert t in cs[n - 1].th && ThreadAt(cs[n - 1], t);
      FindKept(cs[n - 1], cs[n], st, t);
      if st.act.Thread? && st.t == t {
        i := n - 1;
        FindResult(cs[i].m, cs[i].th[t], st.act.addrs, st.act.a);
      } else {
        i := FoundAt(cs, ss, n - 1, t);
      }
    }
  }

  /** Linearizability of search: the result of a search is what the root search returned at some state between its
      beginning and its end, whatever other threads did meanwhile. */
  lemma SearchLinearizes(cs: seq<State>, ss: seq<Step>, n: nat, t: Tid) returns (b: nat, i: nat)
    requires IsRun(cs, ss) && n < |cs| && t in cs[n].th && cs[n].th[t].Done? && cs[n].th[t].op.find
    ensures b <= i < n && ss[b] == Step(t, Begin(cs[n].th[t].op))
    ensures View(cs[i].m, cs[n].th[t].op.k) == cs[n].th[t].res
  {
    RunInv(cs, ss, n);
    assert ThreadAt(cs[n], t);
    if cs[n].th[t].res.None? {
      b := FindBegan(cs, ss, n, t);
      i := b;
      assert RunStep(cs, ss, b);
    } else {
      i := FoundAt(cs, ss, n, t);
      b := FindBegan(cs, ss, i, t);
    }
  }

  // inserts

  /** The same request; an operation only adds to the slots it has crossed. */
  predicate SameJob(p: Op, q: Op) {
    p.find == q.find && p.k == q.k && p.v == q.v && p.load == q.load && p.from == q.from
  }

  lemma StepJob(m: Mem, l: Local, addrs: seq<Addr>, a: Addr)
    requires CanStep(l)
    ensures SameJob(OpOf(StepThread(m, l, addrs, a).l), OpOf(l))
  {}

  /** Step `st` is the begin of operation `op` of thread `t`, at the root or at a cached entry. */
  ghost predicate Began(st: Step, t: Tid, op: Op) {
    st.t == t && (st.act.Begin? || st.act.BeginCached?) && SameJob(st.act.op, op)
  }

  lemma JobKept(c: State, c': State, st: Step, t: Tid)
    requires Next(c, c', st.t, st.act) && t in c.th
    ensures t in c'.th && SameJob(OpOf(c'.th[t]), OpOf(c.th[t]))
  {
    if st.act.Thread? && st.t == t { StepJob(c.m, c.th[t], st.act.addrs, st.act.a); }
  }

  lemma {:induction false} OperationBegan(cs: seq<State>, ss: seq<Step>, n: nat, t: Tid) returns (b: nat)
    requires IsRun(cs, ss) && n < |cs| && t in cs[n].th
    ensures b < n && Began(ss[b], t, OpOf(cs[n].th[t]))
    decreases n
  {
    if n > 0 {
      assert RunStep(cs, ss, n - 1);
      if t in cs[n - 1].th {
        JobKept(cs[n - 1], cs[n], ss[n - 1], t);
        b := OperationBegan(cs, ss, n - 1, t);
      } else {
        b := n - 1;
      }
    }
  }

  /** The value that is stored under `k`, whether a search finds it or not. */
  ghost function Content(m: Mem, k: Key): Option<Value> {
    if HasKey(m, k) then
      var a :| a in m.leaves && m.leaves[a].key == k;
      Some(m.leaves[a].value)
    else None
  }

  lemma ContentIs(m: Mem, a: Addr)
    requires WF(m) && a in m.leaves
    ensures Content(m, m.leaves[a].key) == Some(m.leaves[a].value)
  {
    var k := m.leaves[a].key;
    forall b | b in m.leaves && m.leaves[b].key == k ensures b == a {
      assert LeafAt(m, a) && LeafAt(m, b);
      Unique(m, a, b);
    }
  }

  ghost predicate SameContent(m: Mem, m': Mem) {
    forall k: Key :: Content(m', k) == Content(m, k)
  }

  /** What an insert does to the stored map: its key gets its value, unless it only loads and the key is there. */
  ghost predicate TakesEffect(m: Mem, m': Mem, op: Op) {
    forall k: Key :: EffectAt(m, m', op, k)
  }

  ghost predicate EffectAt(m: Mem, m': Mem, op: Op, k: Key) {
    Content(m', k) ==
      if k != op.k || (op.load && Content(m, k).Some?) then Content(m, k) else Some(op.v)
  }

  /** Leaf `b` has the same key and value in both memories. */
  ghost predicate LeafKept(m: Mem, m': Mem, b: Addr) {
    && (b in m.leaves <==> b in m'.leaves)
    && (b in m.leaves ==> m'.leaves[b].key == m.leaves[b].key && m'.leaves[b].value == m.leaves[b].value)
  }

  lemma ContentKept(m: Mem, m': Mem)
    requires WF(m) && WF(m') && forall b :: LeafKept(m, m', b)
    ensures SameContent(m, m')
  {
    forall k: Key ensures Content(m', k) == Content(m, k) { OtherContent(m, m', 0, k); }
  }

  /** A key other than those of leaf `a` keeps its content when all other leaves are kept. */
  lemma OtherContent(m: Mem, m': Mem, a: Addr, k: Key)
    requires WF(m) && WF(m') && (forall b :: b != a ==> LeafKept(m, m', b))
    requires
      || LeafKept(m, m', a)
      || ((a in m.leaves ==> m.leaves[a].key != k) && (a in m'.leaves ==> m'.leaves[a].key != k))
    ensures Content(m', k) == Content(m, k)
  {
    if b :| b in m.leaves && m.leaves[b].key == k {
      assert LeafKept(m, m', b);
      ContentIs(m, b);
      ContentIs(m', b);
    } else {
      forall b | b in m'.leaves ensures m'.leaves[b].key != k { assert LeafKept(m, m', b) || b == a; }
    }
  }

  /** One leaf gets the key and the value of the insert. */
  lemma LeafEffect(m: Mem, m': Mem, op: Op, a: Addr)
    requires WF(m) && WF(m') && (forall b :: b != a ==> LeafKept(m, m', b))
    requires a in m'.leaves && m'.leaves[a].key == op.k && m'.leaves[a].value == op.v
    requires a in m.leaves ==> m.leaves[a].key == op.k
    requires op.load ==> !HasKey(m, op.k)
    ensures TakesEffect(m, m', op)
  {
    ContentIs(m', a);
    forall k: Key ensures EffectAt(m, m', op, k) { if k != op.k { OtherContent(m, m', a, k); } }
  }

  /** The insert finds its key in leaf `a` and has nothing to do. */
  lemma NothingToDo(m: Mem, op: Op, a: Addr)
    requires WF(m) && a in m.leaves && m.leaves[a].key == op.k && (op.load || m.leaves[a].value == op.v)
    ensures TakesEffect(m, m, op)
  {
    ContentIs(m, a);
    forall k: Key ensures EffectAt(m, m, op, k) {}
  }

  /** A new leaf is a leaf for a key that was not stored. */
  lemma NewKey(m: Mem, m': Mem, a: Addr)
    requires WF(m) && WF(m') && Grows(m, m') && a !in m.pre && a in m'.leaves
    ensures !HasKey(m, m'.leaves[a].key) && a !in m.leaves
  {
    assert LeafAt(m, a) && LeafAt(m', a);
    forall b | b in m.leaves ensures m.leaves[b].key != m'.leaves[a].key {
      assert TargetGrows(m, m', b) && LeafAt(m, b) && LeafAt(m', b);
      if m.leaves[b].key == m'.leaves[a].key { Unique(m', a, b); }
    }
  }

  lemma PutEffect(m: Mem, m': Mem, s: SlotRef, op: Op, a: Addr)
    requires WF(m) && WF(m') && Grows(m, m') && a !in m.pre && m' == PutLeaf(m, s, a, op.k, op.v)
    ensures TakesEffect(m, m', op)
  {
    NewKey(m, m', a);
    forall b | b != a ensures LeafKept(m, m', b) {}
    LeafEffect(m, m', op, a);
  }

  lemma SplitEffect(m: Mem, eff: Effect, m': Mem, op: Op)
    requires WF(m) && eff.SplitAt? && EffOK(m, eff) && Applies(m, eff, m') && eff.k == op.k && eff.v == op.v
    ensures TakesEffect(m, m', op)
  {
    SplitKeeps(m, m', eff.s, eff.k, eff.v, eff.len, eff.addrs, eff.a);
    NewKey(m, m', eff.a);
    forall b | b != eff.a ensures LeafKept(m, m', b) {}
    LeafEffect(m, m', op, eff.a);
  }

  lemma SplitsEffect(m: Mem, l: Local, addrs: seq<Addr>, a: Addr, m': Mem)
    requires WF(m) && LocalOK(m, l) && CanStep(l) && FreshAddrs(m, addrs, a) && (l.GotLeaf? || l.Splitting?)
    requires var o := StepThread(m, l, addrs, a); Applies(m, o.eff, m') && o.l.Done?
    ensures TakesEffect(m, m', OpOf(l))
  {
    ThreadEffOK(m, l, addrs, a);
    SplitEffect(m, StepThread(m, l, addrs, a).eff, m', OpOf(l));
  }

  lemma WriteEffect(m: Mem, m': Mem, op: Op, a: Addr, rev: SlotRef)
    requires WF(m) && WF(m') && !op.load && a in m.leaves && m.leaves[a].key == op.k && m' == WriteLeaf(m, a, rev, op.v)
    ensures TakesEffect(m, m', op)
  {
    forall b | b != a ensures LeafKept(m, m', b) {}
    LeafEffect(m, m', op, a);
  }

  lemma AtEffect(m: Mem, p: Pos, a: Addr, m': Mem)
    requires WF(m) && WF(m') && Grows(m, m') && a !in m.pre
    requires var o := StepAt(m, p, a); Applies(m, o.eff, m') && o.l.Done? && !p.op.find
    ensures TakesEffect(m, m', p.op)
  {
    if p.e.LeafEntry? { NothingToDo(m, p.op, p.e.addr); } else { PutEffect(m, m', p.s, p.op, a); }
  }

  lemma FillEffect(m: Mem, p: Pos, h: Header, snap: map<nat, Entry>, i: nat, a: Addr, m': Mem)
    requires WF(m) && WF(m') && Grows(m, m') && a !in m.pre
    requires p.e.NodeEntry? && i < SLOTS && h.depth + |h.partial| <= KEY_LEN
    requires var o := StepFilling(m, p, h, snap, i, a); Applies(m, o.eff, m') && (o.l.Done? || o.l.Switching?)
    ensures TakesEffect(m, m', p.op)
  {
    PutEffect(m, m', Slot(p.e.addr, i), p.op, a);
  }

  /** The step with which an insert returns or starts a type switch is the one that takes effect. */
  lemma StepEffect(m: Mem, l: Local, addrs: seq<Addr>, a: Addr, m': Mem)
    requires WF(m) && LocalOK(m, l) && CanStep(l) && FreshAddrs(m, addrs, a) && !OpOf(l).find && !l.Switching?
    requires WF(m') && Grows(m, m')
    requires var o := StepThread(m, l, addrs, a); Applies(m, o.eff, m') && (o.l.Done? || o.l.Switching?)
    ensures TakesEffect(m, m', OpOf(l))
  {
    match l
    case At(p) => AtEffect(m, p, a, m');
    case Updating(op, b, leaf) => WriteEffect(m, m', op, b, leaf.rev);
    case GotLeaf(p, leaf) => SplitsEffect(m, l, addrs, a, m');
    case Splitting(p, h, i) => SplitsEffect(m, l, addrs, a, m');
    case Filling(p, h, snap, i) => FillEffect(m, p, h, snap, i, a, m');
    case Reading(p, r) => NoReturn(m, p, r);
    case _ =>
  }

  lemma QuietLeaves(m: Mem, eff: Effect, m': Mem)
    requires WF(m) && WF(m') && Applies(m, eff, m') && !eff.PutAt? && !eff.SplitAt? && !eff.WriteAt?
    ensures SameContent(m, m')
  {
    forall b ensures LeafKept(m, m', b) {}
    ContentKept(m, m');
  }

  /** No other step of an operation changes what is stored. */
  lemma StepQuiet(m: Mem, l: Local, addrs: seq<Addr>, a: Addr, m': Mem)
    requires WF(m) && LocalOK(m, l) && CanStep(l) && WF(m') && Applies(m, StepThread(m, l, addrs, a).eff, m')
    requires var o := StepThread(m, l, addrs, a); OpOf(l).find || l.Switching? || !(o.l.Done? || o.l.Switching?)
    ensures SameContent(m, m')
  {
    QuietKind(m, l, addrs, a);
    QuietLeaves(m, StepThread(m, l, addrs, a).eff, m');
  }

  lemma QuietKind(m: Mem, l: Local, addrs: seq<Addr>, a: Addr)
    requires LocalOK(m, l) && CanStep(l)
    requires var o := StepThread(m, l, addrs, a); OpOf(l).find || l.Switching? || !(o.l.Done? || o.l.Switching?)
    ensures var eff := StepThread(m, l, addrs, a).eff; !eff.PutAt? && !eff.SplitAt? && !eff.WriteAt?
  {
    EffectOp(m, l, addrs, a);
  }

  /** An insert never returns from a page read: the page's prefix is shorter than a key's path. */
  lemma NoReturn(m: Mem, p: Pos, r: Read)
    requires WF(m) && ReadOK(m, p, r) && PageRead(p, r) && !p.op.find
    ensures !StepDecide(p, r).l.Done? && !StepDecide(p, r).l.Switching?
  {
    assert PageAt(m, p.e.addr);
  }

  /** Step `i` is one that thread `t` takes itself. */
  ghost predicate OwnStep(ss: seq<Step>, t: Tid, i: nat) {
    i < |ss| && ss[i].t == t && ss[i].act.Thread?
  }

  ghost predicate QuietAt(cs: seq<State>, ss: seq<Step>, t: Tid, i: nat) {
    OwnStep(ss, t, i) && i + 1 < |cs| ==> SameContent(cs[i].m, cs[i + 1].m)
  }

  /** Thread `t` is past the step that takes effect. */
  ghost predicate Past(c: State, t: Tid) {
    t in c.th && !OpOf(c.th[t]).find && (c.th[t].Done? || c.th[t].Switching?)
  }

  lemma QuietStep(cs: seq<State>, ss: seq<Step>, t: Tid, i: nat)
    requires IsRun(cs, ss) && i < |ss| && (Past(cs[i + 1], t) ==> Past(cs[i], t))
    ensures QuietAt(cs, ss, t, i)
  {
    if OwnStep(ss, t, i) {
      RunInv(cs, ss, i);
      RunInv(cs, ss, i + 1);
      assert RunStep(cs, ss, i) && ThreadAt(cs[i], t);
      JobKept(cs[i], cs[i + 1], ss[i], t);
      StepQuiet(cs[i].m, cs[i].th[t], ss[i].act.addrs, ss[i].act.a, cs[i + 1].m);
    }
  }

  lemma PastStays(cs: seq<State>, ss: seq<Step>, t: Tid, i: nat)
    requires IsRun(cs, ss) && i < |ss| && Past(cs[i], t)
    ensures Past(cs[i + 1], t)
  {
    assert RunStep(cs, ss, i);
    JobKept(cs[i], cs[i + 1], ss[i], t);
  }

  /** Before the thread is past its effect, its steps change nothing that is stored. */
  lemma {:induction false} QuietBefore(cs: seq<State>, ss: seq<Step>, t: Tid, i: nat, j: nat)
    requires IsRun(cs, ss) && i < j < |cs| && !Past(cs[j], t)
    ensures QuietAt(cs, ss, t, i) && !Past(cs[i + 1], t)
    decreases j - i
  {
    if i + 1 < j {
      if Past(cs[j - 1], t) { PastStays(cs, ss, t, j - 1); }
      QuietBefore(cs, ss, t, i, j - 1);
    } else {
      QuietStep(cs, ss, t, i);
    }
  }

  /** The step with which a thread gets past its effect. */
  lemma {:induction false} TookEffect(cs: seq<State>, ss: seq<Step>, n: nat, t: Tid) returns (i: nat)
    requires IsRun(cs, ss) && n < |cs| && Past(cs[n], t)
    ensures i < n && OwnStep(ss, t, i) && !Past(cs[i], t) && t in cs[i].th
    ensures SameJob(OpOf(cs[i].th[t]), OpOf(cs[n].th[t]))
    ensures TakesEffect(cs[i].m, cs[i + 1].m, OpOf(cs[n].th[t]))
    ensures forall j :: i < j < n ==> QuietAt(cs, ss, t, j)
    decreases n
  {
    assert n > 0;
    assert RunStep(cs, ss, n - 1);
    var st, c := ss[n - 1], cs[n - 1];
    assert t in c.th;
    JobKept(c, cs[n], st, t);
    if Past(c, t) {
      i := TookEffect(cs, ss, n - 1, t);
      QuietStep(cs, ss, t, n - 1);
    } else {
      i := n - 1;
      EffectNow(cs, ss, i, t);
    }
  }

  lemma EffectNow(cs: seq<State>, ss: seq<Step>, i: nat, t: Tid)
    requires IsRun(cs, ss) && i < |ss| && t in cs[i].th && !Past(cs[i], t) && Past(cs[i + 1], t)
    ensures OwnStep(ss, t, i) && TakesEffect(cs[i].m, cs[i + 1].m, OpOf(cs[i + 1].th[t]))
  {
    RunInv(cs, ss, i);
    RunInv(cs, ss, i + 1);
    assert RunStep(cs, ss, i) && ThreadAt(cs[i], t);
    NextInv(cs[i], cs[i + 1], ss[i].t, ss[i].act);
    JobKept(cs[i], cs[i + 1], ss[i], t);
    StepEffect(cs[i].m, cs[i].th[t], ss[i].act.addrs, ss[i].act.a, cs[i + 1].m);
    SameEffect(cs[i].m, cs[i + 1].m, OpOf(cs[i].th[t]), OpOf(cs[i + 1].th[t]));
  }

  lemma SameEffect(m: Mem, m': Mem, p: Op, q: Op)
    requires TakesEffect(m, m', p) && SameJob(q, p)
    ensures TakesEffect(m, m', q)
  {
    forall k: Key ensures EffectAt(m, m', q, k) { assert EffectAt(m, m', p, k); }
  }

  /** Every insert that has returned took effect exactly once: one step of its own between its begin and its end is the
      insert on the stored map, which keeps the value of a key that is there if the insert only loads, and none of its
      other steps changes what is stored under any key. */
  lemma InsertTakesEffect(cs: seq<State>, ss: seq<Step>, n: nat, t: Tid) returns (b: nat, i: nat)
    requires IsRun(cs, ss) && n < |cs| && t in cs[n].th && cs[n].th[t].Done? && !cs[n].th[t].op.find
    ensures b < i < n && Began(ss[b], t, cs[n].th[t].op) && OwnStep(ss, t, i)
    ensures TakesEffect(cs[i].m, cs[i + 1].m, cs[n].th[t].op)
    ensures forall j :: 0 <= j < n && j != i ==> QuietAt(cs, ss, t, j)
  {
    i := TookEffect(cs, ss, n, t);
    b := OperationBegan(cs, ss, i, t);
    forall j | 0 <= j < i ensures QuietAt(cs, ss, t, j) { QuietBefore(cs, ss, t, j, i); }
  }

  /** Steps of searches, posted operations and the begin of an operation change nothing that is stored. */
  lemma OthersQuiet(c: State, c': State, t: Tid, act: Act)
    requires Inv(c) && Next(c, c', t, act) && (act.Thread? ==> OpOf(c.th[t]).find)
    ensures SameContent(c.m, c'.m)
  {
    NextInv(c, c', t, act);
    if act.Thread? {
      assert ThreadAt(c, t);
      StepQuiet(c.m, c.th[t], act.addrs, act.a, c'.m);
    } else {
      QuietLeaves(c.m, if act.Post? then AsyncEffect(act.q) else Keep, c'.m);
    }
  }
}
