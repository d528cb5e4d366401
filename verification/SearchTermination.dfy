/** A search waits for nobody: whatever other threads do, it returns after a bounded number of steps of its own. */
module SearchTermination {
  import opened Keys
  import opened RemoteMemory
  import opened MemoryOps
  import opened Lookup
  import opened StaleEntries
  import opened Machine
  import opened Invariant
  import opened Steps
  import opened PageSteps
  import opened Runs
  import opened RunTheorems
  import opened SwitchTermination

  /** The entry in hand is out of date: the header of its page starts below the slot by now. */
  ghost predicate Outdated(m: Mem, p: Pos) {
    && Held(m, p.s, p.e) && p.e.NodeEntry? && p.e.addr in m.pages && p.d == |Above(m, p.s)| + 1 <= PATH_LEN
    && p.d < m.pages[p.e.addr].hdr.depth
  }

  /** What a root search `op` is doing. It reads an entry again only if the one in hand is out of date. */
  ghost predicate Searching(m: Mem, l: Local, op: Op) {
    && OpOf(l) == op && op.find
    && match l
       case At(p) => !p.fc
       case Reading(p, _) => !p.fc
       case Reread(p) => !p.fc && Outdated(m, p)
       case Done(_, _) => true
       case _ => false
  }

  /** The length of the prefix that an entry leads to. */
  function Reach(m: Mem, e: Entry): nat {
    if !e.Null? && e.addr in m.pre then |m.pre[e.addr]| else 0
  }

  /** The depth that is left, and how far the entry in hand reaches. */
  function Ahead(m: Mem, p: Pos): int {
    10 * (PATH_LEN - p.d) + Reach(m, p.e)
  }

  function ReadsLeft(m: Mem, l: Local): int {
    match l
    case At(p) => 3 * Ahead(m, p) + 2
    case Reading(p, _) => 3 * Ahead(m, p) + 1
    case Reread(p) => 3 * Ahead(m, p)
    case _ => 0
  }

  lemma ReachBound(m: Mem, e: Entry)
    requires WF(m)
    ensures Reach(m, e) <= PATH_LEN
  {
    if !e.Null? && e.addr in m.pre { assert PageAt(m, e.addr) && LeafAt(m, e.addr); }
  }

  /** A search that has not returned has steps left, and never more than 269. */
  lemma ReadsBound(m: Mem, l: Local, op: Op)
    requires WF(m) && LocalOK(m, l) && Searching(m, l, op)
    ensures 0 <= ReadsLeft(m, l) <= 269 && (ReadsLeft(m, l) == 0 <==> l.Done?)
  {
    if !l.Done? { ReachBound(m, l.p.e); }
    if l.Reread? { assert Reach(m, l.p.e) > 0; }
  }

  /** If the entry in hand is out of date, the slot leads to a shorter prefix by now. */
  lemma SlotShorter(m: Mem, p: Pos)
    requires WF(m) && Outdated(m, p)
    ensures Reach(m, Fetch(m, p.s)) < Reach(m, p.e)
  {
    var x, y := p.e.addr, Fetch(m, p.s).addr;
    assert EntryAt(m, p.s) && OwnerAt(m, x) && EntryAt(m, m.par[x]);
    Cover(m, p.s, x);
    if |m.pre[y]| == |m.pre[x]| {
      assert m.pre[y] == m.pre[x];
      Unique(m, x, y);
    }
  }

  /** The next slot of the search lies deeper. */
  lemma NextDeeper(m: Mem, p: Pos, r: Read)
    requires WF(m) && ReadOK(m, p, r) && PageRead(p, r) && StepDecide(p, r).l.At?
    ensures Ahead(m, StepDecide(p, r).l.p) < Ahead(m, p) && !StepDecide(p, r).l.p.fc
  {
    var q := StepDecide(p, r).l.p;
    assert PageAt(m, p.e.addr);
    assert |m.pre[p.e.addr]| == r.hdr.value.depth + |r.hdr.value.partial| && q.d == |m.pre[p.e.addr]| + 1;
    ReachBound(m, q.e);
  }

  lemma DecideShorter(m: Mem, p: Pos, r: Read)
    requires WF(m) && ReadOK(m, p, r) && PageRead(p, r) && p.op.find && !p.fc
    ensures var l := StepDecide(p, r).l; Searching(m, l, p.op) && ReadsLeft(m, l) < ReadsLeft(m, Reading(p, r))
  {
    ReachBound(m, p.e);
    if StepDecide(p, r).l.At? { NextDeeper(m, p, r); }
  }

  /** Every step of a search brings it closer to its end, and none changes the memory. */
  lemma SearchProgress(m: Mem, l: Local, op: Op, addrs: seq<Addr>, a: Addr)
    requires WF(m) && LocalOK(m, l) && Searching(m, l, op) && CanStep(l)
    ensures var o := StepThread(m, l, addrs, a);
      o.eff.Keep? && Searching(m, o.l, op) && ReadsLeft(m, o.l) < ReadsLeft(m, l)
  {
    ReadsBound(m, l, op);
    match l
    case At(p) =>
    case Reread(p) => SlotShorter(m, p);
    case Reading(p, r) => DecideShorter(m, p, r);
  }

  lemma OthersKeep(m: Mem, m': Mem, l: Local, op: Op)
    requires WF(m) && WF(m') && Grows(m, m') && LocalOK(m, l) && Searching(m, l, op)
    ensures Searching(m', l, op) && ReadsLeft(m', l) == ReadsLeft(m, l)
  {
    if !l.Done? && !l.p.e.Null? { assert TargetGrows(m, m', l.p.e.addr); }
    if l.Reread? {
      HeldStable(m, m', l.p.s, l.p.e);
      FilledIn(m, l.p.s);
      AboveStable(m, m', l.p.s);
    }
  }

  /** Thread `t` carries out search `op`, with `used` of its `budget` of steps used up. */
  ghost predicate OnBudget(c: State, t: Tid, op: Op, used: nat, budget: int) {
    t in c.th && Searching(c.m, c.th[t], op) && used + ReadsLeft(c.m, c.th[t]) <= budget
  }

  lemma BudgetStep(c: State, c': State, st: Step, t: Tid, op: Op, used: nat, budget: int)
    requires Inv(c) && Next(c, c', st.t, st.act) && OnBudget(c, t, op, used, budget)
    ensures OnBudget(c', t, op, if st.t == t && st.act.Thread? then used + 1 else used, budget)
  {
    NextInv(c, c', st.t, st.act);
    assert ThreadAt(c, t);
    if st.t == t && st.act.Thread? {
      SearchProgress(c.m, c.th[t], op, st.act.addrs, st.act.a);
    } else {
      OthersKeep(c.m, c'.m, c.th[t], op);
    }
  }

  lemma BudgetStart(c: State, c': State, t: Tid, act: Act)
    requires Inv(c) && Next(c, c', t, act) && act.Begin? && act.op.find
    ensures t in c'.th && Searching(c'.m, c'.th[t], act.op) && ReadsLeft(c'.m, c'.th[t]) <= 269
  {
    ReachBound(c.m, c.m.root);
  }

  lemma {:induction false} SearchOnBudget(cs: seq<State>, ss: seq<Step>, i: nat, j: nat, t: Tid, op: Op)
    requires IsRun(cs, ss) && i <= j < |cs| && t in cs[i].th && Searching(cs[i].m, cs[i].th[t], op)
    ensures OnBudget(cs[j], t, op, StepsOf(ss, t, i, j), ReadsLeft(cs[i].m, cs[i].th[t]))
    decreases j
  {
    if i < j {
      SearchOnBudget(cs, ss, i, j - 1, t, op);
      RunInv(cs, ss, j - 1);
      assert RunStep(cs, ss, j - 1);
      BudgetStep(cs[j - 1], cs[j], ss[j - 1], t, op, StepsOf(ss, t, i, j - 1), ReadsLeft(cs[i].m, cs[i].th[t]));
    }
  }

  /** Searches are wait-free: in every run, whatever other threads do, a search takes at most 269 steps after its begin
      in step `b`, and after so many it has returned; until then it can always take a step or read a word. */
  lemma SearchEnds(cs: seq<State>, ss: seq<Step>, b: nat, j: nat, t: Tid)
    requires IsRun(cs, ss) && b < j < |cs| && ss[b].t == t && ss[b].act.Begin? && ss[b].act.op.find
    ensures t in cs[j].th && OpOf(cs[j].th[t]) == ss[b].act.op
    ensures StepsOf(ss, t, b + 1, j) <= 269 && (StepsOf(ss, t, b + 1, j) == 269 ==> cs[j].th[t].Done?)
    ensures CanStep(cs[j].th[t]) || cs[j].th[t].Reading? || cs[j].th[t].Done?
  {
    RunInv(cs, ss, b);
    assert RunStep(cs, ss, b);
    BudgetStart(cs[b], cs[b + 1], t, ss[b].act);
    SearchOnBudget(cs, ss, b + 1, j, t, ss[b].act.op);
    RunInv(cs, ss, j);
    assert ThreadAt(cs[j], t);
    ReadsBound(cs[j].m, cs[j].th[t], ss[b].act.op);
  }
}
