/** A type switch ends: its retry loop and the chase inside it together take a bounded number of steps. */
module SwitchTermination {
  import opened Keys
  import opened RemoteMemory
  import opened MemoryOps
  import opened StaleEntries
  import opened Machine
  import opened Invariant
  import opened SlotSteps
  import opened Runs
  import opened RunTheorems

  /** More steps than a round can take: the two CASes, a hop for each depth, and the decision at its end. */
  const ROUND_STEPS: nat := 12

  /** How many steps a switch has left at most. A hop of the chase goes down, a round that fails uses up one of
      `left`. */
  function StepsLeft(m: Mem, w: Switch): int {
    ROUND_STEPS * w.left +
    match w.phase
    case CasEntry => 11
    case CasHeader => 10
    case Chase => if w.r1 then 0 else PATH_LEN - |Above(m, w.s)|
  }

  /** The slot in hand is a slot of the tree, so it does not lie below the last level. */
  lemma SlotInHand(m: Mem, w: Switch)
    requires WF(m) && SwitchOK(m, w) && !w.r1
    ensures SlotIn(m, w.s) && |Above(m, w.s)| <= KEY_LEN
  {
    FilledIn(m, w.s);
    if w.s.Slot? { assert PageAt(m, w.s.page); }
  }

  lemma StepsNatural(m: Mem, w: Switch)
    requires WF(m) && SwitchOK(m, w) && RoundsOK(m, w)
    ensures 0 <= StepsLeft(m, w) <= ROUND_STEPS * ROUNDS + 11
  {
    if !w.r1 { SlotInHand(m, w); }
  }

  /** Every step of a switch, hop or CAS, failed or not, brings it closer to its end. */
  lemma SwitchProgress(m: Mem, w: Switch, m': Mem)
    requires WF(m) && SwitchOK(m, w) && RoundsOK(m, w) && Applies(m, StepSwitching(m, w).eff, m') && WF(m')
    requires Grows(m, m')
    ensures var l := StepSwitching(m, w).l; l.Switching? ==> StepsLeft(m', l.w) < StepsLeft(m, w)
  {
    var l := StepSwitching(m, w).l;
    match w.phase
    case CasEntry =>
    case CasHeader =>
      if !w.r1 { SlotInHand(m, w); AboveStable(m, m', w.s); }
    case Chase =>
      if !w.r1 {
        SlotInHand(m, w);
        if w.e.NodeEntry? && w.e.addr != w.x { HopDeeper(m, w); }
      }
  }

  /** The chase goes to record 0 of a page that lies below the slot in hand. */
  lemma HopDeeper(m: Mem, w: Switch)
    requires WF(m) && SwitchOK(m, w) && !w.r1 && w.phase.Chase? && w.e.addr != w.x
    ensures |Above(m, w.s)| < |Above(m, Slot(w.e.addr, 0))|
  {
    assert PageAt(m, w.e.addr);
  }

  lemma OthersLeave(m: Mem, m': Mem, w: Switch)
    requires WF(m) && WF(m') && Grows(m, m') && SwitchOK(m, w)
    ensures StepsLeft(m', w) == StepsLeft(m, w)
  {
    if !w.r1 { SlotInHand(m, w); AboveStable(m, m', w.s); }
  }

  /** How many of the steps from `i` to `j` thread `t` took. */
  function StepsOf(ss: seq<Step>, t: Tid, i: nat, j: nat): nat
    requires i <= j <= |ss|
    decreases j
  {
    if i == j then 0 else StepsOf(ss, t, i, j - 1) + if ss[j - 1].t == t && ss[j - 1].act.Thread? then 1 else 0
  }

  /** What is left of a budget of steps after thread `t` has used `used` of them. */
  ghost predicate Within(c: State, t: Tid, used: nat, budget: int) {
    t in c.th && (c.th[t].Switching? || c.th[t].Done?)
    && if c.th[t].Switching? then used + StepsLeft(c.m, c.th[t].w) <= budget else used <= budget + 1
  }

  lemma OwnStep(c: State, c': State, t: Tid, act: Act, used: nat, budget: int)
    requires Inv(c) && Inv(c') && Grows(c.m, c'.m) && Next(c, c', t, act) && act.Thread? && Within(c, t, used, budget)
    requires c.th[t].Switching?
    ensures Within(c', t, used + 1, budget)
  {
    var w := c.th[t].w;
    assert ThreadAt(c, t) && ThreadAt(c', t);
    SwitchKeeps(c.m, w);
    SwitchProgress(c.m, w, c'.m);
    StepsNatural(c.m, w);
  }

  lemma WithinStep(c: State, c': State, st: Step, t: Tid, used: nat, budget: int)
    requires Inv(c) && Next(c, c', st.t, st.act) && Within(c, t, used, budget)
    ensures Within(c', t, if st.t == t && st.act.Thread? then used + 1 else used, budget)
  {
    NextInv(c, c', st.t, st.act);
    assert ThreadAt(c, t) && ThreadAt(c', t);
    if c.th[t].Switching? {
      var w := c.th[t].w;
      if st.t == t && st.act.Thread? {
        OwnStep(c, c', t, st.act, used, budget);
      } else {
        OthersLeave(c.m, c'.m, w);
      }
    }
  }

  lemma {:induction false} SwitchWithin(cs: seq<State>, ss: seq<Step>, i: nat, j: nat, t: Tid)
    requires IsRun(cs, ss) && i <= j < |cs| && t in cs[i].th && cs[i].th[t].Switching?
    ensures Within(cs[j], t, StepsOf(ss, t, i, j), StepsLeft(cs[i].m, cs[i].th[t].w))
    decreases j
  {
    if i < j {
      SwitchWithin(cs, ss, i, j - 1, t);
      RunInv(cs, ss, j - 1);
      assert RunStep(cs, ss, j - 1);
      WithinStep(cs[j - 1], cs[j], ss[j - 1], t, StepsOf(ss, t, i, j - 1), StepsLeft(cs[i].m, cs[i].th[t].w));
    }
  }

  /** cas_node_type ends under any interference: from any moment on, a switching thread takes at most 276 steps, and
      after so many it has returned. */
  lemma SwitchEnds(cs: seq<State>, ss: seq<Step>, i: nat, j: nat, t: Tid)
    requires IsRun(cs, ss) && i <= j < |cs| && t in cs[i].th && cs[i].th[t].Switching?
    ensures StepsOf(ss, t, i, j) <= ROUND_STEPS * (ROUNDS + 1)
    ensures StepsOf(ss, t, i, j) == ROUND_STEPS * (ROUNDS + 1) ==> t in cs[j].th && cs[j].th[t].Done?
  {
    SwitchWithin(cs, ss, i, j, t);
    RunInv(cs, ss, i);
    RunInv(cs, ss, j);
    assert ThreadAt(cs[i], t) && ThreadAt(cs[j], t);
    StepsNatural(cs[i].m, cs[i].th[t].w);
    if cs[j].th[t].Switching? { StepsNatural(cs[j].m, cs[j].th[t].w); }
  }
}
