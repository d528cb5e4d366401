/** Ticket locks: 8-bit counters stand for an unbounded queue as long as fewer than 256 tickets are outstanding. */
module Tickets {
  const WRAP: nat := 256

  function Byte8(n: nat): (b: nat)
    ensures b < WRAP
  {
    n % WRAP
  }

  /** Two tickets less than a wrap-around apart are told apart by their low bytes. */
  lemma SameByte(a: nat, b: nat)
    requires a <= b < a + WRAP && Byte8(a) == Byte8(b)
    ensures a == b
  {}

  lemma NextByte(a: nat)
    ensures Byte8(a + 1) == Byte8(Byte8(a) + 1)
  {}
}

/** The address lock of one lock node: local tickets, and a remote lock that is handed from writer to writer. */
module LockHandover {
  import opened Tickets

  type Tid = nat
  type Addr = nat

  const MAX_HANDOVER: nat := 8

  /** Where a writer of `addr` is. `g` is the number of its ticket, of which the code keeps the low byte. */
  datatype Pc =
    | Waiting(g: nat, addr: Addr)
    | Acquiring(g: nat, addr: Addr)
    | Writing(g: nat, addr: Addr)
    | UnlockOwn(g: nat, addr: Addr)
    | UnlockUnique(g: nat, addr: Addr)
    | Leaving(g: nat, addr: Addr)

  /** The lock node, and the remote lock bits held for it (`ours`) and by anybody else (`others`).
      `taken` and `served` count tickets without wrap-around, `acquired` and `released` the remote lock and
      unlock operations. */
  datatype State = State(ticket: nat, current: nat, handover: bool, unique: Addr, cnt: nat,
                         ours: set<nat>, others: set<nat>, th: map<Tid, Pc>, taken: nat, served: nat,
                         acquired: nat, released: nat)

  datatype Act =
    | Take(addr: Addr)
    | Enter
    | Lock
    | Write
    | Release
    | Unlock
    | Leave
    | OtherLock(b: nat)
    | OtherUnlock(b: nat)

  ghost predicate Init(c: State) {
    c == State(0, 0, false, 0, 0, {}, {}, map[], 0, 0, 0, 0)
  }

  /** The remote unlock clears the bit, whoever holds it. */
  function Cleared(c: State, b: nat): State {
    c.(ours := c.ours - {b}, others := c.others - {b}, released := c.released + 1)
  }

  /** Steps of thread `t`, or of the other compute nodes. `bit` gives the lock bit of an address. */
  ghost predicate Next(bit: Addr -> nat, c: State, c': State, t: Tid, act: Act) {
    match act
    case Take(addr) =>
      && t !in c.th && c.taken - c.served < WRAP - 1
      && c' == c.(ticket := Byte8(c.ticket + 1), taken := c.taken + 1, th := c.th[t := Waiting(c.taken, addr)])
    case Enter =>
      && t in c.th && c.th[t].Waiting? && Byte8(c.th[t].g) == c.current
      && var p := c.th[t];
      var u := if c.handover then c.unique else p.addr;
      var q := if c.handover && u == p.addr then Writing(p.g, p.addr) else Acquiring(p.g, p.addr);
      c' == c.(unique := u, th := c.th[t := q])
    case Lock =>
      && t in c.th && c.th[t].Acquiring? && bit(c.th[t].addr) !in c.ours + c.others
      && c' == c.(ours := c.ours + {bit(c.th[t].addr)}, acquired := c.acquired + 1,
          th := c.th[t := Writing(c.th[t].g, c.th[t].addr)])
    case Write =>
      t in c.th && c.th[t].Writing? && c' == c
    case Release =>
      && t in c.th && c.th[t].Writing?
      && var h := c.ticket != Byte8(c.current + 1) && !(c.cnt > MAX_HANDOVER);
      c' == c.(handover := h, cnt := if h then c.cnt + 1 else 0,
               th := c.th[t := UnlockOwn(c.th[t].g, c.th[t].addr)])
    case Unlock =>
      && t in c.th
      && if c.th[t].UnlockOwn? then
           var u := if c.unique != c.th[t].addr then Cleared(c, bit(c.th[t].addr)) else c;
           c' == u.(th := c.th[t := UnlockUnique(c.th[t].g, c.th[t].addr)])
         else
           && c.th[t].UnlockUnique?
           && var u := if !c.handover then Cleared(c, bit(c.unique)) else c;
           c' == u.(th := c.th[t := Leaving(c.th[t].g, c.th[t].addr)])
    case Leave =>
      && t in c.th && c.th[t].Leaving?
      && c' == c.(current := Byte8(c.current + 1), served := c.served + 1, th := c.th - {t})
    case OtherLock(b) =>
      b !in c.ours + c.others && c' == c.(others := c.others + {b})
    case OtherUnlock(b) =>
      b in c.others && c' == c.(others := c.others - {b})
  }

  // the invariant

  predicate Inside(p: Pc) {
    !p.Waiting?
  }

  /** The lock bits that the node holds while thread state `p` is inside. */
  ghost predicate Holds(bit: Addr -> nat, c: State, p: Pc) {
    match p
    case Waiting(_, _) => true
    case Acquiring(_, a) =>
      if c.handover then c.unique != a && c.ours == {bit(c.unique)} else c.unique == a && c.ours == {}
    case Writing(_, a) => c.ours == {bit(c.unique), bit(a)} && (bit(c.unique) == bit(a) ==> c.unique == a)
    case UnlockOwn(_, a) => c.ours == {bit(c.unique), bit(a)} && (bit(c.unique) == bit(a) ==> c.unique == a)
    case UnlockUnique(_, _) => c.ours == {bit(c.unique)}
    case Leaving(_, _) => c.ours == if c.handover then {bit(c.unique)} else {}
  }

  /** A thread after its release has decided on the handover only if somebody waits behind it. */
  ghost predicate Behind(c: State, p: Pc) {
    (p.UnlockOwn? || p.UnlockUnique? || p.Leaving?) && c.handover ==> c.served + 2 <= c.taken
  }

  ghost predicate ThreadAt(bit: Addr -> nat, c: State, t: Tid) {
    t in c.th ==>
      c.served <= c.th[t].g < c.taken && (Inside(c.th[t]) ==> c.th[t].g == c.served) && Holds(bit, c, c.th[t])
        && Behind(c, c.th[t])
  }

  ghost predicate ApartAt(c: State, t: Tid, u: Tid) {
    t in c.th && u in c.th && t != u ==> c.th[t].g != c.th[u].g
  }

  /** Every outstanding ticket belongs to a thread. */
  ghost predicate OwnedAt(c: State, g: nat) {
    c.served <= g < c.taken ==> exists t :: t in c.th && c.th[t].g == g
  }

  ghost predicate Empty(c: State) {
    forall t :: t in c.th ==> !Inside(c.th[t])
  }

  ghost predicate Inv(bit: Addr -> nat, c: State) {
    && c.served <= c.taken < c.served + WRAP && c.ticket == Byte8(c.taken) && c.current == Byte8(c.served)
    && c.ours !! c.others
    && c.cnt <= MAX_HANDOVER + 1 && c.acquired == c.released + |c.ours|
    && (forall t :: ThreadAt(bit, c, t))
    && (forall t, u :: ApartAt(c, t, u))
    && (forall g :: OwnedAt(c, g))
    && (Empty(c) ==> c.ours == (if c.handover then {bit(c.unique)} else {}) && (c.handover ==> c.served < c.taken))
  }

  lemma InitInv(bit: Addr -> nat, c: State)
    requires Init(c)
    ensures Inv(bit, c)
  {}

  /** At most one thread is between entering and leaving. */
  lemma Exclusive(bit: Addr -> nat, c: State, t: Tid, u: Tid)
    requires Inv(bit, c) && t in c.th && u in c.th && Inside(c.th[t]) && Inside(c.th[u])
    ensures t == u
  {
    assert ThreadAt(bit, c, t) && ThreadAt(bit, c, u) && ApartAt(c, t, u);
  }

  /** The thread whose ticket is up is inside or about to enter; all others wait. */
  lemma OthersWait(bit: Addr -> nat, c: State, t: Tid, u: Tid)
    requires Inv(bit, c) && t in c.th && c.th[t].g == c.served && u in c.th && u != t
    ensures c.th[u].Waiting?
  {
    assert ThreadAt(bit, c, u) && ApartAt(c, t, u);
  }

  /** A step of the thread whose ticket is up, which keeps the queue. */
  lemma HolderStep(bit: Addr -> nat, c: State, c': State, t: Tid, p: Pc)
    requires Inv(bit, c) && t in c.th && c.th[t].g == c.served && p.g == c.served && Inside(p)
    requires c' == c.(handover := c'.handover, unique := c'.unique, cnt := c'.cnt, ours := c'.ours, others := c'.others,
                     acquired := c'.acquired, released := c'.released, th := c.th[t := p])
    requires c'.ours !! c'.others && c'.cnt <= MAX_HANDOVER + 1 && c'.acquired == c'.released + |c'.ours|
    requires Holds(bit, c', p) && Behind(c', p)
    ensures Inv(bit, c')
  {
    assert ThreadAt(bit, c, t);
    forall u ensures ThreadAt(bit, c', u) {
      assert ThreadAt(bit, c, u);
      if u in c.th && u != t { OthersWait(bit, c, t, u); }
    }
    forall u, w ensures ApartAt(c', u, w) { assert ApartAt(c, u, w); }
    forall g: nat ensures OwnedAt(c', g) {
      assert OwnedAt(c, g);
      if c.served <= g < c.taken {
        var u :| u in c.th && c.th[u].g == g;
        assert u in c'.th && c'.th[u].g == g;
      }
    }
    assert t in c'.th && Inside(c'.th[t]);
  }

  lemma TakeStep(bit: Addr -> nat, c: State, c': State, t: Tid, addr: Addr)
    requires Inv(bit, c) && Next(bit, c, c', t, Take(addr))
    ensures Inv(bit, c')
  {
    NextByte(c.taken);
    forall u ensures ThreadAt(bit, c', u) { assert ThreadAt(bit, c, u); }
    forall u, w ensures ApartAt(c', u, w) { assert ApartAt(c, u, w) && ThreadAt(bit, c, u) && ThreadAt(bit, c, w); }
    forall g: nat ensures OwnedAt(c', g) {
      assert OwnedAt(c, g);
      if g == c.taken { assert t in c'.th && c'.th[t].g == g; }
      else if c.served <= g < c.taken {
        var u :| u in c.th && c.th[u].g == g;
        assert u in c'.th && c'.th[u].g == g;
      }
    }
    if Empty(c') {
      forall u | u in c.th ensures !Inside(c.th[u]) { assert u in c'.th && !Inside(c'.th[u]); }
    }
  }

  /** The ticket that equals the current byte is the one whose turn it is, and nobody is inside. */
  lemma MyTurn(bit: Addr -> nat, c: State, t: Tid)
    requires Inv(bit, c) && t in c.th && c.th[t].Waiting? && Byte8(c.th[t].g) == c.current
    ensures c.th[t].g == c.served && Empty(c)
  {
    assert ThreadAt(bit, c, t);
    SameByte(c.served, c.th[t].g);
    forall u | u in c.th ensures !Inside(c.th[u]) { if u != t { OthersWait(bit, c, t, u); } }
  }

  lemma EnterStep(bit: Addr -> nat, c: State, c': State, t: Tid)
    requires Inv(bit, c) && Next(bit, c, c', t, Enter)
    ensures Inv(bit, c')
  {
    MyTurn(bit, c, t);
    HolderStep(bit, c, c', t, c'.th[t]);
  }

  lemma LockStep(bit: Addr -> nat, c: State, c': State, t: Tid)
    requires Inv(bit, c) && Next(bit, c, c', t, Lock)
    ensures Inv(bit, c')
  {
    assert ThreadAt(bit, c, t);
    LockTaken(bit, c, c', c.th[t], c'.th[t]);
    HolderStep(bit, c, c', t, c'.th[t]);
  }

  lemma LockTaken(bit: Addr -> nat, c: State, c': State, p: Pc, q: Pc)
    requires p.Acquiring? && q == Writing(p.g, p.addr) && Holds(bit, c, p) && c.ours !! c.others
    requires bit(p.addr) !in c.ours + c.others && c'.ours == c.ours + {bit(p.addr)} && c'.others == c.others
    requires c'.unique == c.unique
    ensures |c'.ours| == |c.ours| + 1 && c'.ours !! c'.others && Holds(bit, c', q)
  {
    if c.handover {
      assert c.ours == {bit(c.unique)};
      assert c'.ours == {bit(c.unique), bit(p.addr)};
    } else {
      assert c'.ours == {bit(p.addr)} == {bit(c.unique), bit(p.addr)};
    }
  }

  /** The last ticket taken is the holder's own exactly if the low byte of the next ticket says so. */
  lemma NoneBehind(bit: Addr -> nat, c: State, t: Tid)
    requires Inv(bit, c) && t in c.th && Inside(c.th[t])
    ensures c.ticket != Byte8(c.current + 1) <==> c.served + 2 <= c.taken
  {
    assert ThreadAt(bit, c, t);
    NextByte(c.served);
    if c.ticket == Byte8(c.current + 1) { SameByte(c.served + 1, c.taken); }
  }

  lemma ReleaseStep(bit: Addr -> nat, c: State, c': State, t: Tid)
    requires Inv(bit, c) && Next(bit, c, c', t, Release)
    ensures Inv(bit, c')
  {
    assert ThreadAt(bit, c, t);
    NoneBehind(bit, c, t);
    HolderStep(bit, c, c', t, c'.th[t]);
  }

  lemma UnlockStep(bit: Addr -> nat, c: State, c': State, t: Tid)
    requires Inv(bit, c) && Next(bit, c, c', t, Unlock)
    ensures Inv(bit, c') && c'.others == c.others
  {
    assert ThreadAt(bit, c, t);
    assert bit(c.th[t].addr) in c.ours || c.th[t].UnlockUnique?;
    assert bit(c.unique) in c.ours;
    HolderStep(bit, c, c', t, c'.th[t]);
  }

  lemma LeaveStep(bit: Addr -> nat, c: State, c': State, t: Tid)
    requires Inv(bit, c) && Next(bit, c, c', t, Leave)
    ensures Inv(bit, c')
  {
    assert ThreadAt(bit, c, t);
    NextByte(c.served);
    forall u ensures ThreadAt(bit, c', u) {
      assert ThreadAt(bit, c, u);
      if u in c.th && u != t { OthersWait(bit, c, t, u); assert ApartAt(c, t, u); }
    }
    forall u, w ensures ApartAt(c', u, w) { assert ApartAt(c, u, w); }
    forall g: nat ensures OwnedAt(c', g) {
      assert OwnedAt(c, g);
      if c'.served <= g < c.taken {
        var u :| u in c.th && c.th[u].g == g;
        assert u in c'.th && c'.th[u].g == g;
      }
    }
  }

  lemma ThreadSame(bit: Addr -> nat, c: State, c': State, u: Tid)
    requires ThreadAt(bit, c, u) && c' == c.(others := c'.others)
    ensures ThreadAt(bit, c', u)
  {}

  lemma OtherStep(bit: Addr -> nat, c: State, c': State, t: Tid, act: Act)
    requires Inv(bit, c) && Next(bit, c, c', t, act) && (act.OtherLock? || act.OtherUnlock?)
    ensures Inv(bit, c')
  {
    assert c' == c.(others := c'.others) && c'.ours !! c'.others;
    forall u ensures ThreadAt(bit, c', u) { assert ThreadAt(bit, c, u); ThreadSame(bit, c, c', u); }
    forall u, w ensures ApartAt(c', u, w) { assert ApartAt(c, u, w); }
    forall g: nat ensures OwnedAt(c', g) { assert OwnedAt(c, g); }
    assert Empty(c') ==> Empty(c);
  }

  lemma NextInv(bit: Addr -> nat, c: State, c': State, t: Tid, act: Act)
    requires Inv(bit, c) && Next(bit, c, c', t, act)
    ensures Inv(bit, c')
  {
    match act
    case Take(addr) => TakeStep(bit, c, c', t, addr);
    case Enter => EnterStep(bit, c, c', t);
    case Lock => LockStep(bit, c, c', t);
    case Write =>
    case Release => ReleaseStep(bit, c, c', t);
    case Unlock => UnlockStep(bit, c, c', t);
    case Leave => LeaveStep(bit, c, c', t);
    case _ => OtherStep(bit, c, c', t, act);
  }

  // runs

  datatype Step = Step(t: Tid, act: Act)

  ghost predicate RunStep(bit: Addr -> nat, cs: seq<State>, ss: seq<Step>, i: nat) {
    i < |ss| && i + 1 < |cs| ==> Next(bit, cs[i], cs[i + 1], ss[i].t, ss[i].act)
  }

  ghost predicate IsRun(bit: Addr -> nat, cs: seq<State>, ss: seq<Step>) {
    |cs| == |ss| + 1 && Init(cs[0]) && forall i :: RunStep(bit, cs, ss, i)
  }

  lemma {:induction false} RunInv(bit: Addr -> nat, cs: seq<State>, ss: seq<Step>, i: nat)
    requires IsRun(bit, cs, ss) && i < |cs|
    ensures Inv(bit, cs[i])
    decreases i
  {
    if i == 0 {
      InitInv(bit, cs[0]);
    } else {
      RunInv(bit, cs, ss, i - 1);
      assert RunStep(bit, cs, ss, i - 1);
      NextInv(bit, cs[i - 1], cs[i], ss[i - 1].t, ss[i - 1].act);
    }
  }

  /** Whoever writes is alone inside and holds the remote lock of its address, whether it was locked or handed over. */
  lemma WriterHolds(bit: Addr -> nat, cs: seq<State>, ss: seq<Step>, n: nat, t: Tid, u: Tid)
    requires IsRun(bit, cs, ss) && n < |cs| && t in cs[n].th && cs[n].th[t].Writing?
    ensures bit(cs[n].th[t].addr) in cs[n].ours && bit(cs[n].th[t].addr) !in cs[n].others
    ensures u in cs[n].th && Inside(cs[n].th[u]) ==> u == t
  {
    RunInv(bit, cs, ss, n);
    assert ThreadAt(bit, cs[n], t);
    if u in cs[n].th && Inside(cs[n].th[u]) { Exclusive(bit, cs[n], t, u); }
  }

  /** Between two holders the node holds exactly the lock of `unique` if it is to be handed over, and then somebody
      waits for it; otherwise it holds none, and every remote lock it acquired has been
      released once. */
  lemma BetweenHolders(bit: Addr -> nat, cs: seq<State>, ss: seq<Step>, n: nat)
    requires IsRun(bit, cs, ss) && n < |cs| && Empty(cs[n])
    ensures cs[n].ours == if cs[n].handover then {bit(cs[n].unique)} else {}
    ensures cs[n].handover ==> exists t :: t in cs[n].th && cs[n].th[t].g == cs[n].served
    ensures cs[n].acquired == cs[n].released + if cs[n].handover then 1 else 0
  {
    RunInv(bit, cs, ss, n);
    assert OwnedAt(cs[n], cs[n].served);
  }

  /** An unlock only ever clears a bit that the node itself holds: every lock is released by the one that has it, once,
      also when the addresses of holder and handover differ. */
  lemma ReleasesOwn(bit: Addr -> nat, cs: seq<State>, ss: seq<Step>, n: nat)
    requires IsRun(bit, cs, ss) && n < |ss| && ss[n].act.Unlock? && ss[n].t in cs[n].th
    ensures var c, c' := cs[n], cs[n + 1]; var p := c.th[ss[n].t];
      && c'.others == c.others
      && (if p.UnlockOwn?
          then c'.ours == {bit(c.unique)} && (c.unique != p.addr ==> bit(p.addr) in c.ours && bit(p.addr) !in c'.ours)
          else c'.ours == (if c.handover then c.ours else {}) && c.ours == {bit(c.unique)})
  {
    RunInv(bit, cs, ss, n);
    assert RunStep(bit, cs, ss, n);
    assert ThreadAt(bit, cs[n], ss[n].t);
    UnlockStep(bit, cs[n], cs[n + 1], ss[n].t);
  }

  /** Step `i` releases the lock, and whether it hands the remote lock over. */
  ghost predicate Releases(ss: seq<Step>, i: nat) {
    i < |ss| && ss[i].act.Release?
  }

  ghost predicate HandsOver(cs: seq<State>, ss: seq<Step>, i: nat) {
    Releases(ss, i) && i + 1 < |cs| && cs[i + 1].handover
  }

  /** How many releases there are from step `i` up to step `j`. */
  ghost function ReleaseCount(ss: seq<Step>, i: nat, j: nat): nat
    requires i <= j <= |ss|
  {
    if i == j then 0 else ReleaseCount(ss, i, j - 1) + if Releases(ss, j - 1) then 1 else 0
  }

  /** How many releases before state `n` have handed over since the last one that did not. */
  ghost function Row(cs: seq<State>, ss: seq<Step>, n: nat): nat
    requires n <= |ss|
  {
    if n == 0 then 0
    else if !Releases(ss, n - 1) then Row(cs, ss, n - 1)
    else if HandsOver(cs, ss, n - 1) then Row(cs, ss, n - 1) + 1
    else 0
  }

  lemma {:induction false} CountsRow(bit: Addr -> nat, cs: seq<State>, ss: seq<Step>, n: nat)
    requires IsRun(bit, cs, ss) && n < |cs|
    ensures cs[n].cnt == Row(cs, ss, n)
    decreases n
  {
    if n > 0 {
      CountsRow(bit, cs, ss, n - 1);
      assert RunStep(bit, cs, ss, n - 1);
    }
  }

  /** A release hands the remote lock over exactly if a thread waits and not all of the last nine releases did. */
  lemma ReleaseDecides(bit: Addr -> nat, cs: seq<State>, ss: seq<Step>, n: nat)
    requires IsRun(bit, cs, ss) && Releases(ss, n)
    ensures HandsOver(cs, ss, n) <==>
      Row(cs, ss, n) < 9 && exists u :: u in cs[n].th && cs[n].th[u].Waiting?
  {
    RunInv(bit, cs, ss, n);
    CountsRow(bit, cs, ss, n);
    var c, t := cs[n], ss[n].t;
    assert RunStep(bit, cs, ss, n) && ThreadAt(bit, c, t);
    NoneBehind(bit, c, t);
    SomeoneWaits(bit, c, t);
  }

  lemma SomeoneWaits(bit: Addr -> nat, c: State, t: Tid)
    requires Inv(bit, c) && t in c.th && Inside(c.th[t])
    ensures c.served + 2 <= c.taken <==> exists u :: u in c.th && c.th[u].Waiting?
  {
    assert ThreadAt(bit, c, t);
    if c.served + 2 <= c.taken {
      assert OwnedAt(c, c.served + 1);
      var u :| u in c.th && c.th[u].g == c.served + 1;
      OthersWait(bit, c, t, u);
    }
    if u :| u in c.th && c.th[u].Waiting? {
      assert ThreadAt(bit, c, u) && ApartAt(c, t, u);
    }
  }

  lemma {:induction false} AllHandOver(bit: Addr -> nat, cs: seq<State>, ss: seq<Step>, i: nat, j: nat)
    requires IsRun(bit, cs, ss) && i <= j <= |ss|
    requires forall l :: i <= l < j && Releases(ss, l) ==> HandsOver(cs, ss, l)
    ensures Row(cs, ss, j) == Row(cs, ss, i) + ReleaseCount(ss, i, j)
    decreases j
  {
    if i < j { AllHandOver(bit, cs, ss, i, j - 1); }
  }

  /** Among any ten releases in a row, one does not hand over. */
  lemma BoundedRow(bit: Addr -> nat, cs: seq<State>, ss: seq<Step>, i: nat, j: nat)
    requires IsRun(bit, cs, ss) && i <= j <= |ss| && ReleaseCount(ss, i, j) >= 10
    ensures exists l :: i <= l < j && Releases(ss, l) && !HandsOver(cs, ss, l)
  {
    if forall l :: i <= l < j && Releases(ss, l) ==> HandsOver(cs, ss, l) {
      AllHandOver(bit, cs, ss, i, j);
      CountsRow(bit, cs, ss, j);
      RunInv(bit, cs, ss, j);
    }
  }
}
