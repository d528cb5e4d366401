/** Read delegation of one lock node: readers of one key queue up, and those behind a winner take over its result. */
module ReadDelegation {
  import opened Keys
  import opened Lookup
  import opened Tickets

  type Tid = nat

  /** The result of a search: whether the key was found, and its value. */
  datatype Ret = Ret(found: bool, value: nat)

  /** What a winner stored. */
  datatype Stored = Stored(key: Key, ret: Ret)

  /** Where a reader of `k` is. `told` says that it was told to take over the winner's result. */
  datatype Pc =
    | Arrived(k: Key)
    | Queued(g: nat, k: Key)
    | Skipping(g: nat, k: Key)
    | Serving(g: nat, k: Key, told: bool)
    | Deciding(g: nat, k: Key, told: bool, ret: Ret)
    | Clearing(g: nat, k: Key, told: bool, ret: Ret)
    | Leaving(g: nat, k: Key, told: bool, ret: Ret)

  /** The read and write windows: how many readers and writers they still have, whether they have started, and the
      ticket that the read window ends before. */
  datatype Windows = Windows(readers: nat, writers: nat, started: bool, upto: nat)

  /** The read half of a lock node. `log` records what winners stored, `taken` and `served` count tickets. */
  datatype State = State(ticket: nat, current: nat, handover: bool, unique: Option<Key>, res: Ret, win: Windows,
                         th: map<Tid, Pc>, log: seq<Stored>, taken: nat, served: nat)

  /** `Store(ret)`: the winner's search returned `ret`. `Decide(writers)`: so many writers hold tickets. `Writer`: the
      write half of the node starts or ends the windows; it may leave any values, since the code changes the counters
      outside their lock. */
  datatype Act =
    | Arrive(k: Key)
    | Take
    | Enter
    | Skip
    | Store(ret: Ret)
    | Decide(writers: nat)
    | Clear
    | Leave
    | Writer(readers: nat, writers: nat, started: bool)

  ghost predicate Init(c: State) {
    c == State(0, 0, false, None, Ret(false, 0), Windows(0, 0, false, 0), map[], [], 0, 0)
  }

  /** A winner starts the windows, for all readers that hold tickets. */
  function Started(c: State, writers: nat): Windows {
    if c.handover || c.win.started then c.win
    else Windows((WRAP + c.ticket - c.current) % WRAP, writers, true, c.taken)
  }

  /** The window has one reader less. When both windows have run out, they can start again. */
  function Lowered(w: Windows): Windows {
    if w.readers == 0 then w
    else w.(readers := w.readers - 1, started := w.started && !(w.readers == 1 && w.writers == 0))
  }

  predicate Ticketed(p: Pc) {
    !p.Arrived?
  }

  ghost predicate Next(c: State, c': State, t: Tid, act: Act) {
    match act
    case Arrive(k) =>
      && t !in c.th && (c.unique.None? || c.unique == Some(k))
      && c' == c.(unique := Some(k), th := c.th[t := Arrived(k)])
    case Take =>
      && t in c.th && c.th[t].Arrived? && c.taken - c.served < WRAP - 1
      && c' == c.(ticket := Byte8(c.ticket + 1), taken := c.taken + 1, th := c.th[t := Queued(c.taken, c.th[t].k)])
    case Enter =>
      && t in c.th && c.th[t].Queued? && Byte8(c.th[t].g) == c.current
      && var p := c.th[t];
      if c.unique != Some(p.k) then c' == c.(th := c.th[t := Skipping(p.g, p.k)])
      else var h := c.handover && c.win.readers != 0; c' == c.(handover := h, th := c.th[t := Serving(p.g, p.k, h)])
    case Skip =>
      && t in c.th && c.th[t].Skipping?
      && c' == c.(current := Byte8(c.current + 1), served := c.served + 1, win := Lowered(c.win), th := c.th - {t})
    case Store(ret) =>
      && t in c.th && c.th[t].Serving?
      && var p := c.th[t];
      if c.handover then c' == c.(th := c.th[t := Deciding(p.g, p.k, p.told, c.res)])
      else c' == c.(res := ret, log := c.log + [Stored(p.k, ret)], th := c.th[t := Deciding(p.g, p.k, p.told, ret)])
    case Decide(writers) =>
      && t in c.th && c.th[t].Deciding?
      && var p := c.th[t];
      c' == c.(handover := c.ticket != Byte8(c.current + 1), win := Started(c, writers),
               th := c.th[t := Clearing(p.g, p.k, p.told, p.ret)])
    case Clear =>
      && t in c.th && c.th[t].Clearing?
      && var p := c.th[t];
      c' == c.(unique := if c.handover then c.unique else None, th := c.th[t := Leaving(p.g, p.k, p.told, p.ret)])
    case Leave =>
      && t in c.th && c.th[t].Leaving?
      && c' == c.(current := Byte8(c.current + 1), served := c.served + 1, win := Lowered(c.win), th := c.th - {t})
    case Writer(readers, writers, started) =>
      c' == c.(win := Windows(readers, writers, started, c.served + readers))
  }

  // the invariant

  predicate Inside(p: Pc) {
    !p.Arrived? && !p.Queued?
  }

  /** The result in the node is the last one stored, and it was stored for `k`. */
  ghost predicate Latest(c: State, k: Key) {
    c.log != [] && c.log[|c.log| - 1] == Stored(k, c.res)
  }

  ghost predicate Knows(c: State, p: Pc) {
    match p
    case Serving(_, k, told) => c.unique == Some(k) && told == c.handover
    case Deciding(_, k, _, ret) => c.unique == Some(k) && Latest(c, k) && ret == c.res
    case Clearing(_, k, _, ret) => c.unique == Some(k) && Latest(c, k) && ret == c.res
    case Leaving(_, k, _, ret) => Latest(c, k) && ret == c.res
    case _ => true
  }

  ghost predicate ThreadAt(c: State, t: Tid) {
    t in c.th && Ticketed(c.th[t]) ==>
      c.served <= c.th[t].g < c.taken && (Inside(c.th[t]) ==> c.th[t].g == c.served) && Knows(c, c.th[t])
  }

  ghost predicate ApartAt(c: State, t: Tid, u: Tid) {
    t in c.th && u in c.th && t != u && Ticketed(c.th[t]) && Ticketed(c.th[u]) ==> c.th[t].g != c.th[u].g
  }

  /** Every outstanding ticket belongs to a reader. */
  ghost predicate OwnedAt(c: State, g: nat) {
    c.served <= g < c.taken ==> exists t :: Owns(c, t, g)
  }

  ghost predicate Owns(c: State, t: Tid, g: nat) {
    t in c.th && Ticketed(c.th[t]) && c.th[t].g == g
  }

  /** A handover that is set promises the result of the last search for the present key. */
  ghost predicate Promise(c: State) {
    c.handover ==> c.unique.Some? && Latest(c, c.unique.value)
  }

  /** The window has the readers whose turn is still to come before it ends. */
  ghost predicate Counts(c: State) {
    c.win.readers == if c.served < c.win.upto then c.win.upto - c.served else 0
  }

  ghost predicate Inv(c: State) {
    && Counts(c) && c.served <= c.taken < c.served + WRAP && c.ticket == Byte8(c.taken) && c.current == Byte8(c.served)
    && Promise(c)
    && (forall t :: ThreadAt(c, t))
    && (forall t, u :: ApartAt(c, t, u))
    && (forall g :: OwnedAt(c, g))
  }

  lemma InitInv(c: State)
    requires Init(c)
    ensures Inv(c)
  {}

  lemma Exclusive(c: State, t: Tid, u: Tid)
    requires Inv(c) && t in c.th && u in c.th && Inside(c.th[t]) && Inside(c.th[u])
    ensures t == u
  {
    assert ThreadAt(c, t) && ThreadAt(c, u) && ApartAt(c, t, u);
  }

  lemma OthersWait(c: State, t: Tid, u: Tid)
    requires Inv(c) && t in c.th && Ticketed(c.th[t]) && c.th[t].g == c.served && u in c.th && u != t
    ensures !Inside(c.th[u])
  {
    assert ThreadAt(c, u) && ApartAt(c, t, u);
  }

  lemma MyTurn(c: State, t: Tid)
    requires Inv(c) && t in c.th && c.th[t].Queued? && Byte8(c.th[t].g) == c.current
    ensures c.th[t].g == c.served
  {
    assert ThreadAt(c, t);
    SameByte(c.served, c.th[t].g);
  }

  /** A step of the reader whose ticket is up, which keeps the queue. */
  lemma HolderStep(c: State, c': State, t: Tid, p: Pc)
    requires Inv(c) && t in c.th && Ticketed(c.th[t]) && c.th[t].g == c.served && Inside(p) && p.g == c.served
    requires c' == c.(handover := c'.handover, unique := c'.unique, res := c'.res, win := c'.win, log := c'.log,
                      th := c.th[t := p])
    requires Knows(c', p) && Promise(c') && Counts(c')
    ensures Inv(c')
  {
    assert ThreadAt(c, t);
    forall u ensures ThreadAt(c', u) {
      assert ThreadAt(c, u);
      if u in c.th && u != t { OthersWait(c, t, u); }
    }
    forall u, w ensures ApartAt(c', u, w) { assert ApartAt(c, u, w); }
    forall g: nat ensures OwnedAt(c', g) { OwnersStay(c, c', g); }
  }

  lemma OwnersStay(c: State, c': State, g: nat)
    requires OwnedAt(c, g) && (c.served <= g < c.taken || !(c'.served <= g < c'.taken))
    requires forall u :: Owns(c, u, g) && c'.served <= g ==> Owns(c', u, g)
    ensures OwnedAt(c', g)
  {
    if c'.served <= g < c'.taken {
      var u :| Owns(c, u, g);
      assert Owns(c', u, g);
    }
  }

  lemma QueueStep(c: State, c': State, t: Tid, act: Act)
    requires Inv(c) && Next(c, c', t, act) && (act.Arrive? || act.Take?)
    ensures Inv(c')
  {
    NextByte(c.taken);
    forall u ensures ThreadAt(c', u) { assert ThreadAt(c, u); }
    forall u, w ensures ApartAt(c', u, w) { assert ApartAt(c, u, w) && ThreadAt(c, u) && ThreadAt(c, w); }
    forall g: nat ensures OwnedAt(c', g) {
      assert OwnedAt(c, g);
      if act.Take? && g == c.taken { assert Owns(c', t, g); } else { OwnersStay(c, c', g); }
    }
  }

  lemma ExitStep(c: State, c': State, t: Tid, act: Act)
    requires Inv(c) && Next(c, c', t, act) && (act.Skip? || act.Leave?)
    ensures Inv(c')
  {
    NextByte(c.served);
    assert ThreadAt(c, t);
    forall u ensures ThreadAt(c', u) {
      assert ThreadAt(c, u);
      if u in c.th && u != t { OthersWait(c, t, u); assert ApartAt(c, t, u); }
    }
    forall u, w ensures ApartAt(c', u, w) { assert ApartAt(c, u, w); }
    forall g: nat ensures OwnedAt(c', g) { OwnersStay(c, c', g); }
  }

  lemma WriterStep(c: State, c': State, t: Tid, act: Act)
    requires Inv(c) && Next(c, c', t, act) && act.Writer?
    ensures Inv(c')
  {
    forall u ensures ThreadAt(c', u) { assert ThreadAt(c, u); }
    forall u, w ensures ApartAt(c', u, w) { assert ApartAt(c, u, w); }
    forall g: nat ensures OwnedAt(c', g) { OwnersStay(c, c', g); }
  }

  /** The difference of the two ticket bytes is the number of outstanding tickets. */
  lemma Outstanding(served: nat, taken: nat)
    requires served <= taken < served + WRAP
    ensures (WRAP + Byte8(taken) - Byte8(served)) % WRAP == taken - served
  {
    var a, b := taken / WRAP, served / WRAP;
    assert taken == a * WRAP + Byte8(taken) && served == b * WRAP + Byte8(served);
  }

  lemma NextInv(c: State, c': State, t: Tid, act: Act)
    requires Inv(c) && Next(c, c', t, act)
    ensures Inv(c')
  {
    if act.Writer? {
      WriterStep(c, c', t, act);
    } else if act.Arrive? || act.Take? {
      QueueStep(c, c', t, act);
    } else if act.Skip? || act.Leave? {
      ExitStep(c, c', t, act);
    } else {
      assert ThreadAt(c, t);
      if act.Enter? { MyTurn(c, t); }
      if act.Decide? { Outstanding(c.served, c.taken); }
      HolderStep(c, c', t, c'.th[t]);
    }
  }

  // runs

  datatype Step = Step(t: Tid, act: Act)

  ghost predicate RunStep(cs: seq<State>, ss: seq<Step>, i: nat) {
    i < |ss| && i + 1 < |cs| ==> Next(cs[i], cs[i + 1], ss[i].t, ss[i].act)
  }

  ghost predicate IsRun(cs: seq<State>, ss: seq<Step>) {
    |cs| == |ss| + 1 && Init(cs[0]) && forall i :: RunStep(cs, ss, i)
  }

  lemma {:induction false} RunInv(cs: seq<State>, ss: seq<Step>, i: nat)
    requires IsRun(cs, ss) && i < |cs|
    ensures Inv(cs[i])
    decreases i
  {
    if i == 0 {
      InitInv(cs[0]);
    } else {
      RunInv(cs, ss, i - 1);
      assert RunStep(cs, ss, i - 1);
      NextInv(cs[i - 1], cs[i], ss[i - 1].t, ss[i - 1].act);
    }
  }

  /** At most one reader is served at a time. */
  lemma OneReader(cs: seq<State>, ss: seq<Step>, n: nat, t: Tid, u: Tid)
    requires IsRun(cs, ss) && n < |cs| && t in cs[n].th && u in cs[n].th && Inside(cs[n].th[t]) && Inside(cs[n].th[u])
    ensures t == u
  {
    RunInv(cs, ss, n);
    Exclusive(cs[n], t, u);
  }

  /** A reader that leaves returns the result stored last, and that result was stored for its own key: by itself if it
      was a winner, by the latest winner if it was told to take over. */
  lemma ReturnsLatest(cs: seq<State>, ss: seq<Step>, n: nat, t: Tid)
    requires IsRun(cs, ss) && n < |cs| && t in cs[n].th && cs[n].th[t].Leaving?
    ensures cs[n].log != [] && cs[n].log[|cs[n].log| - 1] == Stored(cs[n].th[t].k, cs[n].th[t].ret)
  {
    RunInv(cs, ss, n);
    assert ThreadAt(cs[n], t);
  }

  /** A reader stores a result of its own exactly if it was not told to take over. */
  lemma WinnerStores(cs: seq<State>, ss: seq<Step>, n: nat)
    requires IsRun(cs, ss) && n < |ss| && ss[n].act.Store? && ss[n].t in cs[n].th && ss[n].t in cs[n + 1].th
    requires cs[n].th[ss[n].t].Serving?
    ensures var c, c', t := cs[n], cs[n + 1], ss[n].t;
      && c'.th[t].Deciding?
      && if c.th[t].told
         then c'.log == c.log && c.log != [] && c.log[|c.log| - 1] == Stored(c.th[t].k, c'.th[t].ret)
         else c'.log == c.log + [Stored(c.th[t].k, ss[n].act.ret)] && c'.th[t].ret == ss[n].act.ret
  {
    RunInv(cs, ss, n);
    assert RunStep(cs, ss, n) && ThreadAt(cs[n], ss[n].t);
  }

  // who is told

  /** A reader that leaves sets the handover exactly if another reader holds a ticket and waits. */
  lemma DecideHandsOver(cs: seq<State>, ss: seq<Step>, n: nat)
    requires IsRun(cs, ss) && n < |ss| && ss[n].act.Decide?
    ensures cs[n + 1].handover <==> exists u :: u in cs[n].th && cs[n].th[u].Queued?
  {
    RunInv(cs, ss, n);
    assert RunStep(cs, ss, n);
    SomeoneWaits(cs[n], ss[n].t);
  }

  lemma SomeoneWaits(c: State, t: Tid)
    requires Inv(c) && t in c.th && Inside(c.th[t])
    ensures c.ticket != Byte8(c.current + 1) <==> c.served + 2 <= c.taken
    ensures c.served + 2 <= c.taken <==> exists u :: u in c.th && c.th[u].Queued?
  {
    assert ThreadAt(c, t);
    NextByte(c.served);
    if c.ticket == Byte8(c.current + 1) { SameByte(c.served + 1, c.taken); }
    if c.served + 2 <= c.taken {
      assert OwnedAt(c, c.served + 1);
      var u :| Owns(c, u, c.served + 1);
      OthersWait(c, t, u);
    }
    if u :| u in c.th && c.th[u].Queued? { assert ThreadAt(c, u) && ApartAt(c, t, u); }
  }

  /** When a reader has left its result, the key stays in the node exactly if the result is to be handed over. */
  lemma EpochEnds(cs: seq<State>, ss: seq<Step>, n: nat)
    requires IsRun(cs, ss) && n < |ss| && ss[n].act.Clear?
    ensures cs[n + 1].handover == cs[n].handover && (cs[n + 1].unique.Some? <==> cs[n + 1].handover)
  {
    RunInv(cs, ss, n);
    assert RunStep(cs, ss, n) && ThreadAt(cs[n], ss[n].t);
  }

  /** A reader whose turn it is takes over the stored result exactly if the handover is set for its key and the window
      is open; a reader of another key is skipped. */
  lemma EnterDecides(cs: seq<State>, ss: seq<Step>, n: nat)
    requires IsRun(cs, ss) && n < |ss| && ss[n].act.Enter?
    ensures ss[n].t in cs[n].th && ss[n].t in cs[n + 1].th
    ensures var c, p, q := cs[n], cs[n].th[ss[n].t], cs[n + 1].th[ss[n].t];
      && p.Queued? && p.g == c.served && (q.Skipping? <==> c.unique != Some(p.k))
      && (!q.Skipping? ==> q.Serving? && (q.told <==> c.handover && c.served < c.win.upto))
      && (q.Serving? && q.told ==> Latest(c, p.k))
  {
    RunInv(cs, ss, n);
    assert RunStep(cs, ss, n);
    MyTurn(cs[n], ss[n].t);
  }

  /** Reader `t`, next behind `u`, waits for the result that `u` has handed over. */
  ghost predicate Waits(c: State, u: Tid, t: Tid, g: nat, k: Key, log: seq<Stored>) {
    && t in c.th && c.th[t] == Queued(g, k) && c.handover && c.unique == Some(k) && c.log == log
    && (|| (c.served + 1 == g && u in c.th && (c.th[u].Clearing? || c.th[u].Leaving?) && c.th[u].g == c.served)
        || (c.served == g && forall w :: w in c.th ==> !Inside(c.th[w])))
  }

  lemma WaitsOn(c: State, c': State, w: Tid, act: Act, u: Tid, t: Tid, g: nat, k: Key, log: seq<Stored>)
    requires Inv(c) && Next(c, c', w, act) && Waits(c, u, t, g, k, log) && !(w == t && act.Enter?)
    ensures Waits(c', u, t, g, k, log)
  {
    assert ApartAt(c, w, t) && ApartAt(c, w, u);
    if act.Enter? {
      MyTurn(c, w);
    } else if !act.Arrive? && !act.Take? && !act.Writer? && c.served + 1 == g {
      assert ThreadAt(c, w);
      Exclusive(c, w, u);
      forall x | x in c.th && x != u ensures !Inside(c.th[x]) { OthersWait(c, u, x); }
    }
  }

  /** The reader next in the queue behind one that decides, with the same key, is told to take over its result if the
      window is open when its turn comes. */
  lemma NextTold(cs: seq<State>, ss: seq<Step>, d: nat, n: nat, t: Tid)
    requires IsRun(cs, ss) && d < n < |ss| && ss[d].act.Decide? && ss[n].t == t && ss[n].act.Enter?
    requires ss[d].t in cs[d].th && cs[d].th[ss[d].t].Deciding?
    requires t in cs[d].th && cs[d].th[t] == Queued(cs[d].served + 1, cs[d].th[ss[d].t].k)
    requires forall i :: d < i < n ==> !(ss[i].t == t && ss[i].act.Enter?)
    ensures t in cs[n + 1].th && cs[n + 1].th[t] == Serving(cs[d].served + 1, cs[d].th[t].k, cs[n].win.readers > 0)
    ensures cs[n + 1].log == cs[d].log
  {
    var u, g, k := ss[d].t, cs[d].served + 1, cs[d].th[t].k;
    DecideHandsOver(cs, ss, d);
    RunInv(cs, ss, d);
    assert RunStep(cs, ss, d) && ThreadAt(cs[d], u);
    assert Waits(cs[d + 1], u, t, g, k, cs[d].log);
    WaitsUntil(cs, ss, d + 1, n, u, t, g, k, cs[d].log);
    RunInv(cs, ss, n);
    assert RunStep(cs, ss, n);
    MyTurn(cs[n], t);
  }

  lemma {:induction false} WaitsUntil(cs: seq<State>, ss: seq<Step>, i: nat, n: nat, u: Tid, t: Tid, g: nat, k: Key,
                                      log: seq<Stored>)
    requires IsRun(cs, ss) && i <= n < |cs| && Waits(cs[i], u, t, g, k, log)
    requires forall j :: i <= j < n ==> !(ss[j].t == t && ss[j].act.Enter?)
    ensures Waits(cs[n], u, t, g, k, log)
    decreases n
  {
    if i < n {
      WaitsUntil(cs, ss, i, n - 1, u, t, g, k, log);
      RunInv(cs, ss, n - 1);
      assert RunStep(cs, ss, n - 1);
      WaitsOn(cs[n - 1], cs[n], ss[n - 1].t, ss[n - 1].act, u, t, g, k, log);
    }
  }

  // whose result a reader is told to take over

  /** How many readers of other keys were skipped from step `i` up to step `j`. */
  ghost function SkipCount(ss: seq<Step>, i: nat, j: nat): nat
    requires i <= j <= |ss|
  {
    if i == j then 0 else SkipCount(ss, i, j - 1) + if ss[j - 1].act.Skip? then 1 else 0
  }

  /** Nobody is between its turn and its decision. */
  ghost predicate NoneServed(c: State) {
    forall t :: t in c.th ==> !c.th[t].Serving? && !c.th[t].Deciding?
  }

  ghost predicate AllOut(c: State) {
    forall t :: t in c.th ==> !c.th[t].Clearing? && !c.th[t].Leaving?
  }

  /** The decision that a handover goes back to. Since then only readers of other keys have had a turn. */
  lemma {:induction false} LastDecide(cs: seq<State>, ss: seq<Step>, n: nat) returns (d: nat)
    requires IsRun(cs, ss) && n < |cs| && cs[n].handover && NoneServed(cs[n])
    ensures d < n && ss[d].act.Decide? && cs[n].log == cs[d].log
    ensures forall i :: d < i < n ==> !ss[i].act.Decide?
    ensures cs[n].served == cs[d].served + SkipCount(ss, d, n) + if AllOut(cs[n]) then 1 else 0
    decreases n
  {
    assert n > 0;
    var st, c, c' := ss[n - 1], cs[n - 1], cs[n];
    RunInv(cs, ss, n - 1);
    RunInv(cs, ss, n);
    assert RunStep(cs, ss, n - 1);
    if st.act.Decide? {
      d := n - 1;
      assert c'.th[st.t].Clearing?;
    } else {
      BackOne(c, c', st.t, st.act);
      d := LastDecide(cs, ss, n - 1);
    }
  }

  lemma BackOne(c: State, c': State, t: Tid, act: Act)
    requires Inv(c) && Inv(c') && Next(c, c', t, act) && !act.Decide? && c'.handover && NoneServed(c')
    ensures c.handover && NoneServed(c) && c'.log == c.log
    ensures c'.served == c.served + (if act.Skip? || act.Leave? then 1 else 0)
    ensures act.Skip? ==> AllOut(c) && AllOut(c')
    ensures act.Leave? ==> !AllOut(c) && AllOut(c')
    ensures !act.Skip? && !act.Leave? ==> (AllOut(c) <==> AllOut(c'))
  {
    if act.Writer? {
    } else if act.Arrive? || act.Take? {
      forall u | u in c.th && u != t ensures u in c'.th && c'.th[u] == c.th[u] {}
      if t in c.th { assert c.th[t].Arrived? && c'.th[t].Queued?; }
    } else {
      if act.Enter? { MyTurn(c, t); }
      assert ThreadAt(c, t);
      assert t in c'.th ==> !c'.th[t].Serving? && !c'.th[t].Deciding?;
      assert act.Clear? ==> c.th[t].Clearing? && c'.th[t].Leaving?;
      forall u | u in c.th && u != t ensures !Inside(c.th[u]) && u in c'.th && c'.th[u] == c.th[u] {
        OthersWait(c, t, u);
      }
    }
  }

  /** The ticket of a waiting reader is as old as its number. */
  lemma {:induction false} TicketAge(cs: seq<State>, ss: seq<Step>, d: nat, n: nat, t: Tid)
    requires IsRun(cs, ss) && d <= n < |cs| && t in cs[n].th && cs[n].th[t].Queued?
    ensures cs[d].taken <= cs[n].taken
    ensures cs[n].th[t].g < cs[d].taken <==> t in cs[d].th && cs[d].th[t] == cs[n].th[t]
    decreases n
  {
    RunInv(cs, ss, d);
    assert ThreadAt(cs[d], t);
    RunInv(cs, ss, n);
    assert ThreadAt(cs[n], t);
    TakenGrows(cs, ss, d, n);
    if d < n {
      assert RunStep(cs, ss, n - 1);
      if t in cs[n - 1].th && cs[n - 1].th[t].Queued? {
        TicketAge(cs, ss, d, n - 1, t);
      } else {
        TakenGrows(cs, ss, d, n - 1);
      }
    }
  }

  lemma {:induction false} TakenGrows(cs: seq<State>, ss: seq<Step>, d: nat, n: nat)
    requires IsRun(cs, ss) && d <= n < |cs|
    ensures cs[d].taken <= cs[n].taken
    decreases n
  {
    if d < n {
      TakenGrows(cs, ss, d, n - 1);
      assert RunStep(cs, ss, n - 1);
    }
  }

  // the window

  /** The write half did nothing from step `i` up to step `n`. */
  ghost predicate NoWriter(ss: seq<Step>, i: nat, n: nat)
    requires n <= |ss|
  {
    forall j :: i <= j < n ==> !ss[j].act.Writer?
  }

  /** While the write half does nothing, the window ends at a ticket that was taken when it started, and the windows can
      start again exactly when both have run out. */
  lemma {:induction false} WindowTaken(cs: seq<State>, ss: seq<Step>, n: nat)
    requires IsRun(cs, ss) && n < |cs| && NoWriter(ss, 0, n)
    ensures cs[n].win.upto <= cs[n].taken
    ensures cs[n].win.started <==> cs[n].win.readers > 0 || cs[n].win.writers > 0
    decreases n
  {
    if n > 0 {
      WindowTaken(cs, ss, n - 1);
      RunInv(cs, ss, n - 1);
      assert RunStep(cs, ss, n - 1);
      if ss[n - 1].act.Decide? {
        assert ThreadAt(cs[n - 1], ss[n - 1].t);
        Outstanding(cs[n - 1].served, cs[n - 1].taken);
      }
    }
  }

  /** And only a decision moves its end. */
  lemma {:induction false} WindowKept(cs: seq<State>, ss: seq<Step>, i: nat, n: nat)
    requires IsRun(cs, ss) && i <= n < |cs| && NoWriter(ss, i, n) && forall j :: i <= j < n ==> !ss[j].act.Decide?
    ensures cs[n].win.upto == cs[i].win.upto
    decreases n
  {
    if i < n {
      WindowKept(cs, ss, i, n - 1);
      assert RunStep(cs, ss, n - 1);
    }
  }

  /** Reader `t` waits inside the window, and the result of a search for its key is handed on. */
  ghost predicate Covered(c: State, t: Tid, g: nat, k: Key, log: seq<Stored>, upto: nat) {
    && t in c.th && c.th[t] == Queued(g, k) && g < upto == c.win.upto
    && c.handover && c.unique == Some(k) && c.log == log
  }

  lemma CoveredOn(c: State, c': State, w: Tid, act: Act, t: Tid, g: nat, k: Key, log: seq<Stored>, upto: nat)
    requires Inv(c) && Next(c, c', w, act) && Covered(c, t, g, k, log, upto) && !act.Writer? && !(w == t && act.Enter?)
    ensures Covered(c', t, g, k, log, upto)
  {
    assert ThreadAt(c, t) && ThreadAt(c, w);
    if act.Decide? { SomeoneWaits(c, w); }
  }

  lemma {:induction false} StaysCovered(cs: seq<State>, ss: seq<Step>, i: nat, n: nat, t: Tid, g: nat, k: Key,
                                        log: seq<Stored>, upto: nat)
    requires IsRun(cs, ss) && i <= n < |cs| && NoWriter(ss, i, n) && Covered(cs[i], t, g, k, log, upto)
    requires forall j :: i <= j < n ==> !(ss[j].t == t && ss[j].act.Enter?)
    ensures Covered(cs[n], t, g, k, log, upto)
    decreases n
  {
    if i < n {
      StaysCovered(cs, ss, i, n - 1, t, g, k, log, upto);
      RunInv(cs, ss, n - 1);
      assert RunStep(cs, ss, n - 1);
      CoveredOn(cs[n - 1], cs[n], ss[n - 1].t, ss[n - 1].act, t, g, k, log, upto);
    }
  }

  /** One search serves all readers of its key in the window, however many readers of any key come in between: when the
      turn of such a reader comes, it is told to take over the result that was there when the search's reader decided.
      A winner that starts the window has all waiting readers in it. */
  lemma WindowServed(cs: seq<State>, ss: seq<Step>, d: nat, n: nat, t: Tid)
    requires IsRun(cs, ss) && d < n < |ss| && ss[d].act.Decide? && ss[n].t == t && ss[n].act.Enter?
    requires ss[d].t in cs[d].th && cs[d].th[ss[d].t].Deciding?
    requires t in cs[d].th && cs[d].th[t].Queued? && cs[d].th[t].k == cs[d].th[ss[d].t].k
    requires NoWriter(ss, d, n) && forall i :: d < i < n ==> !(ss[i].t == t && ss[i].act.Enter?)
    ensures !cs[d].handover && !cs[d].win.started ==> cs[d].th[t].g < cs[d + 1].win.upto
    ensures cs[d].th[t].g < cs[d + 1].win.upto ==>
      && t in cs[n + 1].th && cs[n + 1].th[t] == Serving(cs[d].th[t].g, cs[d].th[t].k, true)
      && cs[n + 1].log == cs[d].log
  {
    var u, g, k, upto := ss[d].t, cs[d].th[t].g, cs[d].th[t].k, cs[d + 1].win.upto;
    DecideHandsOver(cs, ss, d);
    RunInv(cs, ss, d);
    assert RunStep(cs, ss, d) && ThreadAt(cs[d], u) && ThreadAt(cs[d], t);
    if g < upto {
      assert Covered(cs[d + 1], t, g, k, cs[d].log, upto);
      StaysCovered(cs, ss, d + 1, n, t, g, k, cs[d].log, upto);
      RunInv(cs, ss, n);
      assert RunStep(cs, ss, n);
      MyTurn(cs[n], t);
    }
  }

  /** A reader that is told to take over gets the result that was there at some decision `d`, after which only readers
      of other keys had a turn. It had its ticket at that decision exactly if fewer readers have been skipped since than
      were waiting then. */
  lemma ToldSince(cs: seq<State>, ss: seq<Step>, n: nat, t: Tid) returns (d: nat)
    requires IsRun(cs, ss) && n < |ss| && ss[n].t == t && ss[n].act.Enter?
    requires t in cs[n + 1].th && cs[n + 1].th[t].Serving? && cs[n + 1].th[t].told
    ensures d < n && ss[d].act.Decide? && cs[n + 1].log == cs[d].log && t in cs[n].th
    ensures forall i :: d < i < n ==> !ss[i].act.Decide?
    ensures (t in cs[d].th && cs[d].th[t] == cs[n].th[t]) <==>
      SkipCount(ss, d, n) < cs[d].taken - cs[d].served - 1
  {
    RunInv(cs, ss, n);
    assert RunStep(cs, ss, n);
    MyTurn(cs[n], t);
    forall u | u in cs[n].th ensures !Inside(cs[n].th[u]) { if u != t { OthersWait(cs[n], t, u); } }
    d := LastDecide(cs, ss, n);
    TicketAge(cs, ss, d, n, t);
  }

  /** As long as the write half does nothing, a reader that is told to take over a result had its ticket before the
      reader that left the result there decided: it never gets a result from before it came. */
  lemma ToldInTime(cs: seq<State>, ss: seq<Step>, n: nat, t: Tid) returns (d: nat)
    requires IsRun(cs, ss) && n < |ss| && ss[n].t == t && ss[n].act.Enter? && NoWriter(ss, 0, n)
    requires t in cs[n + 1].th && cs[n + 1].th[t].Serving? && cs[n + 1].th[t].told
    ensures d < n && ss[d].act.Decide? && cs[n + 1].log == cs[d].log && t in cs[n].th
    ensures t in cs[d].th && cs[d].th[t] == cs[n].th[t]
  {
    RunInv(cs, ss, n);
    assert RunStep(cs, ss, n);
    MyTurn(cs[n], t);
    d := ToldSince(cs, ss, n, t);
    assert RunStep(cs, ss, d);
    WindowTaken(cs, ss, d + 1);
    WindowKept(cs, ss, d + 1, n);
    TicketAge(cs, ss, d, n, t);
  }
}
