/** A run of read delegation in which a reader takes over a result from before it came. */
module LateReader {
  import opened Keys
  import opened Lookup
  import opened ReadDelegation

  function KeyOf(b: Byte): Key {
    [b, 0, 0, 0, 0, 0, 0, 0]
  }

  const R0: Ret := Ret(false, 0)
  const R1: Ret := Ret(true, 1)

  /** A run that goes on. */
  lemma Go(cs: seq<State>, ss: seq<Step>, c': State, t: Tid, act: Act) returns (cs': seq<State>, ss': seq<Step>)
    requires IsRun(cs, ss) && Next(cs[|ss|], c', t, act)
    ensures IsRun(cs', ss') && cs' == cs + [c'] && ss' == ss + [Step(t, act)]
  {
    cs', ss' := cs + [c'], ss + [Step(t, act)];
    forall i: nat ensures RunStep(cs', ss', i) { assert RunStep(cs, ss, i); }
  }

  /** The reader with ticket `g` is alone and is served; `h` says whether another reader waits behind it. */
  lemma ServeAlone(cs: seq<State>, ss: seq<Step>, t: Tid, g: nat, k: Key, ret: Ret, h: bool)
    returns (cs': seq<State>, ss': seq<Step>)
    requires IsRun(cs, ss) && g < 200
    requires var c := cs[|ss|];
      && t in c.th && c.th[t] == Queued(g, k) && c.current == g == c.served && c.unique == Some(k) && !c.handover
      && c.ticket == c.taken < 256 && g < c.taken && (h <==> c.taken != g + 1) && !c.win.started
    ensures IsRun(cs', ss') && |ss'| == |ss| + 3 && ss'[|ss| + 2] == Step(t, Decide(0))
    ensures cs'[|ss| + 2].th == cs[|ss|].th[t := Deciding(g, k, false, ret)] && cs'[|ss| + 2].log == cs'[|ss'|].log
    ensures var c := cs[|ss|];
      cs'[|ss'|] == c.(handover := h, res := ret, win := Windows(c.taken - g, 0, true, c.taken),
                       log := c.log + [Stored(k, ret)], th := c.th[t := Clearing(g, k, false, ret)])
  {
    var c := cs[|ss|];
    var c1 := c.(th := c.th[t := Serving(g, k, false)]);
    cs', ss' := Go(cs, ss, c1, t, Enter);
    var c2 := c1.(res := ret, log := c.log + [Stored(k, ret)], th := c.th[t := Deciding(g, k, false, ret)]);
    assert c2.th == c1.th[t := Deciding(g, k, false, ret)];
    cs', ss' := Go(cs', ss', c2, t, Store(ret));
    var c3 := c2.(handover := h, win := Windows(c.taken - g, 0, true, c.taken),
                  th := c.th[t := Clearing(g, k, false, ret)]);
    assert c3.th == c2.th[t := Clearing(g, k, false, ret)];
    cs', ss' := Go(cs', ss', c3, t, Decide(0));
  }

  /** Then it leaves. */
  lemma LeaveAlone(cs: seq<State>, ss: seq<Step>, t: Tid, g: nat, k: Key, ret: Ret)
    returns (cs': seq<State>, ss': seq<Step>)
    requires IsRun(cs, ss) && g < 200
    requires var c := cs[|ss|];
      t in c.th && c.th[t] == Clearing(g, k, false, ret) && c.current == g == c.served
    ensures IsRun(cs', ss') && |ss'| == |ss| + 2 && cs'[..|cs|] == cs && ss'[..|ss|] == ss
    ensures var c := cs[|ss|];
      cs'[|ss'|] == c.(current := g + 1, served := g + 1, unique := if c.handover then c.unique else None,
                       win := Lowered(c.win), th := c.th - {t})
  {
    var c := cs[|ss|];
    var c1 := c.(unique := if c.handover then c.unique else None, th := c.th[t := Leaving(g, k, false, ret)]);
    cs', ss' := Go(cs, ss, c1, t, Clear);
    var c2 := c1.(current := g + 1, served := g + 1, win := Lowered(c.win), th := c.th - {t});
    assert c2.th == c1.th - {t};
    cs', ss' := Go(cs', ss', c2, t, Leave);
  }

  /** A reader of the second key has announced itself and not taken a ticket; the other reader of that key has left. */
  lemma OneAnnounced() returns (cs: seq<State>, ss: seq<Step>)
    ensures IsRun(cs, ss)
    ensures cs[|ss|] == State(1, 1, false, None, R0, Windows(0, 0, false, 1), map[1 := Arrived(KeyOf(2))],
                              [Stored(KeyOf(2), R0)], 1, 1)
  {
    var k := KeyOf(2);
    var c0 := State(0, 0, false, None, R0, Windows(0, 0, false, 0), map[], [], 0, 0);
    cs, ss := [c0], [];
    var c1 := c0.(unique := Some(k), th := map[1 := Arrived(k)]);
    assert c1.th == c0.th[1 := Arrived(k)];
    cs, ss := Go(cs, ss, c1, 1, Arrive(k));
    var c2 := c1.(th := map[1 := Arrived(k), 0 := Arrived(k)]);
    assert c2.th == c1.th[0 := Arrived(k)];
    cs, ss := Go(cs, ss, c2, 0, Arrive(k));
    var c3 := c2.(ticket := 1, taken := 1, th := map[1 := Arrived(k), 0 := Queued(0, k)]);
    assert c3.th == c2.th[0 := Queued(0, k)];
    cs, ss := Go(cs, ss, c3, 0, Act.Take);
    cs, ss := ServeAlone(cs, ss, 0, 0, k, R0, false);
    cs, ss := LeaveAlone(cs, ss, 0, 0, k, R0);
    assert cs[|ss|].th == map[1 := Arrived(k)];
  }

  /** A reader of the first key is served while that reader waits behind it, and leaves. */
  lemma WinnerLeaves() returns (cs: seq<State>, ss: seq<Step>)
    ensures IsRun(cs, ss) && |ss| > 2 && ss[|ss| - 3] == Step(2, Decide(0))
    ensures cs[|ss| - 3].th == map[1 := Queued(2, KeyOf(2)), 2 := Deciding(1, KeyOf(1), false, R1)]
    ensures cs[|ss| - 3].log == cs[|ss|].log
    ensures cs[|ss|] ==
      State(3, 2, true, Some(KeyOf(1)), R1, Windows(1, 0, true, 3), map[1 := Queued(2, KeyOf(2))],
            [Stored(KeyOf(2), R0), Stored(KeyOf(1), R1)], 3, 2)
  {
    var k1, k2 := KeyOf(1), KeyOf(2);
    cs, ss := OneAnnounced();
    var c0 := cs[|ss|];
    var c1 := c0.(unique := Some(k1), th := map[1 := Arrived(k2), 2 := Arrived(k1)]);
    assert c1.th == c0.th[2 := Arrived(k1)];
    cs, ss := Go(cs, ss, c1, 2, Arrive(k1));
    var c2 := c1.(ticket := 2, taken := 2, th := map[1 := Arrived(k2), 2 := Queued(1, k1)]);
    assert c2.th == c1.th[2 := Queued(1, k1)];
    cs, ss := Go(cs, ss, c2, 2, Act.Take);
    var c3 := c2.(ticket := 3, taken := 3, th := map[1 := Queued(2, k2), 2 := Queued(1, k1)]);
    assert c3.th == c2.th[1 := Queued(2, k2)];
    cs, ss := Go(cs, ss, c3, 1, Act.Take);
    cs, ss := ServeAlone(cs, ss, 2, 1, k1, R1, true);
    cs, ss := LeaveAlone(cs, ss, 2, 1, k1, R1);
    assert cs[|ss|].th == map[1 := Queued(2, k2)];
    assert cs[|ss|].log == [Stored(k2, R0), Stored(k1, R1)];
  }

  /** The reader of the second key is skipped; the handover stays set, and the windows have run out. */
  lemma OtherSkips() returns (cs: seq<State>, ss: seq<Step>)
    ensures IsRun(cs, ss) && |ss| > 4 && ss[|ss| - 5] == Step(2, Decide(0))
    ensures 3 !in cs[|ss| - 5].th && cs[|ss| - 5].log == cs[|ss|].log
    ensures cs[|ss|] == State(3, 3, true, Some(KeyOf(1)), R1, Windows(0, 0, false, 3), map[],
                              [Stored(KeyOf(2), R0), Stored(KeyOf(1), R1)], 3, 3)
  {
    var k2 := KeyOf(2);
    cs, ss := WinnerLeaves();
    var c0 := cs[|ss|];
    var c1 := c0.(th := map[1 := Skipping(2, k2)]);
    assert c1.th == c0.th[1 := Skipping(2, k2)];
    cs, ss := Go(cs, ss, c1, 1, Enter);
    var c2 := c1.(current := 3, served := 3, win := Windows(0, 0, false, 3), th := map[]);
    assert c2.th == c1.th - {1};
    cs, ss := Go(cs, ss, c2, 1, Skip);
  }

  /** With writers, a reader may take over a result from before it came: reader 2 decides in step `d` and leaves, reader
      3 of the same key comes in step `a`, when reader 2 is gone and the windows have run out; in step `w` a writer
      starts them again, for the outstanding reader and itself; and in step `n` reader 3 is told to take over the
      result. */
  lemma ToldTooLate() returns (cs: seq<State>, ss: seq<Step>, d: nat, a: nat, w: nat, n: nat)
    ensures IsRun(cs, ss) && d < a < w < n < |ss|
    ensures ss[w].act == Writer(1, 1, true) && cs[w].taken == cs[w].served + 1 && !cs[w].win.started
    ensures ss[d] == Step(2, Decide(0)) && ss[a] == Step(3, Arrive(KeyOf(1))) && ss[n] == Step(3, Enter)
    ensures 2 !in cs[a].th && 3 !in cs[d].th && 3 !in cs[a].th
    ensures 3 in cs[n + 1].th && cs[n + 1].th[3] == Serving(3, KeyOf(1), true) && cs[n + 1].log == cs[d].log
  {
    var k1 := KeyOf(1);
    cs, ss := OtherSkips();
    d, a := |ss| - 5, |ss|;
    var c2 := cs[a];
    var c3 := c2.(th := map[3 := Arrived(k1)]);
    assert c3.th == c2.th[3 := Arrived(k1)];
    cs, ss := Go(cs, ss, c3, 3, Arrive(k1));
    var c4 := c3.(ticket := 4, taken := 4, th := map[3 := Queued(3, k1)]);
    assert c4.th == c3.th[3 := Queued(3, k1)];
    cs, ss := Go(cs, ss, c4, 3, Act.Take);
    w := |ss|;
    var c5 := c4.(win := Windows(1, 1, true, 4));
    cs, ss := Go(cs, ss, c5, 0, Writer(1, 1, true));
    n := |ss|;
    var c6 := c5.(th := map[3 := Serving(3, k1, true)]);
    assert c6.th == c5.th[3 := Serving(3, k1, true)];
    cs, ss := Go(cs, ss, c6, 3, Enter);
  }
}
