/**
 * What the guarantees of the step system depend on: concrete runs in which a
 * lost half or a backlog of unhandled halves breaks them, and the exact
 * condition under which a late move's mark holds.
 */
module Necessity {
  import opened Basics
  import opened EventCounter
  import opened ZeroCopy
  import opened Protocol
  import opened FrameHistory

  lemma Go(states: seq<Sys>, steps: seq<Step>, step: Step) returns (states': seq<Sys>, steps': seq<Step>, s: Sys)
    requires IsRun(states, steps) && Enabled(states[|steps|], step)
    ensures IsRun(states', steps') && steps' == steps + [step]
    ensures s == Apply(states[|steps|], step) && states' == states + [s]
    ensures states'[|steps'|] == s
  {
    Extend(states, steps, step);
    s := Apply(states[|steps|], step);
    states', steps' := states + [s], steps + [step];
  }

  /** A frame to the DMA buffers, during which both pairs are pointed at buffer 7 in time. */
  lemma PointAtSeven() returns (states: seq<Sys>, steps: seq<Step>, s: Sys)
    ensures IsRun(states, steps) && s == states[|steps|]
    ensures s.zc == Zc(Two(Some(7), Some(7)), Some(7), None, [], Two(1, 1), s.zc.buf)
    ensures s.zc.Rec(7) == ZcBuf(Two(true, true), Two(false, false), Two(1, 0), Error, 0)
    ensures s.card == Card(None, true, false, 2, Two(1, 2)) && s.pend == []
    ensures s.hist == Hist(s.hist.runs, {}, 2) && s.Runs(7) == Two([], [])
  {
    states, steps := [INIT], [];
    states, steps, s := Go(states, steps, Resume);
    states, steps, s := Go(states, steps, StartRun);
    states, steps, s := Go(states, steps, EndRun(false));
    assert s.pend == [Event(true, 1)];
    states, steps, s := Go(states, steps, HandleTop(Some(7), true));
    assert s.pend == [] && s.zc.prog == Two(Some(7), None) && s.zc.next == Some(7);
    states, steps, s := Go(states, steps, StartRun);
    states, steps, s := Go(states, steps, EndRun(false));
    assert s.pend == [Event(false, 2)];
    states, steps, s := Go(states, steps, HandleBottom(true, Done, 0));
    assert s.pend == [] && s.zc.release == [];
  }

  /** The next frame goes to buffer 7, and the event of its bottom half never reaches the driver. */
  lemma LoseBottom() returns (states: seq<Sys>, steps: seq<Step>, s: Sys)
    ensures IsRun(states, steps) && s == states[|steps|]
    ensures s.zc == Zc(Two(Some(8), Some(7)), Some(7), Some(8), [], Two(2, 1), s.zc.buf)
    ensures s.zc.Rec(7) == ZcBuf(Two(true, true), Two(true, false), Two(2, 0), Error, 0)
    ensures s.card == Card(None, true, false, 4, Two(3, 4)) && s.pend == []
    ensures s.hist == Hist(s.hist.runs, {4}, 3) && s.Runs(7) == Two([3], [4])
  {
    states, steps, s := PointAtSeven();
    states, steps, s := Go(states, steps, StartRun);
    assert s.Runs(7).top == [3] && s.Runs(7).bot == [];
    states, steps, s := Go(states, steps, EndRun(false));
    assert s.pend == [Event(true, 3)];
    states, steps, s := Go(states, steps, HandleTop(Some(8), true));
    assert s.zc.Rec(7) == ZcBuf(Two(true, true), Two(true, false), Two(2, 0), Error, 0);
    states, steps, s := Go(states, steps, StartRun);
    assert s.Runs(7).top == [3] && s.Runs(7).bot == [4];
    states, steps, s := Go(states, steps, EndRun(true));
    assert s.hist.gone == {4} && s.pend == [];
  }

  /**
   * A lost bottom half. The top half that follows it leaves buffer 7 as the
   * frame in progress, so pair 1 runs into it again; buffer 7 completes as a
   * whole frame with the top half of one frame (run 3) and the bottom half of
   * the next (run 6).
   */
  lemma LostBottomTearsFrame() returns (states: seq<Sys>, steps: seq<Step>, s: Sys, step: Step)
    ensures IsRun(states, steps) && s == states[|steps|] && Enabled(s, step)
    ensures CompletesFrame(s, step, 7)
    ensures s.Runs(7) == Two([3], [4, 6])
  {
    states, steps, s := LoseBottom();
    states, steps, s := Go(states, steps, StartRun);
    assert s.Runs(7) == Two([3], [4]) && s.zc.Rec(7) == ZcBuf(Two(true, true), Two(true, false), Two(2, 0), Error, 0);
    states, steps, s := Go(states, steps, EndRun(false));
    assert s.pend == [Event(true, 5)];
    states, steps, s := Go(states, steps, HandleTop(None, true));
    assert s.zc.Rec(7) == ZcBuf(Two(true, true), Two(true, false), Two(2, 0), Error, 0);
    assert s.Runs(7) == Two([3], [4]) && s.zc.cur == Some(7) && s.zc.prog == Two(None, Some(7));
    states, steps, s := Go(states, steps, StartRun);
    assert s.Runs(7).top == [3] && s.Runs(7).bot == [4, 6];
    states, steps, s := Go(states, steps, EndRun(false));
    assert s.pend == [Event(false, 6)];
    step := HandleBottom(true, Done, 1);
    assert s.zc.Rec(7) == ZcBuf(Two(true, true), Two(true, false), Two(2, 0), Error, 0);
  }

  /**
   * A backlog. With a top and a bottom half of earlier runs still unhandled
   * while the card runs into buffer 7 again, a late move away from it (here
   * hws_zc_stop()) sets marks that those two halves reach: the driver hands
   * buffer 7 back while the card writes it. Only assumption (b) fails.
   */
  lemma BacklogBreaksSafety() returns (states: seq<Sys>, steps: seq<Step>, s: Sys, s': Sys)
    ensures IsRun(states, steps) && s == states[|steps|]
    ensures Possible(s, StopZc(false)) && !NoBacklog(s, true, true, s.pend)
    ensures HandsBack(s, s')
    ensures s.zc.Held(7) && !s'.zc.Held(7) && s'.Writing(7)
  {
    states, steps, s := TwoHalvesBehind();
    s' := StopThenTwoHalves(s, 7);
  }

  lemma TwoHalvesBehind() returns (states: seq<Sys>, steps: seq<Step>, s: Sys)
    ensures IsRun(states, steps) && s == states[|steps|]
    ensures s.pend == [Event(true, 3), Event(false, 4)] && !NoBacklog(s, true, true, s.pend)
    ensures s.zc.prog == Two(Some(7), Some(7)) && s.zc.cur == Some(7) && s.zc.next.None? && s.zc.release == []
    ensures s.Writing(7)
  {
    states, steps, s := PointAtSeven();
    states, steps, s := Go(states, steps, StartRun);
    states, steps, s := Go(states, steps, EndRun(false));
    states, steps, s := Go(states, steps, StartRun);
    states, steps, s := Go(states, steps, EndRun(false));
    assert s.pend == [Event(true, 3), Event(false, 4)];
    states, steps, s := Go(states, steps, StartRun);
    assert s.card.run == Some(Run(true, Some(7), 5));
    assert s.pend[0] in s.pend;
  }

  /** From `s` to `s'`: a stop at an arbitrary moment, then the two waiting halves. */
  predicate HandsBack(s: Sys, s': Sys) {
    s.pend == [Event(true, 3), Event(false, 4)] &&
    var s1 := Apply(s, StopZc(false));
    && Enabled(s1, HandleTop(None, false))
    && var s2 := Apply(s1, HandleTop(None, false));
    && Enabled(s2, HandleBottom(false, Error, 0))
    && s' == Apply(s2, HandleBottom(false, Error, 0))
  }

  lemma StopThenTwoHalves(s: Sys, b: Id) returns (s': Sys)
    requires s.pend == [Event(true, 3), Event(false, 4)]
    requires s.zc.prog == Two(Some(b), Some(b)) && s.zc.cur == Some(b) && s.zc.next.None? && s.zc.release == []
    ensures HandsBack(s, s') && s'.card == s.card && !s'.zc.Held(b)
  {
    StopMarksState(s.zc, b);
    var s1 := Apply(s, StopZc(false));
    TopCounts(s1);
    var s2 := Apply(s1, HandleTop(None, false));
    assert s2.pend == [Event(false, 4)];
    BottomLetsGo(s2, b);
    s' := Apply(s2, HandleBottom(false, Error, 0));
  }

  /** With no pair pointed at a buffer a top half that takes none only counts. */
  lemma TopCounts(s: Sys)
    requires s.pend != [] && s.pend[0].isTop && s.zc.prog == Two(None, None) && s.zc.next.None?
    ensures Enabled(s, HandleTop(None, false))
    ensures var s' := Apply(s, HandleTop(None, false));
            && s'.zc == s.zc.(ev := Two(Next(s.zc.ev.top), s.zc.ev.bot))
            && s'.pend == s.pend[1..] && s'.card == s.card
  {
  }

  /** A bottom half with nothing but `b` on the release list, whose marks it reaches. */
  lemma BottomLetsGo(s: Sys, b: Id)
    requires s.pend != [] && !s.pend[0].isTop
    requires s.zc.prog == Two(None, None) && s.zc.cur.None? && s.zc.next.None? && s.zc.release == [b]
    requires s.zc.Rec(b).freeAfter == Two(s.zc.ev.top, Next(s.zc.ev.bot))
    ensures Enabled(s, HandleBottom(false, Error, 0))
    ensures var s' := Apply(s, HandleBottom(false, Error, 0)); !s'.zc.Held(b) && s'.card == s.card
  {
    var z := s.zc;
    var z1 := Advance(BottomHalf(z, false), Error, 0);
    assert z1 == z.(ev := Two(z.ev.top, Next(z.ev.bot)));
    NextNotReached(z.ev.top);
    NextNotReached(z.ev.bot);
    KeptMembers(z1, z1.release, b);
  }

  /** hws_zc_stop() with only the frame in progress taken. */
  lemma StopMarksState(z: Zc, b: Id)
    requires z.prog == Two(Some(b), Some(b)) && z.cur == Some(b) && z.next.None? && z.release == []
    ensures var z' := Stop(z, false);
            && z' == Zc(Two(None, None), None, None, [b], z.ev, z'.buf)
            && z'.Rec(b).freeAfter == Two(Next(z.ev.top), Next(z.ev.bot))
  {
    UnpointRec(z, b);
    var z1 := StopMarks(z, false);
    assert z1.release == [b];
    NextNotReached(z.ev.top);
    assert !z1.Free(b);
    assert [b][..0] == [];
    assert Kept(z1, [b]) == [b];
  }

  // ---- when a late mark holds ----

  function CountOf(pend: seq<Event>, isTop: bool): nat {
    if pend == [] then 0 else
    CountOf(pend[..|pend| - 1], isTop) + (if pend[|pend| - 1].isTop == isTop then 1 else 0)
  }

  lemma {:induction false} CountPrefix(pend: seq<Event>, isTop: bool, k: nat)
    requires k <= |pend|
    ensures CountOf(pend[..k], isTop) <= CountOf(pend, isTop) <= |pend|
    decreases |pend|
  {
    if pend != [] {
      var t := pend[..|pend| - 1];
      if k < |pend| {
        CountPrefix(t, isTop, k);
        assert t[..k] == pend[..k];
      } else {
        CountPrefix(t, isTop, |t|);
        assert pend[..k] == pend;
      }
    }
  }

  /**
   * The mark of a late move is one event ahead. While the run in progress at
   * that moment lasts, no new event of its pair is raised, so the mark holds
   * through the handling of everything raised so far if and only if none of
   * that is of the pair. (`pend` is shorter than 2^31: the queue has 16 places.)
   */
  lemma LateMarkExact(ev: u32, pend: seq<Event>, isTop: bool)
    requires |pend| < TWO_TO_THE_31
    ensures (forall k: nat :: k <= |pend| ==> EvBefore(Low32(ev + CountOf(pend[..k], isTop)), Next(ev)))
            <==> (forall e :: e in pend ==> e.isTop != isTop)
  {
    var n := CountOf(pend, isTop);
    CountZero(pend, isTop);
    CountPrefix(pend, isTop, |pend|);
    assert pend[..|pend|] == pend;
    if n == 0 {
      forall k: nat | k <= |pend| ensures EvBefore(Low32(ev + CountOf(pend[..k], isTop)), Next(ev)) {
        MarkHolds(ev, pend, isTop, k);
      }
    } else {
      MarkPassed(ev, n);
    }
  }

  lemma MarkHolds(ev: u32, pend: seq<Event>, isTop: bool, k: nat)
    requires CountOf(pend, isTop) == 0 && k <= |pend|
    ensures EvBefore(Low32(ev + CountOf(pend[..k], isTop)), Next(ev))
  {
    CountPrefix(pend, isTop, k);
    NextNotReached(ev);
  }

  /** Between one and 2^31 events on, the mark one event ahead is reached. */
  lemma MarkPassed(ev: u32, n: nat)
    requires 1 <= n <= TWO_TO_THE_31
    ensures !EvBefore(Low32(ev + n), Next(ev))
  {
    EvBeforeIsOrder(ev + n, ev + 1);
  }

  lemma {:induction false} CountZero(pend: seq<Event>, isTop: bool)
    ensures CountOf(pend, isTop) == 0 <==> forall e :: e in pend ==> e.isTop != isTop
  {
    if pend != [] {
      CountZero(pend[..|pend| - 1], isTop);
      assert pend == pend[..|pend| - 1] + [pend[|pend| - 1]];
    }
  }
}
