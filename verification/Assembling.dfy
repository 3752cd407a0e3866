/**
 * Every operation keeps what is known of the frame being assembled and of the
 * frames delivered.
 */
module Assembling {
  import opened Basics
  import opened ZeroCopy
  import opened Quarters
  import opened Protocol
  import opened Frames
  import opened Delivery
  import opened Driver
  import opened Effects
  import opened Bounds
  import opened Marks
  import opened Sequence
  import opened Payload

  // ---- a top half ----

  lemma HoldOneSkips(h: Hold, d: Cid, seqno: nat, size: nat, c: Cid)
    ensures HoldOne(h, d, seqno, size, Some(c)).pool.Of(c) == h.pool.Of(c)
  {
    HoldOneCases(h, d, seqno, size, Some(c));
  }

  lemma {:induction false} HoldSkips(p: Pool, cs: seq<Cid>, seqno: nat, size: nat, c: Cid)
    ensures HoldAll(p, cs, seqno, size, Some(c)).pool.Of(c) == p.Of(c)
  {
    if cs != [] {
      HoldSkips(p, cs[..|cs| - 1], seqno, size, c);
      HoldOneSkips(HoldAll(p, cs[..|cs| - 1], seqno, size, Some(c)), cs[|cs| - 1], seqno, size, c);
    }
  }

  lemma {:induction false} ErrorsKeepHeld(p: Pool, s: seq<Id>, c: Cid)
    ensures CompleteErrors(p, s).Of(c).held == p.Of(c).held
  {
    if s != [] {
      ErrorsKeepHeld(p, s[..|s| - 1], c);
    }
  }

  /** The zero-copy consumer is left without a copy buffer. */
  lemma SkippedHoldsNone(p: Pool, c: Cid, seqno: nat, size: nat)
    ensures HoldBuffers(FailHeld(p, c), seqno, size, Some(c)).Of(c).held.None?
  {
    var p0 := FailHeld(p, c);
    HoldSkips(p0, p0.consumers, seqno, size, c);
    var h := HoldAll(p0, p0.consumers, seqno, size, Some(c));
    ErrorsKeepHeld(h.pool, h.small, c);
  }

  /** The buffers of the frame a top half starts, before anything is copied. */
  function TopPool(was: Video, v: Video): Pool {
    var zowner := if was.zc.cur.Some? then Some(v.pool.Owner(was.zc.cur.value)) else None;
    var p0 := if zowner.Some? then FailHeld(v.pool, zowner.value) else v.pool;
    HoldBuffers(p0, LoseIf(v.asm).seqno, v.cfg.OutSize(), zowner)
  }

  lemma TopPoolFails(was: Video, v: Video)
    ensures FailsOnly(v.pool, TopPool(was, v))
  {
    var zowner := if was.zc.cur.Some? then Some(v.pool.Owner(was.zc.cur.value)) else None;
    var p0 := if zowner.Some? then FailHeld(v.pool, zowner.value) else v.pool;
    if zowner.Some? { FailHeldFails(v.pool, zowner.value); } else { FailsNone(v.pool); }
    HoldBuffersFails(p0, LoseIf(v.asm).seqno, v.cfg.OutSize(), zowner);
    FailsOn(v.pool, p0, TopPool(was, v));
  }

  lemma TopPoolWhole(was: Video, v: Video)
    requires Whole(v)
    ensures Whole(v.(pool := TopPool(was, v)))
  {
    var zowner := if was.zc.cur.Some? then Some(v.pool.Owner(was.zc.cur.value)) else None;
    var p0 := if zowner.Some? then FailHeld(v.pool, zowner.value) else v.pool;
    if zowner.Some? { FailHeldKeeps(v.zc, v.pool, multiset{}, zowner.value); }
    HoldBuffersKeeps(v.zc, p0, multiset{}, LoseIf(v.asm).seqno, v.cfg.OutSize(), zowner);
  }

  lemma TopMem(was: Video, i: HalfIn, b: Id)
    requires Whole(was) && Fits(was) && HalfOk(was.cfg, i) && i.isTop
    ensures TopPool(was, TopStart(was, i)).Mem(b) == was.pool.Mem(b)
    ensures TopPool(was, TopStart(was, i)).owner == was.pool.owner
  {
    TopPoolFails(was, TopStart(was, i));
    assert TopStart(was, i).pool.mem == was.pool.mem;
  }

  lemma TopCopies(was: Video, i: HalfIn)
    requires Whole(was) && Fits(was) && HalfOk(was.cfg, i) && Acts(was) && i.isTop
    ensures CopiesHold(TopFrame(was, TopStart(was, i), i))
  {
    var v, v' := TopStart(was, i), TopFrame(was, TopStart(was, i), i);
    var p, bytes := TopPool(was, v), TopBytes(was, i);
    TopStartWhole(was, i);
    TopPoolWhole(was, v);
    FrameApart(v.(pool := p));
    ReadsAreFull(was, i);
    CutOffsets(FrameBytes(was.cfg.geo.w, was.cfg.geo.h));
    FrameBytesMax(was.cfg.geo);
    FrameNotEmpty(was.cfg.geo.w, was.cfg.geo.h);
    assert v'.cfg.(geo := v'.asm.frame) == was.cfg;
    if !i.hdcp && was.cfg.Direct() {
      forall b: Id | b in p.frameBufs ensures bytes <= v'.pool.Mem(b) {
        TopMem(was, i, b);
        assert |p.Mem(b)| >= was.cfg.OutSize();
        BlitAllMem(p, p.frameBufs, 0, bytes, b);
        BlitStart(p.Mem(b), bytes);
      }
    } else if !i.hdcp {
      BlitStart(was.asm.staging, bytes);
    }
  }

  lemma TopKeepsCur(was: Video, i: HalfIn)
    requires Whole(was) && Shape(was)
    ensures TopStart(was, i).zc.cur == was.zc.cur
    ensures TopFrame(was, TopStart(was, i), i).zc == TopStart(was, i).zc
  {
    TopStartWhole(was, i);
    TopOwned(was.zc, Picked(was, PickFrom(was, i.wanted, i.hdcpAtPick)), InTime(was.asm, i));
  }

  lemma TopReads(was: Video, i: HalfIn)
    requires Whole(was) && Fits(was) && HalfOk(was.cfg, i) && Acts(was) && i.isTop
    ensures TopKnown(TopFrame(was, TopStart(was, i), i))
  {
    TopKeepsCur(was, i);
    ReadsAreFull(was, i);
  }

  /** The copies of a top half do not touch the zero-copy buffer. */
  lemma TopCardMem(was: Video, i: HalfIn)
    requires Whole(was) && Fits(was) && HalfOk(was.cfg, i) && Acts(was) && i.isTop && was.zc.cur.Some?
    ensures TopFrame(was, TopStart(was, i), i).pool.Mem(was.zc.cur.value) == was.pool.Mem(was.zc.cur.value)
  {
    var v := TopStart(was, i);
    var p, b := TopPool(was, v), was.zc.cur.value;
    TopStartWhole(was, i);
    TopPoolWhole(was, v);
    TopKeepsCur(was, i);
    FrameApart(v.(pool := p));
    assert v.zc.Held(b);
    TopMem(was, i, b);
    CardSize(was);
    FrameNotEmpty(was.cfg.geo.w, was.cfg.geo.h);
    BlitAllMem(p, p.frameBufs, 0, TopBytes(was, i), b);
  }

  lemma TopCard(was: Video, i: HalfIn)
    requires Whole(was) && Fits(was) && HalfOk(was.cfg, i) && Acts(was) && i.isTop
    ensures CardHolds(TopFrame(was, TopStart(was, i), i))
  {
    TopKeepsCur(was, i);
    if was.zc.cur.Some? {
      CardFrame(was, i, i.(isTop := false));
      TopCardMem(was, i);
    }
  }

  /** The copies change memory only. */
  lemma TopFramePool(was: Video, v: Video, i: HalfIn)
    requires |was.cfg.len| == 4
    ensures TopFrame(was, v, i).pool == TopPool(was, v).(mem := TopFrame(was, v, i).pool.mem)
  {
  }

  lemma TopApart(was: Video, i: HalfIn)
    requires Whole(was) && Shape(was)
    ensures HeldApart(TopFrame(was, TopStart(was, i), i))
  {
    TopKeepsCur(was, i);
    TopFramePool(was, TopStart(was, i), i);
    if was.zc.cur.Some? {
      ApartPool(was, TopStart(was, i), was.zc.cur.value);
    }
  }

  lemma ApartPool(was: Video, v: Video, b: Id)
    requires was.zc.cur == Some(b)
    ensures TopPool(was, v).Of(TopPool(was, v).Owner(b)).held.None?
  {
    SkippedHoldsNone(v.pool, v.pool.Owner(b), LoseIf(v.asm).seqno, v.cfg.OutSize());
    TopPoolFails(was, v);
  }

  lemma TopAssembled(was: Video, i: HalfIn)
    requires Whole(was) && Fits(was) && HalfOk(was.cfg, i) && Acts(was) && i.isTop
    ensures Assembled(VideoHalf(was, i))
  {
    if !Stale(TopStart(was, i), i) {
      TopReads(was, i);
      TopCopies(was, i);
      TopCard(was, i);
      TopApart(was, i);
    }
  }

  // ---- the end of a frame ----

  /** A bottom half that ends a frame; `state` is how the frame ends. */
  ghost predicate Ends(was: Video, i: HalfIn) {
    && Whole(was) && Fits(was) && Assembled(was) && HalfOk(was.cfg, i)
    && Acts(was) && !i.isTop && !NoTop(was)
  }

  ghost function EndingState(was: Video, i: HalfIn): VbState
    requires Shape(was)
  {
    FrameState(was, Fill(was, BottomStart(was, i), i), i)
  }

  ghost function EndingZc(was: Video, i: HalfIn): Zc
    requires Shape(was)
  {
    Advance(BottomHalf(was.zc, InTime(was.asm, i)), EndingState(was, i), was.asm.seqno)
  }

  ghost function EndingFreed(was: Video, i: HalfIn): seq<Completion>
    requires Shape(was)
  {
    var z := EndingZc(was, i);
    MadeFreed(Fill(was, BottomStart(was, i), i).pool, z, Freed(z, z.release), was.cfg.OutSize())
  }

  /** Only the frame's own zero-copy buffer can come off the release list complete. */
  lemma FreedState(z: Zc, inTime: bool, state: VbState, seqno: nat, tops: nat, b: Id)
    requires Owned(z) && Marked(z, tops)
    requires var z1 := Advance(BottomHalf(z, inTime), state, seqno); b in Freed(z1, z1.release)
    ensures Advance(BottomHalf(z, inTime), state, seqno).Rec(b).state == Done ==> z.cur == Some(b)
    ensures z.Held(b)
  {
    var z1 := Advance(BottomHalf(z, inTime), state, seqno);
    KeptMembers(z1, z1.release, b);
    BottomOwned(z, inTime, state, seqno);
    BottomRec(z, inTime, state, seqno, b);
    ProgramFrame(Count(z, false), false, z.next, inTime);
    assert b in z.release || z.cur == Some(b);
  }

  lemma FreedOnce(z: Zc)
    requires Owned(z)
    ensures forall b: Id :: multiset(Freed(z, z.release))[b] <= 1
  {
    forall b: Id ensures multiset(Freed(z, z.release))[b] <= 1 {
      KeptPartition(z, z.release);
      assert Occurs(z, b) <= 1;
      assert multiset(z.release)[b] == multiset(Kept(z, z.release))[b] + multiset(Freed(z, z.release))[b];
    }
  }

  lemma FreedEntry(was: Video, i: HalfIn, tops: nat, b: Id)
    requires Ends(was, i) && Marked(was.zc, tops) && tops < TWO_TO_THE_31
    requires var z1 := EndingZc(was, i); b in Freed(z1, z1.release) && z1.Rec(b).state == Done
    ensures was.zc.cur == Some(b) && EndingZc(was, i).Rec(b).seqno == was.asm.seqno
    ensures Frames.Take(Fill(was, BottomStart(was, i), i).pool.Mem(b), was.cfg.OutSize())
              == Content(was, BottomStart(was, i), i)
  {
    var inTime, state := InTime(was.asm, i), EndingState(was, i);
    FreedState(was.zc, inTime, state, was.asm.seqno, tops, b);
    DoneIsFree(was.zc, inTime, state, was.asm.seqno, tops);
    CardPayload(was, i, b);
  }

  /** Freed buffers of which only one can be complete make completions of one frame. */
  lemma FromFreed(p: Pool, z: Zc, s: seq<Id>, size: nat, cur: Option<Id>, n: nat, content: seq<byte>)
    requires forall b: Id :: multiset(s)[b] <= 1
    requires forall b: Id :: b in s && z.Rec(b).state == Done ==>
               cur == Some(b) && z.Rec(b).seqno == n && Frames.Take(p.Mem(b), size) == content
    ensures OneFrame(MadeFreed(p, z, s, size), n, content)
    ensures forall e :: e in MadeFreed(p, z, s, size) && e.state == Done ==> cur.Some? && e.owner == p.Owner(cur.value)
  {
    var made := MadeFreed(p, z, s, size);
    MadeFreedAt(p, z, s, size);
    forall k, m | 0 <= k < m < |made| ensures made[k].state != Done || made[m].state != Done {
      NoRepeat(s, k, m);
    }
  }

  /** The zero-copy buffer of a complete frame holds that frame. */
  lemma FreedFrame(was: Video, i: HalfIn, tops: nat)
    requires Ends(was, i) && Marked(was.zc, tops) && tops < TWO_TO_THE_31
    ensures OneFrame(EndingFreed(was, i), was.asm.seqno, Content(was, BottomStart(was, i), i))
    ensures forall e :: e in EndingFreed(was, i) && e.state == Done ==>
              was.zc.cur.Some? && e.owner == was.pool.Owner(was.zc.cur.value)
  {
    var z := EndingZc(was, i);
    forall b: Id | b in Freed(z, z.release) && z.Rec(b).state == Done
      ensures was.zc.cur == Some(b) && z.Rec(b).seqno == was.asm.seqno
      ensures Frames.Take(Fill(was, BottomStart(was, i), i).pool.Mem(b), was.cfg.OutSize())
                == Content(was, BottomStart(was, i), i)
    {
      FreedEntry(was, i, tops, b);
    }
    EndingOwned(was, i);
    FreedOnce(z);
    FromFreed(Fill(was, BottomStart(was, i), i).pool, z, Freed(z, z.release), was.cfg.OutSize(), was.zc.cur,
              was.asm.seqno, Content(was, BottomStart(was, i), i));
  }

  lemma EndingOwned(was: Video, i: HalfIn)
    requires Shape(was) && Owned(was.zc)
    ensures Owned(EndingZc(was, i))
  {
    BottomOwned(was.zc, InTime(was.asm, i), EndingState(was, i), was.asm.seqno);
  }

  ghost function EndingPool(was: Video, i: HalfIn): Pool
    requires Shape(was)
  {
    var z := EndingZc(was, i);
    CompleteFreed(Fill(was, BottomStart(was, i), i).pool, z, Freed(z, z.release), was.cfg.OutSize())
  }

  lemma EndingSound(was: Video, i: HalfIn)
    requires Whole(was) && Shape(was)
    ensures Sound(Release(EndingZc(was, i)), EndingPool(was, i), multiset{})
  {
    var f := Fill(was, BottomStart(was, i), i);
    FillSound(was.zc, was, BottomStart(was, i), i);
    EndFrameWhole(was.zc, f.pool, InTime(was.asm, i), EndingState(was, i), was.asm.seqno, was.cfg.OutSize());
  }

  lemma EndingPoolIs(was: Video, i: HalfIn)
    requires Shape(was)
    ensures EndingPool(was, i).frameBufs == was.pool.frameBufs
    ensures EndingPool(was, i).mem == Fill(was, BottomStart(was, i), i).pool.mem
    ensures EndingPool(was, i).owner == was.pool.owner
    ensures EndingPool(was, i).log == was.pool.log + EndingFreed(was, i)
  {
    FillPool(was, BottomStart(was, i), i);
    FreedPool(Fill(was, BottomStart(was, i), i).pool, EndingZc(was, i), was.cfg.OutSize());
  }

  lemma FreedPool(p: Pool, z: Zc, size: nat)
    ensures var p' := CompleteFreed(p, z, Freed(z, z.release), size);
            && p'.frameBufs == p.frameBufs && p'.mem == p.mem && p'.owner == p.owner
            && p'.log == p.log + MadeFreed(p, z, Freed(z, z.release), size)
  {
    CompleteFreedMoves(p, z, Freed(z, z.release), size);
  }

  /** So do the buffers the frame was copied to. */
  lemma CopiesFrame(was: Video, i: HalfIn)
    requires Ends(was, i)
    ensures var p := EndingPool(was, i);
            var made := MadeAll(p, p.frameBufs, EndingState(was, i), was.asm.seqno, was.cfg.OutSize());
            && OneFrame(made, was.asm.seqno, Content(was, BottomStart(was, i), i))
            && (forall e :: e in made && e.state == Done && was.zc.cur.Some? ==>
                e.owner != was.pool.Owner(was.zc.cur.value))
  {
    var p := EndingPool(was, i);
    EndingPoolIs(was, i);
    EndingSound(was, i);
    FrameApart(was);
    forall b: Id | b in p.frameBufs && EndingState(was, i) == Done
      ensures Frames.Take(p.Mem(b), was.cfg.OutSize()) == Content(was, BottomStart(was, i), i)
    {
      CopyPayload(was, i, b);
    }
    FinishedFrame(p, EndingState(was, i), was.asm.seqno, was.cfg.OutSize(), Content(was, BottomStart(was, i), i));
  }

  ghost function EndingCopies(was: Video, i: HalfIn): seq<Completion>
    requires Shape(was)
  {
    var p := EndingPool(was, i);
    MadeAll(p, p.frameBufs, EndingState(was, i), was.asm.seqno, was.cfg.OutSize())
  }

  lemma BottomEnds(was: Video, i: HalfIn)
    requires Shape(was)
    ensures var v' := BottomFrame(was, BottomStart(was, i), i);
            && v'.pool == Finish(EndingPool(was, i), EndingState(was, i), was.asm.seqno, was.cfg.OutSize())
            && v'.asm.runStart == was.asm.runStart && v'.asm.seqno == was.asm.seqno + 1
            && v'.asm.shown == was.asm.shown[was.asm.seqno := Content(was, BottomStart(was, i), i)]
  {
  }

  lemma BottomLog(was: Video, i: HalfIn)
    requires Shape(was)
    ensures var v' := BottomFrame(was, BottomStart(was, i), i);
            && v'.pool.log == was.pool.log + (EndingFreed(was, i) + EndingCopies(was, i))
            && v'.asm.runStart == was.asm.runStart && v'.asm.seqno == was.asm.seqno + 1
            && v'.asm.shown == was.asm.shown[was.asm.seqno := Content(was, BottomStart(was, i), i)]
  {
    BottomEnds(was, i);
    EndingPoolIs(was, i);
    FinishedLog(EndingPool(was, i), EndingState(was, i), was.asm.seqno, was.cfg.OutSize(), was.pool.log,
        EndingFreed(was, i));
  }

  lemma FinishedLog(p: Pool, state: VbState, n: nat, size: nat, log: seq<Completion>, freed: seq<Completion>)
    requires p.log == log + freed
    ensures Finish(p, state, n, size).log == log + (freed + MadeAll(p, p.frameBufs, state, n, size))
  {
    FinishMoves(p, state, n, size);
  }

  /** A bottom half that ends a frame keeps the log right. */
  lemma BottomLogged(was: Video, i: HalfIn, tops: nat)
    requires Ends(was, i) && Marked(was.zc, tops) && tops < TWO_TO_THE_31
    requires Logged(was.asm, was.pool.log)
    ensures var v' := BottomFrame(was, BottomStart(was, i), i); Logged(v'.asm, v'.pool.log)
  {
    var v' := BottomFrame(was, BottomStart(was, i), i);
    BottomOneFrame(was, i, tops);
    BottomLog(was, i);
    FrameLogged(was.asm, v'.asm, was.pool.log, EndingFreed(was, i) + EndingCopies(was, i),
        Content(was, BottomStart(was, i), i));
  }

  /** Everything a bottom half completes is one frame, for different consumers. */
  lemma BottomOneFrame(was: Video, i: HalfIn, tops: nat)
    requires Ends(was, i) && Marked(was.zc, tops) && tops < TWO_TO_THE_31
    ensures OneFrame(EndingFreed(was, i) + EndingCopies(was, i), was.asm.seqno, Content(was, BottomStart(was, i), i))
  {
    FreedFrame(was, i, tops);
    CopiesFrame(was, i);
    Joined(EndingFreed(was, i), EndingCopies(was, i), was.asm.seqno, Content(was, BottomStart(was, i), i));
  }
}
