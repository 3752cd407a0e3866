/** The count of delivered frames each consumer keeps is that of the buffers handed back to it complete. */
module Tally {
  import opened Basics
  import opened ZeroCopy
  import opened Frames
  import opened Driver
  import opened Effects
  import opened World

  /** The complete buffers of the consumer among those handed back. */
  function DoneFor(log: seq<Completion>, c: Cid): nat {
    if log == [] then 0 else
    var e := log[|log| - 1];
    DoneFor(log[..|log| - 1], c) + (if e.owner == c && e.state == Done then 1 else 0)
  }

  /** How far its count is ahead. */
  function Ahead(p: Pool, c: Cid): int {
    p.Of(c).delivered - DoneFor(p.log, c)
  }

  lemma DoneAppend(log: seq<Completion>, e: Completion, c: Cid)
    ensures DoneFor(log + [e], c) == DoneFor(log, c) + (if e.owner == c && e.state == Done then 1 else 0)
  {
    assert (log + [e])[..|log|] == log;
  }

  lemma CompleteAhead(p: Pool, b: Id, state: VbState, seqno: nat, size: nat, c: Cid)
    ensures Ahead(Complete(p, b, state, seqno, size), c) == Ahead(p, c)
  {
    DoneAppend(p.log, Complete(p, b, state, seqno, size).log[|p.log|], c);
  }

  lemma {:induction false} ErrorsAhead(p: Pool, s: seq<Id>, c: Cid)
    ensures Ahead(CompleteErrors(p, s), c) == Ahead(p, c)
  {
    if s != [] {
      ErrorsAhead(p, s[..|s| - 1], c);
      CompleteAhead(CompleteErrors(p, s[..|s| - 1]), s[|s| - 1], Error, 0, 0, c);
    }
  }

  lemma {:induction false} FreedAhead(p: Pool, z: Zc, s: seq<Id>, size: nat, c: Cid)
    ensures Ahead(CompleteFreed(p, z, s, size), c) == Ahead(p, c)
  {
    if s != [] {
      var t, b := s[..|s| - 1], s[|s| - 1];
      FreedAhead(p, z, t, size, c);
      CompleteAhead(CompleteFreed(p, z, t, size), b, z.Rec(b).state, z.Rec(b).seqno, size, c);
    }
  }

  lemma FinishOneAhead(p: Pool, state: VbState, seqno: nat, size: nat, c: Cid)
    requires p.frameBufs != []
    ensures Ahead(FinishOne(p, state, seqno, size), c) == Ahead(p, c)
  {
    var b := p.frameBufs[0];
    var d := p.Owner(b);
    var p1 := p.(frameBufs := p.frameBufs[1..]).PutCtx(d, p.Of(d).(held := None));
    CompleteAhead(p1, b, state, seqno, size, c);
  }

  lemma {:induction false} FinishAhead(p: Pool, state: VbState, seqno: nat, size: nat, c: Cid)
    ensures Ahead(Finish(p, state, seqno, size), c) == Ahead(p, c)
    decreases |p.frameBufs|
  {
    if p.frameBufs != [] {
      FinishOneMoves(p, state, seqno, size);
      FinishOneAhead(p, state, seqno, size, c);
      FinishAhead(FinishOne(p, state, seqno, size), state, seqno, size, c);
    }
  }

  lemma FailHeldAhead(p: Pool, d: Cid, c: Cid)
    ensures Ahead(FailHeld(p, d), c) == Ahead(p, c)
  {
    if p.Of(d).held.Some? {
      var b := p.Of(d).held.value;
      CompleteAhead(p.(frameBufs := Without(p.frameBufs, b)).PutCtx(d, p.Of(d).(held := None)), b, Error, 0, 0, c);
    }
  }

  lemma {:induction false} HoldAllAhead(p: Pool, cs: seq<Cid>, n: nat, size: nat, skip: Option<Cid>, c: Cid)
    ensures Ahead(HoldAll(p, cs, n, size, skip).pool, c) == Ahead(p, c)
  {
    if cs != [] {
      HoldAllAhead(p, cs[..|cs| - 1], n, size, skip, c);
      HoldOneAhead(HoldAll(p, cs[..|cs| - 1], n, size, skip), cs[|cs| - 1], n, size, skip, c);
    }
  }

  lemma HoldOneAhead(h: Hold, d: Cid, n: nat, size: nat, skip: Option<Cid>, c: Cid)
    ensures Ahead(HoldOne(h, d, n, size, skip).pool, c) == Ahead(h.pool, c)
  {
  }

  lemma HoldAhead(p: Pool, n: nat, size: nat, skip: Option<Cid>, c: Cid)
    ensures Ahead(HoldBuffers(p, n, size, skip), c) == Ahead(p, c)
  {
    var h := HoldAll(p, p.consumers, n, size, skip);
    HoldAllAhead(p, p.consumers, n, size, skip, c);
    ErrorsAhead(h.pool, h.small, c);
  }

  lemma {:induction false} ReturnAhead(p: Pool, d: Cid, c: Cid)
    ensures Ahead(ReturnQueue(p, d), c) == Ahead(p, c)
    decreases |p.Of(d).queue|
  {
    if p.Of(d).queue != [] {
      DoneAppend(p.log, ReturnOne(p, d).log[|p.log|], c);
      ReturnAhead(ReturnOne(p, d), d, c);
    }
  }

  lemma StopAhead(v: Video, cardStopped: bool, c: Cid)
    ensures Ahead(StopZcAll(v, cardStopped).pool, c) == Ahead(v.pool, c)
  {
    var z := StopMarks(v.zc, cardStopped);
    FreedAhead(v.pool, z, Freed(z, z.release), v.cfg.OutSize(), c);
  }

  lemma EndAhead(v: Video, state: VbState, seqno: nat, c: Cid)
    ensures Ahead(EndFrame(v, state, seqno).pool, c) == Ahead(v.pool, c)
  {
    var z := Advance(v.zc, state, seqno);
    FreedAhead(v.pool, z, Freed(z, z.release), v.cfg.OutSize(), c);
  }

  /** Copies change memory only. */
  lemma SameAhead(p: Pool, p': Pool, c: Cid)
    requires p'.ctx == p.ctx && p'.log == p.log
    ensures Ahead(p', c) == Ahead(p, c)
  {
  }

  lemma TopFrameAhead(was: Video, v: Video, i: HalfIn, c: Cid)
    requires |was.cfg.len| == 4
    ensures Ahead(TopFrame(was, v, i).pool, c) == Ahead(v.pool, c)
  {
    var zowner := if was.zc.cur.Some? then Some(v.pool.Owner(was.zc.cur.value)) else None;
    var p0 := if zowner.Some? then FailHeld(v.pool, zowner.value) else v.pool;
    if zowner.Some? { FailHeldAhead(v.pool, zowner.value, c); }
    HoldAhead(p0, LoseIf(v.asm).seqno, v.cfg.OutSize(), zowner, c);
    SameAhead(HoldBuffers(p0, LoseIf(v.asm).seqno, v.cfg.OutSize(), zowner), TopFrame(was, v, i).pool, c);
  }

  lemma BottomFrameAhead(was: Video, v: Video, i: HalfIn, c: Cid)
    requires |was.cfg.len| == 4 && |was.asm.frameLen| == 4 && v.cfg == was.cfg
    ensures Ahead(BottomFrame(was, v, i).pool, c) == Ahead(v.pool, c)
  {
    var f := Fill(was, v, i);
    SameAhead(v.pool, f.pool, c);
    var state := FrameState(was, f, i);
    var a := v.asm.(topDone := false, staging := f.staging,
                    stable := if state.Done? then v.asm.stable + 1 else v.asm.stable);
    var v0 := v.(pool := f.pool, asm := a);
    EndAhead(v0, state, a.seqno, c);
    FinishAhead(EndFrame(v0, state, a.seqno).pool, state, a.seqno, v.cfg.OutSize(), c);
  }

  lemma HalfAhead(v: Video, i: HalfIn, c: Cid)
    requires Shape(v)
    ensures Ahead(VideoHalf(v, i).pool, c) == Ahead(v.pool, c)
  {
    if Acts(v) && i.isTop {
      assert Ahead(TopStart(v, i).pool, c) == Ahead(v.pool, c);
      TopFrameAhead(v, TopStart(v, i), i, c);
    } else if Acts(v) {
      var v1 := BottomStart(v, i);
      if Stale(v1, i) {
        EndAhead(v1.(asm := LoseIf(v1.asm)), Error, 0, c);
      } else if NoTop(v) {
        EndAhead(v1.(asm := Lose(v1.asm)), Error, 0, c);
      } else {
        BottomFrameAhead(v, v1, i, c);
      }
    }
  }

  lemma NoVideoAhead(v: Video, c: Cid)
    ensures Ahead(NoVideo(v).pool, c) == Ahead(v.pool, c)
  {
    var n, size := v.asm.seqno, v.cfg.OutSize();
    var p := HoldBuffers(v.pool, n, size, None);
    HoldAhead(v.pool, n, size, None, c);
    SameAhead(p, BlitAll(p, p.frameBufs, 0, Blue(size)), c);
    FinishAhead(BlitAll(p, p.frameBufs, 0, Blue(size)), Done, n, size, c);
  }

  lemma StopHeldAhead(v: Video, d: Cid, c: Cid)
    ensures Ahead(StreamOffHeld(v, d).pool, c) == Ahead(v.pool, c)
  {
    FailHeldAhead(v.pool, d, c);
    StopAhead(v.(pool := FailHeld(v.pool, d)), false, c);
  }

  lemma StartAhead(v: Video, d: Cid, c: Cid)
    ensures Ahead(StreamOn(v, d).pool, c) == Ahead(v.pool, c)
  {
    StopAhead(Started(v, d), true, c);
  }

  lemma ReturnAllAhead(v: Video, d: Cid, c: Cid)
    ensures Ahead(StreamOffQueue(v, d).pool, c) == Ahead(v.pool, c)
  {
    ReturnAhead(v.pool.PutCtx(d, v.pool.Of(d).(streaming := false)), d, c);
  }

  lemma OpAhead(v: Video, op: Op, c: Cid)
    requires Shape(v) && Allowed(v, op)
    ensures Ahead(Do(v, op).pool, c) == Ahead(v.pool, c)
  {
    match op
    case Half(i) => HalfAhead(v, i, c);
    case NoSignal => NoVideoAhead(v, c);
    case Resize(_, wasRunning) => StopAhead(v, wasRunning, c);
    case StreamStart(d) => StartAhead(v, d, c);
    case StreamStop(d) => ReturnAllAhead(v, d, c);
    case StreamStopHeld(d) => StopHeldAhead(v, d, c);
    case Quiesced => StopAhead(v, true, c);
    case _ => OtherAhead(v, op, c);
  }

  lemma OtherAhead(v: Video, op: Op, c: Cid)
    requires Shape(v) && Allowed(v, op)
    requires op.Queue? || op.StreamStopped? || op.SetRunning? || op.SetOutput? || op.SetRate? || op.Open?
             || op.Allocate? || op.Free? || op.AppWrite?
    ensures Ahead(Do(v, op).pool, c) == Ahead(v.pool, c)
  {
  }

  lemma AheadNext(w: World, act: Act, w': World, c: Cid)
    requires NextAct(w, act, w')
    ensures Ahead(w'.v.pool, c) == Ahead(w.v.pool, c)
  {
    if act.Drive? { OpAhead(w.v, act.op, c); }
  }

  lemma NoneAhead(worlds: seq<World>, acts: seq<Act>, c: Cid)
    requires IsHistory(worlds, acts)
    ensures Ahead(worlds[0].v.pool, c) == 0
  {
  }

  lemma {:induction false} HistoryAhead(worlds: seq<World>, acts: seq<Act>, i: nat, c: Cid)
    requires IsHistory(worlds, acts) && i < |worlds|
    ensures Ahead(worlds[i].v.pool, c) == 0
  {
    if i == 0 {
      NoneAhead(worlds, acts, c);
    } else {
      HistoryAhead(worlds, acts, i - 1, c);
      SameNext(worlds, acts, i, c);
    }
  }

  lemma SameNext(worlds: seq<World>, acts: seq<Act>, i: nat, c: Cid)
    requires IsHistory(worlds, acts) && 0 < i < |worlds|
    ensures Ahead(worlds[i].v.pool, c) == Ahead(worlds[i - 1].v.pool, c)
  {
    ActInHistory(worlds, acts, i);
    AheadNext(worlds[i - 1], acts[i - 1], worlds[i], c);
  }

  /** A consumer's count of delivered frames is that of its buffers handed back complete, at any time. */
  lemma DeliveredIsDone(worlds: seq<World>, acts: seq<Act>, i: nat, c: Cid)
    requires IsHistory(worlds, acts) && i < |worlds|
    ensures worlds[i].v.pool.Of(c).delivered == DoneFor(worlds[i].v.pool.log, c)
  {
    HistoryAhead(worlds, acts, i, c);
  }
}
