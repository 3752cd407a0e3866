/**
 * Every operation keeps what is known of the frame being assembled, of the
 * completions handed out, and of the frame numbers.
 */
module FrameLog {
  import opened Basics
  import opened ZeroCopy
  import opened Protocol
  import opened Frames
  import opened Delivery
  import opened Driver
  import opened Effects
  import opened Bounds
  import opened Marks
  import opened Sequence
  import opened Payload
  import opened Assembling

  // ---- the frame being assembled ----

  /** The zero-copy buffer of the frame, its memory and its consumer are as before, or there is none. */
  ghost predicate SameCard(v: Video, v': Video) {
    v'.zc.cur.Some? ==>
      var b := v'.zc.cur.value;
      && v.zc.cur == Some(b) && v'.zc.Rec(b).away == v.zc.Rec(b).away
      && v'.cfg.geo == v.cfg.geo && v'.pool.Mem(b) == v.pool.Mem(b)
      && (v.pool.Of(v.pool.Owner(b)).held.None? ==> v'.pool.Of(v'.pool.Owner(b)).held.None?)
  }

  /** Some buffers may have left the frame; those that stay hold what they held. */
  ghost predicate SameCopies(v: Video, v': Video) {
    v'.pool.frameBufs != [] ==>
      && v'.cfg.outW == v.cfg.outW && v'.cfg.outH == v.cfg.outH
      && (forall b: Id :: b in v'.pool.frameBufs ==> b in v.pool.frameBufs && v'.pool.Mem(b) == v.pool.Mem(b))
  }

  ghost predicate SameFrame(a: Assembly, a': Assembly) {
    a'.topDone ==> a.topDone && a'.frame == a.frame && a'.frameLen == a.frameLen && a'.lastTop == a.lastTop
                   && a'.hdcp == a.hdcp && a'.staging == a.staging
  }

  lemma SameAssembled(v: Video, v': Video)
    requires Assembled(v) && SameCard(v, v') && SameCopies(v, v') && SameFrame(v.asm, v'.asm)
    ensures Assembled(v')
  {
    if v'.asm.topDone && v'.pool.frameBufs != [] {
      assert v'.pool.frameBufs[0] in v'.pool.frameBufs;
      assert v'.cfg.(geo := v'.asm.frame).Direct() == v.cfg.(geo := v.asm.frame).Direct();
    }
  }

  lemma StopAssembled(v: Video, cardStopped: bool)
    requires Assembled(v)
    ensures Assembled(StopZcAll(v, cardStopped))
  {
    var z := StopMarks(v.zc, cardStopped);
    StopOccurs(v.zc, cardStopped, 0);
    CompleteFreedMoves(v.pool, z, Freed(z, z.release), v.cfg.OutSize());
    SameAssembled(v, StopZcAll(v, cardStopped));
  }

  lemma {:induction false} WithoutMembers(s: seq<Id>, b: Id, x: Id)
    requires x in Without(s, b)
    ensures x in s
  {
    if s != [] && x in Without(s[..|s| - 1], b) {
      WithoutMembers(s[..|s| - 1], b, x);
    }
  }

  lemma FailHeldAssembled(v: Video, c: Cid)
    requires Assembled(v)
    ensures Assembled(v.(pool := FailHeld(v.pool, c)))
  {
    var p' := FailHeld(v.pool, c);
    FailHeldFails(v.pool, c);
    forall b: Id | b in p'.frameBufs ensures b in v.pool.frameBufs {
      if v.pool.Of(c).held.Some? && b in Without(v.pool.frameBufs, v.pool.Of(c).held.value) {
        WithoutMembers(v.pool.frameBufs, v.pool.Of(c).held.value, b);
      }
    }
    SameAssembled(v, v.(pool := p'));
  }

  lemma {:induction false} ReturnQueueSame(p: Pool, c: Cid)
    ensures var p' := ReturnQueue(p, c);
            && p'.frameBufs == p.frameBufs && p'.mem == p.mem && p'.owner == p.owner
            && forall d: Cid :: p'.Of(d).held == p.Of(d).held
    decreases |p.Of(c).queue|
  {
    if p.Of(c).queue != [] {
      ReturnQueueSame(ReturnOne(p, c), c);
    }
  }

  lemma EndNotDone(v: Video, i: HalfIn)
    requires Shape(v) && Acts(v) && !i.isTop
    ensures !VideoHalf(v, i).asm.topDone
  {
  }

  /** A buffer of the frame or of zero-copy is not one an operation allocates, frees or lets an app write. */
  lemma NotTheOne(v: Video, op: Op, b: Id)
    requires Whole(v) && Allowed(v, op) && (b in v.pool.frameBufs || v.zc.Held(b))
    ensures (op.Allocate? || op.Free? || op.AppWrite?) ==> b != op.b
  {
    if op.Allocate? { NotOwned(v.zc, v.pool, op.b); }
    if op.Free? || op.AppWrite? { AppHasIt(v.zc, v.pool, op.b); }
  }

  /** What the operations on one buffer or consumer leave alone. */
  lemma PoolOpSame(p: Pool, op: Op, b: Id)
    requires (op.Allocate? || op.Free? || op.AppWrite?) ==> b != op.b
    ensures PoolOp(p, op).Mem(b) == p.Mem(b) && PoolOp(p, op).Owner(b) == p.Owner(b)
  {
  }

  lemma PoolOpHeld(p: Pool, op: Op, c: Cid)
    ensures p.Of(c).held.None? ==> PoolOp(p, op).Of(c).held.None?
    ensures PoolOp(p, op).frameBufs == p.frameBufs
  {
  }

  lemma PoolOpAssembled(v: Video, op: Op)
    requires Whole(v) && Assembled(v) && Allowed(v, op)
    ensures Assembled(v.(pool := PoolOp(v.pool, op)))
  {
    var v' := v.(pool := PoolOp(v.pool, op));
    PoolOpHeld(v.pool, op, 0);
    if v.zc.cur.Some? {
      NotTheOne(v, op, v.zc.cur.value);
      PoolOpSame(v.pool, op, v.zc.cur.value);
      PoolOpHeld(v.pool, op, v.pool.Owner(v.zc.cur.value));
    }
    forall b: Id | b in v.pool.frameBufs ensures v'.pool.Mem(b) == v.pool.Mem(b) {
      NotTheOne(v, op, b);
      PoolOpSame(v.pool, op, b);
    }
    SameAssembled(v, v');
  }

  lemma HalfAssembled(v: Video, i: HalfIn)
    requires Whole(v) && Fits(v) && Assembled(v) && HalfOk(v.cfg, i)
    ensures Assembled(VideoHalf(v, i))
  {
    if Acts(v) && i.isTop { TopAssembled(v, i); } else if Acts(v) { EndNotDone(v, i); }
  }

  lemma ResizeAssembled(v: Video, g: Geometry, wasRunning: bool)
    requires Assembled(v)
    ensures Assembled(SizeChange(v, g, wasRunning))
  {
    StopAssembled(v, wasRunning);
    StopOccurs(v.zc, wasRunning, 0);
    SameAssembled(StopZcAll(v, wasRunning), SizeChange(v, g, wasRunning));
  }

  lemma StreamStartAssembled(v: Video, c: Cid)
    requires Assembled(v)
    ensures Assembled(StreamOn(v, c))
  {
    SameAssembled(v, JoinStream(v, c));
  }

  lemma StreamStopAssembled(v: Video, c: Cid)
    requires Assembled(v)
    ensures Assembled(StreamOffQueue(v, c))
  {
    ReturnQueueSame(v.pool.PutCtx(c, v.pool.Of(c).(streaming := false)), c);
    SameAssembled(v, StreamOffQueue(v, c));
  }

  lemma StreamStopHeldAssembled(v: Video, c: Cid)
    requires Assembled(v)
    ensures Assembled(StreamOffHeld(v, c))
  {
    FailHeldAssembled(v, c);
    StopAssembled(v.(pool := FailHeld(v.pool, c)), false);
  }

  lemma QueueAssembled(v: Video, b: Id)
    requires Assembled(v)
    ensures Assembled(QueueBuf(v, b))
  {
    SameAssembled(v, QueueBuf(v, b));
  }

  lemma NoneIn(s: seq<Id>)
    ensures (forall b: Id :: b !in s) ==> s == []
  {
    if s != [] { assert s[0] in s; }
  }

  lemma SetOutputAssembled(v: Video, w: nat, h: nat)
    requires Whole(v) && Shape(v) && Assembled(v) && Allowed(v, SetOutput(w, h))
    ensures Assembled(Do(v, SetOutput(w, h)))
  {
    if v.pool.owner == map[] {
      forall b: Id ensures b !in v.pool.frameBufs {
        NotOwned(v.zc, v.pool, b);
      }
      NoneIn(v.pool.frameBufs);
    }
    SameAssembled(v, Do(v, SetOutput(w, h)));
  }

  lemma CounterAssembled(v: Video, v': Video)
    requires Assembled(v) && v' == v.(asm := v.asm.(users := v'.asm.users), cfg := v.cfg.(running := v'.cfg.running))
    ensures Assembled(v')
  {
    SameAssembled(v, v');
  }

  lemma KeepsAssembled(v: Video, op: Op)
    requires Whole(v) && Fits(v) && Assembled(v) && Allowed(v, op)
    ensures Assembled(Do(v, op))
  {
    match op
    case Half(i) => HalfAssembled(v, i);
    case NoSignal => NoVideoAssembled(v);
    case Resize(g, wasRunning) => ResizeAssembled(v, g, wasRunning);
    case Queue(b) => QueueAssembled(v, b);
    case StreamStart(c) => StreamStartAssembled(v, c);
    case StreamStop(c) => StreamStopAssembled(v, c);
    case StreamStopHeld(c) => StreamStopHeldAssembled(v, c);
    case Quiesced => StopAssembled(v, true);
    case StreamStopped(_) => CounterAssembled(v, Do(v, op));
    case SetRunning(_) => CounterAssembled(v, Do(v, op));
    case SetOutput(w, h) => SetOutputAssembled(v, w, h);
    case _ => PoolOpAssembled(v, op);
  }

  lemma NoVideoAssembled(v: Video)
    ensures Assembled(NoVideo(v))
  {
  }

  // ---- the completions ----

  lemma StopFails(v: Video, cardStopped: bool, tops: nat)
    requires Whole(v) && Marked(v.zc, tops)
    ensures FailsOnly(v.pool, StopZcAll(v, cardStopped).pool)
  {
    var z := StopMarks(v.zc, cardStopped);
    var freed := Freed(z, z.release);
    StopOwned(v.zc, cardStopped);
    forall b: Id | b in freed ensures z.Rec(b).state == Error {
      KeptMembers(z, z.release, b);
      assert z.Held(b);
      StopRec(v.zc, cardStopped, b);
    }
    FreedFails(v.pool, z, freed, v.cfg.OutSize());
  }

  lemma FreedFails(p: Pool, z: Zc, s: seq<Id>, size: nat)
    requires forall b: Id :: b in s ==> z.Rec(b).state == Error
    ensures FailsOnly(p, CompleteFreed(p, z, s, size))
  {
    CompleteFreedMoves(p, z, s, size);
    MadeFreedAt(p, z, s, size);
    assert AllFailed(MadeFreed(p, z, s, size));
  }

  /** The end of a lost frame hands back only failed buffers. */
  lemma LostFails(z: Zc, p: Pool, inTime: bool, tops: nat, size: nat)
    requires Owned(z) && Marked(z, tops)
    ensures var z1 := Advance(BottomHalf(z, inTime), Error, 0);
            FailsOnly(p, CompleteFreed(p, z1, Freed(z1, z1.release), size))
  {
    var z1 := Advance(BottomHalf(z, inTime), Error, 0);
    ProgramFrame(Count(z, false), false, z.next, inTime);
    forall b: Id | b in Freed(z1, z1.release) ensures z1.Rec(b).state == Error {
      FreedState(z, inTime, Error, 0, tops, b);
      AdvanceRec(BottomHalf(z, inTime), Error, 0, b);
    }
    FreedFails(p, z1, Freed(z1, z1.release), size);
  }

  /** With no signal every consumer gets the same blue frame. */
  lemma NoVideoLogged(v: Video)
    requires Whole(v) && Fits(v) && Logged(v.asm, v.pool.log)
    ensures Logged(NoVideo(v).asm, NoVideo(v).pool.log)
  {
    var n, size := v.asm.seqno, v.cfg.OutSize();
    var p := HoldBuffers(v.pool, n, size, None);
    HoldBuffersFails(v.pool, n, size, None);
    FailsLogged(v.asm, v.asm, v.pool, p);
    BlueFrame(v, p);
    var p1 := BlitAll(p, p.frameBufs, 0, Blue(size));
    FinishMoves(p1, Done, n, size);
    FrameLogged(v.asm, NoVideo(v).asm, p.log, MadeAll(p1, p1.frameBufs, Done, n, size), Blue(size));
  }

  lemma BlueFrame(v: Video, p: Pool)
    requires Whole(v) && Fits(v) && p == HoldBuffers(v.pool, v.asm.seqno, v.cfg.OutSize(), None)
    ensures var p1 := BlitAll(p, p.frameBufs, 0, Blue(v.cfg.OutSize()));
            OneFrame(MadeAll(p1, p1.frameBufs, Done, v.asm.seqno, v.cfg.OutSize()), v.asm.seqno, Blue(v.cfg.OutSize()))
  {
    var n, size := v.asm.seqno, v.cfg.OutSize();
    HoldBuffersKeeps(v.zc, v.pool, multiset{}, n, size, None);
    HoldBuffersFails(v.pool, n, size, None);
    FrameApart(v.(pool := p));
    var p1 := BlitAll(p, p.frameBufs, 0, Blue(size));
    BlitKeeps(v.zc, p, multiset{}, p.frameBufs, 0, Blue(size));
    forall b: Id | b in p1.frameBufs ensures Frames.Take(p1.Mem(b), size) == Blue(size) {
      assert p.Mem(b) == v.pool.Mem(b) && |v.pool.Mem(b)| >= size;
      if size > 0 {
        BlitAllMem(p, p.frameBufs, 0, Blue(size), b);
        BlitStart(p.Mem(b), Blue(size));
      }
    }
    FinishedFrame(p1, Done, n, size, Blue(size));
  }

  // ---- where complete frames come from ----

  /** Everything handed back since was failed. */
  ghost predicate AddsFailed(log: seq<Completion>, log': seq<Completion>) {
    exists made :: log' == log + made && AllFailed(made)
  }

  lemma AddsNone(log: seq<Completion>)
    ensures AddsFailed(log, log)
  {
    assert log == log + [] && AllFailed([]);
  }

  lemma AddsTwice(log: seq<Completion>, log1: seq<Completion>, log2: seq<Completion>)
    requires AddsFailed(log, log1) && AddsFailed(log1, log2)
    ensures AddsFailed(log, log2)
  {
    var a :| log1 == log + a && AllFailed(a);
    var b :| log2 == log1 + b && AllFailed(b);
    assert log2 == log + (a + b) && AllFailed(a + b);
  }

  lemma FailsAdds(p: Pool, p': Pool)
    requires FailsOnly(p, p')
    ensures AddsFailed(p.log, p'.log)
  {
    var made :| Moves(p, p', made) && AllFailed(made);
  }

  lemma {:induction false} ReturnQueueFails(p: Pool, c: Cid)
    ensures AddsFailed(p.log, ReturnQueue(p, c).log)
    decreases |p.Of(c).queue|
  {
    if p.Of(c).queue == [] {
      AddsNone(p.log);
    } else {
      var p1 := ReturnOne(p, c);
      assert p1.log == p.log + [p1.log[|p.log|]] && AllFailed([p1.log[|p.log|]]);
      ReturnQueueFails(p1, c);
      AddsTwice(p.log, p1.log, ReturnQueue(p1, c).log);
    }
  }

  lemma LostIs(v: Video, i: HalfIn)
    requires Shape(v) && Acts(v) && !i.isTop && (Stale(BottomStart(v, i), i) || NoTop(v))
    ensures var z1 := Advance(BottomHalf(v.zc, InTime(v.asm, i)), Error, 0);
            VideoHalf(v, i).pool == CompleteFreed(v.pool, z1, Freed(z1, z1.release), v.cfg.OutSize())
    ensures SameRecord(v.asm, VideoHalf(v, i).asm)
  {
  }

  lemma QuietOps(v: Video, op: Op)
    requires Shape(v) && Allowed(v, op)
    requires op.Queue? || op.StreamStopped? || op.SetRunning? || op.SetOutput? || op.SetRate? || op.Open?
               || op.Allocate? || op.Free?
             || op.AppWrite?
    ensures Do(v, op).asm == v.asm.(users := Do(v, op).asm.users) && Do(v, op).pool.log == v.pool.log
  {
  }

  /** A bottom half that finds the top half of its frame. */
  predicate EndsAFrame(v: Video, i: HalfIn) {
    Acts(v) && !i.isTop && !Stale(BottomStart(v, i), i) && !NoTop(v)
  }

  lemma TopAdds(v: Video, i: HalfIn)
    requires Shape(v) && Acts(v) && i.isTop
    ensures AddsFailed(v.pool.log, VideoHalf(v, i).pool.log)
  {
    var v1 := TopStart(v, i);
    AddsNone(v.pool.log);
    if !Stale(v1, i) {
      TopPoolFails(v, v1);
      TopFramePool(v, v1, i);
      FailsAdds(v1.pool, TopPool(v, v1));
    }
  }

  lemma LostAdds(v: Video, i: HalfIn, tops: nat)
    requires Whole(v) && Shape(v) && Acts(v) && !i.isTop && (Stale(BottomStart(v, i), i) || NoTop(v))
    requires Marked(v.zc, tops)
    ensures AddsFailed(v.pool.log, VideoHalf(v, i).pool.log)
  {
    var z1 := Advance(BottomHalf(v.zc, InTime(v.asm, i)), Error, 0);
    LostFails(v.zc, v.pool, InTime(v.asm, i), tops, v.cfg.OutSize());
    LostIs(v, i);
    FailsAdds(v.pool, CompleteFreed(v.pool, z1, Freed(z1, z1.release), v.cfg.OutSize()));
  }

  lemma HalfAdds(v: Video, i: HalfIn, tops: nat)
    requires Whole(v) && Shape(v) && Marked(v.zc, tops) && !EndsAFrame(v, i)
    ensures AddsFailed(v.pool.log, VideoHalf(v, i).pool.log)
  {
    AddsNone(v.pool.log);
    if Acts(v) && i.isTop {
      TopAdds(v, i);
    } else if Acts(v) {
      LostAdds(v, i, tops);
    }
  }

  lemma StopAdds(v: Video, cardStopped: bool, tops: nat)
    requires Whole(v) && Marked(v.zc, tops)
    ensures AddsFailed(v.pool.log, StopZcAll(v, cardStopped).pool.log)
  {
    StopFails(v, cardStopped, tops);
    FailsAdds(v.pool, StopZcAll(v, cardStopped).pool);
  }

  lemma StreamStartAdds(v: Video, c: Cid, tops: nat)
    requires Whole(v) && Marked(v.zc, tops)
    ensures AddsFailed(v.pool.log, StreamOn(v, c).pool.log)
  {
    AddsNone(v.pool.log);
    if v.asm.users == 0 {
      StartedWhole(v, c);
      StopAdds(Started(v, c), true, tops);
    }
  }

  lemma StreamStopHeldAdds(v: Video, c: Cid, tops: nat)
    requires Whole(v) && Marked(v.zc, tops)
    ensures AddsFailed(v.pool.log, StreamOffHeld(v, c).pool.log)
  {
    var v1 := v.(pool := FailHeld(v.pool, c));
    FailHeldFails(v.pool, c);
    FailHeldKeeps(v.zc, v.pool, multiset{}, c);
    FailsAdds(v.pool, v1.pool);
    StopAdds(v1, false, tops);
    AddsTwice(v.pool.log, v1.pool.log, StopZcAll(v1, false).pool.log);
  }

  /**
   * A buffer is handed back complete only by a bottom half that finds its top
   * half, or as a blue frame.
   */
  lemma OthersAddFailed(v: Video, op: Op, tops: nat)
    requires Whole(v) && Shape(v) && Allowed(v, op) && Marked(v.zc, tops)
    requires !op.NoSignal? && !(op.Half? && EndsAFrame(v, op.i))
    ensures AddsFailed(v.pool.log, Do(v, op).pool.log)
  {
    match op
    case Half(i) => HalfAdds(v, i, tops);
    case Resize(_, wasRunning) => StopAdds(v, wasRunning, tops);
    case StreamStart(c) => StreamStartAdds(v, c, tops);
    case StreamStop(c) => ReturnQueueFails(v.pool.PutCtx(c, v.pool.Of(c).(streaming := false)), c);
    case StreamStopHeld(c) => StreamStopHeldAdds(v, c, tops);
    case Quiesced => StopAdds(v, true, tops);
    case _ =>
      QuietOps(v, op);
      AddsNone(v.pool.log);
  }

  lemma StreamStartLogged(v: Video, c: Cid)
    requires Logged(v.asm, v.pool.log)
    ensures Logged(StreamOn(v, c).asm, StreamOn(v, c).pool.log)
  {
  }

  /** `a'` follows `a` in the same engine run, without a new payload. */
  predicate SameRecord(a: Assembly, a': Assembly) {
    a'.runStart == a.runStart && a'.shown == a.shown && a'.seqno >= a.seqno
  }

  lemma TopRecord(v: Video, i: HalfIn)
    requires Shape(v) && Acts(v) && i.isTop
    ensures SameRecord(v.asm, VideoHalf(v, i).asm)
  {
    var v1 := TopStart(v, i);
    assert SameRecord(v.asm, v1.asm);
    assert SameRecord(v1.asm, TopFrame(v, v1, i).asm);
  }

  lemma HalfRecord(v: Video, i: HalfIn)
    requires Shape(v) && !EndsAFrame(v, i)
    ensures SameRecord(v.asm, VideoHalf(v, i).asm)
  {
    if Acts(v) && i.isTop { TopRecord(v, i); } else if Acts(v) { LostIs(v, i); }
  }

  /** The other operations leave the record of the payloads alone. */
  lemma OthersRecord(v: Video, op: Op)
    requires Shape(v) && Allowed(v, op)
    requires !op.NoSignal? && !op.StreamStart? && !op.Half?
    ensures SameRecord(v.asm, Do(v, op).asm)
  {
    match op
    case Resize(_, wasRunning) => StopRecord(v, wasRunning);
    case StreamStopHeld(c) => StopRecord(v.(pool := FailHeld(v.pool, c)), false);
    case Quiesced => StopRecord(v, true);
    case _ =>
  }

  lemma StopRecord(v: Video, cardStopped: bool)
    ensures SameRecord(v.asm, StopZcAll(v, cardStopped).asm)
  {
  }

  lemma OthersLogged(v: Video, op: Op, tops: nat)
    requires Whole(v) && Shape(v) && Allowed(v, op) && Marked(v.zc, tops) && Logged(v.asm, v.pool.log)
    requires !op.NoSignal? && !op.StreamStart? && !(op.Half? && EndsAFrame(v, op.i))
    ensures Logged(Do(v, op).asm, Do(v, op).pool.log)
  {
    OthersAddFailed(v, op, tops);
    if op.Half? { HalfRecord(v, op.i); } else { OthersRecord(v, op); }
    var made :| Do(v, op).pool.log == v.pool.log + made && AllFailed(made);
    FailedLogged(v.asm, Do(v, op).asm, v.pool.log, made);
  }

  lemma KeepsLogged(v: Video, op: Op, tops: nat)
    requires Whole(v) && Fits(v) && Assembled(v) && Allowed(v, op)
    requires Marked(v.zc, tops) && tops < TWO_TO_THE_31 && Logged(v.asm, v.pool.log)
    ensures Logged(Do(v, op).asm, Do(v, op).pool.log)
  {
    if op.NoSignal? {
      NoVideoLogged(v);
    } else if op.StreamStart? {
      StreamStartLogged(v, op.c);
    } else if op.Half? && EndsAFrame(v, op.i) {
      BottomLogged(v, op.i, tops);
    } else {
      OthersLogged(v, op, tops);
    }
  }

  // ---- the frame numbers ----

  lemma HalfNumbered(v: Video, i: HalfIn)
    requires Shape(v) && Numbered(v.asm)
    ensures Numbered(VideoHalf(v, i).asm)
  {
    if Acts(v) && i.isTop {
      var v1 := TopStart(v, i);
      assert Numbered(LoseIf(v1.asm));
    } else if Acts(v) {
      var v1 := BottomStart(v, i);
      assert Numbered(LoseIf(v1.asm)) && Numbered(Lose(v1.asm)) && Numbered(v1.asm);
    }
  }

  lemma KeepsNumbered(v: Video, op: Op)
    requires Shape(v) && Allowed(v, op) && Numbered(v.asm)
    ensures Numbered(Do(v, op).asm)
  {
    match op
    case Half(i) => HalfNumbered(v, i);
    case NoSignal =>
    case Resize(_, wasRunning) => StopAsm(v, wasRunning);
    case StreamStart(c) => StartNumbered(v, c);
    case StreamStopHeld(c) => StopHeldNumbered(v, c);
    case Quiesced => StopAsm(v, true);
    case _ =>
  }

  lemma StartNumbered(v: Video, c: Cid)
    requires Numbered(v.asm)
    ensures Numbered(StreamOn(v, c).asm)
  {
    StopAsm(Started(v, c), true);
  }

  lemma StopHeldNumbered(v: Video, c: Cid)
    requires Numbered(v.asm)
    ensures Numbered(StreamOffHeld(v, c).asm)
  {
    StopAsm(v.(pool := FailHeld(v.pool, c)), false);
  }

  lemma StopAsm(v: Video, cardStopped: bool)
    ensures StopZcAll(v, cardStopped).asm == v.asm.(zcCtx := None, stable := 0)
  {
  }
}
