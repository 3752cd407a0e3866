/**
 * Sizes: the programmed quarter lengths always match the input size, every
 * buffer holds a whole output frame, and a buffer the card writes holds the
 * longest run of any quarter.
 */
module Bounds {
  import opened Basics
  import opened ZeroCopy
  import opened Quarters
  import opened CardAddr
  import opened LineDouble
  import opened Protocol
  import opened Frames
  import opened Driver
  import opened Effects

  /** The scaler fills the output frame exactly. */
  ghost predicate ScaleFits(cfg: Config) {
    forall raw: seq<byte>, w: nat, h: nat, ow: nat, oh: nat :: |cfg.scale(raw, w, h, ow, oh)| == ow * oh * 2
  }

  ghost predicate LensMatch(cfg: Config) {
    && SizeOk(cfg.geo)
    && cfg.len == Cut(FrameBytes(cfg.geo.w, cfg.geo.h))
    && cfg.len[3] + AUDIO_RING <= cfg.bufSize
  }

  ghost predicate FrameMatches(a: Assembly) {
    && SizeOk(a.frame) && a.frame.w > 0 && a.frame.h > 0
    && a.frameLen == Cut(FrameBytes(a.frame.w, a.frame.h))
  }

  ghost predicate BuffersFit(p: Pool, cfg: Config) {
    forall b: Id :: b in p.owner ==> b in p.mem && |p.Mem(b)| >= cfg.OutSize()
  }

  /** A buffer the card may be pointed at for this frame or the next. */
  ghost predicate CardFits(z: Zc, p: Pool, cfg: Config)
    requires |cfg.len| == 4
  {
    forall b: Id :: z.cur == Some(b) || z.next == Some(b) ==> cfg.Direct() && |p.Mem(b)| >= Span(cfg.len)
  }

  ghost predicate Fits(v: Video) {
    && LensMatch(v.cfg) && ScaleFits(v.cfg)
    && |v.asm.frameLen| == 4 && (v.asm.topDone ==> FrameMatches(v.asm))
    && |v.asm.staging| == STAGING_BYTES
    && BuffersFit(v.pool, v.cfg)
    && CardFits(v.zc, v.pool, v.cfg)
  }

  lemma FrameBytesMax(g: Geometry)
    requires SizeOk(g)
    ensures FrameBytes(g.w, g.h) <= STAGING_BYTES
    ensures g.il ==> 2 * FrameBytes(g.w, g.h) <= STAGING_BYTES
  {
    var h := if g.il then 2 * g.h else g.h;
    Product(g.w, h);
    if g.il { assert g.w * (2 * g.h) == 2 * (g.w * g.h); }
  }

  lemma Product(w: nat, h: nat)
    requires w <= MAX_W && h <= MAX_H
    ensures w * h <= MAX_W * MAX_H
  {
    assert (MAX_W - w) * h >= 0;
    assert MAX_W * (MAX_H - h) >= 0;
  }

  // ---- what keeps sizes ----

  ghost predicate SameSizes(p: Pool, p': Pool) {
    && p'.owner == p.owner && p'.dma == p.dma && p'.mapped == p.mapped
    && forall b: Id :: (b in p.mem ==> b in p'.mem) && |p'.Mem(b)| == |p.Mem(b)|
  }

  lemma SameSizesOn(p: Pool, p1: Pool, p2: Pool)
    requires SameSizes(p, p1) && SameSizes(p1, p2)
    ensures SameSizes(p, p2)
  {
    forall b: Id ensures (b in p.mem ==> b in p2.mem) && |p2.Mem(b)| == |p.Mem(b)| {
      assert |p1.Mem(b)| == |p.Mem(b)|;
    }
  }

  lemma MovesSizes(p: Pool, p': Pool)
    requires FailsOnly(p, p') || exists made :: Moves(p, p', made)
    ensures SameSizes(p, p')
  {
    assert p'.mem == p.mem;
    assert forall b: Id :: p'.Mem(b) == p.Mem(b);
  }

  lemma BlitSizes(p: Pool, bs: seq<Id>, off: nat, s: seq<byte>)
    ensures SameSizes(p, BlitAll(p, bs, off, s))
  {
  }

  lemma SizesFit(p: Pool, p': Pool, cfg: Config)
    requires BuffersFit(p, cfg) && SameSizes(p, p')
    ensures BuffersFit(p', cfg)
  {
    forall b: Id | b in p'.owner ensures b in p'.mem && |p'.Mem(b)| >= cfg.OutSize() {
      assert |p'.Mem(b)| == |p.Mem(b)|;
    }
  }

  lemma StopSizes(v: Video, cardStopped: bool)
    ensures SameSizes(v.pool, StopZcAll(v, cardStopped).pool)
  {
    var z := StopMarks(v.zc, cardStopped);
    CompleteFreedMoves(v.pool, z, Freed(z, z.release), v.cfg.OutSize());
    MovesSizes(v.pool, StopZcAll(v, cardStopped).pool);
  }

  lemma EndSizes(v: Video, state: VbState, seqno: nat)
    ensures SameSizes(v.pool, EndFrame(v, state, seqno).pool)
  {
    var z := Advance(v.zc, state, seqno);
    CompleteFreedMoves(v.pool, z, Freed(z, z.release), v.cfg.OutSize());
    MovesSizes(v.pool, EndFrame(v, state, seqno).pool);
  }

  lemma TopSizes(was: Video, v: Video, i: HalfIn)
    requires |was.cfg.len| == 4
    ensures SameSizes(v.pool, TopFrame(was, v, i).pool)
  {
    var a := LoseIf(v.asm);
    var zowner := if was.zc.cur.Some? then Some(v.pool.Owner(was.zc.cur.value)) else None;
    var p0 := if zowner.Some? then FailHeld(v.pool, zowner.value) else v.pool;
    if zowner.Some? { FailHeldFails(v.pool, zowner.value); } else { FailsNone(v.pool); }
    MovesSizes(v.pool, p0);
    var p := HoldBuffers(p0, a.seqno, v.cfg.OutSize(), zowner);
    HoldBuffersFails(p0, a.seqno, v.cfg.OutSize(), zowner);
    MovesSizes(p0, p);
    BlitSizes(p, p.frameBufs, 0, TopBytes(was, i));
    SameSizesOn(v.pool, p0, p);
    if TopFrame(was, v, i).pool != p {
      SameSizesOn(v.pool, p, TopFrame(was, v, i).pool);
    }
  }

  lemma FillSizes(was: Video, v: Video, i: HalfIn)
    requires |was.cfg.len| == 4 && |was.asm.frameLen| == 4 && v.cfg == was.cfg
    ensures SameSizes(v.pool, Fill(was, v, i).pool)
    ensures |Fill(was, v, i).staging| == |was.asm.staging|
  {
    var p, size := v.pool, v.cfg.OutSize();
    FillPool(was, v, i);
    if LastPart(was) >= 0 {
      var staging := Blit(was.asm.staging, BottomOff(was.asm), BottomBytes(was, i));
      if was.asm.hdcp || i.hdcp {
        BlankSizes(was, p, size);
      } else if v.cfg.Direct() {
        BlitSizes(p, p.frameBufs, BottomOff(was.asm), BottomBytes(was, i));
      } else if p.frameBufs != [] {
        match Render(v.cfg, Frames.Take(staging, FrameBytes(was.asm.frame.w, was.asm.frame.h)), was.asm.frame,
                     was.asm.frameLen)
        case None =>
        case Some(out) => BlitSizes(p, p.frameBufs, 0, out);
      }
    }
  }

  lemma BlankSizes(was: Video, p: Pool, size: nat)
    ensures SameSizes(p, BlankAll(was, p, size))
  {
    var p1 := if was.zc.cur.Some? then BlitAll(p, [was.zc.cur.value], 0, Black(size)) else p;
    if was.zc.cur.Some? { BlitSizes(p, [was.zc.cur.value], 0, Black(size)); }
    BlitSizes(p1, p1.frameBufs, 0, Black(size));
    SameSizesOn(p, p1, BlankAll(was, p, size));
  }

  lemma BottomSizes(was: Video, v: Video, i: HalfIn)
    requires |was.cfg.len| == 4 && |was.asm.frameLen| == 4 && v.cfg == was.cfg
    ensures SameSizes(v.pool, BottomFrame(was, v, i).pool)
    ensures |BottomFrame(was, v, i).asm.staging| == |was.asm.staging|
  {
    var f := Fill(was, v, i);
    FillSizes(was, v, i);
    var state := FrameState(was, f, i);
    var a := v.asm.(topDone := false, staging := f.staging,
                    stable := if state.Done? then v.asm.stable + 1 else v.asm.stable);
    var v0 := v.(pool := f.pool, asm := a);
    EndSizes(v0, state, a.seqno);
    var v1 := EndFrame(v0, state, a.seqno);
    FinishMoves(v1.pool, state, a.seqno, v.cfg.OutSize());
    MovesSizes(v1.pool, Finish(v1.pool, state, a.seqno, v.cfg.OutSize()));
    SameSizesOn(v.pool, f.pool, v1.pool);
    SameSizesOn(v.pool, v1.pool, Finish(v1.pool, state, a.seqno, v.cfg.OutSize()));
  }

  // ---- half events ----

  /** A buffer zero-copy picks has room for the longest run. */
  lemma PickFits(v: Video, i: HalfIn)
    requires |v.cfg.len| == 4
    ensures var picked := Picked(v, PickFrom(v, i.wanted, i.hdcpAtPick));
            picked.Some? ==> v.cfg.Direct() && |v.pool.Mem(picked.value)| >= Span(v.cfg.len)
  {
  }

  lemma TopStartCard(v: Video, i: HalfIn)
    requires |v.cfg.len| == 4 && CardFits(v.zc, v.pool, v.cfg)
    ensures var v' := TopStart(v, i); CardFits(v'.zc, v'.pool, v.cfg)
  {
    var v', picked := TopStart(v, i), Picked(v, PickFrom(v, i.wanted, i.hdcpAtPick));
    PickFits(v, i);
    TopNext(v.zc, picked, InTime(v.asm, i));
    forall b: Id | v'.zc.cur == Some(b) || v'.zc.next == Some(b)
      ensures v.cfg.Direct() && |v'.pool.Mem(b)| >= Span(v.cfg.len)
    {
      assert v'.pool.Mem(b) == v.pool.Mem(b);
    }
  }

  lemma TopStartSizes(v: Video, i: HalfIn)
    ensures SameSizes(v.pool, TopStart(v, i).pool) && TopStart(v, i).cfg == v.cfg
    ensures TopStart(v, i).asm.frame == v.asm.frame && TopStart(v, i).asm.frameLen == v.asm.frameLen
    ensures TopStart(v, i).asm.staging == v.asm.staging && TopStart(v, i).asm.topDone == v.asm.topDone
  {
  }

  lemma TopStartFits(v: Video, i: HalfIn)
    requires Whole(v) && Fits(v)
    ensures Fits(TopStart(v, i))
  {
    TopStartCard(v, i);
    TopStartSizes(v, i);
    SizesFit(v.pool, TopStart(v, i).pool, v.cfg);
  }

  lemma AdvanceCur(z: Zc, inTime: bool, state: VbState, seqno: nat)
    ensures FrameEnd(BottomHalf(z, inTime), state, seqno).cur == z.next
    ensures FrameEnd(BottomHalf(z, inTime), state, seqno).next == None
  {
    ProgramFrame(Count(z, false), false, z.next, inTime);
  }

  /** After the end of a frame the next frame's buffer is the current one. */
  lemma EndFits(v: Video, v': Video, inTime: bool, state: VbState, seqno: nat)
    requires Fits(v) && v'.cfg == v.cfg && SameSizes(v.pool, v'.pool)
    requires v'.zc == FrameEnd(BottomHalf(v.zc, inTime), state, seqno)
    requires !v'.asm.topDone && |v'.asm.frameLen| == 4 && |v'.asm.staging| == STAGING_BYTES
    ensures Fits(v')
  {
    AdvanceCur(v.zc, inTime, state, seqno);
    SizesFit(v.pool, v'.pool, v.cfg);
    forall b: Id | v'.zc.cur == Some(b) || v'.zc.next == Some(b)
      ensures v'.cfg.Direct() && |v'.pool.Mem(b)| >= Span(v'.cfg.len)
    {
      assert v.zc.next == Some(b);
      assert |v'.pool.Mem(b)| == |v.pool.Mem(b)|;
    }
  }

  lemma TopFrameFits(was: Video, v: Video, i: HalfIn)
    requires Fits(v) && Acts(v) && |was.cfg.len| == 4
    ensures Fits(TopFrame(was, v, i))
  {
    var v' := TopFrame(was, v, i);
    TopSizes(was, v, i);
    SizesFit(v.pool, v'.pool, v.cfg);
    assert forall b: Id :: |v'.pool.Mem(b)| == |v.pool.Mem(b)|;
  }

  lemma HalfFits(v: Video, i: HalfIn)
    requires Whole(v) && Fits(v)
    ensures Fits(VideoHalf(v, i))
  {
    var size := v.cfg.OutSize();
    if Acts(v) && i.isTop {
      TopStartFits(v, i);
      if !Stale(TopStart(v, i), i) { TopFrameFits(v, TopStart(v, i), i); }
    } else if Acts(v) {
      var v1 := BottomStart(v, i);
      var v' := VideoHalf(v, i);
      if Stale(v1, i) {
        EndSizes(v1.(asm := LoseIf(v1.asm)), Error, 0);
        EndFits(v, v', InTime(v.asm, i), Error, 0);
      } else if NoTop(v) {
        EndSizes(v1.(asm := Lose(v1.asm)), Error, 0);
        EndFits(v, v', InTime(v.asm, i), Error, 0);
      } else {
        BottomSizes(v, v1, i);
        EndFits(v, v', InTime(v.asm, i), FrameState(v, Fill(v, v1, i), i), v.asm.seqno);
      }
    }
  }

  // ---- the other operations ----

  /** An operation that leaves the sizes, the lengths and the zero-copy buffers alone. */
  lemma SameFits(v: Video, v': Video)
    requires Fits(v) && SameSizes(v.pool, v'.pool)
    requires v'.cfg == v.cfg.(running := v'.cfg.running)
    requires (v'.zc.cur == v.zc.cur && v'.zc.next == v.zc.next) || (v'.zc.cur.None? && v'.zc.next.None?)
    requires v'.asm.frame == v.asm.frame && v'.asm.frameLen == v.asm.frameLen && (v'.asm.topDone ==> v.asm.topDone)
    requires |v'.asm.staging| == STAGING_BYTES
    ensures Fits(v')
  {
    forall b: Id | b in v'.pool.owner ensures b in v'.pool.mem && |v'.pool.Mem(b)| >= v'.cfg.OutSize() {
      assert |v'.pool.Mem(b)| == |v.pool.Mem(b)|;
    }
    forall b: Id | v'.zc.cur == Some(b) || v'.zc.next == Some(b)
      ensures v'.cfg.Direct() && |v'.pool.Mem(b)| >= Span(v'.cfg.len)
    {
      assert |v'.pool.Mem(b)| == |v.pool.Mem(b)|;
    }
  }

  lemma StopFits(v: Video, cardStopped: bool)
    requires Fits(v)
    ensures Fits(StopZcAll(v, cardStopped))
    ensures StopZcAll(v, cardStopped).zc.cur.None? && StopZcAll(v, cardStopped).zc.next.None?
  {
    StopSizes(v, cardStopped);
    StopOccurs(v.zc, cardStopped, 0);
    SameFits(v, StopZcAll(v, cardStopped));
  }

  lemma ResizeFits(v: Video, g: Geometry, wasRunning: bool)
    requires Fits(v) && SizeOk(g)
    ensures Fits(SizeChange(v, g, wasRunning))
  {
    StopFits(v, wasRunning);
    CutCovers(FrameBytes(g.w, g.h));
  }

  lemma NoVideoSizes(v: Video)
    ensures SameSizes(v.pool, NoVideo(v).pool)
  {
    var size := v.cfg.OutSize();
    HoldBuffersFails(v.pool, v.asm.seqno, size, None);
    var p := HoldBuffers(v.pool, v.asm.seqno, size, None);
    MovesSizes(v.pool, p);
    var p1 := BlitAll(p, p.frameBufs, 0, Blue(size));
    BlitSizes(p, p.frameBufs, 0, Blue(size));
    FinishMoves(p1, Done, v.asm.seqno, size);
    MovesSizes(p1, NoVideo(v).pool);
    SameSizesOn(v.pool, p, p1);
    SameSizesOn(v.pool, p1, NoVideo(v).pool);
  }

  lemma NoVideoFits(v: Video)
    requires Fits(v)
    ensures Fits(NoVideo(v))
  {
    NoVideoSizes(v);
    SameFits(v, NoVideo(v));
  }

  lemma {:induction false} ReturnQueueSizes(p: Pool, c: Cid)
    ensures SameSizes(p, ReturnQueue(p, c))
    decreases |p.Of(c).queue|
  {
    if p.Of(c).queue != [] {
      ReturnQueueSizes(ReturnOne(p, c), c);
      assert SameSizes(p, ReturnOne(p, c));
      SameSizesOn(p, ReturnOne(p, c), ReturnQueue(p, c));
    }
  }

  lemma StreamStartFits(v: Video, c: Cid)
    requires Fits(v)
    ensures Fits(StreamOn(v, c))
  {
    var v1 := JoinStream(v, c);
    SameFits(v, v1);
    if v.asm.users == 0 {
      var v2 := v1.(asm := v1.asm.(seqno := 0, topDone := false));
      SameFits(v1, v2);
      StopFits(v2, true);
      SameFits(StopZcAll(v2, true), StreamOn(v, c));
    }
  }

  /** The output size can change only while no buffer exists at all. */
  lemma SetOutputFits(v: Video, w: nat, h: nat)
    requires Whole(v) && Fits(v) && Allowed(v, SetOutput(w, h))
    ensures Fits(Do(v, SetOutput(w, h)))
  {
    if v.pool.owner == map[] {
      forall b: Id ensures !v.zc.Held(b) {
        NotOwned(v.zc, v.pool, b);
      }
      assert v.zc.cur.Some? ==> v.zc.Held(v.zc.cur.value);
      assert v.zc.next.Some? ==> v.zc.Held(v.zc.next.value);
    } else {
      assert Do(v, SetOutput(w, h)) == v;
    }
  }

  lemma OtherMem(p: Pool, op: Op, x: Id)
    requires op.Allocate? || op.Free?
    ensures op.Free? || x != op.b ==> PoolOp(p, op).Mem(x) == p.Mem(x) && (x in p.mem ==> x in PoolOp(p, op).mem)
  {
  }

  lemma AllocateFits(v: Video, op: Op)
    requires Whole(v) && Fits(v) && Allowed(v, op) && (op.Allocate? || op.Free?)
    ensures Fits(v.(pool := PoolOp(v.pool, op)))
  {
    var p' := PoolOp(v.pool, op);
    if op.Allocate? { NotOwned(v.zc, v.pool, op.b); }
    forall x: Id | v.zc.cur == Some(x) || v.zc.next == Some(x)
      ensures v.cfg.Direct() && |p'.Mem(x)| >= Span(v.cfg.len)
    {
      assert v.zc.Held(x);
      OtherMem(v.pool, op, x);
    }
    forall x: Id | x in p'.owner ensures x in p'.mem && |p'.Mem(x)| >= v.cfg.OutSize() {
      OtherMem(v.pool, op, x);
    }
  }

  lemma PoolOpFits(v: Video, op: Op)
    requires Whole(v) && Fits(v) && Allowed(v, op)
    ensures Fits(v.(pool := PoolOp(v.pool, op)))
  {
    if op.Allocate? || op.Free? {
      AllocateFits(v, op);
    } else {
      assert SameSizes(v.pool, PoolOp(v.pool, op));
      SameFits(v, v.(pool := PoolOp(v.pool, op)));
    }
  }

  // ---- the operations change no buffer's size or address ----

  lemma HalfSizes(v: Video, i: HalfIn)
    requires Shape(v)
    ensures SameSizes(v.pool, VideoHalf(v, i).pool) && VideoHalf(v, i).cfg == v.cfg
  {
    if Acts(v) && i.isTop {
      var v1 := TopStart(v, i);
      assert SameSizes(v.pool, v1.pool);
      if !Stale(v1, i) {
        TopSizes(v, v1, i);
        SameSizesOn(v.pool, v1.pool, TopFrame(v, v1, i).pool);
      }
    } else if Acts(v) {
      var v1 := BottomStart(v, i);
      if Stale(v1, i) {
        EndSizes(v1.(asm := LoseIf(v1.asm)), Error, 0);
      } else if NoTop(v) {
        EndSizes(v1.(asm := Lose(v1.asm)), Error, 0);
      } else {
        BottomSizes(v, v1, i);
      }
    }
  }

  lemma StreamStartSizes(v: Video, c: Cid)
    ensures SameSizes(v.pool, StreamOn(v, c).pool)
  {
    var v1 := Started(v, c);
    assert SameSizes(v.pool, v1.pool);
    StopSizes(v1, true);
    SameSizesOn(v.pool, v1.pool, StopZcAll(v1, true).pool);
  }

  lemma StreamStopSizes(v: Video, c: Cid)
    ensures SameSizes(v.pool, StreamOffQueue(v, c).pool)
  {
    var p := v.pool.PutCtx(c, v.pool.Of(c).(streaming := false));
    assert SameSizes(v.pool, p);
    ReturnQueueSizes(p, c);
    SameSizesOn(v.pool, p, ReturnQueue(p, c));
  }

  lemma StreamStopHeldSizes(v: Video, c: Cid)
    ensures SameSizes(v.pool, StreamOffHeld(v, c).pool)
  {
    var v1 := v.(pool := FailHeld(v.pool, c));
    FailHeldFails(v.pool, c);
    MovesSizes(v.pool, v1.pool);
    StopSizes(v1, false);
    SameSizesOn(v.pool, v1.pool, StopZcAll(v1, false).pool);
  }

  lemma OpSizes(v: Video, op: Op)
    requires Shape(v) && Allowed(v, op) && !op.Allocate? && !op.Free?
    ensures SameSizes(v.pool, Do(v, op).pool)
  {
    match op
    case Half(i) => HalfSizes(v, i);
    case NoSignal => NoVideoSizes(v);
    case Resize(_, wasRunning) => StopSizes(v, wasRunning);
    case StreamStart(c) => StreamStartSizes(v, c);
    case StreamStop(c) => StreamStopSizes(v, c);
    case StreamStopHeld(c) => StreamStopHeldSizes(v, c);
    case Quiesced => StopSizes(v, true);
    case _ =>
  }

  // ---- and what they do to the fit ----

  /** Every operation keeps the sizes matched. */
  lemma KeepsFits(v: Video, op: Op)
    requires Whole(v) && Fits(v) && Allowed(v, op)
    ensures Fits(Do(v, op))
  {
    match op
    case Half(i) => HalfFits(v, i);
    case NoSignal => NoVideoFits(v);
    case Resize(g, wasRunning) => ResizeFits(v, g, wasRunning);
    case StreamStart(c) => StreamStartFits(v, c);
    case StreamStopHeld(c) => StreamStopHeldFits(v, c);
    case Quiesced => StopFits(v, true);
    case SetOutput(w, h) => SetOutputFits(v, w, h);
    case Queue(_) => QuietFits(v, op);
    case StreamStop(_) => QuietFits(v, op);
    case StreamStopped(_) => QuietFits(v, op);
    case SetRunning(_) => QuietFits(v, op);
    case _ => PoolOpFits(v, op);
  }

  lemma StreamStopHeldFits(v: Video, c: Cid)
    requires Fits(v)
    ensures Fits(StreamOffHeld(v, c))
  {
    var v1 := v.(pool := FailHeld(v.pool, c));
    FailHeldFails(v.pool, c);
    MovesSizes(v.pool, v1.pool);
    SameFits(v, v1);
    StopFits(v1, false);
  }

  lemma QuietFits(v: Video, op: Op)
    requires Fits(v) && Allowed(v, op) && (op.Queue? || op.StreamStop? || op.StreamStopped? || op.SetRunning?)
    ensures Fits(Do(v, op))
  {
    OpSizes(v, op);
    SameFits(v, Do(v, op));
  }

  // ---- what is read and written ----

  lemma CutOffsets(frame: nat)
    ensures var len := Cut(frame);
            && QuarterOff(len, 0) == 0 && QuarterOff(len, 1) == len[0]
            && QuarterOff(len, 2) == len[0] + len[1] && QuarterOff(len, 3) == len[0] + len[1] + len[2]
            && len[0] <= Max(len) && len[1] <= Max(len) && len[2] <= Max(len) && len[3] == Max(len)
            && len[0] + len[1] + len[2] <= frame < len[0] + len[1] + len[2] + len[3]
  {
    var len := Cut(frame);
    CutCovers(frame);
    MaxIsLargest(len);
    assert len[0] in len && len[1] in len && len[2] in len;
    assert QuarterOff(len, 0) == 0;
    assert QuarterOff(len, 1) == QuarterOff(len, 0) + len[0];
    assert QuarterOff(len, 2) == QuarterOff(len, 1) + len[1];
    assert QuarterOff(len, 3) == QuarterOff(len, 2) + len[2];
  }

  /** A quarter is read whole, from the DMA buffers or from the zero-copy buffer. */
  lemma SourceHolds(v: Video, i: HalfIn, q: nat)
    requires Fits(v) && HalfOk(v.cfg, i) && q < 2
    ensures |Source(v, i, q)| >= v.cfg.len[if i.isTop then q else 2 + q]
  {
    CutOffsets(FrameBytes(v.cfg.geo.w, v.cfg.geo.h));
    if v.zc.cur.Some? {
      assert |v.pool.Mem(v.zc.cur.value)| >= Span(v.cfg.len);
    }
  }

  /** Both halves are read whole; the last quarter is cut to the frame. */
  lemma ReadsAreFull(v: Video, i: HalfIn)
    requires Fits(v) && HalfOk(v.cfg, i)
    ensures i.isTop ==> |TopBytes(v, i)| == v.cfg.len[0] + v.cfg.len[1]
    ensures !i.isTop && !NoTop(v) ==>
              && v.asm.frameLen == v.cfg.len && BottomOff(v.asm) == v.cfg.len[0] + v.cfg.len[1]
              && LastPart(v) >= 0
              && |BottomBytes(v, i)| == FrameBytes(v.cfg.geo.w, v.cfg.geo.h) - BottomOff(v.asm)
  {
    SourceHolds(v, i, 0);
    SourceHolds(v, i, 1);
    CutOffsets(FrameBytes(v.cfg.geo.w, v.cfg.geo.h));
  }

  lemma DoubledSize(raw: seq<byte>, w: nat, h: nat)
    requires w > 0 && |raw| == FrameBytes(w, h)
    ensures |Doubled(raw, w * 2)| == FrameBytes(w, 2 * h) == 2 * FrameBytes(w, h)
  {
    assert w * h * 2 == h * (w * 2);
    DoubledLength(raw, w * 2, h);
    assert 2 * h * (w * 2) == 2 * (h * (w * 2));
    assert w * (2 * h) == 2 * (w * h);
  }

  /** The rendered frame fills the output size, and doubling stays inside the scaler's frame. */
  lemma RenderFits(cfg: Config, raw: seq<byte>, g: Geometry, len: seq<nat>)
    requires ScaleFits(cfg) && SizeOk(g) && |raw| == FrameBytes(g.w, g.h)
    ensures Render(cfg, raw, g, len).Some? ==> |Render(cfg, raw, g, len).value| == cfg.OutSize()
    ensures g.il && g.w > 0 ==> |Doubled(raw, g.w * 2)| <= STAGING_BYTES
  {
    if g.il && g.w > 0 {
      FrameBytesMax(g);
      DoubledSize(raw, g.w, g.h);
      if g.w == cfg.outW && 2 * g.h == cfg.outH {
        assert FrameBytes(g.w, 2 * g.h) == cfg.OutSize();
      }
    }
  }

  /**
   * Every copy a half event makes stays inside its target: an app's buffer or
   * the staging frame.
   */
  lemma CopiesStayInside(v: Video, i: HalfIn, b: Id)
    requires Whole(v) && Fits(v) && HalfOk(v.cfg, i) && Acts(v) && b in v.pool.owner
    ensures i.isTop && v.cfg.Direct() ==> |TopBytes(v, i)| <= |v.pool.Mem(b)|
    ensures i.isTop ==> |TopBytes(v, i)| <= |v.asm.staging|
    ensures !i.isTop && !NoTop(v) ==> BottomOff(v.asm) + |BottomBytes(v, i)| <= |v.asm.staging|
    ensures !i.isTop && !NoTop(v) && v.cfg.Direct() ==> BottomOff(v.asm) + |BottomBytes(v, i)| <= |v.pool.Mem(b)|
    ensures !i.isTop && !NoTop(v) ==>
              var raw := Frames.Take(Blit(v.asm.staging, BottomOff(v.asm), BottomBytes(v, i)),
                                     FrameBytes(v.asm.frame.w, v.asm.frame.h));
              var out := Render(v.cfg, raw, v.asm.frame, v.asm.frameLen);
              out.Some? ==> |out.value| == v.cfg.OutSize() <= |v.pool.Mem(b)|
  {
    ReadsAreFull(v, i);
    FrameBytesMax(v.cfg.geo);
    CutOffsets(FrameBytes(v.cfg.geo.w, v.cfg.geo.h));
    if !i.isTop && !NoTop(v) {
      var staging := Blit(v.asm.staging, BottomOff(v.asm), BottomBytes(v, i));
      RenderFits(v.cfg, Frames.Take(staging, FrameBytes(v.asm.frame.w, v.asm.frame.h)), v.asm.frame, v.asm.frameLen);
    }
  }
}
