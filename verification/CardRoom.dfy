/**
 * A buffer the card is pointed at can take the longest run of any quarter,
 * with the lengths and windows of now: what the operations keep of that.
 */
module CardRoom {
  import opened Basics
  import opened ZeroCopy
  import opened Protocol
  import opened Frames
  import opened Driver
  import opened StreamOff
  import opened Bounds

  lemma SameBufferOk(v: Video, v': Video, b: Id)
    requires |v'.pool.Mem(b)| == |v.pool.Mem(b)| && v'.pool.Dma(b) == v.pool.Dma(b)
    requires b in v'.pool.mapped <==> b in v.pool.mapped
    requires v'.cfg.len == v.cfg.len && v'.cfg.table == v.cfg.table
    ensures ZcBufferOk(v', b) <==> ZcBufferOk(v, b)
  {
  }

  lemma OpLens(v: Video, op: Op)
    requires Shape(v) && Allowed(v, op) && !op.Resize?
    ensures Do(v, op).cfg.len == v.cfg.len && Do(v, op).cfg.table == v.cfg.table
  {
    if op.Half? { HalfSizes(v, op.i); }
  }

  /** A buffer zero-copy has stays as fit as it was. */
  lemma StaysOk(v: Video, op: Op, b: Id)
    requires Whole(v) && Shape(v) && Allowed(v, op) && !op.Resize? && v.zc.Held(b) && ZcBufferOk(v, b)
    ensures ZcBufferOk(Do(v, op), b)
  {
    OpLens(v, op);
    if op.Allocate? || op.Free? {
      NotMoved(v, op, b);
      OtherMem(v.pool, op, b);
    } else {
      OpSizes(v, op);
      assert |Do(v, op).pool.Mem(b)| == |v.pool.Mem(b)|;
    }
    SameBufferOk(v, Do(v, op), b);
  }

  // ---- where the card is pointed ----

  lemma PickedOk(v: Video, i: HalfIn, b: Id)
    requires Shape(v) && Picked(v, PickFrom(v, i.wanted, i.hdcpAtPick)) == Some(b)
    ensures ZcBufferOk(v, b) && ZcBufferOk(VideoHalf(v, i), b)
  {
    HalfSizes(v, i);
    assert |VideoHalf(v, i).pool.Mem(b)| == |v.pool.Mem(b)|;
    SameBufferOk(v, VideoHalf(v, i), b);
  }

  /** A half points the card at the buffer it picks, or at one a pair is pointed at already. */
  lemma HalfPoints(v: Video, i: HalfIn, b: Id)
    requires Owned(v.zc) && Shape(v) && VideoHalf(v, i).zc.Pointed(b)
    ensures v.zc.Pointed(b) || Picked(v, PickFrom(v, i.wanted, i.hdcpAtPick)) == Some(b)
  {
    HalfProjects(v, i);
    if Acts(v) && i.isTop {
      var picked := Picked(v, PickFrom(v, i.wanted, i.hdcpAtPick));
      ProgramFrame(TakeNext(Count(v.zc, true), picked), true, picked, InTime(v.asm, i));
    } else if Acts(v) {
      BottomPoints(v.zc, InTime(v.asm, i), Ending(v, i).0, Ending(v, i).1);
    }
  }

  lemma BottomPoints(z: Zc, inTime: bool, state: VbState, seqno: nat)
    ensures FrameEnd(BottomHalf(z, inTime), state, seqno).prog == z.prog.(bot := z.next)
  {
    ProgramFrame(Count(z, false), false, z.next, inTime);
  }

  lemma StopPoints(z: Zc, cardStopped: bool)
    ensures Stop(z, cardStopped).prog == Two(None, None)
  {
    StopOccurs(z, cardStopped, 0);
  }

  /** The buffers the card is pointed at after an operation are fit for it. */
  lemma PointedOk(v: Video, op: Op, b: Id)
    requires Whole(v) && Shape(v) && Allowed(v, op) && Do(v, op).zc.Pointed(b)
    requires v.zc.Pointed(b) ==> ZcBufferOk(v, b)
    ensures ZcBufferOk(Do(v, op), b)
  {
    if op.Half? {
      HalfPoints(v, op.i, b);
      if v.zc.Pointed(b) { StaysOk(v, op, b); } else { PickedOk(v, op.i, b); }
    } else {
      SameZc(v, op);
      StopPoints(v.zc, true);
      StopPoints(v.zc, false);
      StaysOk(v, op, b);
    }
  }
}
