/**
 * STREAMOFF gets every buffer of its consumer back: once nothing is queued or
 * held for it, nothing comes in flight again, and after the engine was
 * stopped nothing is.
 */
module StreamOff {
  import opened Basics
  import opened EventCounter
  import opened ZeroCopy
  import opened Protocol
  import opened Frames
  import opened Delivery
  import opened Driver
  import opened Effects
  import opened Bounds

  /** A consumer after the first part of STREAMOFF; after the second it holds nothing either. */
  predicate Off(r: Consumer) {
    !r.streaming && r.queue == []
  }

  predicate Idle(r: Consumer) {
    Off(r) && r.held.None?
  }

  predicate StaysQuiet(r: Consumer, r': Consumer) {
    (Off(r) ==> Off(r')) && (Idle(r) ==> Idle(r'))
  }

  /** The operations that give a consumer buffers: they come with its next STREAMON. */
  predicate Begins(v: Video, op: Op, c: Cid) {
    match op
    case StreamStart(d) => d == c
    case Queue(b) => v.pool.Owner(b) == c
    case _ => false
  }

  lemma MovesQuiet(p: Pool, p': Pool, c: Cid)
    requires exists made :: Moves(p, p', made)
    ensures StaysQuiet(p.Of(c), p'.Of(c))
  {
    assert ConsumerMoves(p.Of(c), p'.Of(c));
  }

  lemma QuietTwice(r: Consumer, r1: Consumer, r2: Consumer)
    requires StaysQuiet(r, r1) && StaysQuiet(r1, r2)
    ensures StaysQuiet(r, r2)
  {
  }

  lemma StopQuiet(v: Video, cardStopped: bool, c: Cid)
    ensures StaysQuiet(v.pool.Of(c), StopZcAll(v, cardStopped).pool.Of(c))
  {
    var z := StopMarks(v.zc, cardStopped);
    CompleteFreedMoves(v.pool, z, Freed(z, z.release), v.cfg.OutSize());
    MovesQuiet(v.pool, StopZcAll(v, cardStopped).pool, c);
  }

  lemma EndQuiet(v: Video, state: VbState, seqno: nat, c: Cid)
    ensures StaysQuiet(v.pool.Of(c), EndFrame(v, state, seqno).pool.Of(c))
  {
    var z := Advance(v.zc, state, seqno);
    CompleteFreedMoves(v.pool, z, Freed(z, z.release), v.cfg.OutSize());
    MovesQuiet(v.pool, EndFrame(v, state, seqno).pool, c);
  }

  lemma TopStartQuiet(v: Video, i: HalfIn, c: Cid)
    ensures StaysQuiet(v.pool.Of(c), TopStart(v, i).pool.Of(c))
  {
    FoundIs(v.pool, v.pool.consumers, v.asm.zcCtx);
  }

  lemma TopFrameQuiet(was: Video, v: Video, i: HalfIn, c: Cid)
    requires |was.cfg.len| == 4
    ensures StaysQuiet(v.pool.Of(c), TopFrame(was, v, i).pool.Of(c))
  {
    var a := LoseIf(v.asm);
    var zowner := if was.zc.cur.Some? then Some(v.pool.Owner(was.zc.cur.value)) else None;
    var p0 := if zowner.Some? then FailHeld(v.pool, zowner.value) else v.pool;
    if zowner.Some? { FailHeldFails(v.pool, zowner.value); } else { FailsNone(v.pool); }
    MovesQuiet(v.pool, p0, c);
    var p := HoldBuffers(p0, a.seqno, v.cfg.OutSize(), zowner);
    HoldBuffersFails(p0, a.seqno, v.cfg.OutSize(), zowner);
    MovesQuiet(p0, p, c);
    assert TopFrame(was, v, i).pool.Of(c) == p.Of(c);
  }

  lemma FillSame(was: Video, v: Video, i: HalfIn, c: Cid)
    requires |was.cfg.len| == 4 && |was.asm.frameLen| == 4 && v.cfg == was.cfg
    ensures Fill(was, v, i).pool.Of(c) == v.pool.Of(c)
  {
  }

  lemma BottomFrameQuiet(was: Video, v: Video, i: HalfIn, c: Cid)
    requires |was.cfg.len| == 4 && |was.asm.frameLen| == 4 && v.cfg == was.cfg
    ensures StaysQuiet(v.pool.Of(c), BottomFrame(was, v, i).pool.Of(c))
  {
    var f := Fill(was, v, i);
    FillSame(was, v, i, c);
    var state := FrameState(was, f, i);
    var a := v.asm.(topDone := false, staging := f.staging,
                    stable := if state.Done? then v.asm.stable + 1 else v.asm.stable);
    var v0 := v.(pool := f.pool, asm := a);
    EndQuiet(v0, state, a.seqno, c);
    var v1 := EndFrame(v0, state, a.seqno);
    FinishMoves(v1.pool, state, a.seqno, v.cfg.OutSize());
    MovesQuiet(v1.pool, Finish(v1.pool, state, a.seqno, v.cfg.OutSize()), c);
  }

  lemma HalfQuiet(v: Video, i: HalfIn, c: Cid)
    requires Shape(v)
    ensures StaysQuiet(v.pool.Of(c), VideoHalf(v, i).pool.Of(c))
  {
    if Acts(v) && i.isTop {
      var v1 := TopStart(v, i);
      TopStartQuiet(v, i, c);
      if !Stale(v1, i) { TopFrameQuiet(v, v1, i, c); }
    } else if Acts(v) {
      var v1 := BottomStart(v, i);
      if Stale(v1, i) {
        EndQuiet(v1.(asm := LoseIf(v1.asm)), Error, 0, c);
      } else if NoTop(v) {
        EndQuiet(v1.(asm := Lose(v1.asm)), Error, 0, c);
      } else {
        BottomFrameQuiet(v, v1, i, c);
      }
    }
  }

  lemma NoVideoQuiet(v: Video, c: Cid)
    ensures StaysQuiet(v.pool.Of(c), NoVideo(v).pool.Of(c))
  {
    var size := v.cfg.OutSize();
    HoldBuffersFails(v.pool, v.asm.seqno, size, None);
    var p := HoldBuffers(v.pool, v.asm.seqno, size, None);
    MovesQuiet(v.pool, p, c);
    var p1 := BlitAll(p, p.frameBufs, 0, Blue(size));
    assert p1.Of(c) == p.Of(c);
    FinishMoves(p1, Done, v.asm.seqno, size);
    MovesQuiet(p1, Finish(p1, Done, v.asm.seqno, size), c);
  }

  lemma {:induction false} ReturnQueueQuiet(p: Pool, d: Cid, c: Cid)
    ensures StaysQuiet(p.Of(c), ReturnQueue(p, d).Of(c))
    ensures !p.Of(d).streaming ==> Off(ReturnQueue(p, d).Of(d))
    decreases |p.Of(d).queue|
  {
    if p.Of(d).queue != [] {
      ReturnQueueQuiet(ReturnOne(p, d), d, c);
    }
  }

  lemma StreamStopHeldQuiet(v: Video, d: Cid, c: Cid)
    ensures StaysQuiet(v.pool.Of(c), StreamOffHeld(v, d).pool.Of(c))
    ensures Off(v.pool.Of(d)) ==> Idle(StreamOffHeld(v, d).pool.Of(d))
  {
    FailHeldFails(v.pool, d);
    MovesQuiet(v.pool, FailHeld(v.pool, d), c);
    MovesQuiet(v.pool, FailHeld(v.pool, d), d);
    var v1 := v.(pool := FailHeld(v.pool, d));
    assert v1.pool.Of(d).held.None?;
    StopQuiet(v1, false, c);
    StopQuiet(v1, false, d);
  }

  lemma KeepsQuiet(v: Video, op: Op, c: Cid)
    requires Shape(v) && Allowed(v, op) && !Begins(v, op, c)
    ensures StaysQuiet(v.pool.Of(c), Do(v, op).pool.Of(c))
  {
    match op
    case Half(i) => HalfQuiet(v, i, c);
    case NoSignal => NoVideoQuiet(v, c);
    case Resize(g, wasRunning) => StopQuiet(v, wasRunning, c);
    case StreamStart(d) => StreamStartQuiet(v, d, c);
    case StreamStop(d) => ReturnQueueQuiet(v.pool.PutCtx(d, v.pool.Of(d).(streaming := false)), d, c);
    case StreamStopHeld(d) => StreamStopHeldQuiet(v, d, c);
    case Quiesced => StopQuiet(v, true, c);
    case _ => OtherQuiet(v, op, c);
  }

  lemma StreamStartQuiet(v: Video, d: Cid, c: Cid)
    requires c != d
    ensures StaysQuiet(v.pool.Of(c), StreamOn(v, d).pool.Of(c))
  {
    var v1 := Started(v, d);
    StopQuiet(v1, true, c);
  }

  lemma OtherQuiet(v: Video, op: Op, c: Cid)
    requires Shape(v) && Allowed(v, op) && !Begins(v, op, c)
    requires op.Queue? || op.StreamStopped? || op.SetRunning? || op.SetOutput? || op.SetRate? || op.Open?
               || op.Allocate? || op.Free?
             || op.AppWrite?
    ensures StaysQuiet(v.pool.Of(c), Do(v, op).pool.Of(c))
  {
  }

  // ---- the zero-copy side ----

  /** Zero-copy has no buffer of the consumer. */
  ghost predicate NoneTaken(v: Video, c: Cid) {
    forall b: Id :: v.zc.Held(b) ==> v.pool.Owner(b) != c
  }

  ghost predicate Drained(v: Video, c: Cid) {
    Idle(v.pool.Of(c)) && NoneTaken(v, c)
  }

  /** hws_zc_stop() with the card stopped lets every buffer go. */
  lemma StoppedTakesNone(z: Zc)
    requires Owned(z)
    ensures forall b: Id :: !Stop(z, true).Held(b)
  {
    var z1 := StopMarks(z, true);
    StopOwned(z, true);
    ReleaseOwned(z1);
    forall b: Id ensures !Stop(z, true).Held(b) {
      if z1.Held(b) {
        StopRec(z, true, b);
        NextNotReached(z.ev.top);
        NextNotReached(z.ev.bot);
        assert z1.Free(b);
      }
    }
  }

  /** A streaming consumer has the buffer in its queue. */
  ghost predicate Offered(p: Pool, b: Id) {
    exists c: Cid :: p.Of(c).streaming && b in p.Of(c).queue
  }

  /** A buffer with zero-copy, in the frame or in a queue is not one an operation allocates or frees. */
  lemma NotMoved(v: Video, op: Op, b: Id)
    requires Whole(v) && Allowed(v, op) && (v.zc.Held(b) || Offered(v.pool, b))
    ensures op.Allocate? || op.Free? ==> op.b != b
  {
    if op.Allocate? { NotOwned(v.zc, v.pool, op.b); }
    if op.Free? { AppHasIt(v.zc, v.pool, op.b); }
  }

  /** The owners of the buffers an operation finds with zero-copy or queued stay the same. */
  lemma OwnersStay(v: Video, op: Op, b: Id)
    requires Whole(v) && Shape(v) && Allowed(v, op) && (v.zc.Held(b) || Offered(v.pool, b))
    ensures Do(v, op).pool.Owner(b) == v.pool.Owner(b)
  {
    NotMoved(v, op, b);
    if !op.Allocate? && !op.Free? { OpSizes(v, op); }
  }

  /** Only half events and hws_zc_stop() touch the zero-copy state. */
  lemma SameZc(v: Video, op: Op)
    requires Shape(v) && Allowed(v, op)
    ensures op.Resize? ==> Do(v, op).zc == Stop(v.zc, op.wasRunning)
    ensures op.StreamStart? ==> Do(v, op).zc == v.zc || Do(v, op).zc == Stop(v.zc, true)
    ensures op.StreamStopHeld? ==> Do(v, op).zc == v.zc || Do(v, op).zc == Stop(v.zc, false)
    ensures op.Quiesced? ==> Do(v, op).zc == Stop(v.zc, true)
    ensures !op.Half? && !op.Resize? && !op.StreamStart? && !op.StreamStopHeld? && !op.Quiesced? ==>
              Do(v, op).zc == v.zc
  {
  }

  /** A buffer zero-copy has after an operation it had before, or it was queued by a streaming consumer. */
  lemma TakenFrom(v: Video, op: Op, b: Id)
    requires Whole(v) && Shape(v) && Allowed(v, op) && Do(v, op).zc.Held(b)
    ensures v.zc.Held(b) || Offered(v.pool, b)
  {
    if op.Half? {
      HalfTakenFrom(v, op.i, b);
    } else {
      SameZc(v, op);
      if Do(v, op).zc == Stop(v.zc, true) {
        StopTakes(v.zc, true, b);
      } else if Do(v, op).zc == Stop(v.zc, false) {
        StopTakes(v.zc, false, b);
      }
    }
  }

  lemma StopTakes(z: Zc, cardStopped: bool, b: Id)
    requires Owned(z) && Stop(z, cardStopped).Held(b)
    ensures z.Held(b)
  {
    StopOwned(z, cardStopped);
    ReleaseOwned(StopMarks(z, cardStopped));
  }

  lemma TopTakes(v: Video, i: HalfIn, b: Id)
    requires Shape(v) && TopStart(v, i).zc.Held(b)
    ensures v.zc.Held(b) || Offered(v.pool, b)
  {
    var from := PickFrom(v, i.wanted, i.hdcpAtPick);
    FoundIs(v.pool, v.pool.consumers, v.asm.zcCtx);
    TopOccurs(v.zc, Picked(v, from), InTime(v.asm, i), b);
    if !v.zc.Held(b) {
      assert v.pool.Of(from.value).streaming && b in v.pool.Of(from.value).queue;
    }
  }

  lemma BottomTakes(v: Video, i: HalfIn, b: Id)
    requires Owned(v.zc) && Shape(v) && Acts(v) && !i.isTop && VideoHalf(v, i).zc.Held(b)
    ensures v.zc.Held(b)
  {
    BottomProjects(v, i);
    EndTakes(v.zc, InTime(v.asm, i), Ending(v, i).0, Ending(v, i).1, b);
  }

  lemma HalfTakenFrom(v: Video, i: HalfIn, b: Id)
    requires Owned(v.zc) && Shape(v) && VideoHalf(v, i).zc.Held(b)
    ensures v.zc.Held(b) || Offered(v.pool, b)
  {
    if Acts(v) && i.isTop {
      TopProjects(v, i);
      TopTakes(v, i, b);
    } else if Acts(v) {
      BottomTakes(v, i, b);
    }
  }

  lemma EndTakes(z: Zc, inTime: bool, state: VbState, seqno: nat, b: Id)
    requires Owned(z) && FrameEnd(BottomHalf(z, inTime), state, seqno).Held(b)
    ensures z.Held(b)
  {
    BottomOwned(z, inTime, state, seqno);
    ReleaseOwned(Advance(BottomHalf(z, inTime), state, seqno));
  }

  lemma KeepsDrained(v: Video, op: Op, c: Cid)
    requires Whole(v) && Shape(v) && Allowed(v, op) && !Begins(v, op, c) && Drained(v, c)
    ensures Drained(Do(v, op), c)
  {
    KeepsQuiet(v, op, c);
    var v' := Do(v, op);
    forall b: Id | v'.zc.Held(b) ensures v'.pool.Owner(b) != c {
      TakenFrom(v, op, b);
      OwnersStay(v, op, b);
      if !v.zc.Held(b) {
        var d: Cid :| v.pool.Of(d).streaming && b in v.pool.Of(d).queue;
        assert v.pool.Owner(b) == d;
      }
    }
  }

  /** A drained consumer has every buffer back, once for every time it was queued. */
  lemma DrainedIsEmpty(v: Video, c: Cid)
    requires Whole(v) && Drained(v, c)
    ensures v.pool.Of(c).inflight == 0
    ensures forall b: Id :: b in v.pool.owner && v.pool.owner[b] == c ==>
                              b in v.pool.app && v.pool.queued[b] == Completions(v.pool.log, b)
  {
    var p := v.pool;
    forall b: Id | b in p.owner && p.owner[b] == c ensures !v.zc.Held(b) && b !in p.frameBufs && b in p.app {
      assert p.Owner(b) == c;
      assert b in p.frameBufs ==> p.Of(c).held == Some(b);
      assert Places(v.zc, p, multiset{}, b) == 1;
      HeldOccurs(v.zc, b);
    }
    assert InFlight(v.zc, p, multiset{}, c) == {};
  }

  // ---- over a run of operations ----

  ghost predicate OpAt(states: seq<Video>, ops: seq<Op>, i: nat)
    requires |states| == |ops| + 1 && i < |ops|
  {
    Shape(states[i]) && Allowed(states[i], ops[i]) && states[i + 1] == Do(states[i], ops[i])
  }

  /** A run of operations from a driver with no consumer and no buffer. */
  ghost predicate IsOpRun(states: seq<Video>, ops: seq<Op>) {
    && |states| == |ops| + 1
    && states[0].zc == IDLE && states[0].pool == NO_POOL
    && (forall i :: 0 <= i < |ops| ==> OpAt(states, ops, i))
  }

  lemma {:induction false} OpRunWhole(states: seq<Video>, ops: seq<Op>, i: nat)
    requires IsOpRun(states, ops) && i < |states|
    ensures Whole(states[i])
  {
    if i == 0 {
      NothingIsWhole(states[0]);
    } else {
      OpRunWhole(states, ops, i - 1);
      WholeNext(states, ops, i);
    }
  }

  lemma WholeNext(states: seq<Video>, ops: seq<Op>, i: nat)
    requires IsOpRun(states, ops) && 0 < i < |states| && Whole(states[i - 1])
    ensures Whole(states[i])
  {
    assert OpAt(states, ops, i - 1);
    WholeOn(states[i - 1], ops[i - 1], states[i]);
  }

  lemma WholeOn(v: Video, op: Op, v': Video)
    requires Whole(v) && Shape(v) && Allowed(v, op) && v' == Do(v, op)
    ensures Whole(v')
  {
    KeepsWhole(v, op);
  }

  /** Nothing gives the consumer buffers between the operations `i` and `k`. */
  ghost predicate NoneBegin(states: seq<Video>, ops: seq<Op>, c: Cid, i: nat, k: nat)
    requires |states| == |ops| + 1 && k < |states|
  {
    forall m :: i <= m < k ==> !Begins(states[m], ops[m], c)
  }

  lemma {:induction false} QuietRun(states: seq<Video>, ops: seq<Op>, c: Cid, i: nat, k: nat)
    requires IsOpRun(states, ops) && i <= k < |states| && NoneBegin(states, ops, c, i, k)
    ensures StaysQuiet(states[i].pool.Of(c), states[k].pool.Of(c))
    decreases k
  {
    if i < k {
      QuietRun(states, ops, c, i, k - 1);
      QuietNext(states, ops, c, k);
      QuietTwice(states[i].pool.Of(c), states[k - 1].pool.Of(c), states[k].pool.Of(c));
    }
  }

  lemma QuietNext(states: seq<Video>, ops: seq<Op>, c: Cid, k: nat)
    requires IsOpRun(states, ops) && 0 < k < |states| && !Begins(states[k - 1], ops[k - 1], c)
    ensures StaysQuiet(states[k - 1].pool.Of(c), states[k].pool.Of(c))
  {
    assert OpAt(states, ops, k - 1);
    KeepsQuiet(states[k - 1], ops[k - 1], c);
  }

  ghost predicate WholeDrained(v: Video, c: Cid) {
    Whole(v) && Drained(v, c)
  }

  lemma {:induction false} DrainedRun(states: seq<Video>, ops: seq<Op>, c: Cid, i: nat, k: nat)
    requires IsOpRun(states, ops) && i <= k < |states| && NoneBegin(states, ops, c, i, k)
    requires WholeDrained(states[i], c)
    ensures WholeDrained(states[k], c)
    decreases k
  {
    if i < k {
      DrainedRun(states, ops, c, i, k - 1);
      DrainedNext(states, ops, c, k);
    }
  }

  lemma DrainedNext(states: seq<Video>, ops: seq<Op>, c: Cid, k: nat)
    requires IsOpRun(states, ops) && 0 < k < |states|
    requires !Begins(states[k - 1], ops[k - 1], c) && WholeDrained(states[k - 1], c)
    ensures WholeDrained(states[k], c)
  {
    assert OpAt(states, ops, k - 1);
    DrainedOn(states[k - 1], ops[k - 1], states[k], c);
  }

  lemma DrainedOn(v: Video, op: Op, v': Video, c: Cid)
    requires Shape(v) && Allowed(v, op) && !Begins(v, op, c) && WholeDrained(v, c) && v' == Do(v, op)
    ensures WholeDrained(v', c)
  {
    WholeOn(v, op, v');
    KeepsDrained(v, op, c);
  }

  lemma OffStarts(v: Video, c: Cid)
    requires Shape(v) && Allowed(v, StreamStop(c))
    ensures Off(Do(v, StreamStop(c)).pool.Of(c))
  {
    ReturnQueueQuiet(v.pool.PutCtx(c, v.pool.Of(c).(streaming := false)), c, c);
  }

  lemma IdleStarts(v: Video, c: Cid)
    requires Shape(v) && Allowed(v, StreamStopHeld(c)) && Off(v.pool.Of(c))
    ensures Idle(Do(v, StreamStopHeld(c)).pool.Of(c))
  {
    StreamStopHeldQuiet(v, c, c);
  }

  lemma DrainedStarts(v: Video, c: Cid)
    requires Whole(v) && Shape(v) && Idle(v.pool.Of(c))
    ensures Drained(Do(v, Quiesced), c)
  {
    StopQuiet(v, true, c);
    StoppedTakesNone(v.zc);
    assert Do(v, Quiesced).zc == Stop(v.zc, true);
  }

  /**
   * STREAMOFF that had to stop the engine: whatever happened in between, from
   * then until the next STREAMON nothing of the consumer is in flight, and its
   * app has every buffer back exactly once for every time it queued it.
   */
  lemma StreamOffEndsEmpty(states: seq<Video>, ops: seq<Op>, c: Cid, i: nat, j: nat, q: nat, k: nat)
    requires IsOpRun(states, ops) && i < j < q < k < |states|
    requires ops[i] == StreamStop(c) && ops[j] == StreamStopHeld(c) && ops[q] == Quiesced
    requires NoneBegin(states, ops, c, i, k)
    ensures states[k].pool.Of(c).inflight == 0
    ensures forall b: Id :: b in states[k].pool.owner && states[k].pool.owner[b] == c ==>
                              b in states[k].pool.app && states[k].pool.queued[b] == Completions(states[k].pool.log, b)
  {
    StreamOffIdles(states, ops, c, i, j, q);
    StreamOffDrains(states, ops, c, q, k);
    DrainedIsEmpty(states[k], c);
  }

  lemma StreamOffIdles(states: seq<Video>, ops: seq<Op>, c: Cid, i: nat, j: nat, q: nat)
    requires IsOpRun(states, ops) && i < j < q < |ops| && ops[i] == StreamStop(c) && ops[j] == StreamStopHeld(c)
    requires NoneBegin(states, ops, c, i, q)
    ensures Idle(states[q].pool.Of(c))
  {
    OffAt(states, ops, c, i);
    QuietRun(states, ops, c, i + 1, j);
    IdleAt(states, ops, c, j);
    QuietRun(states, ops, c, j + 1, q);
  }

  lemma StreamOffDrains(states: seq<Video>, ops: seq<Op>, c: Cid, q: nat, k: nat)
    requires IsOpRun(states, ops) && q < k < |states| && ops[q] == Quiesced && Idle(states[q].pool.Of(c))
    requires NoneBegin(states, ops, c, q + 1, k)
    ensures WholeDrained(states[k], c)
  {
    DrainedAt(states, ops, c, q);
    DrainedRun(states, ops, c, q + 1, k);
  }

  lemma OffAt(states: seq<Video>, ops: seq<Op>, c: Cid, i: nat)
    requires IsOpRun(states, ops) && i < |ops| && ops[i] == StreamStop(c)
    ensures Off(states[i + 1].pool.Of(c))
  {
    assert OpAt(states, ops, i);
    OffStarts(states[i], c);
  }

  lemma IdleAt(states: seq<Video>, ops: seq<Op>, c: Cid, j: nat)
    requires IsOpRun(states, ops) && j < |ops| && ops[j] == StreamStopHeld(c) && Off(states[j].pool.Of(c))
    ensures Idle(states[j + 1].pool.Of(c))
  {
    assert OpAt(states, ops, j);
    IdleStarts(states[j], c);
  }

  lemma DrainedAt(states: seq<Video>, ops: seq<Op>, c: Cid, q: nat)
    requires IsOpRun(states, ops) && q < |ops| && ops[q] == Quiesced && Idle(states[q].pool.Of(c))
    ensures WholeDrained(states[q + 1], c)
  {
    OpRunWhole(states, ops, q);
    OpRunWhole(states, ops, q + 1);
    DrainedNow(states, ops, c, q);
  }

  lemma DrainedNow(states: seq<Video>, ops: seq<Op>, c: Cid, q: nat)
    requires IsOpRun(states, ops) && q < |ops| && ops[q] == Quiesced && Idle(states[q].pool.Of(c))
    requires Whole(states[q])
    ensures Drained(states[q + 1], c)
  {
    assert OpAt(states, ops, q);
    DrainedStarts(states[q], c);
  }
}
