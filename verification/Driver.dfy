/**
 * The operations on the capture state, each one section under the capture
 * lock or one ioctl, and the ownership they all keep.
 */
module Driver {
  import opened Basics
  import opened ZeroCopy
  import opened Protocol
  import opened Frames
  import opened Delivery

  datatype Op =
    | Half(i: HalfIn)
    | NoSignal
    | Resize(g: Geometry, wasRunning: bool)
    | Queue(b: Id)
    | StreamStart(c: Cid)
    | StreamStop(c: Cid)                // STREAMOFF: nothing more is taken, the queue goes back
    | StreamStopHeld(c: Cid)            // STREAMOFF, under the capture lock
    | Quiesced                          // STREAMOFF timed out: the engine was stopped
    | StreamStopped(c: Cid)             // STREAMOFF, last part: one engine user less
    | SetRunning(on: bool)              // video capture is started or stopped
    | SetOutput(w: nat, h: nat)         // S_FMT
    | SetRate(c: Cid, decimate: nat)    // S_PARM
    | Open(c: Cid, contig: bool)
    | Allocate(b: Id, c: Cid, bytes: seq<byte>, mapped: bool, dma: nat)    // REQBUFS
    | Free(b: Id)
    | AppWrite(b: Id, bytes: seq<byte>)

  predicate HalfOk(cfg: Config, i: HalfIn) {
    |i.src0| == cfg.bufSize && |i.src1| == cfg.bufSize
  }

  /** The input sizes the status poll accepts. */
  predicate SizeOk(g: Geometry) {
    g.w <= MAX_W && (if g.il then 2 * g.h else g.h) <= MAX_H
  }

  /** The consumers between STREAMON and STREAMOFF; each of them uses the engine, and until STREAMOFF ends. */
  function Streamers(p: Pool): set<Cid> {
    set c | c in p.ctx && p.ctx[c].streaming
  }

  /** What the callers of an operation guarantee, and the checks that refuse it. */
  predicate Allowed(v: Video, op: Op) {
    match op
    case Half(i) => HalfOk(v.cfg, i)
    case Resize(g, _) => SizeOk(g)
    case Queue(b) => b in v.pool.owner && b in v.pool.app && |v.pool.Mem(b)| >= v.cfg.OutSize()
    case StreamStart(c) => c in v.pool.consumers && !v.pool.Of(c).streaming
    case StreamStop(c) => v.pool.Of(c).streaming
    case StreamStopHeld(c) => !v.pool.Of(c).streaming
    case StreamStopped(c) => !v.pool.Of(c).streaming && v.asm.users > |Streamers(v.pool)|
    case SetOutput(w, h) => (w, h) == (v.cfg.outW, v.cfg.outH) || v.pool.owner == map[]
    case SetRate(c, n) => c in v.pool.consumers && 1 <= n <= 4
    case Open(c, _) => c !in v.pool.consumers && c !in v.pool.ctx
    case Allocate(b, c, bytes, _, _) => b !in v.pool.owner && c in v.pool.consumers && |bytes| >= v.cfg.OutSize()
    case Free(b) => b in v.pool.app
    case AppWrite(b, bytes) => b in v.pool.app && |bytes| == |v.pool.Mem(b)|
    case _ => true
  }

  ghost predicate Shape(v: Video) {
    |v.cfg.len| == 4 && |v.asm.frameLen| == 4
  }

  function PoolOp(p: Pool, op: Op): Pool {
    match op
    case SetRate(c, n) => p.PutCtx(c, p.Of(c).(decimate := n))
    case Open(c, contig) => p.PutCtx(c, NO_CONSUMER.(contig := contig)).(consumers := p.consumers + [c])
    case Allocate(b, c, bytes, mapped, dma) =>
      p.(owner := p.owner[b := c], mem := p.mem[b := bytes], dma := p.dma[b := dma], app := p.app + {b},
         mapped := if mapped then p.mapped + {b} else p.mapped - {b})
    case Free(b) => p.(owner := p.owner - {b}, app := p.app - {b})
    case AppWrite(b, bytes) => p.(mem := p.mem[b := bytes])
    case _ => p
  }

  function Do(v: Video, op: Op): Video
    requires Shape(v) && Allowed(v, op)
  {
    match op
    case Half(i) => VideoHalf(v, i)
    case NoSignal => NoVideo(v)
    case Resize(g, wasRunning) => SizeChange(v, g, wasRunning)
    case Queue(b) => QueueBuf(v, b)
    case StreamStart(c) => StreamOn(v, c)
    case StreamStop(c) => StreamOffQueue(v, c)
    case StreamStopHeld(c) => StreamOffHeld(v, c)
    case Quiesced => StopZcAll(v, true)
    case StreamStopped(c) => v.(asm := v.asm.(users := v.asm.users - 1))
    case SetRunning(on) => v.(cfg := v.cfg.(running := on))
    case SetOutput(w, h) => v.(cfg := v.cfg.(outW := w, outH := h))
    case _ => v.(pool := PoolOp(v.pool, op))
  }

  /**
   * What assumption (a) rests on: a register write counts as in time exactly
   * when it came, with a nanosecond to spare, within half of each of the last
   * two gaps between halves. The first two halves after a start have no gaps.
   */
  lemma InTimeExact(a: Assembly, i: HalfIn)
    ensures InTime(a, i) <==>
              i.ts != 0 && 2 * i.writeDelay + 2 <= Gap(a, i.ts) && 2 * i.writeDelay + 2 <= a.gapPrev
    ensures a.lastTs == 0 || a.gapPrev == 0 || i.ts <= a.lastTs ==> !InTime(a, i)
  {
  }

  // ---- the zero-copy part of a half event ----

  /** The state and frame number a bottom half ends its zero-copy frame with. */
  function Ending(v: Video, i: HalfIn): (VbState, nat)
    requires Shape(v)
  {
    var v1 := BottomStart(v, i);
    if Stale(v1, i) || NoTop(v) then (Error, 0) else (FrameState(v, Fill(v, v1, i), i), v.asm.seqno)
  }

  lemma TopProjects(v: Video, i: HalfIn)
    requires Shape(v) && Acts(v) && i.isTop
    ensures VideoHalf(v, i).zc == TopHalf(v.zc, Picked(v, PickFrom(v, i.wanted, i.hdcpAtPick)), InTime(v.asm, i))
  {
    assert TopFrame(v, TopStart(v, i), i).zc == TopStart(v, i).zc;
  }

  lemma BottomProjects(v: Video, i: HalfIn)
    requires Shape(v) && Acts(v) && !i.isTop
    ensures VideoHalf(v, i).zc == FrameEnd(BottomHalf(v.zc, InTime(v.asm, i)), Ending(v, i).0, Ending(v, i).1)
  {
  }

  /** What a half event does to the zero-copy state. */
  lemma HalfProjects(v: Video, i: HalfIn)
    requires Shape(v)
    ensures Acts(v) && i.isTop ==>
              VideoHalf(v, i).zc == TopHalf(v.zc, Picked(v, PickFrom(v, i.wanted, i.hdcpAtPick)), InTime(v.asm, i))
    ensures Acts(v) && !i.isTop ==>
              VideoHalf(v, i).zc == FrameEnd(BottomHalf(v.zc, InTime(v.asm, i)), Ending(v, i).0, Ending(v, i).1)
    ensures !Acts(v) ==> VideoHalf(v, i) == v
  {
    if Acts(v) {
      if i.isTop { TopProjects(v, i); } else { BottomProjects(v, i); }
    }
  }

  // ---- ownership ----

  /** Every buffer is in one place, and the zero-copy state holds together. */
  ghost predicate Whole(v: Video) {
    Owned(v.zc) && Sound(v.zc, v.pool, multiset{})
  }

  lemma NothingIsWhole(v: Video)
    requires v.zc == IDLE && v.pool == NO_POOL
    ensures Whole(v)
  {
    assert forall c: Cid :: InFlight(v.zc, v.pool, multiset{}, c) == {};
  }

  /** A buffer in hand enters the zero-copy state. */
  lemma EnterZc(z: Zc, z': Zc, p: Pool, hand: Hand, b: Id)
    requires Sound(z, p, hand + multiset{b})
    requires forall x: Id :: Occurs(z', x) == Occurs(z, x) + (if x == b then 1 else 0)
    ensures Sound(z', p, hand)
  {
    forall x: Id
      ensures Places(z', p, hand, x) == Places(z, p, hand + multiset{b}, x)
      ensures z'.Held(x) <==> z.Held(x) || x == b
    {
      HeldOccurs(z, x);
      HeldOccurs(z', x);
    }
    forall c: Cid ensures p.Of(c).inflight == |InFlight(z', p, hand, c)| {
      assert InFlight(z', p, hand, c) == InFlight(z, p, hand + multiset{b}, c);
    }
  }

  lemma PickedIsFree(z: Zc, p: Pool, c: Cid)
    requires Sound(z, p, multiset{}) && p.Of(c).queue != []
    ensures !z.Held(p.Of(c).queue[0])
  {
    var b := p.Of(c).queue[0];
    assert b in p.Of(c).queue;
    assert p.Owner(b) == c;
    assert Places(z, p, multiset{}, b) <= 1;
    HeldOccurs(z, b);
  }

  lemma TopStartWhole(v: Video, i: HalfIn)
    requires Whole(v) && Shape(v)
    ensures Whole(TopStart(v, i))
    ensures var picked := Picked(v, PickFrom(v, i.wanted, i.hdcpAtPick)); picked.Some? ==> !v.zc.Held(picked.value)
  {
    var from := PickFrom(v, i.wanted, i.hdcpAtPick);
    var picked := Picked(v, from);
    var z' := TopHalf(v.zc, picked, InTime(v.asm, i));
    if from.Some? {
      var c := from.value;
      PickedIsFree(v.zc, v.pool, c);
      TakeFirst(v.zc, v.pool, TakeQueued(v.pool, c), multiset{}, c);
      forall x: Id ensures Occurs(z', x) == Occurs(v.zc, x) + (if x == picked.value then 1 else 0) {
        TopOccurs(v.zc, picked, InTime(v.asm, i), x);
      }
      EnterZc(v.zc, z', TakeQueued(v.pool, c), multiset{}, picked.value);
    } else {
      forall x: Id ensures Occurs(z', x) == Occurs(v.zc, x) {
        TopOccurs(v.zc, picked, InTime(v.asm, i), x);
      }
      SamePlaces(v.zc, z', v.pool, multiset{});
    }
    TopOwned(v.zc, picked, InTime(v.asm, i));
  }

  /** The end of a frame after quarters 2-3 were pointed at the next one. */
  lemma EndFrameWhole(z: Zc, p: Pool, inTime: bool, state: VbState, seqno: nat, size: nat)
    requires Owned(z) && Sound(z, p, multiset{})
    ensures var z1 := Advance(BottomHalf(z, inTime), state, seqno);
            Owned(Release(z1)) && Sound(Release(z1), CompleteFreed(p, z1, Freed(z1, z1.release), size), multiset{})
  {
    var z1 := Advance(BottomHalf(z, inTime), state, seqno);
    BottomOwned(z, inTime, state, seqno);
    forall x: Id ensures Occurs(z1, x) == Occurs(z, x) {
      BottomOccurs(z, inTime, state, seqno, x);
    }
    SamePlaces(z, z1, p, multiset{});
    ReleaseOwned(z1);
    ReleaseKeeps(z1, p, multiset{}, size);
  }

  lemma StopWhole(v: Video, cardStopped: bool)
    requires Whole(v)
    ensures Whole(StopZcAll(v, cardStopped))
  {
    var z1 := StopMarks(v.zc, cardStopped);
    StopOwned(v.zc, cardStopped);
    forall x: Id ensures Occurs(z1, x) == Occurs(v.zc, x) {
      StopOccurs(v.zc, cardStopped, x);
    }
    SamePlaces(v.zc, z1, v.pool, multiset{});
    ReleaseOwned(z1);
    ReleaseKeeps(z1, v.pool, multiset{}, v.cfg.OutSize());
  }

  lemma TopFrameWhole(was: Video, v: Video, i: HalfIn)
    requires |was.cfg.len| == 4 && Whole(v)
    ensures Whole(TopFrame(was, v, i))
  {
    var a := LoseIf(v.asm);
    var zowner := if was.zc.cur.Some? then Some(v.pool.Owner(was.zc.cur.value)) else None;
    var p0 := if zowner.Some? then FailHeld(v.pool, zowner.value) else v.pool;
    if zowner.Some? { FailHeldKeeps(v.zc, v.pool, multiset{}, zowner.value); }
    HoldBuffersKeeps(v.zc, p0, multiset{}, a.seqno, v.cfg.OutSize(), zowner);
    var p := HoldBuffers(p0, a.seqno, v.cfg.OutSize(), zowner);
    BlitKeeps(v.zc, p, multiset{}, p.frameBufs, 0, TopBytes(was, i));
  }

  /** Filling the frame changes memory only. */
  lemma FillPool(was: Video, v: Video, i: HalfIn)
    requires |was.cfg.len| == 4 && |was.asm.frameLen| == 4 && v.cfg == was.cfg
    ensures Fill(was, v, i).pool == v.pool.(mem := Fill(was, v, i).pool.mem)
  {
  }

  lemma FillSound(z: Zc, was: Video, v: Video, i: HalfIn)
    requires |was.cfg.len| == 4 && |was.asm.frameLen| == 4 && v.cfg == was.cfg && Sound(z, v.pool, multiset{})
    ensures Sound(z, Fill(was, v, i).pool, multiset{})
  {
    FillPool(was, v, i);
    UntouchedWhole(z, v.pool, Fill(was, v, i).pool);
  }

  lemma HalfWhole(v: Video, i: HalfIn)
    requires Whole(v) && Shape(v)
    ensures Whole(VideoHalf(v, i))
  {
    var size := v.cfg.OutSize();
    if Acts(v) && i.isTop {
      TopStartWhole(v, i);
      if !Stale(TopStart(v, i), i) { TopFrameWhole(v, TopStart(v, i), i); }
    } else if Acts(v) {
      var v1 := BottomStart(v, i);
      if Stale(v1, i) || NoTop(v) {
        EndFrameWhole(v.zc, v.pool, InTime(v.asm, i), Error, 0, size);
      } else {
        BottomFrameWhole(v, v1, i);
      }
    }
  }

  lemma BottomFrameWhole(was: Video, v: Video, i: HalfIn)
    requires Whole(was) && Shape(was) && v == BottomStart(was, i)
    ensures Whole(BottomFrame(was, v, i))
  {
    var f := Fill(was, v, i);
    var state, size := FrameState(was, f, i), v.cfg.OutSize();
    FillSound(was.zc, was, v, i);
    EndFrameWhole(was.zc, f.pool, InTime(was.asm, i), state, v.asm.seqno, size);
    var z1 := Advance(v.zc, state, v.asm.seqno);
    FinishKeeps(Release(z1), CompleteFreed(f.pool, z1, Freed(z1, z1.release), size), multiset{}, state, v.asm.seqno,
        size);
  }

  lemma NoVideoWhole(v: Video)
    requires Whole(v)
    ensures Whole(NoVideo(v))
  {
    var a := v.asm;
    var size := v.cfg.OutSize();
    HoldBuffersKeeps(v.zc, v.pool, multiset{}, a.seqno, size, None);
    var p := HoldBuffers(v.pool, a.seqno, size, None);
    BlitKeeps(v.zc, p, multiset{}, p.frameBufs, 0, Blue(size));
    FinishKeeps(v.zc, BlitAll(p, p.frameBufs, 0, Blue(size)), multiset{}, Done, a.seqno, size);
  }

  /** Returning a queued buffer is taking it and completing it with an error. */
  lemma ReturnIsTakeAndComplete(p: Pool, c: Cid)
    requires p.Of(c).queue != [] && p.Owner(p.Of(c).queue[0]) == c
    ensures ReturnOne(p, c) == Complete(TakeQueued(p, c), p.Of(c).queue[0], Error, 0, 0)
  {
    var r, b := p.Of(c), p.Of(c).queue[0];
    var p1 := TakeQueued(p, c);
    assert p1.Of(c) == r.(queue := r.queue[1..], inflight := r.inflight + 1);
    assert p1.ctx[c := r.(queue := r.queue[1..])] == p.ctx[c := r.(queue := r.queue[1..])];
  }

  lemma {:induction false} ReturnQueueKeeps(z: Zc, p: Pool, c: Cid)
    requires Sound(z, p, multiset{})
    ensures Sound(z, ReturnQueue(p, c), multiset{})
    ensures ReturnQueue(p, c).Of(c).queue == []
    decreases |p.Of(c).queue|
  {
    if p.Of(c).queue != [] {
      var b := p.Of(c).queue[0];
      assert b in p.Of(c).queue;
      ReturnIsTakeAndComplete(p, c);
      TakeFirst(z, p, TakeQueued(p, c), multiset{}, c);
      CompleteKeeps(z, TakeQueued(p, c), multiset{}, b, Error, 0, 0);
      ReturnQueueKeeps(z, ReturnOne(p, c), c);
    }
  }

  lemma QueueOnePlace(z: Zc, p: Pool, p': Pool, b: Id, x: Id)
    requires OnePlace(z, p, multiset{}) && b in p.app && b in p.owner
    requires p' == p.PutCtx(p.Owner(b), p'.Of(p.Owner(b))).(app := p.app - {b}, queued := p'.queued)
    requires p'.Of(p.Owner(b)).queue == p.Of(p.Owner(b)).queue + [b]
    ensures Places(z, p', multiset{}, x) == Places(z, p, multiset{}, x)
    ensures forall d: Cid :: x in p'.Of(d).queue ==> p'.Owner(x) == d
  {
    var c := p.Owner(b);
    assert Places(z, p, multiset{}, b) == 1;
    assert multiset(p'.Of(c).queue) == multiset(p.Of(c).queue) + multiset{b};
    forall d: Cid | x in p'.Of(d).queue ensures p'.Owner(x) == d {
      if !(d == c && x == b) { assert x in p.Of(d).queue; }
    }
  }

  lemma SameInFlight(z: Zc, p: Pool, p': Pool)
    requires Counted(z, p, multiset{}) && p'.frameBufs == p.frameBufs
    requires forall x: Id :: z.Held(x) || x in p.frameBufs ==>
               (x in p'.owner <==> x in p.owner) && p'.Owner(x) == p.Owner(x)
    requires forall d: Cid :: p'.Of(d).inflight == p.Of(d).inflight
    ensures Counted(z, p', multiset{})
  {
    forall d: Cid ensures p'.Of(d).inflight == |InFlight(z, p', multiset{}, d)| {
      assert p.Of(d).inflight == |InFlight(z, p, multiset{}, d)|;
      forall x: Id ensures x in InFlight(z, p', multiset{}, d) <==> x in InFlight(z, p, multiset{}, d) {
      }
      assert InFlight(z, p', multiset{}, d) == InFlight(z, p, multiset{}, d);
    }
  }

  lemma QueueWhole(v: Video, b: Id)
    requires Whole(v) && b in v.pool.owner && b in v.pool.app
    ensures Whole(QueueBuf(v, b))
  {
    QueueSound(v.zc, v.pool, QueueBuf(v, b).pool, b);
  }

  lemma QueueSound(z: Zc, p: Pool, p': Pool, b: Id)
    requires Sound(z, p, multiset{}) && b in p.app && b in p.owner
    requires p' == p.PutCtx(p.Owner(b), p'.Of(p.Owner(b))).(app := p.app - {b}, queued := p.queued + multiset{b})
    requires p'.Of(p.Owner(b)) == p.Of(p.Owner(b)).(queue := p.Of(p.Owner(b)).queue + [b])
    ensures Sound(z, p', multiset{})
  {
    QueuePlaces(z, p, p', b);
    QueueCounts(z, p, p', b);
    OwnershipChanged(p, p', b);
  }

  lemma QueueCounts(z: Zc, p: Pool, p': Pool, b: Id)
    requires Counted(z, p, multiset{}) && HeldOnce(p)
    requires p' == p.PutCtx(p.Owner(b), p'.Of(p.Owner(b))).(app := p'.app, queued := p'.queued)
    requires p'.Of(p.Owner(b)) == p.Of(p.Owner(b)).(queue := p'.Of(p.Owner(b)).queue)
    ensures Counted(z, p', multiset{}) && HeldOnce(p')
  {
    assert forall d: Cid :: p'.Of(d).held == p.Of(d).held && p'.Of(d).inflight == p.Of(d).inflight;
    SameInFlight(z, p, p');
    SameHeld(p, p');
  }

  lemma QueuePlaces(z: Zc, p: Pool, p': Pool, b: Id)
    requires OnePlace(z, p, multiset{}) && b in p.app && b in p.owner
    requires p' == p.PutCtx(p.Owner(b), p'.Of(p.Owner(b))).(app := p.app - {b}, queued := p'.queued)
    requires p'.Of(p.Owner(b)).queue == p.Of(p.Owner(b)).queue + [b]
    ensures OnePlace(z, p', multiset{})
  {
    forall x: Id
      ensures Places(z, p', multiset{}, x) == (if x in p'.owner then 1 else 0)
      ensures forall d: Cid :: x in p'.Of(d).queue ==> p'.Owner(x) == d
    {
      QueueOnePlace(z, p, p', b, x);
      assert Places(z, p, multiset{}, x) == (if x in p.owner then 1 else 0);
    }
  }

  /** What happens to one buffer changes what is counted for that buffer only. */
  lemma OwnershipChanged(p: Pool, p': Pool, b: Id)
    requires HandedBackOnce(p.owner, p.queued, p.log, p.app) && p'.log == p.log
    requires forall x: Id :: x != b ==> p'.queued[x] == p.queued[x]
    requires forall x: Id :: x != b ==> (x in p'.owner <==> x in p.owner) && (x in p'.app <==> x in p.app)
    requires p'.queued[b] + (if b in p.owner && b !in p.app then 1 else 0)
             == p.queued[b] + (if b in p'.owner && b !in p'.app then 1 else 0)
    ensures HandedBackOnce(p'.owner, p'.queued, p'.log, p'.app)
  {
    forall x: Id ensures p'.queued[x] == Completions(p'.log, x) + (if x in p'.owner && x !in p'.app then 1 else 0) {
      assert p.queued[x] == Completions(p.log, x) + (if x in p.owner && x !in p.app then 1 else 0);
    }
  }

  lemma StreamStopHeldWhole(v: Video, c: Cid)
    requires Whole(v)
    ensures Whole(StreamOffHeld(v, c))
  {
    var v1 := v.(pool := FailHeld(v.pool, c));
    FailHeldKeeps(v.zc, v.pool, multiset{}, c);
    StopWhole(v1, false);
  }

  lemma StreamStartWhole(v: Video, c: Cid)
    requires Whole(v)
    ensures Whole(StreamOn(v, c))
  {
    StartedWhole(v, c);
    StopWhole(Started(v, c), true);
  }

  /** The state in which a first streamer stops zero-copy. */
  ghost function Started(v: Video, c: Cid): Video {
    var v1 := JoinStream(v, c);
    v1.(asm := v1.asm.(seqno := 0, topDone := false))
  }

  lemma StartedWhole(v: Video, c: Cid)
    requires Whole(v)
    ensures Whole(Started(v, c))
  {
    SameConsumers(v.zc, v.pool, Started(v, c).pool, multiset{}, c);
  }

  lemma AllocateWhole(z: Zc, p: Pool, p': Pool, b: Id, c: Cid)
    requires Sound(z, p, multiset{}) && b !in p.owner
    requires p' == p.(owner := p.owner[b := c], app := p.app + {b}, mem := p'.mem, dma := p'.dma, mapped := p'.mapped)
    ensures Sound(z, p', multiset{})
  {
    NotOwned(z, p, b);
    SameOtherPlaces(z, p, p', b);
    SameInFlight(z, p, p');
    OwnersKept(z, p, p', b);
    OwnershipChanged(p, p', b);
  }

  /** A buffer enters or leaves the apps' hands; the driver has it nowhere. */
  lemma SameOtherPlaces(z: Zc, p: Pool, p': Pool, b: Id)
    requires OnePlace(z, p, multiset{})
    requires Occurs(z, b) == 0 && b !in p.frameBufs && forall d: Cid :: b !in p.Of(d).queue
    requires p'.ctx == p.ctx && p'.frameBufs == p.frameBufs
    requires forall x: Id :: x != b ==>
               p'.Owner(x) == p.Owner(x) && (x in p'.owner <==> x in p.owner) && (x in p'.app <==> x in p.app)
    requires b in p'.owner <==> b in p'.app
    ensures OnePlace(z, p', multiset{})
  {
    assert forall d: Cid :: p'.Of(d) == p.Of(d);
    forall x: Id ensures Places(z, p', multiset{}, x) == (if x in p'.owner then 1 else 0) {
      OtherPlace(z, p, p', b, x);
    }
    forall d: Cid, x: Id | x in p'.Of(d).queue ensures p'.Owner(x) == d {
      assert x in p.Of(d).queue;
    }
  }

  lemma OtherPlace(z: Zc, p: Pool, p': Pool, b: Id, x: Id)
    requires Places(z, p, multiset{}, x) == (if x in p.owner then 1 else 0)
    requires Occurs(z, b) == 0 && b !in p.frameBufs && forall d: Cid :: b !in p.Of(d).queue
    requires p'.ctx == p.ctx && p'.frameBufs == p.frameBufs
    requires x != b ==> p'.Owner(x) == p.Owner(x) && (x in p'.owner <==> x in p.owner) && (x in p'.app <==> x in p.app)
    requires b in p'.owner <==> b in p'.app
    ensures Places(z, p', multiset{}, x) == (if x in p'.owner then 1 else 0)
  {
    assert p'.Of(p'.Owner(x)) == p.Of(p'.Owner(x));
  }

  /** A buffer that is not allocated is nowhere. */
  lemma NotOwned(z: Zc, p: Pool, b: Id)
    requires OnePlace(z, p, multiset{}) && b !in p.owner
    ensures !z.Held(b) && Occurs(z, b) == 0 && b !in p.frameBufs && b !in p.app
    ensures forall d: Cid :: b !in p.Of(d).queue
  {
    assert Places(z, p, multiset{}, b) == 0;
    HeldOccurs(z, b);
    forall d: Cid ensures b !in p.Of(d).queue {
      assert b in p.Of(d).queue ==> p.Owner(b) == d;
    }
  }

  /** A buffer an app has is nowhere else. */
  lemma AppHasIt(z: Zc, p: Pool, b: Id)
    requires OnePlace(z, p, multiset{}) && b in p.app
    ensures !z.Held(b) && Occurs(z, b) == 0 && b !in p.frameBufs && b in p.owner
    ensures forall d: Cid :: b !in p.Of(d).queue
  {
    assert Places(z, p, multiset{}, b) <= 1;
    HeldOccurs(z, b);
    forall d: Cid ensures b !in p.Of(d).queue {
      assert b in p.Of(d).queue ==> p.Owner(b) == d;
    }
  }

  lemma OwnersKept(z: Zc, p: Pool, p': Pool, b: Id)
    requires HeldOnce(p) && b !in p.frameBufs
    requires p'.ctx == p.ctx && p'.frameBufs == p.frameBufs
    requires forall x: Id :: x != b ==> p'.Owner(x) == p.Owner(x)
    ensures HeldOnce(p')
  {
    assert forall d: Cid :: p'.Of(d) == p.Of(d);
    forall d: Cid | p'.Of(d).held.Some?
      ensures p'.Of(d).held.value in p'.frameBufs && p'.Owner(p'.Of(d).held.value) == d
    {
      assert p.Of(d).held.value in p.frameBufs;
    }
    forall x: Id | x in p'.frameBufs ensures p'.Of(p'.Owner(x)).held == Some(x) {
      assert p.Of(p.Owner(x)).held == Some(x);
    }
  }

  lemma FreeWhole(z: Zc, p: Pool, b: Id)
    requires Sound(z, p, multiset{}) && b in p.app
    ensures Sound(z, p.(owner := p.owner - {b}, app := p.app - {b}), multiset{})
  {
    var p' := p.(owner := p.owner - {b}, app := p.app - {b});
    AppHasIt(z, p, b);
    SameOtherPlaces(z, p, p', b);
    SameInFlight(z, p, p');
    OwnersKept(z, p, p', b);
    OwnershipChanged(p, p', b);
  }

  /** Operations that leave queues, held buffers and counts alone. */
  lemma UntouchedWhole(z: Zc, p: Pool, p': Pool)
    requires Sound(z, p, multiset{})
    requires p'.owner == p.owner && p'.frameBufs == p.frameBufs && p'.app == p.app && p'.queued == p.queued
               && p'.log == p.log
    requires forall d: Cid :: p'.Of(d).queue == p.Of(d).queue && p'.Of(d).inflight == p.Of(d).inflight
               && p'.Of(d).held == p.Of(d).held
    ensures Sound(z, p', multiset{})
  {
    SameQueues(z, p, p', multiset{});
    SameHeld(p, p');
  }

  lemma PoolOpWhole(v: Video, op: Op)
    requires Whole(v) && Allowed(v, op)
    ensures Whole(v.(pool := PoolOp(v.pool, op)))
  {
    if op.Allocate? {
      AllocateWhole(v.zc, v.pool, PoolOp(v.pool, op), op.b, op.c);
    } else if op.Free? {
      FreeWhole(v.zc, v.pool, op.b);
    } else {
      UntouchedWhole(v.zc, v.pool, PoolOp(v.pool, op));
    }
  }

  lemma StreamStopWhole(v: Video, c: Cid)
    requires Whole(v)
    ensures Whole(StreamOffQueue(v, c))
  {
    var p := v.pool.PutCtx(c, v.pool.Of(c).(streaming := false));
    SameConsumers(v.zc, v.pool, p, multiset{}, c);
    ReturnQueueKeeps(v.zc, p, c);
  }

  /** Every operation keeps the ownership partition and the counts. */
  lemma KeepsWhole(v: Video, op: Op)
    requires Whole(v) && Shape(v) && Allowed(v, op)
    ensures Whole(Do(v, op))
  {
    match op
    case Half(i) => HalfWhole(v, i);
    case NoSignal => NoVideoWhole(v);
    case Resize(g, wasRunning) => StopWhole(v, wasRunning);
    case Queue(b) => QueueWhole(v, b);
    case StreamStart(c) => StreamStartWhole(v, c);
    case StreamStop(c) => StreamStopWhole(v, c);
    case StreamStopHeld(c) => StreamStopHeldWhole(v, c);
    case Quiesced => StopWhole(v, true);
    case StreamStopped(_) =>
    case SetRunning(_) =>
    case SetOutput(_, _) =>
    case _ => PoolOpWhole(v, op);
  }
}
