/**
 * What each operation does to one consumer: whether it streams, its queue, the
 * buffer it holds, and the first frame it still wants.
 */
module Consumers {
  import opened Basics
  import opened ZeroCopy
  import opened Frames
  import opened Driver
  import opened Effects

  /** Only counters changed. */
  predicate SameTurn(r: Consumer, r': Consumer) {
    && r'.streaming == r.streaming && r'.queue == r.queue && r'.held == r.held && r'.nextSeq == r.nextSeq
    && r'.decimate == r.decimate && r'.contig == r.contig
  }

  /** `t` is what is left of `s` after some were taken from its front. */
  predicate Left(s: seq<Id>, t: seq<Id>) {
    |t| <= |s| && t == s[|s| - |t|..]
  }

  lemma LeftTwice(s: seq<Id>, t: seq<Id>, u: seq<Id>)
    requires Left(s, t) && Left(t, u)
    ensures Left(s, u)
  {
  }

  /** Buffers may have been taken for frame `n`, and the held one given back. */
  predicate TurnMoves(r: Consumer, r': Consumer, n: nat) {
    && r'.streaming == r.streaming && r'.decimate == r.decimate && r'.contig == r.contig
    && Left(r.queue, r'.queue)
    && (r'.nextSeq == r.nextSeq || r'.nextSeq == n + r.decimate)
  }

  lemma TurnTwice(r: Consumer, r1: Consumer, r2: Consumer, n: nat)
    requires TurnMoves(r, r1, n) && TurnMoves(r1, r2, n)
    ensures TurnMoves(r, r2, n)
  {
    LeftTwice(r.queue, r1.queue, r2.queue);
  }

  // ---- completing buffers ----

  lemma CompleteTurn(p: Pool, b: Id, state: VbState, seqno: nat, size: nat, c: Cid)
    ensures SameTurn(p.Of(c), Complete(p, b, state, seqno, size).Of(c))
  {
  }

  lemma {:induction false} ErrorsTurn(p: Pool, s: seq<Id>, c: Cid)
    ensures SameTurn(p.Of(c), CompleteErrors(p, s).Of(c))
  {
    if s != [] {
      ErrorsTurn(p, s[..|s| - 1], c);
      CompleteTurn(CompleteErrors(p, s[..|s| - 1]), s[|s| - 1], Error, 0, 0, c);
    }
  }

  lemma {:induction false} FreedTurn(p: Pool, z: Zc, s: seq<Id>, size: nat, c: Cid)
    ensures SameTurn(p.Of(c), CompleteFreed(p, z, s, size).Of(c))
  {
    if s != [] {
      var t, b := s[..|s| - 1], s[|s| - 1];
      FreedTurn(p, z, t, size, c);
      CompleteTurn(CompleteFreed(p, z, t, size), b, z.Rec(b).state, z.Rec(b).seqno, size, c);
    }
  }

  lemma FinishOneTurn(p: Pool, state: VbState, seqno: nat, size: nat, c: Cid)
    requires p.frameBufs != []
    ensures var r, r' := p.Of(c), FinishOne(p, state, seqno, size).Of(c);
            SameTurn(r.(held := if p.Owner(p.frameBufs[0]) == c then None else r.held), r')
  {
  }

  lemma {:induction false} FinishTurn(p: Pool, state: VbState, seqno: nat, size: nat, c: Cid)
    ensures var r, r' := p.Of(c), Finish(p, state, seqno, size).Of(c);
            && SameTurn(r.(held := r'.held), r') && (r'.held == r.held || r'.held.None?)
            && ((exists b :: b in p.frameBufs && p.Owner(b) == c) ==> r'.held.None?)
    decreases |p.frameBufs|
  {
    if p.frameBufs != [] {
      var p1 := FinishOne(p, state, seqno, size);
      FinishOneTurn(p, state, seqno, size, c);
      FinishOneMoves(p, state, seqno, size);
      FinishTurn(p1, state, seqno, size, c);
      forall b | b in p.frameBufs && p.Owner(b) == c && b != p.frameBufs[0]
        ensures b in p1.frameBufs && p1.Owner(b) == c
      {
      }
    }
  }

  lemma FailHeldTurn(p: Pool, d: Cid, c: Cid)
    ensures var r, r' := p.Of(c), FailHeld(p, d).Of(c);
            SameTurn(r.(held := if c == d then None else r.held), r')
  {
  }

  lemma StopTurn(v: Video, cardStopped: bool, c: Cid)
    ensures SameTurn(v.pool.Of(c), StopZcAll(v, cardStopped).pool.Of(c))
  {
    var z := StopMarks(v.zc, cardStopped);
    FreedTurn(v.pool, z, Freed(z, z.release), v.cfg.OutSize(), c);
  }

  lemma EndTurn(v: Video, state: VbState, seqno: nat, c: Cid)
    ensures SameTurn(v.pool.Of(c), EndFrame(v, state, seqno).pool.Of(c))
  {
    var z := Advance(v.zc, state, seqno);
    FreedTurn(v.pool, z, Freed(z, z.release), v.cfg.OutSize(), c);
  }

  lemma {:induction false} ReturnTurn(p: Pool, d: Cid, c: Cid)
    ensures var r, r' := p.Of(c), ReturnQueue(p, d).Of(c);
            SameTurn(r.(queue := if c == d then [] else r.queue), r')
    decreases |p.Of(d).queue|
  {
    if p.Of(d).queue != [] {
      ReturnTurn(ReturnOne(p, d), d, c);
    }
  }

  // ---- taking buffers ----

  lemma HoldOneTurn(h: Hold, d: Cid, n: nat, size: nat, skip: Option<Cid>, c: Cid)
    ensures TurnMoves(h.pool.Of(c), HoldOne(h, d, n, size, skip).pool.Of(c), n)
  {
    if c == d { HoldOwnTurn(h, c, n, size, skip); }
  }

  lemma HoldOwnTurn(h: Hold, c: Cid, n: nat, size: nat, skip: Option<Cid>)
    ensures TurnMoves(h.pool.Of(c), HoldOne(h, c, n, size, skip).pool.Of(c), n)
  {
    var q := h.pool.Of(c).queue;
    if q != [] { assert q[1..] == q[|q| - |q[1..]|..]; }
  }

  lemma {:induction false} HoldAllTurn(p: Pool, cs: seq<Cid>, n: nat, size: nat, skip: Option<Cid>, c: Cid)
    ensures TurnMoves(p.Of(c), HoldAll(p, cs, n, size, skip).pool.Of(c), n)
  {
    if cs != [] {
      var h := HoldAll(p, cs[..|cs| - 1], n, size, skip);
      HoldAllTurn(p, cs[..|cs| - 1], n, size, skip, c);
      HoldOneTurn(h, cs[|cs| - 1], n, size, skip, c);
      TurnTwice(p.Of(c), h.pool.Of(c), HoldAll(p, cs, n, size, skip).pool.Of(c), n);
    }
  }

  lemma HoldTurn(p: Pool, n: nat, size: nat, skip: Option<Cid>, c: Cid)
    ensures TurnMoves(p.Of(c), HoldBuffers(p, n, size, skip).Of(c), n)
  {
    var h := HoldAll(p, p.consumers, n, size, skip);
    HoldAllTurn(p, p.consumers, n, size, skip, c);
    ErrorsTurn(h.pool, h.small, c);
  }

  // ---- half events ----

  /** The number of the frame a top half starts. */
  function Upcoming(a: Assembly): nat {
    a.seqno + (if a.topDone then 1 else 0)
  }

  lemma TopStartTurn(v: Video, i: HalfIn, c: Cid, n: nat)
    ensures TurnMoves(v.pool.Of(c), TopStart(v, i).pool.Of(c), n)
    ensures TopStart(v, i).pool.Of(c).held == v.pool.Of(c).held
  {
  }

  lemma TopFrameTurn(was: Video, v: Video, i: HalfIn, c: Cid)
    requires |was.cfg.len| == 4
    ensures TurnMoves(v.pool.Of(c), TopFrame(was, v, i).pool.Of(c), Upcoming(v.asm))
  {
    var a := LoseIf(v.asm);
    var zowner := if was.zc.cur.Some? then Some(v.pool.Owner(was.zc.cur.value)) else None;
    var p0 := if zowner.Some? then FailHeld(v.pool, zowner.value) else v.pool;
    if zowner.Some? { FailHeldTurn(v.pool, zowner.value, c); }
    HoldTurn(p0, a.seqno, v.cfg.OutSize(), zowner, c);
    assert TopFrame(was, v, i).pool.Of(c) == HoldBuffers(p0, a.seqno, v.cfg.OutSize(), zowner).Of(c);
    TurnTwice(v.pool.Of(c), p0.Of(c), HoldBuffers(p0, a.seqno, v.cfg.OutSize(), zowner).Of(c), a.seqno);
  }

  lemma BottomFrameTurn(was: Video, v: Video, i: HalfIn, c: Cid)
    requires |was.cfg.len| == 4 && |was.asm.frameLen| == 4 && v.cfg == was.cfg
    ensures var r, r' := v.pool.Of(c), BottomFrame(was, v, i).pool.Of(c);
            SameTurn(r.(held := r'.held), r')
  {
    var f := Fill(was, v, i);
    assert f.pool.Of(c) == v.pool.Of(c);
    var state := FrameState(was, f, i);
    var a := v.asm.(topDone := false, staging := f.staging,
                    stable := if state.Done? then v.asm.stable + 1 else v.asm.stable);
    var v0 := v.(pool := f.pool, asm := a);
    EndTurn(v0, state, a.seqno, c);
    FinishTurn(EndFrame(v0, state, a.seqno).pool, state, a.seqno, v.cfg.OutSize(), c);
  }

  lemma HalfTurn(v: Video, i: HalfIn, c: Cid)
    requires Shape(v)
    ensures TurnMoves(v.pool.Of(c), VideoHalf(v, i).pool.Of(c), Upcoming(v.asm))
    ensures !i.isTop ==> VideoHalf(v, i).pool.Of(c).nextSeq == v.pool.Of(c).nextSeq
  {
    if Acts(v) && i.isTop {
      TopTurn(v, i, c);
    } else if Acts(v) {
      BottomTurn(v, i, c);
    }
  }

  lemma TopTurn(v: Video, i: HalfIn, c: Cid)
    requires Shape(v) && Acts(v) && i.isTop
    ensures TurnMoves(v.pool.Of(c), VideoHalf(v, i).pool.Of(c), Upcoming(v.asm))
    ensures Stale(TopStart(v, i), i) ==> VideoHalf(v, i).pool.Of(c).nextSeq == v.pool.Of(c).nextSeq
  {
    var v1 := TopStart(v, i);
    TopStartTurn(v, i, c, Upcoming(v.asm));
    if !Stale(v1, i) {
      TopFrameTurn(v, v1, i, c);
      TurnTwice(v.pool.Of(c), v1.pool.Of(c), TopFrame(v, v1, i).pool.Of(c), Upcoming(v.asm));
    }
  }

  lemma BottomTurn(v: Video, i: HalfIn, c: Cid)
    requires Shape(v) && Acts(v) && !i.isTop
    ensures var r, r' := v.pool.Of(c), VideoHalf(v, i).pool.Of(c);
            SameTurn(r.(held := r'.held), r')
  {
    var v1 := BottomStart(v, i);
    if Stale(v1, i) {
      EndTurn(v1.(asm := LoseIf(v1.asm)), Error, 0, c);
    } else if NoTop(v) {
      EndTurn(v1.(asm := Lose(v1.asm)), Error, 0, c);
    } else {
      BottomFrameTurn(v, v1, i, c);
    }
  }

  lemma NoVideoTurn(v: Video, c: Cid)
    ensures TurnMoves(v.pool.Of(c), NoVideo(v).pool.Of(c), v.asm.seqno)
  {
    var n, size := v.asm.seqno, v.cfg.OutSize();
    var p := HoldBuffers(v.pool, n, size, None);
    HoldTurn(v.pool, n, size, None, c);
    var p1 := BlitAll(p, p.frameBufs, 0, Blue(size));
    assert p1.Of(c) == p.Of(c);
    FinishTurn(p1, Done, n, size, c);
  }

  // ---- the other operations ----

  /** The consumer after an operation that is neither a half nor a frame without signal. */
  function TurnAfter(v: Video, op: Op, c: Cid): Consumer {
    var r := v.pool.Of(c);
    match op
    case StreamStart(d) => if d == c then r.(streaming := true, nextSeq := 0) else r
    case StreamStop(d) => if d == c then r.(streaming := false, queue := []) else r
    case StreamStopHeld(d) => if d == c then r.(held := None) else r
    case Queue(b) => if v.pool.Owner(b) == c then r.(queue := r.queue + [b]) else r
    case SetRate(d, n) => if d == c then r.(decimate := n) else r
    case Open(d, contig) => if d == c then r.(contig := contig) else r
    case _ => r
  }

  lemma OpTurn(v: Video, op: Op, c: Cid)
    requires Shape(v) && Allowed(v, op) && !op.Half? && !op.NoSignal?
    ensures SameTurn(TurnAfter(v, op, c), Do(v, op).pool.Of(c))
  {
    match op
    case Resize(_, wasRunning) => StopTurn(v, wasRunning, c);
    case StreamStart(d) => StartTurn(v, d, c);
    case StreamStop(d) => ReturnTurn(v.pool.PutCtx(d, v.pool.Of(d).(streaming := false)), d, c);
    case StreamStopHeld(d) => StopHeldTurn(v, d, c);
    case Quiesced => StopTurn(v, true, c);
    case _ =>
  }

  lemma StartTurn(v: Video, d: Cid, c: Cid)
    ensures SameTurn(TurnAfter(v, StreamStart(d), c), StreamOn(v, d).pool.Of(c))
  {
    StopTurn(Started(v, d), true, c);
  }

  lemma StopHeldTurn(v: Video, d: Cid, c: Cid)
    ensures SameTurn(TurnAfter(v, StreamStopHeld(d), c), StreamOffHeld(v, d).pool.Of(c))
  {
    FailHeldTurn(v.pool, d, c);
    StopTurn(v.(pool := FailHeld(v.pool, d)), false, c);
  }

  // ---- the list of consumers, and the users of the engine ----

  lemma StopList(v: Video, cardStopped: bool)
    ensures StopZcAll(v, cardStopped).pool.consumers == v.pool.consumers
    ensures StopZcAll(v, cardStopped).asm.users == v.asm.users
  {
    var z := StopMarks(v.zc, cardStopped);
    CompleteFreedMoves(v.pool, z, Freed(z, z.release), v.cfg.OutSize());
  }

  lemma EndList(v: Video, state: VbState, seqno: nat)
    ensures EndFrame(v, state, seqno).pool.consumers == v.pool.consumers
  {
    var z := Advance(v.zc, state, seqno);
    CompleteFreedMoves(v.pool, z, Freed(z, z.release), v.cfg.OutSize());
  }

  lemma TopFrameList(was: Video, v: Video, i: HalfIn)
    requires |was.cfg.len| == 4
    ensures TopFrame(was, v, i).pool.consumers == v.pool.consumers && TopFrame(was, v, i).asm.users == v.asm.users
  {
    var a := LoseIf(v.asm);
    var zowner := if was.zc.cur.Some? then Some(v.pool.Owner(was.zc.cur.value)) else None;
    var p0 := if zowner.Some? then FailHeld(v.pool, zowner.value) else v.pool;
    HoldBuffersFails(p0, a.seqno, v.cfg.OutSize(), zowner);
    assert p0.consumers == v.pool.consumers;
  }

  lemma BottomFrameList(was: Video, v: Video, i: HalfIn)
    requires |was.cfg.len| == 4 && |was.asm.frameLen| == 4 && v.cfg == was.cfg
    ensures BottomFrame(was, v, i).pool.consumers == v.pool.consumers && BottomFrame(was, v, i).asm.users == v.asm.users
  {
    var f := Fill(was, v, i);
    assert f.pool.consumers == v.pool.consumers;
    var state := FrameState(was, f, i);
    var a := v.asm.(topDone := false, staging := f.staging,
                    stable := if state.Done? then v.asm.stable + 1 else v.asm.stable);
    var v0 := v.(pool := f.pool, asm := a);
    EndList(v0, state, a.seqno);
    FinishMoves(EndFrame(v0, state, a.seqno).pool, state, a.seqno, v.cfg.OutSize());
  }

  lemma HalfList(v: Video, i: HalfIn)
    requires Shape(v)
    ensures VideoHalf(v, i).pool.consumers == v.pool.consumers && VideoHalf(v, i).asm.users == v.asm.users
  {
    if Acts(v) && i.isTop {
      if !Stale(TopStart(v, i), i) { TopFrameList(v, TopStart(v, i), i); }
    } else if Acts(v) {
      var v1 := BottomStart(v, i);
      if Stale(v1, i) {
        EndList(v1.(asm := LoseIf(v1.asm)), Error, 0);
      } else if NoTop(v) {
        EndList(v1.(asm := Lose(v1.asm)), Error, 0);
      } else {
        BottomFrameList(v, v1, i);
      }
    }
  }

  lemma NoVideoList(v: Video)
    ensures NoVideo(v).pool.consumers == v.pool.consumers && NoVideo(v).asm.users == v.asm.users
  {
    var n, size := v.asm.seqno, v.cfg.OutSize();
    var p := HoldBuffers(v.pool, n, size, None);
    HoldBuffersFails(v.pool, n, size, None);
    var p1 := BlitAll(p, p.frameBufs, 0, Blue(size));
    FinishMoves(p1, Done, n, size);
  }

  lemma {:induction false} ReturnList(p: Pool, c: Cid)
    ensures ReturnQueue(p, c).consumers == p.consumers
    decreases |p.Of(c).queue|
  {
    if p.Of(c).queue != [] {
      ReturnList(ReturnOne(p, c), c);
    }
  }

  lemma OpList(v: Video, op: Op)
    requires Shape(v) && Allowed(v, op)
    ensures Do(v, op).pool.consumers == (if op.Open? then v.pool.consumers + [op.c] else v.pool.consumers)
    ensures Do(v, op).asm.users
              == v.asm.users + (if op.StreamStart? then 1 else 0) - (if op.StreamStopped? then 1 else 0)
  {
    match op
    case Half(i) => HalfList(v, i);
    case NoSignal => NoVideoList(v);
    case Resize(_, wasRunning) => StopList(v, wasRunning);
    case StreamStart(c) => StopList(Started(v, c), true);
    case StreamStop(c) => ReturnList(v.pool.PutCtx(c, v.pool.Of(c).(streaming := false)), c);
    case StreamStopHeld(c) => StopList(v.(pool := FailHeld(v.pool, c)), false);
    case Quiesced => StopList(v, true);
    case _ =>
  }
}
