/**
 * What the operations leave alone: the consumers' flags and empty queues, the
 * buffers' memory, and the completions already handed out.
 */
module Effects {
  import opened Basics
  import opened ZeroCopy
  import opened Frames
  import opened Delivery

  /** A consumer that is not streaming takes nothing new. */
  predicate ConsumerMoves(r: Consumer, r': Consumer) {
    && r'.streaming == r.streaming && r'.decimate == r.decimate && r'.contig == r.contig
    && (!r.streaming && r.queue == [] ==> r'.queue == [])
    && (!r.streaming && r.held.None? ==> r'.held.None?)
  }

  /** Buffers were only moved about and handed back: `made` are the completions since. */
  ghost predicate Moves(p: Pool, p': Pool, made: seq<Completion>) {
    && p'.owner == p.owner && p'.mapped == p.mapped && p'.dma == p.dma && p'.mem == p.mem
    && p'.consumers == p.consumers && p'.queued == p.queued
    && p.app <= p'.app
    && p'.log == p.log + made
    && forall c: Cid :: ConsumerMoves(p.Of(c), p'.Of(c))
  }

  lemma MovesNone(p: Pool)
    ensures Moves(p, p, [])
  {
    assert p.log + [] == p.log;
  }

  lemma MovesOn(p: Pool, p1: Pool, p2: Pool, a: seq<Completion>, b: seq<Completion>)
    requires Moves(p, p1, a) && Moves(p1, p2, b)
    ensures Moves(p, p2, a + b)
  {
    assert p.log + a + b == p.log + (a + b);
    forall c: Cid ensures ConsumerMoves(p.Of(c), p2.Of(c)) {
      assert ConsumerMoves(p.Of(c), p1.Of(c)) && ConsumerMoves(p1.Of(c), p2.Of(c));
    }
  }

  predicate AllFailed(s: seq<Completion>) {
    forall e :: e in s ==> e.state == Error
  }

  /** The completion hws_complete_buffer() makes of a buffer. */
  function Made(p: Pool, b: Id, state: VbState, seqno: nat, size: nat): Completion {
    Completion(b, p.Owner(b), state, seqno, if state.Done? then Frames.Take(p.Mem(b), size) else [])
  }

  lemma CompleteMoves(p: Pool, b: Id, state: VbState, seqno: nat, size: nat)
    ensures Moves(p, Complete(p, b, state, seqno, size), [Made(p, b, state, seqno, size)])
    ensures Complete(p, b, state, seqno, size).frameBufs == p.frameBufs
  {
  }

  function MadeAll(p: Pool, s: seq<Id>, state: VbState, seqno: nat, size: nat): seq<Completion> {
    if s == [] then [] else
    MadeAll(p, s[..|s| - 1], state, seqno, size) + [Made(p, s[|s| - 1], state, seqno, size)]
  }

  lemma {:induction false} MadeAllAt(p: Pool, s: seq<Id>, state: VbState, seqno: nat, size: nat)
    ensures |MadeAll(p, s, state, seqno, size)| == |s|
    ensures forall k :: 0 <= k < |s| ==> MadeAll(p, s, state, seqno, size)[k] == Made(p, s[k], state, seqno, size)
  {
    if s != [] {
      MadeAllAt(p, s[..|s| - 1], state, seqno, size);
    }
  }

  lemma {:induction false} CompleteErrorsMoves(p: Pool, s: seq<Id>)
    ensures Moves(p, CompleteErrors(p, s), MadeAll(p, s, Error, 0, 0))
    ensures CompleteErrors(p, s).frameBufs == p.frameBufs
  {
    if s == [] {
      MovesNone(p);
    } else {
      var t, b := s[..|s| - 1], s[|s| - 1];
      CompleteErrorsMoves(p, t);
      CompleteMoves(CompleteErrors(p, t), b, Error, 0, 0);
      MovesOn(p, CompleteErrors(p, t), CompleteErrors(p, s), MadeAll(p, t, Error, 0, 0), [Made(p, b, Error, 0, 0)]);
    }
  }

  /** The completions of buffers freed from the release list of `z`. */
  function MadeFreed(p: Pool, z: Zc, s: seq<Id>, size: nat): seq<Completion> {
    if s == [] then [] else
    var b := s[|s| - 1];
    MadeFreed(p, z, s[..|s| - 1], size) + [Made(p, b, z.Rec(b).state, z.Rec(b).seqno, size)]
  }

  lemma {:induction false} MadeFreedAt(p: Pool, z: Zc, s: seq<Id>, size: nat)
    ensures |MadeFreed(p, z, s, size)| == |s|
    ensures forall k :: 0 <= k < |s| ==>
              MadeFreed(p, z, s, size)[k] == Made(p, s[k], z.Rec(s[k]).state, z.Rec(s[k]).seqno, size)
  {
    if s != [] {
      MadeFreedAt(p, z, s[..|s| - 1], size);
    }
  }

  lemma {:induction false} CompleteFreedMoves(p: Pool, z: Zc, s: seq<Id>, size: nat)
    ensures Moves(p, CompleteFreed(p, z, s, size), MadeFreed(p, z, s, size))
    ensures CompleteFreed(p, z, s, size).frameBufs == p.frameBufs
  {
    if s == [] {
      MovesNone(p);
    } else {
      var t, b := s[..|s| - 1], s[|s| - 1];
      CompleteFreedMoves(p, z, t, size);
      CompleteMoves(CompleteFreed(p, z, t, size), b, z.Rec(b).state, z.Rec(b).seqno, size);
      MovesOn(p, CompleteFreed(p, z, t, size), CompleteFreed(p, z, s, size), MadeFreed(p, z, t, size),
              [Made(p, b, z.Rec(b).state, z.Rec(b).seqno, size)]);
    }
  }

  lemma FinishOneMoves(p: Pool, state: VbState, seqno: nat, size: nat)
    requires p.frameBufs != []
    ensures Moves(p, FinishOne(p, state, seqno, size), [Made(p, p.frameBufs[0], state, seqno, size)])
    ensures FinishOne(p, state, seqno, size).frameBufs == p.frameBufs[1..]
  {
    var b := p.frameBufs[0];
    var c := p.Owner(b);
    var p1 := p.(frameBufs := p.frameBufs[1..]).PutCtx(c, p.Of(c).(held := None));
    assert p1.log + [] == p.log + [];
    assert Moves(p, p1, []);
    CompleteMoves(p1, b, state, seqno, size);
    MovesOn(p, p1, FinishOne(p, state, seqno, size), [], [Made(p, b, state, seqno, size)]);
    assert [] + [Made(p, b, state, seqno, size)] == [Made(p, b, state, seqno, size)];
  }

  lemma {:induction false} MadeAllFirst(p: Pool, s: seq<Id>, state: VbState, seqno: nat, size: nat)
    requires s != []
    ensures MadeAll(p, s, state, seqno, size)
              == [Made(p, s[0], state, seqno, size)] + MadeAll(p, s[1..], state, seqno, size)
  {
    MadeAllAt(p, s, state, seqno, size);
    MadeAllAt(p, s[1..], state, seqno, size);
  }

  lemma {:induction false} MadeAllSame(p: Pool, p': Pool, s: seq<Id>, state: VbState, seqno: nat, size: nat)
    requires p'.owner == p.owner && p'.mem == p.mem
    ensures MadeAll(p, s, state, seqno, size) == MadeAll(p', s, state, seqno, size)
  {
    MadeAllAt(p, s, state, seqno, size);
    MadeAllAt(p', s, state, seqno, size);
    assert forall b: Id :: Made(p, b, state, seqno, size) == Made(p', b, state, seqno, size);
  }

  /** hws_finish_frame() completes the frame's buffers in order, each with its own memory. */
  lemma {:induction false} FinishMoves(p: Pool, state: VbState, seqno: nat, size: nat)
    ensures Moves(p, Finish(p, state, seqno, size), MadeAll(p, p.frameBufs, state, seqno, size))
    decreases |p.frameBufs|
  {
    if p.frameBufs == [] {
      MovesNone(p);
    } else {
      var p1 := FinishOne(p, state, seqno, size);
      FinishOneMoves(p, state, seqno, size);
      FinishMoves(p1, state, seqno, size);
      MadeAllSame(p, p1, p1.frameBufs, state, seqno, size);
      MadeAllFirst(p, p.frameBufs, state, seqno, size);
      MovesOn(p, p1, Finish(p, state, seqno, size), [Made(p, p.frameBufs[0], state, seqno, size)],
              MadeAll(p1, p1.frameBufs, state, seqno, size));
    }
  }

  /** Some completions were made, all of them failed. */
  ghost predicate FailsOnly(p: Pool, p': Pool) {
    exists made :: Moves(p, p', made) && AllFailed(made)
  }

  lemma FailsNone(p: Pool)
    ensures FailsOnly(p, p)
  {
    MovesNone(p);
  }

  lemma FailsOn(p: Pool, p1: Pool, p2: Pool)
    requires FailsOnly(p, p1) && FailsOnly(p1, p2)
    ensures FailsOnly(p, p2)
  {
    var a :| Moves(p, p1, a) && AllFailed(a);
    var b :| Moves(p1, p2, b) && AllFailed(b);
    MovesOn(p, p1, p2, a, b);
  }

  lemma FailHeldFails(p: Pool, c: Cid)
    ensures FailsOnly(p, FailHeld(p, c))
  {
    match p.Of(c).held
    case None => FailsNone(p);
    case Some(b) =>
      var p1 := p.(frameBufs := Without(p.frameBufs, b)).PutCtx(c, p.Of(c).(held := None));
      assert p1.log + [] == p.log;
      assert Moves(p, p1, []);
      assert FailsOnly(p, p1);
      CompleteMoves(p1, b, Error, 0, 0);
      assert FailsOnly(p1, FailHeld(p, c));
      FailsOn(p, p1, FailHeld(p, c));
  }

  lemma HoldOneMoves(h: Hold, c: Cid, seqno: nat, size: nat, skip: Option<Cid>)
    ensures Moves(h.pool, HoldOne(h, c, seqno, size, skip).pool, [])
  {
    HoldOneCases(h, c, seqno, size, skip);
    assert h.pool.log + [] == h.pool.log;
  }

  lemma {:induction false} HoldAllMoves(p: Pool, cs: seq<Cid>, seqno: nat, size: nat, skip: Option<Cid>)
    ensures Moves(p, HoldAll(p, cs, seqno, size, skip).pool, [])
  {
    if cs == [] {
      MovesNone(p);
    } else {
      var h := HoldAll(p, cs[..|cs| - 1], seqno, size, skip);
      HoldAllMoves(p, cs[..|cs| - 1], seqno, size, skip);
      HoldOneMoves(h, cs[|cs| - 1], seqno, size, skip);
      var none: seq<Completion> := [];
      MovesOn(p, h.pool, HoldAll(p, cs, seqno, size, skip).pool, none, none);
      assert none + none == none;
    }
  }

  lemma HoldBuffersFails(p: Pool, seqno: nat, size: nat, skip: Option<Cid>)
    ensures FailsOnly(p, HoldBuffers(p, seqno, size, skip))
  {
    var h := HoldAll(p, p.consumers, seqno, size, skip);
    HoldAllMoves(p, p.consumers, seqno, size, skip);
    assert FailsOnly(p, h.pool);
    CompleteErrorsMoves(h.pool, h.small);
    MadeAllAt(h.pool, h.small, Error, 0, 0);
    assert FailsOnly(h.pool, CompleteErrors(h.pool, h.small));
    FailsOn(p, h.pool, CompleteErrors(h.pool, h.small));
  }
}
