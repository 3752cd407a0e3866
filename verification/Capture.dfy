/**
 * The capture state as the driver keeps it, and its functions as they update
 * it: each is proved to do what the specification functions of `ZeroCopy` and
 * `Frames` say, with every copy inside its target.
 */
module Capture {
  import opened Basics
  import opened EventCounter
  import opened ZeroCopy
  import P = Protocol
  import opened Quarters
  import opened CardAddr
  import F = Frames
  import opened Delivery
  import opened Driver
  import opened Effects
  import opened Consumers
  import opened Bounds
  import opened Payload
  import opened Assembling
  import opened Rendering

  lemma KeptStep(z: Zc, s: seq<Id>, i: nat)
    requires i < |s|
    ensures Kept(z, s[..i + 1]) == Kept(z, s[..i]) + (if z.Free(s[i]) then [] else [s[i]])
    ensures Freed(z, s[..i + 1]) == Freed(z, s[..i]) + (if z.Free(s[i]) then [s[i]] else [])
  {
    assert s[..i + 1][..i] == s[..i];
  }

  /** What hws_zc_release() hands back. */
  ghost function HandBack(p: F.Pool, z: Zc, size: nat): F.Pool {
    F.CompleteFreed(p, z, Freed(z, z.release), size)
  }

  lemma BlitAllStep(p: F.Pool, bs: seq<Id>, k: nat, off: nat, s: seq<byte>)
    requires k < |bs| && bs[k] in p.mem && off + |s| <= |p.mem[bs[k]]|
    ensures var p1 := F.BlitAll(p, bs[..k], off, s);
            && bs[k] in p1.mem && |p1.mem[bs[k]]| == |p.mem[bs[k]]|
            && F.BlitAll(p, bs[..k + 1], off, s) == p1.(mem := p1.mem[bs[k] := F.Blit(p1.mem[bs[k]], off, s)])
  {
    var p1 := F.BlitAll(p, bs[..k], off, s);
    var b := bs[k];
    assert bs[..k + 1] == bs[..k] + [b];
    BlitTwice(p.mem[b], off, s);
    assert F.BlitAll(p, bs[..k + 1], off, s).mem == p1.mem[b := F.Blit(p1.mem[b], off, s)];
  }

  lemma BlitTwice(m: seq<byte>, off: nat, s: seq<byte>)
    ensures F.Blit(F.Blit(m, off, s), off, s) == F.Blit(m, off, s)
  {
  }

  lemma FreedStep(p: F.Pool, z: Zc, s: seq<Id>, b: Id, size: nat)
    ensures F.CompleteFreed(p, z, s + [b], size)
            == F.Complete(F.CompleteFreed(p, z, s, size), b, z.Rec(b).state, z.Rec(b).seqno, size)
  {
    assert (s + [b])[..|s|] == s;
  }

  class Channel {
    // zero-copy: where the pairs point, the frame in progress, the next one, the release list, the counters
    var zc: Zc
    // the buffers, the consumers, and the list of the frame's buffers
    var pool: F.Pool
    // the frame being assembled
    var asm: F.Assembly
    // the input, the output size, the card
    var cfg: F.Config
    // the frame line doubling fills and the scaler reads
    const scalerBuf: array<byte>

    ghost function View(): F.Video
      reads this
    {
      F.Video(zc, pool, asm, cfg)
    }

    ghost predicate Valid()
      reads this
    {
      Whole(View()) && Fits(View()) && |cfg.table| == 4 && scalerBuf.Length == F.STAGING_BYTES
    }

    /** The state the driver starts with: a 1920 x 1080 input, no consumer, no buffer. */
    constructor (card: F.Config)
      requires card.geo == F.Geometry(1920, 1080, false) && LensMatch(card) && ScaleFits(card) && |card.table| == 4
      ensures Valid() && zc == IDLE && pool == F.NO_POOL && cfg == card && !asm.topDone && fresh(scalerBuf)
    {
      zc, pool, cfg := IDLE, F.NO_POOL, card;
      asm := F.Assembly(false, card.geo, [0, 0, 0, 0], false, false, seq(F.STAGING_BYTES, _ => 0),
                        0, 0, 0, None, 0, 0, 0, None, 0, 0, 0, map[]);
      scalerBuf := new byte[F.STAGING_BYTES](_ => 0);
      new;
      NothingIsWhole(View());
    }

    // ---- completing buffers ----

    /** hws_complete_buffer(), with the count of delivered frames its callers keep. */
    method CompleteBuffer(b: Id, state: VbState, seqno: nat, size: nat)
      modifies `pool
      ensures pool == F.Complete(old(pool), b, state, seqno, size)
    {
      var c := pool.Owner(b);
      var r := pool.Of(c);
      if state == Done {
        r := r.(delivered := r.delivered + 1);
      }
      var payload := if state == Done then F.Take(pool.Mem(b), size) else [];
      pool := pool.(ctx := pool.ctx[c := r.(inflight := r.inflight - 1)], app := pool.app + {b},
                    log := pool.log + [F.Completion(b, c, state, seqno, payload)]);
    }

    /** hws_finish_frame(). */
    method FinishFrame(state: VbState, seqno: nat, size: nat)
      modifies `pool
      ensures pool == F.Finish(old(pool), state, seqno, size)
    {
      while pool.frameBufs != []
        invariant F.Finish(pool, state, seqno, size) == F.Finish(old(pool), state, seqno, size)
        decreases |pool.frameBufs|
      {
        var b := pool.frameBufs[0];
        var c := pool.Owner(b);
        pool := pool.(frameBufs := pool.frameBufs[1..]).PutCtx(c, pool.Of(c).(held := None));
        CompleteBuffer(b, state, seqno, size);
      }
    }

    // ---- the zero-copy functions ----

    /** hws_zc_release(). */
    method ZcReleaseBuffers(size: nat)
      modifies `zc, `pool
      ensures zc == Release(old(zc)) && pool == HandBack(old(pool), old(zc), size)
    {
      ghost var z, p := zc, pool;
      var list, kept, i := zc.release, [], 0;
      ghost var freed := [];
      while i < |list|
        invariant 0 <= i <= |list|
        invariant kept == Kept(z, list[..i]) && freed == Freed(z, list[..i])
        invariant pool == F.CompleteFreed(p, z, freed, size)
        invariant zc == z
      {
        var b := list[i];
        var r := zc.Rec(b);
        KeptStep(z, list, i);
        if Some(b) == zc.prog.top || Some(b) == zc.prog.bot || EvBefore(zc.ev.top, r.freeAfter.top)
            || EvBefore(zc.ev.bot, r.freeAfter.bot) {
          kept := kept + [b];
        } else {
          FreedStep(p, z, freed, b, size);
          CompleteBuffer(b, r.state, r.seqno, size);
          freed := freed + [b];
        }
        i := i + 1;
      }
      assert list[..i] == list;
      zc := zc.(release := kept);
    }

    /** hws_zc_retire(). */
    method ZcRetire(b: Id, state: VbState)
      modifies `zc
      ensures zc == Retire(old(zc), b, state)
    {
      zc := zc.Put(b, zc.Rec(b).(state := state));
      zc := zc.(release := zc.release + [b]);
    }

    /** hws_zc_program(): `inTime` is false when the write was late or came at an arbitrary moment. */
    method ZcProgram(isTop: bool, buf: Option<Id>, inTime: bool)
      modifies `zc
      ensures zc == Program(old(zc), isTop, buf, inTime)
    {
      var was := zc.prog.At(isTop);
      if buf.None? && was.None? {
        return;
      }
      if was.Some? {
        var mark := if inTime then zc.ev.At(isTop) else Next(zc.ev.At(isTop));
        var r := zc.Rec(was.value);
        zc := zc.Put(was.value, r.(away := r.away.With(isTop, inTime), freeAfter := r.freeAfter.With(isTop, mark)));
      }
      if buf.Some? {
        var r := zc.Rec(buf.value);
        zc := zc.Put(buf.value, r.(pointed := r.pointed.With(isTop, inTime)));
      }
      zc := zc.(prog := zc.prog.With(isTop, buf));
    }

    /** hws_zc_frame_end() up to its call of hws_zc_release(). */
    method ZcAdvance(state: VbState, seqno: nat)
      modifies `zc
      ensures zc == Advance(old(zc), state, seqno)
    {
      if zc.cur.Some? {
        var b := zc.cur.value;
        var st := state;
        var r := zc.Rec(b);
        if state == Done && !(r.pointed.top && r.pointed.bot && r.away.top && r.away.bot) {
          st := Error;
        }
        zc := zc.Put(b, r.(seqno := if st == Done then seqno else r.seqno));
        ZcRetire(b, st);
      }
      zc := zc.(cur := zc.next, next := None);
    }

    /** hws_zc_frame_end(). */
    method ZcFrameEnd(state: VbState, seqno: nat)
      modifies `zc, `pool
      ensures View() == F.EndFrame(old(View()), state, seqno)
    {
      ZcAdvance(state, seqno);
      ZcReleaseBuffers(cfg.OutSize());
    }

    /** hws_zc_stop() up to its call of hws_zc_release(). */
    method ZcLetGo(cardStopped: bool)
      modifies `zc
      ensures zc == StopMarks(old(zc), cardStopped)
    {
      ZcProgram(true, None, false);
      ZcProgram(false, None, false);
      if zc.cur.Some? {
        ZcRetire(zc.cur.value, Error);
      }
      if zc.next.Some? {
        ZcRetire(zc.next.value, Error);
      }
      zc := zc.(cur := None, next := None);
      if cardStopped {
        MarkAll();
      }
    }

    /** The engine is off: as far as the marks go every buffer on the list is free. */
    method MarkAll()
      modifies `zc
      ensures zc == MarkNow(old(zc), old(zc).release)
    {
      ghost var z := zc;
      var list, i := zc.release, 0;
      while i < |list|
        invariant 0 <= i <= |list|
        invariant zc == MarkNow(z, list[..i])
      {
        assert list[..i + 1][..i] == list[..i];
        MarkNowRecs(z, list[..i], 0);
        zc := zc.Put(list[i], zc.Rec(list[i]).(freeAfter := zc.ev));
        i := i + 1;
      }
      assert list[..i] == list;
    }

    /** hws_zc_stop(). */
    method ZcStop(cardStopped: bool)
      modifies `zc, `asm, `pool
      ensures View() == F.StopZcAll(old(View()), cardStopped)
    {
      ZcLetGo(cardStopped);
      asm := asm.(zcCtx := None, stable := 0);
      ZcReleaseBuffers(cfg.OutSize());
    }

    // ---- copying ----

    /** Every buffer of the frame can take `n` bytes at `off`. */
    ghost predicate RoomFor(off: nat, n: nat)
      reads this
    {
      forall b: Id :: b in pool.frameBufs ==> b in pool.mem && off + n <= |pool.mem[b]|
    }

    method CopyInto(b: Id, off: nat, s: seq<byte>)
      requires b in pool.mem && off + |s| <= |pool.mem[b]|
      modifies `pool
      ensures pool == old(pool).(mem := old(pool).mem[b := F.Blit(old(pool).mem[b], off, s)])
    {
      var m := pool.mem[b];
      pool := pool.(mem := pool.mem[b := m[..off] + s + m[off + |s|..]]);
    }

    /** The same bytes copied into every buffer of the frame. */
    method CopyToFrame(off: nat, s: seq<byte>)
      requires RoomFor(off, |s|)
      modifies `pool
      ensures pool == F.BlitAll(old(pool), old(pool).frameBufs, off, s)
    {
      ghost var p := pool;
      var bs, k := pool.frameBufs, 0;
      assert F.BlitAll(p, bs[..0], off, s).mem == p.mem;
      while k < |bs|
        invariant 0 <= k <= |bs|
        invariant pool == F.BlitAll(p, bs[..k], off, s)
      {
        assert bs[k] in p.frameBufs;
        BlitAllStep(p, bs, k, off, s);
        CopyInto(bs[k], off, s);
        k := k + 1;
      }
      assert bs[..k] == bs;
    }

    /** One frame for every buffer: made in the first one and copied from there into the others. */
    method FillFrame(s: seq<byte>)
      requires RoomFor(0, |s|)
      modifies `pool
      ensures pool == F.BlitAll(old(pool), old(pool).frameBufs, 0, s)
    {
      ghost var p := pool;
      var bs, k := pool.frameBufs, 0;
      var first := None;
      assert F.BlitAll(p, bs[..0], 0, s).mem == p.mem;
      while k < |bs|
        invariant 0 <= k <= |bs|
        invariant pool == F.BlitAll(p, bs[..k], 0, s)
        invariant first.Some? ==>
                    var m := pool.Mem(first.value);
                    first.value in pool.mem && |s| <= |m| && m[..|s|] == s
      {
        assert bs[k] in p.frameBufs;
        BlitAllStep(p, bs, k, 0, s);
        if first.Some? {
          CopyInto(bs[k], 0, pool.mem[first.value][..|s|]);
        } else {
          CopyInto(bs[k], 0, s);
          first := Some(bs[k]);
        }
        k := k + 1;
      }
      assert bs[..k] == bs;
    }

    // ---- taking buffers ----

    /** hws_hold_buffers(). */
    method HoldBuffers(seqno: nat, size: nat, skip: Option<F.Cid>)
      modifies `pool
      ensures pool == F.HoldBuffers(old(pool), seqno, size, skip)
    {
      ghost var p := pool;
      var cs, k := pool.consumers, 0;
      var tooSmall := [];
      while k < |cs|
        invariant 0 <= k <= |cs|
        invariant F.Hold(pool, tooSmall) == F.HoldAll(p, cs[..k], seqno, size, skip)
      {
        assert cs[..k + 1][..k] == cs[..k];
        var small := HoldOne(cs[k], seqno, size, skip, tooSmall);
        tooSmall := small;
        k := k + 1;
      }
      assert cs[..k] == cs;
      FailAll(tooSmall);
    }

    /** One consumer's part of hws_hold_buffers(). */
    method HoldOne(c: F.Cid, seqno: nat, size: nat, skip: Option<F.Cid>, tooSmall: seq<Id>) returns (small: seq<Id>)
      modifies `pool
      ensures F.Hold(pool, small) == F.HoldOne(F.Hold(old(pool), tooSmall), c, seqno, size, skip)
    {
      small := tooSmall;
      var r := pool.Of(c);
      if !r.streaming || r.held.Some? || skip == Some(c) {
        return;
      }
      if seqno < r.nextSeq && r.nextSeq - seqno <= r.decimate {
        return;
      }
      if r.queue == [] {
        pool := pool.PutCtx(c, r.(missed := r.missed + 1));
        return;
      }
      var b := r.queue[0];
      r := r.(queue := r.queue[1..], inflight := r.inflight + 1, nextSeq := seqno + r.decimate);
      if b !in pool.mapped || |pool.Mem(b)| < size {
        pool := pool.PutCtx(c, r);
        small := tooSmall + [b];
        return;
      }
      pool := pool.PutCtx(c, r.(held := Some(b))).(frameBufs := pool.frameBufs + [b]);
    }

    method FailAll(bs: seq<Id>)
      modifies `pool
      ensures pool == F.CompleteErrors(old(pool), bs)
    {
      ghost var p := pool;
      var k := 0;
      while k < |bs|
        invariant 0 <= k <= |bs|
        invariant pool == F.CompleteErrors(p, bs[..k])
      {
        assert bs[..k + 1][..k] == bs[..k];
        CompleteBuffer(bs[k], Error, 0, 0);
        k := k + 1;
      }
      assert bs[..k] == bs;
    }

    /** A consumer's held buffer goes back with an error. */
    method FailHeld(c: F.Cid)
      modifies `pool
      ensures pool == F.FailHeld(old(pool), c)
    {
      var held := pool.Of(c).held;
      if held.Some? {
        var b := held.value;
        pool := pool.(frameBufs := F.Without(pool.frameBufs, b)).PutCtx(c, pool.Of(c).(held := None));
        CompleteBuffer(b, Error, 0, 0);
      }
    }

    /** hws_zc_buffer_ok(). */
    method ZcBufferOk(b: Id) returns (ok: bool)
      requires |cfg.table| == 4 && |cfg.len| == 4
      ensures ok == F.ZcBufferOk(View(), b)
    {
      var at := pool.Dma(b);
      var end := ZcSpan(cfg.len);
      if at == 0 || b !in pool.mapped || |pool.Mem(b)| < end {
        return false;
      }
      var first, last := WindowStart(at), WindowStart(at + end - 1);
      for q := 0 to 4
        invariant forall k :: 0 <= k < q ==> first == Target(cfg.table[k]) && last == Target(cfg.table[k])
      {
        var win := Target(cfg.table[q]);
        if first != win || last != win {
          return false;
        }
      }
      ok := true;
    }

    /** The consumer hws_zc_pick() serves: the first that can take zero-copy, or the one served now. */
    method ZcFind() returns (found: Option<F.Cid>)
      ensures found == F.FindZc(pool, pool.consumers, asm.zcCtx)
      ensures found.None? <==> forall c :: c in pool.consumers ==> !F.Eligible(pool.Of(c))
      ensures found.Some? ==> found.value in pool.consumers && F.Eligible(pool.Of(found.value))
      ensures found.Some? ==>
                found == asm.zcCtx || FirstEligible(pool, pool.consumers, found.value)
      ensures asm.zcCtx.Some? && asm.zcCtx.value in pool.consumers && F.Eligible(pool.Of(asm.zcCtx.value)) ==>
                found == asm.zcCtx
    {
      FoundIs(pool, pool.consumers, asm.zcCtx);
      found := None;
      var cs, k := pool.consumers, 0;
      while k < |cs|
        invariant 0 <= k <= |cs|
        invariant found == F.FindZc(pool, cs[..k], asm.zcCtx)
      {
        assert cs[..k + 1][..k] == cs[..k];
        var r := pool.Of(cs[k]);
        if r.streaming && r.decimate == 1 && r.contig && (found.None? || Some(cs[k]) == asm.zcCtx) {
          found := Some(cs[k]);
        }
        k := k + 1;
      }
      assert cs[..k] == cs;
    }

    /** hws_zc_pick(): takes the consumer's next buffer; its record is set in ZcTakeNext(). */
    method ZcPick(wanted: bool, hdcp: bool) returns (picked: Option<Id>)
      requires |cfg.table| == 4 && |cfg.len| == 4
      modifies `pool, `asm
      ensures var from := F.PickFrom(old(View()), wanted, hdcp);
              && picked == F.Picked(old(View()), from)
              && pool == (if from.Some? then F.TakeQueued(old(pool), from.value) else old(pool))
              && asm == (if from.Some? then old(asm).(zcCtx := from) else old(asm))
    {
      picked := None;
      if !wanted || asm.stable < 2 || !cfg.Direct() || !cfg.pitchIsYuyv || hdcp {
        return;
      }
      var found := ZcFind();
      if found.None? {
        return;
      }
      var r := pool.Of(found.value);
      if r.queue == [] {
        return;
      }
      var ok := ZcBufferOk(r.queue[0]);
      if ok {
        picked := Some(r.queue[0]);
        pool := pool.PutCtx(found.value, r.(queue := r.queue[1..], inflight := r.inflight + 1));
        asm := asm.(zcCtx := found);
      }
    }

    // ---- a half event: the zero-copy part ----

    /** The time between halves, and whether the register write that follows is in time. */
    method ZcClock(i: F.HalfIn) returns (inTime: bool)
      modifies `asm
      ensures asm == F.Timed(old(asm), i.ts) && inTime == F.InTime(old(asm), i)
    {
      var gap := if asm.lastTs != 0 && i.ts > asm.lastTs then i.ts - asm.lastTs else 0;
      var margin := (if gap < asm.gapPrev then gap else asm.gapPrev) / 2;
      asm := asm.(gapPrev := gap, lastTs := i.ts);
      inTime := i.ts != 0 && i.writeDelay < margin;
    }

    /** The buffer picked for the next frame takes the place of one whose bottom half never came. */
    method ZcTakeNext(picked: Option<Id>)
      modifies `zc
      ensures zc == TakeNext(old(zc), picked)
    {
      if zc.next.Some? {
        ZcRetire(zc.next.value, Error);
      }
      zc := zc.(next := picked);
      if picked.Some? {
        zc := zc.Put(picked.value, zc.Rec(picked.value).(pointed := Two(false, false), away := Two(false, false),
            freeAfter := zc.ev));
      }
    }

    method ZcTop(i: F.HalfIn)
      requires |cfg.table| == 4 && |cfg.len| == 4
      modifies `zc, `pool, `asm
      ensures View() == F.TopStart(old(View()), i)
    {
      ghost var v := View();
      var inTime := ZcClock(i);
      zc := Count(zc, true);
      PickSame(v, View(), i.wanted, i.hdcpAtPick);
      var picked := ZcPick(i.wanted, i.hdcpAtPick);
      ZcTakeNext(picked);
      ZcProgram(true, zc.next, inTime);
      asm := asm.(lastTop := None);
    }

    method ZcBottom(i: F.HalfIn)
      modifies `zc, `asm
      ensures View() == F.BottomStart(old(View()), i)
    {
      var inTime := ZcClock(i);
      zc := Count(zc, false);
      ZcProgram(false, zc.next, inTime);
      asm := asm.(lastTop := None);
    }

    // ---- a half event: the frame ----

    method LoseFrame()
      modifies `asm
      ensures asm == F.Lose(old(asm))
    {
      asm := asm.(topDone := false, dropped := asm.dropped + 1, seqno := asm.seqno + 1);
    }

    /** A top half: a frame whose bottom half never came is lost, and each consumer gives a buffer. */
    method TakeBuffers(was: F.Video)
      modifies `pool, `asm
      ensures asm == F.LoseIf(old(asm)) && pool == TopPool(was, old(View()))
    {
      if asm.topDone {
        LoseFrame();
      }
      var skip := None;
      if was.zc.cur.Some? {
        skip := Some(pool.Owner(was.zc.cur.value));
        FailHeld(skip.value);
      }
      HoldBuffers(asm.seqno, cfg.OutSize(), skip);
    }

    method CopyTopHalf(bytes: seq<byte>)
      requires cfg.Direct() ==> RoomFor(0, |bytes|)
      requires |bytes| <= |asm.staging|
      modifies `pool, `asm
      ensures View() == F.CopyTop(old(View()), old(pool), old(asm), bytes)
    {
      if asm.hdcp {
        // nothing is copied; the bottom half blanks the buffers
      } else if cfg.Direct() {
        CopyToFrame(0, bytes);
      } else if pool.frameBufs != [] {
        asm := asm.(staging := bytes + asm.staging[|bytes|..]);
      }
    }

    /** A top half that the card refreshed. */
    method HandleTop(was: F.Video, i: F.HalfIn, src0: seq<byte>, src1: seq<byte>)
      requires Whole(was) && Fits(was) && HalfOk(was.cfg, i) && F.Acts(was) && i.isTop
      requires View() == F.TopStart(was, i)
      requires src0 == F.Source(was, i, 0) && src1 == F.Source(was, i, 1)
      modifies `pool, `asm
      ensures View() == F.TopFrame(was, F.TopStart(was, i), i)
    {
      ghost var v := View();
      TopRoom(was, i);
      TakeBuffers(was);
      var bytes := F.Take(src0, cfg.len[0]) + F.Take(src1, cfg.len[1]);
      asm := asm.(topDone := true, frame := cfg.geo, frameLen := cfg.len, hdcp := i.hdcp, late := F.CopyLate(was, i),
                  lastTop := Some(F.TopRead(cfg.geo, bytes, was.zc.cur)));
      CopyTopHalf(bytes);
      TopIs(was, v, i);
    }

    /** A frame seen with HDCP: black for everyone, the zero-copy buffer included. */
    method Blank(was: F.Video)
      requires was.zc.cur.Some? ==> was.zc.cur.value in pool.mem && cfg.OutSize() <= |pool.mem[was.zc.cur.value]|
      requires RoomFor(0, cfg.OutSize())
      modifies `pool
      ensures pool == F.BlankAll(was, old(pool), cfg.OutSize())
    {
      var black := Black(cfg.OutSize());
      if was.zc.cur.Some? {
        BlitOne(pool, was.zc.cur.value, 0, black);
        CopyInto(was.zc.cur.value, 0, black);
      }
      FillFrame(black);
    }

    /** The bottom half joins the top half in the staging frame, which is rendered into the buffers. */
    method RenderHalves(bytes: seq<byte>) returns (state: VbState)
      requires |asm.frameLen| == 4 && SizeMatches(asm.frame, asm.frameLen) && asm.frame.w > 0
      requires F.BottomOff(asm) + |bytes| <= |asm.staging| == F.STAGING_BYTES == scalerBuf.Length
      requires RoomFor(0, cfg.OutSize()) && ScaleFits(cfg)
      modifies `pool, `asm, scalerBuf
      ensures var staging := F.Blit(old(asm).staging, F.BottomOff(old(asm)), bytes);
              var raw := F.Take(staging, FrameBytes(asm.frame.w, asm.frame.h));
              && asm == old(asm).(staging := staging)
              && match F.Render(cfg, raw, asm.frame, asm.frameLen)
                 case None => state == Error && pool == old(pool)
                 case Some(out) => state == Done && pool == F.BlitAll(old(pool), old(pool).frameBufs, 0, out)
    {
      var off := F.BottomOff(asm);
      asm := asm.(staging := asm.staging[..off] + bytes + asm.staging[off + |bytes|..]);
      FrameBytesMax(asm.frame);
      RenderFits(cfg, F.Take(asm.staging, FrameBytes(asm.frame.w, asm.frame.h)), asm.frame, asm.frameLen);
      var out := RenderStaged(cfg, asm.staging, scalerBuf, asm.frame, asm.frameLen);
      if out.None? {
        return Error;
      }
      FillFrame(out.value);
      state := Done;
    }

    /** The bottom half's part of the frame: blanked, copied, or rendered. */
    method FillHalf(was: F.Video, bytes: seq<byte>, hdcp: bool) returns (state: VbState, copied: bool)
      requires |asm.frameLen| == 4 && SizeMatches(asm.frame, asm.frameLen) && asm.frame.w > 0 && ScaleFits(cfg)
      requires F.BottomOff(asm) + |bytes| <= |asm.staging| == F.STAGING_BYTES == scalerBuf.Length
      requires cfg.Direct() ==> F.BottomOff(asm) + |bytes| <= cfg.OutSize()
      requires was.zc.cur.Some? ==> was.zc.cur.value in pool.mem && cfg.OutSize() <= |pool.mem[was.zc.cur.value]|
      requires RoomFor(0, cfg.OutSize())
      modifies `pool, `asm, scalerBuf
      ensures F.Filled(pool, asm.staging, state, copied) == FilledBy(was, old(pool), old(asm), cfg, bytes, hdcp)
      ensures asm == old(asm).(staging := asm.staging)
    {
      state, copied := Done, false;
      if asm.hdcp || hdcp {
        Blank(was);
      } else if cfg.Direct() {
        CopyToFrame(F.BottomOff(asm), bytes);
        copied := true;
      } else if pool.frameBufs != [] {
        state := RenderHalves(bytes);
        copied := true;
      }
    }

    method FillBottom(was: F.Video, i: F.HalfIn, src0: seq<byte>, src1: seq<byte>)
      returns (state: VbState, copied: bool)
      requires Whole(was) && Fits(was) && HalfOk(was.cfg, i) && F.Acts(was) && !i.isTop && !F.NoTop(was)
      requires View() == F.BottomStart(was, i) && scalerBuf.Length == F.STAGING_BYTES
      requires src0 == F.Source(was, i, 0) && src1 == F.Source(was, i, 1)
      modifies `pool, `asm, scalerBuf
      ensures F.Fill(was, F.BottomStart(was, i), i) == F.Filled(pool, asm.staging, state, copied)
      ensures asm == F.BottomStart(was, i).asm.(staging := asm.staging)
    {
      BottomRoom(was, i);
      FillIs(was, F.BottomStart(was, i), i);
      var len3 := cfg.geo.w * cfg.geo.h * 2 - F.BottomOff(asm) - asm.frameLen[2];
      if len3 < 0 {
        return Error, false;
      }
      var bytes := F.Take(src0, asm.frameLen[2]) + F.Take(src1, len3);
      state, copied := FillHalf(was, bytes, i.hdcp);
    }

    /** A frame also fails when a copy ended so late that the card may have overwritten the half. */
    method FillAndJudge(was: F.Video, i: F.HalfIn, src0: seq<byte>, src1: seq<byte>) returns (state: VbState)
      requires Whole(was) && Fits(was) && HalfOk(was.cfg, i) && F.Acts(was) && !i.isTop && !F.NoTop(was)
      requires View() == F.BottomStart(was, i) && scalerBuf.Length == F.STAGING_BYTES
      requires src0 == F.Source(was, i, 0) && src1 == F.Source(was, i, 1)
      modifies `pool, `asm, scalerBuf
      ensures var f := F.Fill(was, F.BottomStart(was, i), i);
              && pool == f.pool && asm == F.BottomStart(was, i).asm.(staging := f.staging)
              && state == F.FrameState(was, f, i)
    {
      var copied;
      state, copied := FillBottom(was, i, src0, src1);
      if state == Done && (was.asm.late || (copied && F.CopyLate(was, i))) {
        state := Error;
      }
    }

    /** A bottom half that ends a frame. */
    method HandleBottom(was: F.Video, i: F.HalfIn, src0: seq<byte>, src1: seq<byte>)
      requires Whole(was) && Fits(was) && HalfOk(was.cfg, i) && F.Acts(was) && !i.isTop && !F.NoTop(was)
      requires View() == F.BottomStart(was, i) && scalerBuf.Length == F.STAGING_BYTES
      requires src0 == F.Source(was, i, 0) && src1 == F.Source(was, i, 1)
      modifies `zc, `pool, `asm, scalerBuf
      ensures View() == F.BottomFrame(was, F.BottomStart(was, i), i)
    {
      ghost var v := View();
      var state := FillAndJudge(was, i, src0, src1);
      asm := asm.(topDone := false, stable := if state == Done then asm.stable + 1 else asm.stable);
      ghost var f := F.Fill(was, v, i);
      assert View() == v.(pool := f.pool,
                          asm := v.asm.(topDone := false, staging := f.staging,
                                        stable := if state.Done? then v.asm.stable + 1 else v.asm.stable));
      EndDelivery(state, F.Content(was, F.BottomStart(was, i), i));
      BottomIs(was, v, i);
    }

    /** The frame goes to the zero-copy consumer and to the others, under the same number. */
    method EndDelivery(state: VbState, content: seq<byte>)
      modifies `zc, `pool, `asm
      ensures View() == Delivered(old(View()), state, content)
    {
      ZcFrameEnd(state, asm.seqno);
      FinishFrame(state, asm.seqno, cfg.OutSize());
      asm := asm.(seqno := asm.seqno + 1, finished := asm.finished + 1, shown := F.Shown(asm, content));
    }

    /** hws_video_half(). */
    method VideoHalf(i: F.HalfIn)
      requires Valid() && HalfOk(cfg, i)
      modifies `zc, `pool, `asm, scalerBuf
      ensures Valid() && View() == F.VideoHalf(old(View()), i)
    {
      HalfKeeps(View(), i);
      if cfg.geo.w == 0 || cfg.geo.h == 0 || cfg.geo.w > F.MAX_W || cfg.geo.h > F.MAX_H || !cfg.running {
        return;
      }
      var was := F.Video(zc, pool, asm, cfg);
      var src0, src1 := ReadHalf(i);
      if i.isTop {
        ZcTop(i);
      } else {
        ZcBottom(i);
      }
      FrameHalf(was, i, src0, src1);
    }

    /** Where a half is: in its two DMA buffers, or in the zero-copy buffer the card wrote. */
    method ReadHalf(i: F.HalfIn) returns (src0: seq<byte>, src1: seq<byte>)
      requires Whole(View()) && Fits(View()) && HalfOk(cfg, i)
      ensures src0 == F.Source(View(), i, 0) && src1 == F.Source(View(), i, 1)
    {
      src0, src1 := i.src0, i.src1;
      if zc.cur.Some? {
        CutOffsets(FrameBytes(cfg.geo.w, cfg.geo.h));
        CurInMem(View());
        var mem, q := pool.mem[zc.cur.value], if i.isTop then 0 else 2;
        assert |mem| >= Span(cfg.len);
        src0, src1 := mem[QuarterOff(cfg.len, q)..], mem[QuarterOff(cfg.len, q + 1)..];
      }
    }

    /** The rest of hws_video_half(): what the half does to the frame. */
    method FrameHalf(was: F.Video, i: F.HalfIn, src0: seq<byte>, src1: seq<byte>)
      requires Whole(was) && Fits(was) && HalfOk(was.cfg, i) && F.Acts(was) && scalerBuf.Length == F.STAGING_BYTES
      requires View() == (if i.isTop then F.TopStart(was, i) else F.BottomStart(was, i))
      requires src0 == F.Source(was, i, 0) && src1 == F.Source(was, i, 1)
      modifies `zc, `pool, `asm, scalerBuf
      ensures View() == F.VideoHalf(was, i)
    {
      var stale := i.stale || (zc.cur.Some? && !zc.Rec(zc.cur.value).pointed.At(i.isTop));
      if stale {
        if asm.topDone {
          LoseFrame();
        }
        if !i.isTop {
          ZcFrameEnd(Error, 0);
        }
      } else if i.isTop {
        HandleTop(was, i, src0, src1);
      } else if !asm.topDone || asm.frame != cfg.geo {
        LoseFrame();
        ZcFrameEnd(Error, 0);
      } else {
        HandleBottom(was, i, src0, src1);
      }
    }

    /** hws_deliver_no_video(). */
    method DeliverNoVideo()
      requires Valid()
      modifies `pool, `asm
      ensures Valid() && View() == F.NoVideo(old(View()))
    {
      NoVideoKeeps(View());
      NoVideoRoom(View());
      DeliverBlue();
    }

    method DeliverBlue()
      requires var p := F.HoldBuffers(pool, asm.seqno, cfg.OutSize(), None);
               forall b: Id :: b in p.frameBufs ==> b in p.mem && cfg.OutSize() <= |p.mem[b]|
      modifies `pool, `asm
      ensures View() == F.NoVideo(old(View()))
    {
      asm := asm.(topDone := false, lastTop := None);
      SendBlue(asm.seqno, cfg.OutSize());
      asm := asm.(seqno := asm.seqno + 1, finished := asm.finished + 1, shown := F.Shown(asm, F.Blue(cfg.OutSize())));
    }

    /** One buffer from each consumer, filled blue and completed. */
    method SendBlue(seqno: nat, size: nat)
      requires var p := F.HoldBuffers(pool, seqno, size, None);
               forall b: Id :: b in p.frameBufs ==> b in p.mem && size <= |p.mem[b]|
      modifies `pool
      ensures pool == F.SendBlue(old(pool), seqno, size)
    {
      HoldBuffers(seqno, size, None);
      FillFrame(F.Blue(size));
      FinishFrame(Done, seqno, size);
    }

    /** ChangeVideoSize(), with the engine already stopped if it was running. */
    method ChangeVideoSize(g: F.Geometry, wasRunning: bool) returns (r: int)
      requires Valid() && SizeOk(g)
      modifies `zc, `pool, `asm, `cfg
      ensures Valid() && View() == F.SizeChange(old(View()), g, wasRunning)
      ensures r == 0 <==> Cut(FrameBytes(g.w, g.h))[3] + AUDIO_RING <= old(cfg).bufSize
      ensures cfg == if r == 0 then old(cfg).(geo := g, len := Cut(FrameBytes(g.w, g.h))) else old(cfg)
      ensures asm.zcCtx.None? && asm.stable == 0 && zc.cur.None? && zc.next.None? && zc.prog == Two(None, None)
    {
      StopWhole(View(), wasRunning);
      ResizeFits(View(), g, wasRunning);
      SizeTaken(View(), g, wasRunning);
      CutOffsets(FrameBytes(g.w, g.h));
      ZcStop(wasRunning);
      SizeBelow32(g);
      var len := new nat[4];
      var ok := QuarterSizes(g.w, g.h, len);
      if len[0] > cfg.bufSize - AUDIO_RING || len[3] > cfg.bufSize - AUDIO_RING {
        return -1;
      }
      cfg := cfg.(geo := g, len := len[..]);
      r := 0;
    }

    /** hws_buffer_queue_multi(), with hws_buffer_prepare_multi()'s check of the size before it. */
    method QueueBuffer(b: Id) returns (ok: bool)
      requires Valid() && b in pool.owner && b in pool.app
      modifies `pool
      ensures ok == (|old(pool).Mem(b)| >= cfg.OutSize())
      ensures Valid() && View() == (if ok then F.QueueBuf(old(View()), b) else old(View()))
      ensures ok ==> pool.Of(pool.Owner(b)).queue == old(pool.Of(pool.Owner(b))).queue + [b]
    {
      if |pool.Mem(b)| < cfg.OutSize() {
        return false;
      }
      QueueKeeps(View(), b);
      var c := pool.Owner(b);
      var r := pool.Of(c);
      pool := pool.(ctx := pool.ctx[c := r.(queue := r.queue + [b])], app := pool.app - {b},
          queued := pool.queued + multiset{b});
      assert View() == F.QueueBuf(old(View()), b);
      ok := true;
    }

    /** hws_start_streaming_multi(): the first streamer resets the frame numbers and takes zero-copy back. */
    method StartStreaming(c: F.Cid)
      requires Valid()
      modifies `zc, `pool, `asm
      ensures Valid() && View() == F.StreamOn(old(View()), c)
      ensures pool.Of(c).streaming && pool.Of(c).queue == old(pool.Of(c)).queue && asm.users == old(asm).users + 1
      ensures old(asm).users == 0 ==> asm.seqno == 0 && !asm.topDone && asm.lastTs == asm.gapPrev == 0
    {
      StartKeeps(View(), c);
      StartSets(View(), c);
      pool := pool.PutCtx(c, pool.Of(c).(nextSeq := 0, streaming := true));
      asm := asm.(users := asm.users + 1);
      assert View() == F.JoinStream(old(View()), c);
      if asm.users == 1 {
        StartEngine();
      }
    }

    /** What the first streamer does under the capture lock. */
    method StartEngine()
      modifies `zc, `pool, `asm
      ensures View() == F.EngineStart(old(View()))
    {
      asm := asm.(seqno := 0, topDone := false);
      ZcStop(true);
      asm := asm.(lastTs := 0, gapPrev := 0, finished := 0, droppedAtStart := asm.dropped, runStart := |pool.log|,
          shown := map[]);
    }

    /** hws_stop_streaming_multi(), first part: the queue goes back. */
    method StopStreaming(c: F.Cid)
      requires Valid() && pool.Of(c).streaming
      modifies `pool
      ensures Valid() && View() == F.StreamOffQueue(old(View()), c)
    {
      StopKeeps(View(), c);
      pool := pool.PutCtx(c, pool.Of(c).(streaming := false));
      ghost var p := pool;
      while pool.Of(c).queue != []
        invariant F.ReturnQueue(pool, c) == F.ReturnQueue(p, c)
        decreases |pool.Of(c).queue|
      {
        var r := pool.Of(c);
        var b := r.queue[0];
        pool := pool.PutCtx(c, r.(queue := r.queue[1..]))
                .(app := pool.app + {b}, log := pool.log + [F.Completion(b, pool.Owner(b), Error, 0, [])]);
      }
    }

    /** hws_stop_streaming_multi(), second part: the held buffer and the zero-copy buffers. */
    method StopStreamingHeld(c: F.Cid)
      requires Valid() && !pool.Of(c).streaming
      modifies `zc, `pool, `asm
      ensures Valid() && View() == F.StreamOffHeld(old(View()), c)
    {
      HeldKeeps(View(), c);
      FailHeld(c);
      if asm.zcCtx == Some(c) {
        ZcStop(false);
      }
    }

    /** hws_stop_streaming_multi() when its wait timed out: the engine is off, and everything comes back. */
    method StopStreamingQuiesced()
      requires Valid()
      modifies `zc, `pool, `asm
      ensures Valid() && View() == F.StopZcAll(old(View()), true)
    {
      StopWhole(View(), true);
      StopFits(View(), true);
      ZcStop(true);
    }
  }

  lemma HalfKeeps(v: F.Video, i: F.HalfIn)
    requires Whole(v) && Fits(v) && HalfOk(v.cfg, i)
    ensures Whole(F.VideoHalf(v, i)) && Fits(F.VideoHalf(v, i)) && F.VideoHalf(v, i).cfg == v.cfg
  {
    HalfWhole(v, i);
    HalfFits(v, i);
  }

  lemma QueueKeeps(v: F.Video, b: Id)
    requires Whole(v) && Fits(v) && Allowed(v, Queue(b))
    ensures Whole(F.QueueBuf(v, b)) && Fits(F.QueueBuf(v, b))
  {
    KeepsWhole(v, Queue(b));
    KeepsFits(v, Queue(b));
  }

  lemma StartKeeps(v: F.Video, c: F.Cid)
    requires Whole(v) && Fits(v)
    ensures Whole(F.StreamOn(v, c)) && Fits(F.StreamOn(v, c)) && F.StreamOn(v, c).cfg == v.cfg
  {
    StreamStartWhole(v, c);
    StreamStartFits(v, c);
  }

  lemma StartSets(v: F.Video, c: F.Cid)
    ensures var v' := F.StreamOn(v, c);
            && v'.pool.Of(c).streaming && v'.pool.Of(c).queue == v.pool.Of(c).queue && v'.asm.users == v.asm.users + 1
            && (v.asm.users == 0 ==> v'.asm.seqno == 0 && !v'.asm.topDone && v'.asm.lastTs == v'.asm.gapPrev == 0)
  {
    StartTurn(v, c, c);
  }

  lemma SizeTaken(v: F.Video, g: F.Geometry, wasRunning: bool)
    ensures var v', len := F.SizeChange(v, g, wasRunning), Cut(FrameBytes(g.w, g.h));
            && v'.cfg == (if len[3] + AUDIO_RING <= v.cfg.bufSize then v.cfg.(geo := g, len := len) else v.cfg)
            && v'.asm.zcCtx.None? && v'.asm.stable == 0
            && v'.zc.cur.None? && v'.zc.next.None? && v'.zc.prog == Two(None, None)
  {
    CutOffsets(FrameBytes(g.w, g.h));
    P.StopOccurs(v.zc, wasRunning, 0);
  }

  lemma StopKeeps(v: F.Video, c: F.Cid)
    requires Whole(v) && Fits(v) && Allowed(v, StreamStop(c))
    ensures Whole(F.StreamOffQueue(v, c)) && Fits(F.StreamOffQueue(v, c))
  {
    KeepsWhole(v, StreamStop(c));
    KeepsFits(v, StreamStop(c));
  }

  lemma HeldKeeps(v: F.Video, c: F.Cid)
    requires Whole(v) && Fits(v) && Allowed(v, StreamStopHeld(c))
    ensures Whole(F.StreamOffHeld(v, c)) && Fits(F.StreamOffHeld(v, c)) && F.StreamOffHeld(v, c).cfg == v.cfg
  {
    KeepsWhole(v, StreamStopHeld(c));
    KeepsFits(v, StreamStopHeld(c));
  }

  lemma NoVideoKeeps(v: F.Video)
    requires Whole(v) && Fits(v)
    ensures Whole(F.NoVideo(v)) && Fits(F.NoVideo(v)) && F.NoVideo(v).cfg == v.cfg
  {
    NoVideoWhole(v);
    NoVideoFits(v);
  }

  lemma SizeBelow32(g: F.Geometry)
    requires SizeOk(g)
    ensures FrameBytes(g.w, g.h) < TWO_TO_THE_31
  {
    FrameBytesMax(g);
  }

  /** The blue frame fits every buffer it goes to. */
  lemma NoVideoRoom(v: F.Video)
    requires Whole(v) && Fits(v)
    ensures var p := F.HoldBuffers(v.pool, v.asm.seqno, v.cfg.OutSize(), None);
            forall b: Id :: b in p.frameBufs ==> b in p.mem && v.cfg.OutSize() <= |p.mem[b]|
  {
    var p := F.HoldBuffers(v.pool, v.asm.seqno, v.cfg.OutSize(), None);
    HoldBuffersKeeps(v.zc, v.pool, multiset{}, v.asm.seqno, v.cfg.OutSize(), None);
    HoldBuffersFails(v.pool, v.asm.seqno, v.cfg.OutSize(), None);
    FrameApart(v.(pool := p));
    forall b: Id | b in p.frameBufs ensures b in p.mem && v.cfg.OutSize() <= |p.mem[b]| {
      assert b in v.pool.owner;
    }
  }

  /** What a bottom half writes, given the bytes it adds to the frame. */
  ghost function FilledBy(was: F.Video, p: F.Pool, a: F.Assembly, cfg: F.Config, bytes: seq<byte>, hdcp: bool): F.Filled
    requires |a.frameLen| == 4
  {
    if a.hdcp || hdcp then F.Filled(F.BlankAll(was, p, cfg.OutSize()), a.staging, Done, false)
    else if cfg.Direct() then F.Filled(F.BlitAll(p, p.frameBufs, F.BottomOff(a), bytes), a.staging, Done, true)
    else if p.frameBufs == [] then F.Filled(p, a.staging, Done, false)
    else
      var staging := F.Blit(a.staging, F.BottomOff(a), bytes);
      match F.Render(cfg, F.Take(staging, FrameBytes(a.frame.w, a.frame.h)), a.frame, a.frameLen)
      case None => F.Filled(p, staging, Error, true)
      case Some(out) => F.Filled(F.BlitAll(p, p.frameBufs, 0, out), staging, Done, true)
  }

  lemma FillIs(was: F.Video, v: F.Video, i: F.HalfIn)
    requires |was.cfg.len| == 4 && |was.asm.frameLen| == 4 && v.cfg == was.cfg && F.LastPart(was) >= 0
    requires v.asm.frameLen == was.asm.frameLen && v.asm.frame == was.asm.frame && v.asm.staging == was.asm.staging
             && v.asm.hdcp == was.asm.hdcp
    ensures F.Fill(was, v, i) == FilledBy(was, v.pool, v.asm, v.cfg, F.BottomBytes(was, i), i.hdcp)
  {
    var bytes := F.BottomBytes(was, i);
    assert F.BottomOff(was.asm) == F.BottomOff(v.asm);
    assert F.Blit(was.asm.staging, F.BottomOff(was.asm), bytes) == F.Blit(v.asm.staging, F.BottomOff(v.asm), bytes);
  }

  ghost function Delivered(v: F.Video, state: VbState, content: seq<byte>): F.Video {
    var v1 := F.EndFrame(v, state, v.asm.seqno);
    v1.(pool := F.Finish(v1.pool, state, v.asm.seqno, v.cfg.OutSize()),
        asm := v.asm.(seqno := v.asm.seqno + 1, finished := v.asm.finished + 1, shown := F.Shown(v.asm, content)))
  }

  lemma BottomIs(was: F.Video, v: F.Video, i: F.HalfIn)
    requires |was.cfg.len| == 4 && |was.asm.frameLen| == 4 && v.cfg == was.cfg
    ensures var f := F.Fill(was, v, i);
            var state := F.FrameState(was, f, i);
            F.BottomFrame(was, v, i)
            == Delivered(v.(pool := f.pool,
                            asm := v.asm.(topDone := false, staging := f.staging,
                                          stable := if state.Done? then v.asm.stable + 1 else v.asm.stable)),
                         state, F.Content(was, v, i))
  {
  }

  lemma BlitOne(p: F.Pool, b: Id, off: nat, s: seq<byte>)
    requires b in p.mem
    ensures F.BlitAll(p, [b], off, s) == p.(mem := p.mem[b := F.Blit(p.mem[b], off, s)])
  {
    assert F.BlitAll(p, [b], off, s).mem == p.mem[b := F.Blit(p.mem[b], off, s)];
  }

  /** What a bottom half writes fits the buffers and the staging frame. */
  lemma BottomRoom(was: F.Video, i: F.HalfIn)
    requires Whole(was) && Fits(was) && HalfOk(was.cfg, i) && F.Acts(was) && !i.isTop && !F.NoTop(was)
    ensures forall b: Id :: b in was.pool.frameBufs || was.zc.cur == Some(b) ==>
              b in was.pool.mem && was.cfg.OutSize() <= |was.pool.mem[b]|
    ensures F.LastPart(was) >= 0
    ensures var n := F.BottomOff(was.asm) + |F.BottomBytes(was, i)|;
            n <= |was.asm.staging| && (was.cfg.Direct() ==> n <= was.cfg.OutSize())
    ensures SizeMatches(was.asm.frame, was.asm.frameLen)
  {
    FrameApart(was);
    ReadsAreFull(was, i);
    FrameBytesMax(was.cfg.geo);
    forall b: Id | b in was.pool.frameBufs || was.zc.cur == Some(b)
      ensures b in was.pool.mem && was.cfg.OutSize() <= |was.pool.mem[b]|
    {
      CurOwned(was);
      assert b in was.pool.owner;
    }
  }

  lemma CurOwned(v: F.Video)
    requires Whole(v)
    ensures v.zc.cur.Some? ==> v.zc.cur.value in v.pool.owner
  {
    if v.zc.cur.Some? && v.zc.cur.value !in v.pool.owner {
      NotOwned(v.zc, v.pool, v.zc.cur.value);
    }
  }

  lemma TopIs(was: F.Video, v: F.Video, i: F.HalfIn)
    requires |was.cfg.len| == 4
    ensures var bytes := F.TopBytes(was, i);
            F.TopFrame(was, v, i)
            == F.CopyTop(v, TopPool(was, v),
                         F.LoseIf(v.asm).(topDone := true, frame := v.cfg.geo, frameLen := v.cfg.len, hdcp := i.hdcp,
                                          late := F.CopyLate(was, i),
                                          lastTop := Some(F.TopRead(v.cfg.geo, bytes, was.zc.cur))),
                         bytes)
  {
  }

  lemma PickSame(v: F.Video, v': F.Video, wanted: bool, hdcp: bool)
    requires v'.pool == v.pool && v'.cfg == v.cfg && v'.asm.stable == v.asm.stable && v'.asm.zcCtx == v.asm.zcCtx
    ensures F.PickFrom(v', wanted, hdcp) == F.PickFrom(v, wanted, hdcp)
    ensures F.Picked(v', F.PickFrom(v', wanted, hdcp)) == F.Picked(v, F.PickFrom(v, wanted, hdcp))
  {
  }

  /** The top half fits every buffer it is copied to. */
  lemma TopRoom(was: F.Video, i: F.HalfIn)
    requires Whole(was) && Fits(was) && HalfOk(was.cfg, i) && F.Acts(was) && i.isTop
    ensures var p := TopPool(was, F.TopStart(was, i));
            forall b: Id :: b in p.frameBufs && was.cfg.Direct() ==> b in p.mem && |F.TopBytes(was, i)| <= |p.mem[b]|
    ensures |F.TopBytes(was, i)| <= |was.asm.staging|
  {
    var v := F.TopStart(was, i);
    var p := TopPool(was, v);
    TopStartWhole(was, i);
    TopPoolWhole(was, v);
    FrameApart(v.(pool := p));
    ReadsAreFull(was, i);
    CutOffsets(FrameBytes(was.cfg.geo.w, was.cfg.geo.h));
    FrameBytesMax(was.cfg.geo);
    forall b: Id | b in p.frameBufs && was.cfg.Direct() ensures b in p.mem && |F.TopBytes(was, i)| <= |p.mem[b]| {
      TopMem(was, i, b);
      TopPoolFails(was, v);
      assert b in was.pool.owner;
    }
  }
}
