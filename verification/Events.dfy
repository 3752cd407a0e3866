/**
 * Half events in terms of what happened: which halves arrive, where their
 * bytes are, and when a frame ends and how.
 */
module Events {
  import opened Basics
  import opened ZeroCopy
  import opened Quarters
  import opened Protocol
  import opened Frames
  import opened Delivery
  import opened Driver
  import opened Bounds
  import opened Payload
  import opened Assembling
  import opened Rendering
  import opened FrameLog

  /** Capture is on, with an input of a size the driver takes. */
  predicate Capturing(v: Video) {
    v.cfg.running && 0 < v.cfg.geo.w <= 4096 && 0 < v.cfg.geo.h <= 2160
  }

  /** The card wrote this half where the driver reads it. */
  predicate Arrives(v: Video, i: HalfIn) {
    && Capturing(v) && !i.stale
    && (v.zc.cur.Some? ==>
          var pointed := v.zc.Rec(v.zc.cur.value).pointed;
          if i.isTop then pointed.top else pointed.bot)
  }

  /** A bottom half arrives for the top half before it. */
  predicate Completes(v: Video, i: HalfIn) {
    Arrives(v, i) && !i.isTop && v.asm.topDone && v.asm.frame == v.cfg.geo
  }

  /** The copy from the DMA buffers took longer than the card leaves them alone. */
  predicate TooLate(v: Video, i: HalfIn) {
    v.zc.cur.None? && v.asm.lastTs != 0 && i.ts > v.asm.lastTs && i.copyDelay > i.ts - v.asm.lastTs
  }

  // ---- the bytes of a half ----

  /** Quarters 0-1: the first two DMA buffers one behind the other, or the start of the zero-copy buffer. */
  ghost predicate IsFirstHalf(v: Video, i: HalfIn, bytes: seq<byte>)
    requires |v.cfg.len| == 4
  {
    var a, b := v.cfg.len[0], v.cfg.len[1];
    match v.zc.cur
    case None => a <= |i.src0| && b <= |i.src1| && bytes == i.src0[..a] + i.src1[..b]
    case Some(x) => a + b <= |v.pool.Mem(x)| && bytes == v.pool.Mem(x)[..a + b]
  }

  /** Quarters 2-3 without what is behind the frame. */
  ghost predicate IsSecondHalf(v: Video, i: HalfIn, bytes: seq<byte>)
    requires |v.cfg.len| == 4
  {
    var off, c, frame := v.cfg.len[0] + v.cfg.len[1], v.cfg.len[2], v.cfg.geo.w * v.cfg.geo.h * 2;
    match v.zc.cur
    case None =>
      && c <= |i.src0| && 0 <= frame - off - c <= |i.src1|
      && bytes == i.src0[..c] + i.src1[..frame - off - c]
    case Some(x) => off <= frame <= |v.pool.Mem(x)| && bytes == v.pool.Mem(x)[off..frame]
  }

  lemma FirstHalfRead(v: Video, i: HalfIn)
    requires Fits(v) && HalfOk(v.cfg, i) && i.isTop
    ensures IsFirstHalf(v, i, TopBytes(v, i))
  {
    var len := v.cfg.len;
    CutOffsets(FrameBytes(v.cfg.geo.w, v.cfg.geo.h));
    if v.zc.cur.Some? {
      var m := v.pool.Mem(v.zc.cur.value);
      assert |m| >= Span(len);
      TwoSlices(m, 0, len[0], len[0] + len[1]);
      TwoSlices(m, len[0], len[0] + len[1], len[0] + len[1]);
    }
  }

  lemma SecondHalfRead(v: Video, i: HalfIn)
    requires Fits(v) && HalfOk(v.cfg, i) && !i.isTop && !NoTop(v)
    ensures LastPart(v) >= 0 && IsSecondHalf(v, i, BottomBytes(v, i))
  {
    ReadsAreFull(v, i);
    CutOffsets(FrameBytes(v.cfg.geo.w, v.cfg.geo.h));
    if v.zc.cur.Some? {
      CardSize(v);
      CardBottom(v, i);
    }
  }

  // ---- when a frame ends ----

  /** Moving a pair on leaves the buffer of this frame as it was pointed at. */
  lemma ArrivesIs(v: Video, i: HalfIn)
    requires Whole(v) && Shape(v)
    ensures Acts(v) <==> Capturing(v)
    ensures Arrives(v, i) <==> Acts(v) && !Stale(if i.isTop then TopStart(v, i) else BottomStart(v, i), i)
    ensures Completes(v, i) <==> EndsAFrame(v, i)
  {
    if v.zc.cur.Some? {
      var b := v.zc.cur.value;
      if i.isTop {
        TopStartWhole(v, i);
        TopPointed(v.zc, Picked(v, PickFrom(v, i.wanted, i.hdcpAtPick)), InTime(v.asm, i), b);
      }
      BottomPointed(v.zc, InTime(v.asm, i), b);
    }
  }

  lemma TopPointed(z: Zc, picked: Option<Id>, inTime: bool, b: Id)
    requires Owned(z) && z.cur == Some(b) && (picked.Some? ==> !z.Held(picked.value))
    ensures TopHalf(z, picked, inTime).cur == Some(b)
    ensures TopHalf(z, picked, inTime).Rec(b).pointed == z.Rec(b).pointed
  {
    TopRec(z, picked, inTime, b);
  }

  lemma BottomPointed(z: Zc, inTime: bool, b: Id)
    requires Owned(z) && z.cur == Some(b)
    ensures BottomHalf(z, inTime).cur == Some(b) && BottomHalf(z, inTime).Rec(b).pointed == z.Rec(b).pointed
  {
    ProgramFrame(Count(z, false), false, z.next, inTime);
    ProgramRec(Count(z, false), false, z.next, inTime, b);
    assert Occurs(z, b) <= 1;
  }

  // ---- how it ends ----

  /**
   * The frame is handed out complete: its top half was not copied too late,
   * and unless it is blanked neither was its bottom half, and its field could
   * be doubled where that is needed.
   */
  predicate Good(v: Video, i: HalfIn) {
    && !v.asm.late
    && (v.asm.hdcp || i.hdcp
        || (if v.cfg.Direct() then !TooLate(v, i)
            else v.pool.frameBufs != [] ==> !TooLate(v, i) && (v.cfg.geo.il ==> FieldJoins(v.cfg.geo))))
  }

  lemma EndsGood(v: Video, i: HalfIn)
    requires Ends(v, i)
    ensures EndingState(v, i) == (if Good(v, i) then Done else Error)
  {
    ReadsAreFull(v, i);
    if !v.asm.hdcp && !i.hdcp && !v.cfg.Direct() && v.pool.frameBufs != [] {
      StagedRaw(v, i);
      RenderShows(v.cfg, v.asm.lastTop.value.bytes + BottomBytes(v, i), v.cfg.geo);
    }
  }

  // ---- what zero-copy takes ----

  /** The module parameter, a settled progressive input at the output size, a YUYV card, no HDCP. */
  predicate MayTake(v: Video, i: HalfIn) {
    && i.wanted && v.asm.stable >= 2 && !i.hdcpAtPick && v.cfg.pitchIsYuyv
    && !v.cfg.geo.il && v.cfg.geo.w == v.cfg.outW && v.cfg.geo.h == v.cfg.outH
  }

  predicate CanServe(r: Consumer) {
    r.streaming && r.decimate == 1 && r.contig
  }

  ghost predicate FirstServed(p: Pool, c: Cid) {
    exists k :: 0 <= k < |p.consumers| && p.consumers[k] == c && CanServe(p.Of(c))
                && forall j :: 0 <= j < k ==> !CanServe(p.Of(p.consumers[j]))
  }

  /** The consumer served now if zero-copy still can, or else the first one it can serve. */
  ghost predicate Chosen(p: Pool, now: Option<Cid>, c: Option<Cid>) {
    match c
    case None => forall d :: d in p.consumers ==> !CanServe(p.Of(d))
    case Some(c) =>
      && c in p.consumers && CanServe(p.Of(c))
      && (if now.Some? && now.value in p.consumers && CanServe(p.Of(now.value)) then c == now.value
          else FirstServed(p, c))
  }

  lemma FoundChosen(p: Pool, now: Option<Cid>)
    ensures Chosen(p, now, FindZc(p, p.consumers, now))
  {
    FoundIs(p, p.consumers, now);
    var found := FindZc(p, p.consumers, now);
    if found.Some? && FirstEligible(p, p.consumers, found.value) {
      var k :| 0 <= k < |p.consumers| && p.consumers[k] == found.value && Eligible(p.Of(found.value))
               && forall j :: 0 <= j < k ==> !Eligible(p.Of(p.consumers[j]));
      assert forall j :: 0 <= j < k ==> CanServe(p.Of(p.consumers[j])) == Eligible(p.Of(p.consumers[j]));
    }
  }

  /** A top half takes a buffer for the next frame exactly when it may and the chosen consumer's first one is fit. */
  lemma ZeroCopyTakes(v: Video, i: HalfIn) returns (c: Option<Cid>)
    requires Whole(v) && Shape(v) && Capturing(v) && i.isTop
    ensures Chosen(v.pool, v.asm.zcCtx, c)
    ensures var next, q := VideoHalf(v, i).zc.next, if c.Some? then v.pool.Of(c.value).queue else [];
            && next == (if MayTake(v, i) && q != [] && ZcBufferOk(v, q[0]) then Some(q[0]) else None)
            && VideoHalf(v, i).asm.zcCtx == (if next.Some? then c else v.asm.zcCtx)
  {
    c := FindZc(v.pool, v.pool.consumers, v.asm.zcCtx);
    FoundChosen(v.pool, v.asm.zcCtx);
    TopProjects(v, i);
    assert VideoHalf(v, i).zc.next == Picked(v, PickFrom(v, i.wanted, i.hdcpAtPick));
    TopServes(v, i);
  }

  lemma TopServes(v: Video, i: HalfIn)
    requires Shape(v) && Acts(v) && i.isTop
    ensures VideoHalf(v, i).asm.zcCtx == TopStart(v, i).asm.zcCtx
  {
  }

  /** The operation takes zero-copy back to the DMA buffers. */
  predicate StopsZeroCopy(v: Video, op: Op) {
    || op.Resize? || op.Quiesced? || (op.StreamStart? && v.asm.users == 0)
    || (op.StreamStopHeld? && v.asm.zcCtx == Some(op.c))
  }

  /** The input counts as settled by the frames handed out complete since zero-copy was last stopped. */
  lemma StableCounts(v: Video, op: Op)
    requires Whole(v) && Fits(v) && Assembled(v) && Allowed(v, op)
    ensures Do(v, op).asm.stable ==
            if StopsZeroCopy(v, op) then 0
            else if op.Half? && Completes(v, op.i) && Good(v, op.i) then v.asm.stable + 1
            else v.asm.stable
  {
    if op.Half? {
      HalfStable(v, op.i);
    } else if StopsZeroCopy(v, op) {
      StoppedStable(v, op);
    } else {
      OthersStable(v, op);
    }
  }

  lemma StoppedStable(v: Video, op: Op)
    requires Shape(v) && Allowed(v, op) && StopsZeroCopy(v, op)
    ensures Do(v, op).asm.stable == 0
  {
    match op
    case Resize(_, wasRunning) => StopAsm(v, wasRunning);
    case StreamStart(c) => StopAsm(Started(v, c), true);
    case StreamStopHeld(c) => StopAsm(v.(pool := FailHeld(v.pool, c)), false);
    case Quiesced => StopAsm(v, true);
  }

  lemma OthersStable(v: Video, op: Op)
    requires Shape(v) && Allowed(v, op) && !op.Half? && !StopsZeroCopy(v, op)
    ensures Do(v, op).asm.stable == v.asm.stable
  {
  }

  lemma HalfStable(v: Video, i: HalfIn)
    requires Whole(v) && Fits(v) && Assembled(v) && HalfOk(v.cfg, i)
    ensures VideoHalf(v, i).asm.stable == v.asm.stable + (if Completes(v, i) && Good(v, i) then 1 else 0)
  {
    ArrivesIs(v, i);
    if Completes(v, i) {
      EndsGood(v, i);
    } else if Acts(v) {
      LostStable(v, i);
    }
  }

  lemma LostStable(v: Video, i: HalfIn)
    requires Shape(v) && Acts(v) && !EndsAFrame(v, i)
    ensures VideoHalf(v, i).asm.stable == v.asm.stable
  {
  }

  // ---- the clock ----

  /** The time of the last half handled since the engine started, and the time between the last two, or 0. */
  lemma ClockAfter(v: Video, op: Op)
    requires Shape(v) && Allowed(v, op)
    ensures var a, a' := v.asm, Do(v, op).asm;
            if op.Half? && Capturing(v) then
              && a'.lastTs == op.i.ts
              && a'.gapPrev == (if a.lastTs != 0 && op.i.ts > a.lastTs then op.i.ts - a.lastTs else 0)
            else if op.StreamStart? && a.users == 0 then a'.lastTs == a'.gapPrev == 0
            else a'.lastTs == a.lastTs && a'.gapPrev == a.gapPrev
  {
    match op
    case Half(i) => HalfClock(v, i);
    case Resize(_, wasRunning) => StopAsm(v, wasRunning);
    case StreamStopHeld(c) => StopAsm(v.(pool := FailHeld(v.pool, c)), false);
    case Quiesced => StopAsm(v, true);
    case _ =>
  }

  lemma HalfClock(v: Video, i: HalfIn)
    requires Shape(v)
    ensures var a, a' := v.asm, VideoHalf(v, i).asm;
            if Acts(v) then a'.lastTs == i.ts && a'.gapPrev == Gap(a, i.ts)
            else a'.lastTs == a.lastTs && a'.gapPrev == a.gapPrev
  {
  }
}
