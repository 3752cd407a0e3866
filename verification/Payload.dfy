/**
 * What complete frames contain: the bytes of a top half followed by those of
 * the bottom half handled next, for every consumer alike.
 */
module Payload {
  import opened Basics
  import opened ZeroCopy
  import opened Quarters
  import opened Protocol
  import opened Frames
  import opened Delivery
  import opened Driver
  import opened Bounds

  /** What the last handled half read, if it was the top half of the frame in progress. */
  ghost predicate TopKnown(v: Video) {
    v.asm.topDone ==>
      && v.asm.lastTop.Some? && |v.asm.frameLen| == 4
      && v.asm.lastTop.value.geo == v.asm.frame
      && |v.asm.lastTop.value.bytes| == BottomOff(v.asm)
      && (v.zc.cur.Some? ==> v.asm.lastTop.value.from == v.zc.cur && v.asm.frame == v.cfg.geo)
  }

  /** The top half was copied into every buffer of the frame, or into the staging frame. */
  ghost predicate CopiesHold(v: Video) {
    v.asm.topDone && v.asm.lastTop.Some? && !v.asm.hdcp && v.pool.frameBufs != [] ==>
      if v.cfg.(geo := v.asm.frame).Direct()
      then forall b: Id :: b in v.pool.frameBufs ==> v.asm.lastTop.value.bytes <= v.pool.Mem(b)
      else v.asm.lastTop.value.bytes <= v.asm.staging
  }

  /** The zero-copy buffer still holds the top half, if its pair moved on in time. */
  ghost predicate CardHolds(v: Video) {
    v.asm.topDone && v.asm.lastTop.Some? && v.zc.cur.Some? && v.zc.Rec(v.zc.cur.value).away.top ==>
      v.asm.lastTop.value.bytes <= v.pool.Mem(v.zc.cur.value)
  }

  /** The consumer that gets the frame by zero-copy holds no buffer for a copy of it. */
  ghost predicate HeldApart(v: Video) {
    v.asm.topDone && v.zc.cur.Some? ==> v.pool.Of(v.pool.Owner(v.zc.cur.value)).held.None?
  }

  ghost predicate Assembled(v: Video) {
    TopKnown(v) && CopiesHold(v) && CardHolds(v) && HeldApart(v)
  }

  // ---- bytes ----

  lemma BlitPrefix(m: seq<byte>, a: seq<byte>, s: seq<byte>)
    requires a <= m && |a| + |s| <= |m|
    ensures a + s <= Blit(m, |a|, s)
    ensures Frames.Take(Blit(m, |a|, s), |a| + |s|) == a + s
  {
    assert m[..|a|] == a;
    assert Blit(m, |a|, s)[..|a| + |s|] == a + s;
  }

  lemma BlitStart(m: seq<byte>, s: seq<byte>)
    requires |s| <= |m|
    ensures s <= Blit(m, 0, s) && Frames.Take(Blit(m, 0, s), |s|) == s
  {
    assert [] + s == s;
    BlitPrefix(m, [], s);
  }

  lemma BlitLater(m: seq<byte>, a: seq<byte>, off: nat, s: seq<byte>)
    requires a <= m && |a| <= off
    ensures a <= Blit(m, off, s)
  {
  }

  lemma BlitAllMem(p: Pool, bs: seq<Id>, off: nat, s: seq<byte>, b: Id)
    requires |p.Mem(b)| > 0
    ensures BlitAll(p, bs, off, s).Mem(b) == (if b in bs then Blit(p.Mem(b), off, s) else p.Mem(b))
  {
  }

  lemma TwoSlices(m: seq<byte>, a: nat, b: nat, c: nat)
    requires a <= b <= c <= |m|
    ensures m[a..b] + m[b..c] == m[a..c]
    ensures Frames.Take(Drop(m, a), b - a) == m[a..b]
  {
  }

  /** The frame as a zero-copy buffer holds it is its two halves as the driver reads them. */
  lemma CardFrame(v: Video, top: HalfIn, bottom: HalfIn)
    requires Fits(v) && v.zc.cur.Some? && top.isTop && !bottom.isTop
    requires HalfOk(v.cfg, top) && HalfOk(v.cfg, bottom)
    ensures var m := v.pool.Mem(v.zc.cur.value);
            && |m| >= FrameBytes(v.cfg.geo.w, v.cfg.geo.h) == v.cfg.OutSize()
            && TopBytes(v, top) <= m
            && (!NoTop(v) ==> LastPart(v) >= 0 && BottomOff(v.asm) <= v.cfg.OutSize()
                              && BottomBytes(v, bottom) == m[BottomOff(v.asm)..v.cfg.OutSize()])
  {
    var m, len := v.pool.Mem(v.zc.cur.value), v.cfg.len;
    CutOffsets(FrameBytes(v.cfg.geo.w, v.cfg.geo.h));
    assert |m| >= Span(len);
    TwoSlices(m, 0, len[0], len[0] + len[1]);
    TwoSlices(m, len[0], len[0] + len[1], len[0] + len[1]);
    if !NoTop(v) {
      CardBottom(v, bottom);
    }
  }

  lemma CardBottom(v: Video, bottom: HalfIn)
    requires Fits(v) && v.zc.cur.Some? && !bottom.isTop && HalfOk(v.cfg, bottom) && !NoTop(v)
    ensures var m := v.pool.Mem(v.zc.cur.value);
            && |m| >= v.cfg.OutSize() && LastPart(v) >= 0 && BottomOff(v.asm) <= v.cfg.OutSize()
            && BottomBytes(v, bottom) == m[BottomOff(v.asm)..v.cfg.OutSize()]
  {
    var m, len := v.pool.Mem(v.zc.cur.value), v.cfg.len;
    ReadsAreFull(v, bottom);
    CutOffsets(FrameBytes(v.cfg.geo.w, v.cfg.geo.h));
    assert |m| >= Span(len);
    var off: nat := BottomOff(v.asm);
    TwoSlices(m, off, off + len[2], v.cfg.OutSize());
    TwoSlices(m, off + len[2], v.cfg.OutSize(), v.cfg.OutSize());
  }

  // ---- the bottom half's frame ----

  /** The buffers of the frame are not the zero-copy buffer. */
  lemma FrameApart(v: Video)
    requires Whole(v)
    ensures forall b: Id :: b in v.pool.frameBufs ==>
              !v.zc.Held(b) && b in v.pool.owner && multiset(v.pool.frameBufs)[b] <= 1
  {
    forall b: Id | b in v.pool.frameBufs
      ensures !v.zc.Held(b) && b in v.pool.owner && multiset(v.pool.frameBufs)[b] <= 1
    {
      assert Places(v.zc, v.pool, multiset{}, b) <= 1;
      HeldOccurs(v.zc, b);
    }
  }

  /** Black frames for everyone when HDCP was seen at either half. */
  lemma BlackPayload(was: Video, i: HalfIn, b: Id)
    requires Whole(was) && Fits(was)
    requires b in was.pool.frameBufs || was.zc.cur == Some(b)
    ensures var size := was.cfg.OutSize();
            Frames.Take(BlankAll(was, was.pool, size).Mem(b), size) == Black(size)
  {
    var size := was.cfg.OutSize();
    FrameApart(was);
    var p1 := if was.zc.cur.Some? then BlitAll(was.pool, [was.zc.cur.value], 0, Black(size)) else was.pool;
    if size > 0 {
      if was.zc.cur == Some(b) { CardSize(was); }
      assert |was.pool.Mem(b)| >= size;
      if was.zc.cur.Some? { BlitAllMem(was.pool, [was.zc.cur.value], 0, Black(size), b); }
      assert |p1.Mem(b)| == |was.pool.Mem(b)|;
      BlitAllMem(p1, p1.frameBufs, 0, Black(size), b);
      BlitStart(was.pool.Mem(b), Black(size));
      BlitStart(p1.Mem(b), Black(size));
    }
  }

  lemma CardSize(v: Video)
    requires Fits(v) && v.zc.cur.Some?
    ensures |v.pool.Mem(v.zc.cur.value)| >= FrameBytes(v.cfg.geo.w, v.cfg.geo.h) == v.cfg.OutSize()
  {
    SpanExcess(FrameBytes(v.cfg.geo.w, v.cfg.geo.h));
    assert |v.pool.Mem(v.zc.cur.value)| >= Span(v.cfg.len);
  }

  /** Every copy buffer of a frame that did not fail holds what the frame is shown as. */
  lemma CopyPayload(was: Video, i: HalfIn, b: Id)
    requires Whole(was) && Fits(was) && Assembled(was) && HalfOk(was.cfg, i)
    requires Acts(was) && !i.isTop && !NoTop(was)
    requires Fill(was, BottomStart(was, i), i).state == Done && b in was.pool.frameBufs
    ensures Frames.Take(Fill(was, BottomStart(was, i), i).pool.Mem(b), was.cfg.OutSize())
              == Content(was, BottomStart(was, i), i)
  {
    var a, size := was.asm, was.cfg.OutSize();
    FrameApart(was);
    ReadsAreFull(was, i);
    if a.hdcp || i.hdcp {
      BlackPayload(was, i, b);
    } else if was.cfg.Direct() {
      DirectPayload(was, i, b);
    } else {
      StagedPayload(was, i, b);
    }
  }

  lemma DirectPayload(was: Video, i: HalfIn, b: Id)
    requires Whole(was) && Fits(was) && Assembled(was) && HalfOk(was.cfg, i)
    requires Acts(was) && !i.isTop && !NoTop(was) && !was.asm.hdcp && was.cfg.Direct() && b in was.pool.frameBufs
    ensures LastPart(was) >= 0
    ensures Frames.Take(BlitAll(was.pool, was.pool.frameBufs, BottomOff(was.asm), BottomBytes(was, i)).Mem(b),
              was.cfg.OutSize())
            == was.asm.lastTop.value.bytes + BottomBytes(was, i)
  {
    FrameApart(was);
    ReadsAreFull(was, i);
    var t, bb := was.asm.lastTop.value.bytes, BottomBytes(was, i);
    assert was.cfg.(geo := was.asm.frame) == was.cfg;
    assert |was.pool.Mem(b)| >= was.cfg.OutSize() == |t| + |bb|;
    assert t <= was.pool.Mem(b);
    FrameNotEmpty(was.cfg.geo.w, was.cfg.geo.h);
    BlitAllMem(was.pool, was.pool.frameBufs, BottomOff(was.asm), bb, b);
    BlitPrefix(was.pool.Mem(b), t, bb);
  }

  lemma FrameNotEmpty(w: nat, h: nat)
    requires w > 0 && h > 0
    ensures FrameBytes(w, h) > 0
  {
    assert w * h >= h by { assert (w - 1) * h >= 0; }
  }

  /** The staging frame holds the whole input frame when it is rendered. */
  lemma StagedRaw(was: Video, i: HalfIn)
    requires Whole(was) && Fits(was) && Assembled(was) && HalfOk(was.cfg, i)
    requires Acts(was) && !i.isTop && !NoTop(was) && !was.asm.hdcp && !was.cfg.Direct() && was.pool.frameBufs != []
    ensures LastPart(was) >= 0
    ensures Frames.Take(Blit(was.asm.staging, BottomOff(was.asm), BottomBytes(was, i)),
              FrameBytes(was.asm.frame.w, was.asm.frame.h))
            == was.asm.lastTop.value.bytes + BottomBytes(was, i)
  {
    ReadsAreFull(was, i);
    FrameBytesMax(was.cfg.geo);
    assert was.cfg.(geo := was.asm.frame) == was.cfg;
    BlitPrefix(was.asm.staging, was.asm.lastTop.value.bytes, BottomBytes(was, i));
  }

  /** A buffer filled with a whole output frame holds it. */
  lemma FilledPayload(p: Pool, b: Id, out: seq<byte>)
    requires b in p.frameBufs && |p.Mem(b)| >= |out|
    ensures Frames.Take(BlitAll(p, p.frameBufs, 0, out).Mem(b), |out|) == out
  {
    if |out| > 0 {
      BlitAllMem(p, p.frameBufs, 0, out, b);
      BlitStart(p.Mem(b), out);
    }
  }

  lemma StagedPayload(was: Video, i: HalfIn, b: Id)
    requires Whole(was) && Fits(was) && Assembled(was) && HalfOk(was.cfg, i)
    requires Acts(was) && !i.isTop && !NoTop(was) && !was.asm.hdcp && !i.hdcp && !was.cfg.Direct()
               && b in was.pool.frameBufs
    requires Fill(was, BottomStart(was, i), i).state == Done
    ensures Frames.Take(Fill(was, BottomStart(was, i), i).pool.Mem(b), was.cfg.OutSize())
              == Content(was, BottomStart(was, i), i)
  {
    FrameApart(was);
    ReadsAreFull(was, i);
    StagedRaw(was, i);
    var raw := was.asm.lastTop.value.bytes + BottomBytes(was, i);
    RenderFits(was.cfg, raw, was.asm.frame, was.asm.frameLen);
    FilledPayload(was.pool, b, Render(was.cfg, raw, was.asm.frame, was.asm.frameLen).value);
  }

  /** So does the zero-copy buffer, if its pairs moved on in time. */
  lemma CardPayload(was: Video, i: HalfIn, b: Id)
    requires Whole(was) && Fits(was) && Assembled(was) && HalfOk(was.cfg, i)
    requires Acts(was) && !i.isTop && !NoTop(was)
    requires Fill(was, BottomStart(was, i), i).state == Done && was.zc.cur == Some(b) && was.zc.Rec(b).away.top
    ensures Frames.Take(Fill(was, BottomStart(was, i), i).pool.Mem(b), was.cfg.OutSize())
              == Content(was, BottomStart(was, i), i)
  {
    ReadsAreFull(was, i);
    if was.asm.hdcp || i.hdcp {
      BlackPayload(was, i, b);
    } else {
      CardSize(was);
      CardUntouched(was, i, b);
      CardHalves(was, i, b);
    }
  }

  /** The copies into the frame's buffers leave the zero-copy buffer alone. */
  lemma CardUntouched(was: Video, i: HalfIn, b: Id)
    requires Whole(was) && Fits(was) && was.zc.cur == Some(b) && !i.isTop && !NoTop(was) && LastPart(was) >= 0
    ensures BlitAll(was.pool, was.pool.frameBufs, BottomOff(was.asm), BottomBytes(was, i)).Mem(b) == was.pool.Mem(b)
  {
    FrameApart(was);
    assert was.zc.Held(b);
    CurInMem(was);
  }

  lemma CurInMem(v: Video)
    requires Whole(v) && Fits(v) && v.zc.cur.Some?
    ensures v.zc.cur.value in v.pool.mem
  {
    if v.zc.cur.value !in v.pool.owner { NotOwned(v.zc, v.pool, v.zc.cur.value); }
  }

  lemma CardHalves(was: Video, i: HalfIn, b: Id)
    requires Whole(was) && Fits(was) && TopKnown(was) && CardHolds(was) && HalfOk(was.cfg, i)
    requires Acts(was) && !i.isTop && !NoTop(was) && was.zc.cur == Some(b) && was.zc.Rec(b).away.top
    ensures was.cfg.Direct() && LastPart(was) >= 0
    ensures Frames.Take(was.pool.Mem(b), was.cfg.OutSize()) == was.asm.lastTop.value.bytes + BottomBytes(was, i)
  {
    CardBottom(was, i);
    var m: seq<byte>, off: nat, size: nat := was.pool.Mem(b), BottomOff(was.asm), was.cfg.OutSize();
    JoinAt(m, was.asm.lastTop.value.bytes, off, size);
  }

  lemma JoinAt(m: seq<byte>, t: seq<byte>, off: nat, size: nat)
    requires t <= m && |t| == off <= size <= |m|
    ensures Frames.Take(m, size) == t + m[off..size]
  {
  }
}
