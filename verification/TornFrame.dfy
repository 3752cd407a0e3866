/**
 * A lost bottom half as the driver meets it: two top halves in a row for one
 * zero-copy buffer, then a bottom half, and the buffer is handed back complete.
 */
module TornFrame {
  import opened Basics
  import opened ZeroCopy
  import opened Protocol
  import opened Frames
  import opened Driver
  import opened Effects
  import opened Bounds
  import opened Marks
  import opened Payload
  import opened Assembling

  /** The frame in progress goes to `b`, which quarters 0-1 have left in time and quarters 2-3 have not. */
  ghost predicate TopMovedOn(z: Zc, b: Id) {
    z.cur == Some(b) && z.Rec(b).pointed == Two(true, true) && z.Rec(b).away.top && z.prog.top != Some(b)
  }

  /** What is known of the driver between two halves. */
  ghost predicate Known(v: Video, tops: nat) {
    Whole(v) && Fits(v) && Marked(v.zc, tops) && tops < TWO_TO_THE_31
  }

  /** A half the card refreshed, without HDCP. */
  ghost predicate Refreshed(v: Video, i: HalfIn) {
    HalfOk(v.cfg, i) && Acts(v) && !i.hdcp && !i.stale
  }

  /** The second top half leaves the buffer as the frame in progress, and starts the frame again. */
  lemma SecondTop(v: Video, top: HalfIn, b: Id, tops: nat)
    requires Known(v, tops) && tops + 1 < TWO_TO_THE_31 && TopMovedOn(v.zc, b)
    requires Refreshed(v, top) && top.isTop
    ensures var v1 := VideoHalf(v, top);
            && Known(v1, tops + 1) && Assembled(v1) && TopMovedOn(v1.zc, b) && v1.cfg == v.cfg
            && v1.asm.topDone && !v1.asm.hdcp && !v1.asm.late && v1.asm.frame == v.cfg.geo
            && v1.asm.lastTop == Some(TopRead(v.cfg.geo, TopBytes(v, top), Some(b)))
  {
    var picked := Picked(v, PickFrom(v, top.wanted, top.hdcpAtPick));
    HalfWhole(v, top);
    HalfFits(v, top);
    TopStartWhole(v, top);
    SecondTopZc(v.zc, picked, InTime(v.asm, top), b, tops);
    assert !Stale(TopStart(v, top), top);
    TopAssembled(v, top);
    SecondTopFrame(v, top, b);
  }

  lemma SecondTopZc(z: Zc, picked: Option<Id>, inTime: bool, b: Id, tops: nat)
    requires Owned(z) && Marked(z, tops) && TopMovedOn(z, b) && (picked.Some? ==> !z.Held(picked.value))
    ensures Marked(TopHalf(z, picked, inTime), tops + 1) && TopMovedOn(TopHalf(z, picked, inTime), b)
  {
    TopMarked(z, picked, inTime, tops);
    TopOwned(z, picked, inTime);
    TopRec(z, picked, inTime, b);
  }

  lemma SecondTopFrame(v: Video, top: HalfIn, b: Id)
    requires Shape(v) && Acts(v) && top.isTop && !top.hdcp && v.zc.cur == Some(b) && !Stale(TopStart(v, top), top)
    ensures var v1 := VideoHalf(v, top);
            && v1.zc == TopStart(v, top).zc && v1.cfg == v.cfg
            && v1.asm.topDone && !v1.asm.hdcp && !v1.asm.late && v1.asm.frame == v.cfg.geo
            && v1.asm.lastTop == Some(TopRead(v.cfg.geo, TopBytes(v, top), Some(b)))
  {
  }

  /** A bottom half in time that finds the frame ends it complete, and hands the buffer back. */
  lemma BottomCompletes(v: Video, bottom: HalfIn, b: Id, tops: nat)
    requires Known(v, tops) && Assembled(v) && TopMovedOn(v.zc, b)
    requires v.asm.topDone && !v.asm.hdcp && !v.asm.late && v.asm.frame == v.cfg.geo
    requires Refreshed(v, bottom) && !bottom.isTop && InTime(v.asm, bottom)
    ensures v.asm.lastTop.Some? && LastPart(v) >= 0
    ensures exists e :: e in VideoHalf(v, bottom).pool.log && e.buf == b && e.state == Done && e.seqno == v.asm.seqno
                        && e.payload == v.asm.lastTop.value.bytes + BottomBytes(v, bottom)
  {
    NotStale(v, bottom, b);
    CardSize(v);
    ReadsAreFull(v, bottom);
    assert EndingState(v, bottom) == Done;
    HandedBack(v, bottom, b, tops);
    BottomLog(v, bottom);
    assert Content(v, BottomStart(v, bottom), bottom) == v.asm.lastTop.value.bytes + BottomBytes(v, bottom);
    var e :| e in EndingFreed(v, bottom) && e.buf == b && e.state == Done && e.seqno == v.asm.seqno
             && e.payload == Content(v, BottomStart(v, bottom), bottom);
    assert e in VideoHalf(v, bottom).pool.log;
  }

  lemma NotStale(v: Video, bottom: HalfIn, b: Id)
    requires Shape(v) && TopMovedOn(v.zc, b) && !bottom.isTop && !bottom.stale && Owned(v.zc)
    ensures !Stale(BottomStart(v, bottom), bottom)
  {
    ProgramRec(Count(v.zc, false), false, v.zc.next, InTime(v.asm, bottom), b);
    ProgramFrame(Count(v.zc, false), false, v.zc.next, InTime(v.asm, bottom));
    assert Occurs(v.zc, b) <= 1;
  }

  lemma HandedBack(v: Video, bottom: HalfIn, b: Id, tops: nat)
    requires Ends(v, bottom) && Marked(v.zc, tops) && tops < TWO_TO_THE_31 && TopMovedOn(v.zc, b)
    requires InTime(v.asm, bottom) && EndingState(v, bottom) == Done
    ensures exists e :: e in EndingFreed(v, bottom) && e.buf == b && e.state == Done && e.seqno == v.asm.seqno
                        && e.payload == Content(v, BottomStart(v, bottom), bottom)
  {
    var z := EndingZc(v, bottom);
    var freed := Freed(z, z.release);
    CompleteRec(v.zc, v.asm.seqno, b);
    DoneIsFree(v.zc, true, Done, v.asm.seqno, tops);
    KeptMembers(z, z.release, b);
    FreedEntry(v, bottom, tops, b);
    MadeFreedAt(Fill(v, BottomStart(v, bottom), bottom).pool, z, freed, v.cfg.OutSize());
    var m :| 0 <= m < |freed| && freed[m] == b;
    assert EndingFreed(v, bottom)[m] in EndingFreed(v, bottom);
  }

  lemma CompleteRec(z: Zc, seqno: nat, b: Id)
    requires Owned(z) && TopMovedOn(z, b) && z.prog.bot == z.cur
    ensures var z1 := Advance(BottomHalf(z, true), Done, seqno); z1.Rec(b).state == Done && b in z1.release
  {
    BottomRec(z, true, Done, seqno, b);
    ProgramRec(Count(z, false), false, z.next, true, b);
    ProgramFrame(Count(z, false), false, z.next, true);
    assert Occurs(z, b) <= 1;
  }

  /**
   * Whenever a bottom half is lost while the card writes buffer `b`, the two
   * halves handled next, a top and a bottom in time, make the driver hand `b`
   * back as a whole frame: the top half is read from where the card wrote it a
   * frame ago, the bottom half where the card has just written the next one.
   */
  lemma LostBottomStillCompletes(v: Video, top: HalfIn, bottom: HalfIn, b: Id, tops: nat)
    requires Known(v, tops) && tops + 1 < TWO_TO_THE_31 && TopMovedOn(v.zc, b)
    requires Refreshed(v, top) && top.isTop
    requires var v1 := VideoHalf(v, top); Refreshed(v1, bottom) && !bottom.isTop && InTime(v1.asm, bottom)
    ensures var v1 := VideoHalf(v, top);
            && Shape(v1) && LastPart(v1) >= 0
            && exists e :: e in VideoHalf(v1, bottom).pool.log && e.buf == b && e.state == Done
                           && e.seqno == v1.asm.seqno && e.payload == TopBytes(v, top) + BottomBytes(v1, bottom)
  {
    var v1 := VideoHalf(v, top);
    SecondTop(v, top, b, tops);
    BottomCompletes(v1, bottom, b, tops + 1);
    var e :| e in VideoHalf(v1, bottom).pool.log && e.buf == b && e.state == Done && e.seqno == v1.asm.seqno
             && e.payload == v1.asm.lastTop.value.bytes + BottomBytes(v1, bottom);
  }
}
