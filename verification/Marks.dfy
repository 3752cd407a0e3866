/**
 * The marks of the buffer that receives the frame in progress: a buffer that
 * ends as a complete frame is handed back by the half event that ends it, and
 * only failed buffers ever wait on the release list.
 */
module Marks {
  import opened Basics
  import opened EventCounter
  import opened ZeroCopy
  import opened Protocol
  import opened FrameHistory

  /** The counter `ev` has passed the mark, at most `tops` events ago. */
  predicate Passed(ev: u32, mark: u32, tops: nat) {
    Low32(ev - mark) <= tops
  }

  ghost predicate CurMarked(z: Zc, tops: nat) {
    z.cur.Some? ==>
      var r := z.Rec(z.cur.value);
      !r.away.bot && (r.away.top ==> z.prog.top != z.cur && Passed(z.ev.top, r.freeAfter.top, tops))
  }

  ghost predicate OnlyFailedWait(z: Zc) {
    forall b: Id :: b in z.release ==> z.Rec(b).state == Error
  }

  /** `tops` is the number of top halves handled since the last bottom half. */
  ghost predicate Marked(z: Zc, tops: nat) {
    && z.prog.bot == z.cur
    && CurMarked(z, tops)
    && (z.next.Some? ==> z.Rec(z.next.value).away == Two(false, false))
    && OnlyFailedWait(z)
  }

  /** What a half does to the state of a buffer other than the frame's. */
  lemma TopState(z: Zc, picked: Option<Id>, inTime: bool, b: Id)
    requires Owned(z) && z.Held(b) && (picked.Some? ==> !z.Held(picked.value))
    ensures TopHalf(z, picked, inTime).Rec(b).state == (if z.next == Some(b) then Error else z.Rec(b).state)
  {
    RetireRec(Count(z, true), z.next, Error, b);
  }

  lemma PassedOn(ev: u32, mark: u32, tops: nat)
    requires Passed(ev, mark, tops)
    ensures Passed(Next(ev), mark, tops + 1)
  {
    var d: int := mark;
    Low32Shift(ev + 1, -d);
    Low32Shift(ev - mark, 1);
  }

  lemma TopMarked(z: Zc, picked: Option<Id>, inTime: bool, tops: nat)
    requires Owned(z) && Marked(z, tops) && (picked.Some? ==> !z.Held(picked.value))
    ensures Marked(TopHalf(z, picked, inTime), tops + 1)
  {
    var z' := TopHalf(z, picked, inTime);
    TopOwned(z, picked, inTime);
    ProgramFrame(TakeNext(Count(z, true), picked), true, picked, inTime);
    if z.cur.Some? {
      TopRec(z, picked, inTime, z.cur.value);
      if z.Rec(z.cur.value).away.top { PassedOn(z.ev.top, z.Rec(z.cur.value).freeAfter.top, tops); }
    }
    if picked.Some? {
      ProgramRec(TakeNext(Count(z, true), picked), true, picked, inTime, picked.value);
    }
    forall b: Id | b in z'.release ensures z'.Rec(b).state == Error {
      RetireOccurs(Count(z, true), z.next, Error, b);
      assert b in z.release || z.next == Some(b);
      TopState(z, picked, inTime, b);
    }
  }

  /** A frame that ends complete is past every mark of its buffer. */
  lemma DoneIsFree(z: Zc, inTime: bool, state: VbState, seqno: nat, tops: nat)
    requires Owned(z) && Marked(z, tops) && tops < TWO_TO_THE_31 && z.cur.Some?
    requires Advance(BottomHalf(z, inTime), state, seqno).Rec(z.cur.value).state == Done
    ensures Advance(BottomHalf(z, inTime), state, seqno).Free(z.cur.value)
    ensures state == Done
    ensures z.Rec(z.cur.value).away.top && z.Rec(z.cur.value).pointed == Two(true, true) && inTime
    ensures Advance(BottomHalf(z, inTime), state, seqno).Rec(z.cur.value).seqno == seqno
  {
    var b := z.cur.value;
    var z1 := Advance(BottomHalf(z, inTime), state, seqno);
    ProgramFrame(Count(z, false), false, z.next, inTime);
    BottomRec(z, inTime, state, seqno, b);
    ProgramRec(Count(z, false), false, z.next, inTime, b);
    assert z.next != Some(b) by { assert Occurs(z, b) <= 1; }
    NextNotReached(z.ev.bot);
  }

  /** What a bottom half leaves on the list has failed: a complete frame is handed back at once. */
  lemma BottomLeaves(z: Zc, inTime: bool, state: VbState, seqno: nat, tops: nat, b: Id)
    requires Owned(z) && Marked(z, tops) && tops < TWO_TO_THE_31
    requires var z1 := Advance(BottomHalf(z, inTime), state, seqno); b in Release(z1).release
    ensures Advance(BottomHalf(z, inTime), state, seqno).Rec(b).state == Error
  {
    var z1 := Advance(BottomHalf(z, inTime), state, seqno);
    BottomOccurs(z, inTime, state, seqno, b);
    KeptMembers(z1, z1.release, b);
    BottomRec(z, inTime, state, seqno, b);
    assert Occurs(z, b) <= 1;
    if z.cur == Some(b) && z1.Rec(b).state == Done {
      DoneIsFree(z, inTime, state, seqno, tops);
    }
  }

  lemma BottomMarked(z: Zc, inTime: bool, state: VbState, seqno: nat, tops: nat)
    requires Owned(z) && Marked(z, tops) && tops < TWO_TO_THE_31
    ensures Marked(FrameEnd(BottomHalf(z, inTime), state, seqno), 0)
  {
    var z1 := Advance(BottomHalf(z, inTime), state, seqno);
    ProgramFrame(Count(z, false), false, z.next, inTime);
    if z.next.Some? { BottomRec(z, inTime, state, seqno, z.next.value); }
    forall b: Id | b in Release(z1).release ensures Release(z1).Rec(b).state == Error {
      BottomLeaves(z, inTime, state, seqno, tops, b);
    }
  }

  lemma StopLeaves(z: Zc, cardStopped: bool, b: Id)
    requires Owned(z) && OnlyFailedWait(z)
    requires var z1 := StopMarks(z, cardStopped); b in Release(z1).release
    ensures StopMarks(z, cardStopped).Rec(b).state == Error
  {
    var z1 := StopMarks(z, cardStopped);
    KeptMembers(z1, z1.release, b);
    StopOccurs(z, cardStopped, b);
    StopRec(z, cardStopped, b);
  }

  lemma StopEv(z: Zc, cardStopped: bool)
    ensures StopMarks(z, cardStopped).ev == z.ev
  {
    UnpointRec(z, 0);
    var y := RetireIf(Unpoint(z), Unpoint(z).cur, Error);
    var z2 := RetireIf(y, Unpoint(z).next, Error).(cur := None, next := None);
    MarkNowRecs(z2, z2.release, 0);
  }

  lemma StopMarked(z: Zc, cardStopped: bool, tops: nat)
    requires Owned(z) && Marked(z, tops)
    ensures Marked(Stop(z, cardStopped), tops)
  {
    var z1 := StopMarks(z, cardStopped);
    StopOccurs(z, cardStopped, 0);
    StopEv(z, cardStopped);
    forall b: Id | b in Release(z1).release ensures Release(z1).Rec(b).state == Error {
      StopLeaves(z, cardStopped, b);
    }
  }

  /** The top halves handled since the last bottom half, one step on. */
  function TopsAfter(step: Step, tops: nat): nat {
    if step.HandleTop? then tops + 1 else if step.HandleBottom? then 0 else tops
  }

  /** Kept while fewer than 2^31 top halves in a row are handled without a bottom half. */
  lemma KeepsMarked(s: Sys, step: Step, tops: nat)
    requires Inv(s) && Enabled(s, step) && Marked(s.zc, tops) && tops < TWO_TO_THE_31
    ensures Marked(Apply(s, step).zc, TopsAfter(step, tops))
  {
    match step
    case HandleTop(picked, inTime) => TopMarked(s.zc, picked, inTime, tops);
    case HandleBottom(inTime, state, seqno) => BottomMarked(s.zc, inTime, state, seqno, tops);
    case StopZc(cardStopped) => StopMarked(s.zc, cardStopped, tops);
    case _ =>
  }

  /** Once quarters 0-1 have moved on in time from the frame's buffer, no run of theirs writes it. */
  ghost predicate MovedOff(s: Sys) {
    s.zc.cur.Some? && s.zc.Rec(s.zc.cur.value).away.top ==> !(s.Running(true) && s.card.run.value.dest == s.zc.cur)
  }

  lemma KeepsMovedOff(s: Sys, step: Step, tops: nat)
    requires Inv(s) && Enabled(s, step) && Marked(s.zc, tops) && MovedOff(s)
    ensures MovedOff(Apply(s, step))
  {
    match step
    case HandleTop(picked, inTime) =>
      TopOwned(s.zc, picked, inTime);
      if s.zc.cur.Some? { TopRec(s.zc, picked, inTime, s.zc.cur.value); }
      if inTime { LastHandled(s, true); }
    case HandleBottom(inTime, state, seqno) =>
      ProgramFrame(Count(s.zc, false), false, s.zc.next, inTime);
      if s.zc.next.Some? { BottomRec(s.zc, inTime, state, seqno, s.zc.next.value); }
    case StopZc(cardStopped) =>
      StopOccurs(s.zc, cardStopped, 0);
    case _ =>
  }
}
