/**
 * What the zero-copy functions of the driver do to their part of the state:
 * which buffer each quarter pair points at, the buffers of the frame in
 * progress and of the one after it, and the list of buffers the card may
 * still write. The methods of `Capture.Channel` are proved to compute these
 * functions.
 */
module ZeroCopy {
  import opened Basics
  import opened EventCounter

  /** A buffer, by its place in the table of all buffers. */
  type Id = nat

  datatype VbState = Done | Error

  /** The zero-copy fields of one buffer. `seqno` is the frame number it completes with. */
  datatype ZcBuf = ZcBuf(
    pointed: Two<bool>,    // the pair was pointed at it in time
    away: Two<bool>,       // the pair moved on from it in time
    freeAfter: Two<u32>,   // the card cannot write it once the pair's counter reaches this
    state: VbState,
    seqno: nat)

  const BLANK_BUF := ZcBuf(Two(false, false), Two(false, false), Two(0, 0), Error, 0)

  datatype Zc = Zc(
    prog: Two<Option<Id>>,   // None: the pair points at the card's own DMA buffers
    cur: Option<Id>,
    next: Option<Id>,
    release: seq<Id>,
    ev: Two<u32>,
    buf: map<Id, ZcBuf>)
  {
    function Rec(b: Id): ZcBuf {
      if b in buf then buf[b] else BLANK_BUF
    }

    function Put(b: Id, r: ZcBuf): Zc {
      this.(buf := buf[b := r])
    }

    predicate Pointed(b: Id) {
      prog.top == Some(b) || prog.bot == Some(b)
    }

    /** The buffers zero-copy has taken and not yet handed back. */
    predicate Held(b: Id) {
      cur == Some(b) || next == Some(b) || b in release
    }

    /** The test hws_zc_release() applies to a buffer on the release list. */
    predicate Free(b: Id) {
      && !Pointed(b)
      && !EvBefore(ev.top, Rec(b).freeAfter.top)
      && !EvBefore(ev.bot, Rec(b).freeAfter.bot)
    }
  }

  const IDLE := Zc(Two(None, None), None, None, [], Two(0, 0), map[])

  // ---- hws_zc_release ----

  function Kept(z: Zc, s: seq<Id>): seq<Id> {
    if s == [] then [] else
    Kept(z, s[..|s| - 1]) + (if z.Free(s[|s| - 1]) then [] else [s[|s| - 1]])
  }

  function Freed(z: Zc, s: seq<Id>): seq<Id> {
    if s == [] then [] else
    Freed(z, s[..|s| - 1]) + (if z.Free(s[|s| - 1]) then [s[|s| - 1]] else [])
  }

  function Release(z: Zc): Zc {
    z.(release := Kept(z, z.release))
  }

  // ---- hws_zc_retire, hws_zc_program, hws_zc_frame_end, hws_zc_stop ----

  function Retire(z: Zc, b: Id, state: VbState): Zc {
    z.Put(b, z.Rec(b).(state := state)).(release := z.release + [b])
  }

  function RetireIf(z: Zc, b: Option<Id>, state: VbState): Zc {
    if b.Some? then Retire(z, b.value, state) else z
  }

  /** True when hws_zc_program() writes the pair's registers at all. */
  predicate Rewrites(z: Zc, isTop: bool, buf: Option<Id>) {
    buf.Some? || z.prog.At(isTop).Some?
  }

  function MoveAway(z: Zc, isTop: bool, inTime: bool): Zc {
    match z.prog.At(isTop)
    case None => z
    case Some(left) =>
      var r := z.Rec(left);
      z.Put(left, r.(away := r.away.With(isTop, inTime),
                    freeAfter := r.freeAfter.With(isTop, if inTime then z.ev.At(isTop) else Next(z.ev.At(isTop)))))
  }

  function Program(z: Zc, isTop: bool, buf: Option<Id>, inTime: bool): Zc {
    if !Rewrites(z, isTop, buf) then z else
    var z1 := MoveAway(z, isTop, inTime);
    var z2 := if buf.None? then z1 else
                var r := z1.Rec(buf.value);
                z1.Put(buf.value, r.(pointed := r.pointed.With(isTop, inTime)));
    z2.(prog := z2.prog.With(isTop, buf))
  }

  /** The frame ends as complete only if both pairs moved to and from the buffer in time. */
  function EndState(r: ZcBuf, state: VbState): VbState {
    if r.pointed.top && r.pointed.bot && r.away.top && r.away.bot then state else Error
  }

  function EndCur(z: Zc, state: VbState, seqno: nat): Zc {
    if z.cur.None? then z else
    var b := z.cur.value;
    var st := EndState(z.Rec(b), state);
    Retire(z.Put(b, z.Rec(b).(seqno := if st.Done? then seqno else z.Rec(b).seqno)), b, st)
  }

  /** hws_zc_frame_end() up to its call of hws_zc_release(). */
  function Advance(z: Zc, state: VbState, seqno: nat): Zc {
    EndCur(z, state, seqno).(cur := z.next, next := None)
  }

  function FrameEnd(z: Zc, state: VbState, seqno: nat): Zc {
    Release(Advance(z, state, seqno))
  }

  function MarkNow(z: Zc, s: seq<Id>): Zc {
    if s == [] then z else
    var z1 := MarkNow(z, s[..|s| - 1]);
    var b := s[|s| - 1];
    z1.Put(b, z1.Rec(b).(freeAfter := z.ev))
  }

  /** Both pairs back on the DMA buffers, written at an arbitrary moment. */
  function Unpoint(z: Zc): Zc {
    Program(Program(z, true, None, false), false, None, false)
  }

  /** hws_zc_stop() up to its call of hws_zc_release(). */
  function StopMarks(z: Zc, cardStopped: bool): Zc {
    var z1 := Unpoint(z);
    var z2 := RetireIf(RetireIf(z1, z1.cur, Error), z1.next, Error).(cur := None, next := None);
    if cardStopped then MarkNow(z2, z2.release) else z2
  }

  function Stop(z: Zc, cardStopped: bool): Zc {
    Release(StopMarks(z, cardStopped))
  }

  // ---- the zero-copy steps of hws_video_half ----

  function Count(z: Zc, isTop: bool): Zc {
    z.(ev := z.ev.With(isTop, Next(z.ev.At(isTop))))
  }

  /** The record hws_zc_pick() gives the buffer it takes. */
  function PickedRec(z: Zc, b: Id): ZcBuf {
    z.Rec(b).(pointed := Two(false, false), away := Two(false, false), freeAfter := z.ev)
  }

  function TakeNext(z: Zc, picked: Option<Id>): Zc {
    var z1 := RetireIf(z, z.next, Error).(next := picked);
    if picked.None? then z1 else z1.Put(picked.value, PickedRec(z1, picked.value))
  }

  /** A top half: count it, take the next frame's buffer, point quarters 0-1 at it. */
  function TopHalf(z: Zc, picked: Option<Id>, inTime: bool): Zc {
    var z1 := TakeNext(Count(z, true), picked);
    Program(z1, true, z1.next, inTime)
  }

  /** A bottom half up to the end of the frame: count it, point quarters 2-3 at the next frame's buffer. */
  function BottomHalf(z: Zc, inTime: bool): Zc {
    var z1 := Count(z, false);
    Program(z1, false, z1.next, inTime)
  }

  // ---- what the release list keeps and hands back ----

  lemma {:induction false} KeptMembers(z: Zc, s: seq<Id>, b: Id)
    ensures b in Kept(z, s) <==> b in s && !z.Free(b)
    ensures b in Freed(z, s) <==> b in s && z.Free(b)
  {
    if s != [] {
      KeptMembers(z, s[..|s| - 1], b);
      assert s == s[..|s| - 1] + [s[|s| - 1]];
    }
  }

  /** Releasing splits the list: nothing is lost, nothing appears twice. */
  lemma {:induction false} KeptPartition(z: Zc, s: seq<Id>)
    ensures multiset(s) == multiset(Kept(z, s)) + multiset(Freed(z, s))
  {
    if s != [] {
      KeptPartition(z, s[..|s| - 1]);
      assert s == s[..|s| - 1] + [s[|s| - 1]];
    }
  }

  lemma {:induction false} MarkNowRecs(z: Zc, s: seq<Id>, b: Id)
    ensures MarkNow(z, s) == z.(buf := MarkNow(z, s).buf)
    ensures b in s ==> MarkNow(z, s).Rec(b) == z.Rec(b).(freeAfter := z.ev)
    ensures b !in s ==> MarkNow(z, s).Rec(b) == z.Rec(b)
  {
    if s != [] {
      MarkNowRecs(z, s[..|s| - 1], b);
      assert s == s[..|s| - 1] + [s[|s| - 1]];
    }
  }
}
