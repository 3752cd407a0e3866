/**
 * A streaming consumer gets its frames: from STREAMON to STREAMOFF it gives
 * its earliest buffer to every frame that arrives, and has it back at the
 * frame's end.
 */
module Streaming {
  import opened Basics
  import opened ZeroCopy
  import opened Frames
  import opened Delivery
  import opened Driver
  import opened Effects
  import opened Consumers
  import opened Assembling
  import opened Rendering
  import opened FrameLog
  import opened Marks
  import opened Events
  import T = TornFrame
  import opened World
  import opened Guarantees

  // ---- the consumers, and the users of the engine ----

  /** Each consumer is listed once, those that stream are, and the engine has a user for each of them. */
  ghost predicate Enlisted(v: Video) {
    && (forall c: Cid :: multiset(v.pool.consumers)[c] <= 1)
    && (forall c: Cid :: v.pool.Of(c).streaming ==> c in v.pool.consumers)
    && |Streamers(v.pool)| <= v.asm.users
  }

  lemma StreamersAre(p: Pool, c: Cid)
    ensures c in Streamers(p) <==> p.Of(c).streaming
  {
  }

  /** The consumers that stream after an operation. */
  lemma StreamersAfter(v: Video, op: Op)
    requires Shape(v) && Allowed(v, op)
    ensures Streamers(Do(v, op).pool) ==
            match op
            case StreamStart(d) => Streamers(v.pool) + {d}
            case StreamStop(d) => Streamers(v.pool) - {d}
            case _ => Streamers(v.pool)
  {
    forall c: Cid
      ensures c in Streamers(Do(v, op).pool) <==>
              (if op == StreamStart(c) then true else if op == StreamStop(c) then false else c in Streamers(v.pool))
    {
      StreamersAre(v.pool, c);
      StreamersAre(Do(v, op).pool, c);
      StreamsAfter(v, op, c);
    }
  }

  lemma StreamsAfter(v: Video, op: Op, c: Cid)
    requires Shape(v) && Allowed(v, op)
    ensures Do(v, op).pool.Of(c).streaming ==
            (if op == StreamStart(c) then true else if op == StreamStop(c) then false else v.pool.Of(c).streaming)
  {
    match op
    case Half(i) => HalfTurn(v, i, c);
    case NoSignal => NoVideoTurn(v, c);
    case _ => OpTurn(v, op, c);
  }

  lemma ListedOnce(cs: seq<Cid>, d: Cid)
    requires d !in cs && forall c: Cid :: multiset(cs)[c] <= 1
    ensures forall c: Cid :: multiset(cs + [d])[c] <= 1
  {
  }

  lemma KeepsEnlisted(v: Video, op: Op)
    requires Shape(v) && Allowed(v, op) && Enlisted(v)
    ensures Enlisted(Do(v, op))
  {
    OpList(v, op);
    StreamersAfter(v, op);
    if op.Open? { ListedOnce(v.pool.consumers, op.c); }
    forall c: Cid | Do(v, op).pool.Of(c).streaming ensures c in Do(v, op).pool.consumers {
      StreamsAfter(v, op, c);
    }
    if op.StreamStart? { StreamersAre(v.pool, op.c); }
  }

  lemma EnlistedAfter(w: World, act: Act)
    requires CanHappen(w, act) && Enlisted(w.v)
    ensures Enlisted(VideoAfter(w, act))
  {
    match act
    case CardWrites(_, _, _) => assert forall c: Cid :: VideoAfter(w, act).pool.Of(c) == w.v.pool.Of(c);
    case Drive(op) => KeepsEnlisted(w.v, op);
    case _ =>
  }

  lemma NoneEnlisted(v: Video)
    requires v.pool == NO_POOL
    ensures Enlisted(v)
  {
    assert Streamers(v.pool) == {};
  }

  lemma {:induction false} HistoryEnlisted(worlds: seq<World>, acts: seq<Act>, i: nat)
    requires IsHistory(worlds, acts) && i < |worlds|
    ensures Enlisted(worlds[i].v)
  {
    if i == 0 {
      EnlistedAtStart(worlds, acts);
    } else {
      HistoryEnlisted(worlds, acts, i - 1);
      ActInHistory(worlds, acts, i);
      EnlistedNext(worlds[i - 1], acts[i - 1], worlds[i]);
    }
  }

  lemma EnlistedAtStart(worlds: seq<World>, acts: seq<Act>)
    requires IsHistory(worlds, acts)
    ensures Enlisted(worlds[0].v)
  {
    NoneEnlisted(worlds[0].v);
  }

  lemma EnlistedNext(w: World, act: Act, w': World)
    requires NextAct(w, act, w') && Enlisted(w.v)
    ensures Enlisted(w'.v)
  {
    EnlistedAfter(w, act);
  }

  // ---- frames begun, lost and finished ----

  /**
   * What a half does to the counters. A top half starts a frame, and one whose
   * bottom half never came is lost; a half that does not arrive loses the
   * frame in progress; a bottom half ends its frame, or is lost without one.
   */
  lemma HalfCounts(v: Video, i: HalfIn)
    requires Whole(v) && Shape(v) && Capturing(v)
    ensures var a, a', lost := v.asm, VideoHalf(v, i).asm, if v.asm.topDone then 1 else 0;
            && a'.topDone == (Arrives(v, i) && i.isTop)
            && a'.finished == a.finished + (if Completes(v, i) then 1 else 0)
            && a'.dropped == a.dropped + (if Completes(v, i) then 0 else if Arrives(v, i) && !i.isTop then 1 else lost)
            && a'.seqno == a.seqno + (a'.dropped - a.dropped) + (a'.finished - a.finished)
  {
    ArrivesIs(v, i);
    if i.isTop { TopCounts(v, i); } else { BottomCounts(v, i); }
  }

  lemma TopCounts(v: Video, i: HalfIn)
    requires Shape(v) && Acts(v) && i.isTop
    ensures var a, a', lost := v.asm, VideoHalf(v, i).asm, if v.asm.topDone then 1 else 0;
            && a'.topDone == !Stale(TopStart(v, i), i) && a'.finished == a.finished
            && a'.dropped == a.dropped + lost && a'.seqno == a.seqno + lost
  {
    assert VideoHalf(v, i).asm.seqno == LoseIf(v.asm).seqno && VideoHalf(v, i).asm.dropped == LoseIf(v.asm).dropped;
  }

  lemma BottomCounts(v: Video, i: HalfIn)
    requires Shape(v) && Acts(v) && !i.isTop
    ensures var a, a', lost := v.asm, VideoHalf(v, i).asm, if v.asm.topDone then 1 else 0;
            && !a'.topDone && a'.finished == a.finished + (if EndsAFrame(v, i) then 1 else 0)
            && a'.dropped ==
               a.dropped + (if EndsAFrame(v, i) then 0 else if Stale(BottomStart(v, i), i) then lost else 1)
            && a'.seqno == a.seqno + (a'.dropped - a.dropped) + (a'.finished - a.finished)
  {
  }

  /** The frame being assembled is as it was. */
  predicate FrameKept(a: Assembly, a': Assembly) {
    && a'.topDone == a.topDone && a'.seqno == a.seqno && a'.frame == a.frame && a'.hdcp == a.hdcp && a'.late == a.late
    && a'.lastTop == a.lastTop
  }

  lemma OthersKeepFrame(v: Video, op: Op)
    requires Shape(v) && Allowed(v, op) && !op.NoSignal? && (op.Half? ==> !Capturing(v))
    requires op.StreamStart? ==> v.asm.users > 0
    ensures FrameKept(v.asm, Do(v, op).asm)
  {
    match op
    case Resize(_, wasRunning) => StopAsm(v, wasRunning);
    case StreamStopHeld(c) => StopAsm(v.(pool := FailHeld(v.pool, c)), false);
    case Quiesced => StopAsm(v, true);
    case _ =>
  }

  // ---- a consumer in turn ----

  /** The consumer streams at the full rate and has not given a buffer for the coming frame. */
  predicate InTurn(v: Video, c: Cid) {
    v.pool.Of(c).streaming && v.pool.Of(c).decimate == 1 && v.pool.Of(c).nextSeq <= Upcoming(v.asm)
  }

  /** STREAMOFF of the consumer, or another frame rate. */
  predicate EndsTurn(act: Act, c: Cid) {
    act == Drive(StreamStop(c)) || (act.Drive? && act.op.SetRate? && act.op.c == c)
  }

  lemma InUse(v: Video, c: Cid)
    requires Enlisted(v) && v.pool.Of(c).streaming
    ensures v.asm.users > 0
  {
    StreamersAre(v.pool, c);
    assert {c} <= Streamers(v.pool);
    assert Streamers(v.pool) == {c} + (Streamers(v.pool) - {c});
  }

  lemma HalfInTurn(v: Video, i: HalfIn, c: Cid)
    requires Whole(v) && Shape(v) && InTurn(v, c)
    ensures InTurn(VideoHalf(v, i), c)
  {
    if Capturing(v) {
      ArrivesIs(v, i);
      HalfCounts(v, i);
      HalfTurn(v, i, c);
      if i.isTop { TopTurn(v, i, c); }
    }
  }

  lemma NoVideoInTurn(v: Video, c: Cid)
    requires InTurn(v, c)
    ensures InTurn(NoVideo(v), c)
  {
    NoVideoTurn(v, c);
  }

  lemma KeepsInTurn(v: Video, op: Op, c: Cid)
    requires Whole(v) && Shape(v) && Allowed(v, op) && Enlisted(v) && InTurn(v, c) && !EndsTurn(Drive(op), c)
    ensures InTurn(Do(v, op), c)
  {
    if op.Half? {
      HalfInTurn(v, op.i, c);
    } else if op.NoSignal? {
      NoVideoInTurn(v, c);
    } else {
      InUse(v, c);
      OthersKeepFrame(v, op);
      OpTurn(v, op, c);
    }
  }

  lemma InTurnNext(w: World, act: Act, w': World, c: Cid)
    requires NextAct(w, act, w') && Enlisted(w.v) && InTurn(w.v, c) && !EndsTurn(act, c)
    ensures InTurn(w'.v, c)
  {
    if act.Drive? { KeepsInTurn(w.v, act.op, c); }
  }

  lemma TurnBegins(w: World, w': World, c: Cid)
    requires NextAct(w, Drive(StreamStart(c)), w') && w.v.pool.Of(c).decimate == 1
    ensures InTurn(w'.v, c)
  {
    OpTurn(w.v, StreamStart(c), c);
  }

  ghost predicate StaysInTurn(acts: seq<Act>, c: Cid, s: nat, k: nat)
    requires k <= |acts|
  {
    forall m :: s < m < k ==> !EndsTurn(acts[m], c)
  }

  /** From STREAMON on the consumer is in turn, until STREAMOFF or another rate. */
  lemma {:induction false} HistoryInTurn(worlds: seq<World>, acts: seq<Act>, c: Cid, s: nat, k: nat)
    requires IsHistory(worlds, acts) && s < k < |worlds| && acts[s] == Drive(StreamStart(c))
    requires worlds[s].v.pool.Of(c).decimate == 1 && StaysInTurn(acts, c, s, k)
    ensures InTurn(worlds[k].v, c)
    decreases k
  {
    ActInHistory(worlds, acts, k);
    if k == s + 1 {
      TurnBegins(worlds[s], worlds[k], c);
    } else {
      HistoryInTurn(worlds, acts, c, s, k - 1);
      HistoryEnlisted(worlds, acts, k - 1);
      InTurnNext(worlds[k - 1], acts[k - 1], worlds[k], c);
    }
  }

  // ---- the buffer it gives ----

  /** The consumer's queue without the buffer zero-copy took for the frame after this one. */
  function Remaining(v: Video, v': Video, c: Cid): seq<Id> {
    var q := v.pool.Of(c).queue;
    if q != [] && v'.zc.next == Some(q[0]) then q[1..] else q
  }

  /** What the consumer has for the frame: a buffer it still holds, or the first of those in `q`. */
  function Giving(v: Video, c: Cid, q: seq<Id>): Option<Id> {
    if v.pool.Of(c).held.Some? then v.pool.Of(c).held
    else if q != [] && q[0] in v.pool.mapped && |v.pool.Mem(q[0])| >= v.cfg.OutSize() then Some(q[0])
    else None
  }

  /** Zero-copy does not serve the consumer with this frame. */
  predicate Copies(v: Video, c: Cid) {
    v.zc.cur.Some? ==> v.pool.Owner(v.zc.cur.value) != c
  }

  /** Zero-copy takes from the queue of this consumer, or leaves it alone. */
  lemma PickTakes(v: Video, i: HalfIn, c: Cid)
    requires Whole(v) && Shape(v) && Acts(v) && i.isTop
    ensures TopStart(v, i).pool.Of(c).queue == Remaining(v, VideoHalf(v, i), c)
  {
    var from := PickFrom(v, i.wanted, i.hdcpAtPick);
    TopProjects(v, i);
    assert VideoHalf(v, i).zc.next == Picked(v, from);
    if from.Some? && v.pool.Of(c).queue != [] && v.pool.Of(from.value).queue != [] { OwnBuffer(v, c, from.value); }
  }

  lemma OwnBuffer(v: Video, c: Cid, d: Cid)
    requires Whole(v) && v.pool.Of(c).queue != [] && v.pool.Of(d).queue != []
    ensures v.pool.Of(c).queue[0] == v.pool.Of(d).queue[0] ==> c == d
  {
    var b, e := v.pool.Of(c).queue[0], v.pool.Of(d).queue[0];
    assert b in v.pool.Of(c).queue && e in v.pool.Of(d).queue;
    assert v.pool.Owner(b) == c && v.pool.Owner(e) == d;
  }

  lemma PickKeeps(v: Video, i: HalfIn, c: Cid)
    ensures var r, r1 := v.pool.Of(c), TopStart(v, i).pool.Of(c);
            && r1.held == r.held && r1.streaming == r.streaming && r1.decimate == r.decimate && r1.nextSeq == r.nextSeq
    ensures TopStart(v, i).pool.consumers == v.pool.consumers && TopStart(v, i).cfg == v.cfg
    ensures TopStart(v, i).pool.mapped == v.pool.mapped && TopStart(v, i).pool.mem == v.pool.mem
  {
  }

  lemma PoolGives(was: Video, v: Video, c: Cid)
    requires multiset(v.pool.consumers)[c] <= 1 && c in v.pool.consumers && InTurn(v, c)
    requires was.zc.cur.Some? ==> v.pool.Owner(was.zc.cur.value) != c
    ensures TopPool(was, v).Of(c).held == Giving(v, c, v.pool.Of(c).queue)
  {
    var n, skip := LoseIf(v.asm).seqno, if was.zc.cur.Some? then Some(v.pool.Owner(was.zc.cur.value)) else None;
    var p0 := if skip.Some? then FailHeld(v.pool, skip.value) else v.pool;
    if skip.Some? {
      FailHeldTurn(v.pool, skip.value, c);
      FailHeldFails(v.pool, skip.value);
    }
    assert p0.mapped == v.pool.mapped && p0.mem == v.pool.mem && p0.consumers == v.pool.consumers;
    assert Wants(p0.Of(c), c, n, skip) == p0.Of(c).held.None?;
    HoldGives(p0, n, v.cfg.OutSize(), skip, c);
  }

  lemma StartReady(v: Video, i: HalfIn, c: Cid)
    requires Enlisted(v) && InTurn(v, c) && Copies(v, c)
    ensures var v1 := TopStart(v, i);
            && multiset(v1.pool.consumers)[c] <= 1 && c in v1.pool.consumers && InTurn(v1, c)
            && (v.zc.cur.Some? ==> v1.pool.Owner(v.zc.cur.value) != c)
            && Giving(v1, c, v1.pool.Of(c).queue) == Giving(v, c, v1.pool.Of(c).queue)
  {
    PickKeeps(v, i, c);
  }

  lemma TopHeld(v: Video, i: HalfIn, c: Cid)
    requires Whole(v) && Shape(v) && Arrives(v, i) && i.isTop
    ensures VideoHalf(v, i).pool.Of(c) == TopPool(v, TopStart(v, i)).Of(c)
  {
    ArrivesIs(v, i);
    TopFramePool(v, TopStart(v, i), i);
  }

  /** A frame that arrives takes the earliest buffer of a consumer in turn that does not get it by zero-copy. */
  lemma TopGives(v: Video, i: HalfIn, c: Cid)
    requires Whole(v) && Shape(v) && Enlisted(v) && InTurn(v, c) && Arrives(v, i) && i.isTop && Copies(v, c)
    ensures var q := Remaining(v, VideoHalf(v, i), c); VideoHalf(v, i).pool.Of(c).held == Giving(v, c, q)
  {
    ArrivesIs(v, i);
    PickTakes(v, i, c);
    StartReady(v, i, c);
    PoolGives(v, TopStart(v, i), c);
    TopHeld(v, i, c);
  }

  // ---- and has back ----

  /** A new completion of the consumer's buffer. */
  ghost predicate HasBack(log: seq<Completion>, log': seq<Completion>, b: Id, c: Cid, state: VbState, n: nat) {
    exists x ::
      |log| <= x < |log'| && log'[x].buf == b && log'[x].owner == c && log'[x].state == state && log'[x].seqno == n
  }

  lemma EndGives(v: Video, i: HalfIn, c: Cid)
    requires Ends(v, i) && EndsAFrame(v, i) && v.pool.Of(c).held.Some?
    ensures HasBack(v.pool.log, VideoHalf(v, i).pool.log, v.pool.Of(c).held.value, c,
                    if Good(v, i) then Done else Error, v.asm.seqno)
    ensures VideoHalf(v, i).pool.Of(c).held.None?
  {
    var b := v.pool.Of(c).held.value;
    var p, state := EndingPool(v, i), EndingState(v, i);
    EndsGood(v, i);
    BottomLog(v, i);
    EndingPoolIs(v, i);
    MadeAllAt(p, p.frameBufs, state, v.asm.seqno, v.cfg.OutSize());
    var k :| 0 <= k < |p.frameBufs| && p.frameBufs[k] == b;
    var x := |v.pool.log| + |EndingFreed(v, i)| + k;
    assert VideoHalf(v, i).pool.log[x] == EndingCopies(v, i)[k];
    EndHolds(v, i, c);
  }

  lemma EndHolds(v: Video, i: HalfIn, c: Cid)
    requires Whole(v) && Shape(v) && EndsAFrame(v, i) && v.pool.Of(c).held.Some?
    ensures VideoHalf(v, i).pool.Of(c).held.None?
  {
    BottomEnds(v, i);
    EndingPoolIs(v, i);
    FinishTurn(EndingPool(v, i), EndingState(v, i), v.asm.seqno, v.cfg.OutSize(), c);
    assert v.pool.Of(c).held.value in EndingPool(v, i).frameBufs;
  }

  // ---- from the top half to the end of the frame ----

  /** The consumer keeps the buffer it holds, and the frame goes on. */
  predicate Waits(v: Video, v': Video, c: Cid) {
    v'.pool.Of(c).held == v.pool.Of(c).held && FrameKept(v.asm, v'.asm)
  }

  lemma OthersWait(v: Video, op: Op, c: Cid)
    requires Shape(v) && Allowed(v, op) && Enlisted(v) && v.pool.Of(c).streaming
    requires !op.NoSignal? && (op.Half? ==> !Capturing(v)) && op != StreamStopHeld(c)
    ensures Waits(v, Do(v, op), c)
  {
    InUse(v, c);
    OthersKeepFrame(v, op);
    if !op.Half? { OpTurn(v, op, c); }
  }

  lemma WaitsNext(w: World, act: Act, w': World, c: Cid)
    requires NextAct(w, act, w') && Enlisted(w.v) && w.v.pool.Of(c).streaming
    requires !TakesHalf(w, act) && act != Drive(StreamStopHeld(c))
    ensures Waits(w.v, w'.v, c)
  {
    if act.Drive? { OthersWait(w.v, act.op, c); }
  }

  /** In between comes neither part of the consumer's STREAMOFF, nor another rate. */
  ghost predicate StaysOn(acts: seq<Act>, c: Cid, s: nat, j: nat)
    requires j <= |acts|
  {
    forall m :: s < m < j ==> !EndsTurn(acts[m], c) && acts[m] != Drive(StreamStopHeld(c))
  }

  lemma StaysOnPrefix(acts: seq<Act>, c: Cid, s: nat, j: nat, k: nat)
    requires k <= j <= |acts| && StaysOn(acts, c, s, j)
    ensures StaysOn(acts, c, s, k) && StaysInTurn(acts, c, s, k)
  {
  }

  lemma {:induction false} HistoryWaits(worlds: seq<World>, acts: seq<Act>, c: Cid, s: nat, k: nat, j: nat)
    requires IsHistory(worlds, acts) && s < k < j < |worlds| && acts[s] == Drive(StreamStart(c))
    requires worlds[s].v.pool.Of(c).decimate == 1 && StaysOn(acts, c, s, j) && NoHalfBetween(worlds, acts, k, j)
    ensures Waits(worlds[k + 1].v, worlds[j].v, c)
    decreases j
  {
    if j > k + 1 {
      StaysOnPrefix(acts, c, s, j, j - 1);
      HistoryWaits(worlds, acts, c, s, k, j - 1);
      HistoryInTurn(worlds, acts, c, s, j - 1);
      HistoryEnlisted(worlds, acts, j - 1);
      ActInHistory(worlds, acts, j);
      WaitsNext(worlds[j - 1], acts[j - 1], worlds[j], c);
    }
  }

  // ---- the guarantee ----

  /** A half event that arrives. */
  ghost predicate HalfArrives(worlds: seq<World>, acts: seq<Act>, k: nat, isTop: bool)
    requires |worlds| == |acts| + 1 && k < |acts|
  {
    && acts[k].Drive? && acts[k].op.Half? && acts[k].op.i.isTop == isTop && Shape(worlds[k].v)
    && Arrives(worlds[k].v, acts[k].op.i)
  }

  /** The frame read at steps `k` and `j` is handed out complete. */
  predicate FrameGood(top: Video, t: HalfIn, bottom: Video, b: HalfIn) {
    && !TooLate(top, t)
    && (t.hdcp || b.hdcp
        || (!TooLate(bottom, b) && (bottom.cfg.geo.il ==> FieldJoins(bottom.cfg.geo))))
  }

  /**
   * A consumer at the full rate, from its STREAMON to its STREAMOFF: a frame
   * that it does not get by zero-copy takes the buffer it still holds, or the
   * earliest one in its queue. The bottom half handled next, if it arrives and
   * the input is the same, hands this buffer back under the frame's number:
   * DONE, unless a copy was too late or the field could not be doubled.
   */
  lemma StreamingReceives(worlds: seq<World>, acts: seq<Act>, c: Cid, s: nat, k: nat, j: nat, b: Id)
    requires IsHistory(worlds, acts) && s < k < j < |acts| && CountersHold(worlds, j)
    requires acts[s] == Drive(StreamStart(c)) && worlds[s].v.pool.Of(c).decimate == 1 && StaysOn(acts, c, s, j)
    requires HalfArrives(worlds, acts, k, true) && Copies(worlds[k].v, c)
    requires Giving(worlds[k].v, c, Remaining(worlds[k].v, worlds[k + 1].v, c)) == Some(b)
    requires NoHalfBetween(worlds, acts, k, j) && HalfArrives(worlds, acts, j, false)
    requires worlds[j].v.cfg.geo == worlds[k].v.cfg.geo
    ensures worlds[k + 1].v.pool.Of(c).held == worlds[j].v.pool.Of(c).held == Some(b)
    ensures HasBack(worlds[j].v.pool.log, worlds[j + 1].v.pool.log, b, c,
                    if FrameGood(worlds[k].v, acts[k].op.i, worlds[j].v, acts[j].op.i) then Done else Error,
                    worlds[j].v.asm.seqno)
    ensures worlds[j + 1].v.pool.Of(c).held.None?
  {
    StaysOnPrefix(acts, c, s, j, k);
    TurnAt(worlds, acts, c, s, k);
    GivesAt(worlds, acts, c, k, b);
    HistoryWaits(worlds, acts, c, s, k, j);
    BackAt(worlds, acts, c, j, b);
  }

  lemma TurnAt(worlds: seq<World>, acts: seq<Act>, c: Cid, s: nat, k: nat)
    requires IsHistory(worlds, acts) && s < k < |worlds| && acts[s] == Drive(StreamStart(c))
    requires worlds[s].v.pool.Of(c).decimate == 1 && StaysInTurn(acts, c, s, k)
    ensures Enlisted(worlds[k].v) && InTurn(worlds[k].v, c)
  {
    HistoryInTurn(worlds, acts, c, s, k);
    HistoryEnlisted(worlds, acts, k);
  }

  lemma GivesAt(worlds: seq<World>, acts: seq<Act>, c: Cid, k: nat, b: Id)
    requires IsHistory(worlds, acts) && k < |acts| && Enlisted(worlds[k].v) && InTurn(worlds[k].v, c)
    requires HalfArrives(worlds, acts, k, true) && Copies(worlds[k].v, c)
    requires Giving(worlds[k].v, c, Remaining(worlds[k].v, worlds[k + 1].v, c)) == Some(b)
    ensures worlds[k + 1].v.pool.Of(c).held == Some(b)
    ensures TopDone(worlds[k].v, acts[k].op.i, worlds[k + 1].v.asm)
  {
    ActInHistory(worlds, acts, k + 1);
    GivesNext(worlds[k], acts[k].op.i, worlds[k + 1], c, b);
  }

  /** The frame a top half starts. */
  predicate TopDone(v: Video, i: HalfIn, a: Assembly) {
    a.topDone && a.frame == v.cfg.geo && a.hdcp == i.hdcp && a.late == TooLate(v, i)
  }

  lemma GivesNext(w: World, i: HalfIn, w': World, c: Cid, b: Id)
    requires NextAct(w, Drive(Half(i)), w') && Enlisted(w.v) && InTurn(w.v, c) && i.isTop && Arrives(w.v, i)
    requires Copies(w.v, c) && Giving(w.v, c, Remaining(w.v, w'.v, c)) == Some(b)
    ensures w'.v.pool.Of(c).held == Some(b) && TopDone(w.v, i, w'.v.asm)
  {
    TopGives(w.v, i, c);
    TopDoneAfter(w.v, i);
  }

  lemma TopDoneAfter(v: Video, i: HalfIn)
    requires Whole(v) && Shape(v) && Arrives(v, i) && i.isTop
    ensures TopDone(v, i, VideoHalf(v, i).asm)
  {
    ArrivesIs(v, i);
  }

  lemma BackAt(worlds: seq<World>, acts: seq<Act>, c: Cid, j: nat, b: Id)
    requires IsHistory(worlds, acts) && j < |acts| && CountersHold(worlds, j) && HalfArrives(worlds, acts, j, false)
    requires worlds[j].v.asm.topDone && worlds[j].v.asm.frame == worlds[j].v.cfg.geo
    requires worlds[j].v.pool.Of(c).held == Some(b)
    ensures HasBack(worlds[j].v.pool.log, worlds[j + 1].v.pool.log, b, c,
                    if Good(worlds[j].v, acts[j].op.i) then Done else Error, worlds[j].v.asm.seqno)
    ensures worlds[j].v.pool.frameBufs != [] && worlds[j + 1].v.pool.Of(c).held.None?
  {
    HistoryKeeps(worlds, acts, j);
    HistoryShows(worlds, acts, j);
    ActInHistory(worlds, acts, j + 1);
    BackNext(worlds[j], acts[j].op.i, worlds[j + 1], c, b);
  }

  lemma BackNext(w: World, i: HalfIn, w': World, c: Cid, b: Id)
    requires WorldInv(w) && Shows(w) && NextAct(w, Drive(Half(i)), w') && Completes(w.v, i)
    requires w.v.pool.Of(c).held == Some(b)
    ensures HasBack(w.v.pool.log, w'.v.pool.log, b, c, if Good(w.v, i) then Done else Error, w.v.asm.seqno)
    ensures w.v.pool.frameBufs != [] && w'.v.pool.Of(c).held.None?
  {
    ArrivesIs(w.v, i);
    EndGives(w.v, i, c);
    assert b in w.v.pool.frameBufs;
  }

  // ---- by zero-copy ----

  /**
   * The consumer zero-copy serves has its buffer back as the frame ends: DONE,
   * if both pairs were pointed at it and moved on in time and the frame is
   * good.
   */
  lemma ZeroCopyReceives(worlds: seq<World>, acts: seq<Act>, j: nat, b: Id)
    requires IsHistory(worlds, acts) && j < |acts| && CountersHold(worlds, j) && HalfArrives(worlds, acts, j, false)
    requires worlds[j].v.asm.topDone && worlds[j].v.asm.frame == worlds[j].v.cfg.geo
    requires T.TopMovedOn(worlds[j].v.zc, b) && MovesInTime(worlds[j].v.asm, acts[j].op.i)
    requires Good(worlds[j].v, acts[j].op.i)
    ensures HasBack(worlds[j].v.pool.log, worlds[j + 1].v.pool.log, b, worlds[j].v.pool.Owner(b), Done,
                    worlds[j].v.asm.seqno)
  {
    HistoryKeeps(worlds, acts, j);
    HistoryShows(worlds, acts, j);
    Performed(worlds, acts, j);
    ServedBack(worlds[j].v, acts[j].op.i, b, worlds[j].tops);
  }

  /** The register write leaves a nanosecond to spare within half of each of the last two gaps between halves. */
  predicate MovesInTime(a: Assembly, i: HalfIn) {
    && i.ts != 0 && a.lastTs != 0 && i.ts > a.lastTs
    && 2 * i.writeDelay + 2 <= i.ts - a.lastTs && 2 * i.writeDelay + 2 <= a.gapPrev
  }

  lemma ServedBack(v: Video, i: HalfIn, b: Id, tops: nat)
    requires Ends(v, i) && Completes(v, i) && Marked(v.zc, tops) && tops < TWO_TO_THE_31
    requires T.TopMovedOn(v.zc, b) && MovesInTime(v.asm, i) && Good(v, i)
    ensures HasBack(v.pool.log, VideoHalf(v, i).pool.log, b, v.pool.Owner(b), Done, v.asm.seqno)
  {
    ArrivesIs(v, i);
    EndsGood(v, i);
    InTimeExact(v.asm, i);
    T.HandedBack(v, i, b, tops);
    BottomLog(v, i);
    FreedFrame(v, i, tops);
    var e :| e in EndingFreed(v, i) && e.buf == b && e.state == Done && e.seqno == v.asm.seqno;
    var k :| 0 <= k < |EndingFreed(v, i)| && EndingFreed(v, i)[k] == e;
    assert VideoHalf(v, i).pool.log[|v.pool.log| + k] == e;
  }

  // ---- without signal ----

  /**
   * Without signal the buffer it holds, or the earliest in its queue if no
   * frame was in progress, comes back at once.
   */
  lemma StreamingSeesBlue(worlds: seq<World>, acts: seq<Act>, c: Cid, s: nat, k: nat, b: Id)
    requires IsHistory(worlds, acts) && s < k < |acts| && acts[k] == Drive(NoSignal)
    requires acts[s] == Drive(StreamStart(c)) && worlds[s].v.pool.Of(c).decimate == 1 && StaysInTurn(acts, c, s, k)
    requires worlds[k].v.pool.Of(c).held.Some? || !worlds[k].v.asm.topDone
    requires Giving(worlds[k].v, c, worlds[k].v.pool.Of(c).queue) == Some(b)
    ensures HasBack(worlds[k].v.pool.log, worlds[k + 1].v.pool.log, b, c, Done, worlds[k].v.asm.seqno)
  {
    TurnAt(worlds, acts, c, s, k);
    Performed(worlds, acts, k);
    BlueGives(worlds[k].v, c, b);
  }

  lemma BlueGives(v: Video, c: Cid, b: Id)
    requires Whole(v) && Enlisted(v) && InTurn(v, c) && (v.pool.Of(c).held.Some? || !v.asm.topDone)
    requires Giving(v, c, v.pool.Of(c).queue) == Some(b)
    ensures HasBack(v.pool.log, NoVideo(v).pool.log, b, c, Done, v.asm.seqno)
  {
    var n, size := v.asm.seqno, v.cfg.OutSize();
    var p := HoldBuffers(v.pool, n, size, None);
    BlueHeld(v, c, b);
    HoldBuffersKeeps(v.zc, v.pool, multiset{}, n, size, None);
    HoldBuffersFails(v.pool, n, size, None);
    BlueBack(v.pool.log, BlitAll(p, p.frameBufs, 0, Blue(size)), b, c, n, size);
  }

  lemma BlueHeld(v: Video, c: Cid, b: Id)
    requires Enlisted(v) && InTurn(v, c) && (v.pool.Of(c).held.Some? || !v.asm.topDone)
    requires Giving(v, c, v.pool.Of(c).queue) == Some(b)
    ensures HoldBuffers(v.pool, v.asm.seqno, v.cfg.OutSize(), None).Of(c).held == Some(b)
  {
    HoldGives(v.pool, v.asm.seqno, v.cfg.OutSize(), None, c);
    assert Wants(v.pool.Of(c), c, v.asm.seqno, None) == v.pool.Of(c).held.None?;
  }

  lemma BlueBack(log: seq<Completion>, p: Pool, b: Id, c: Cid, n: nat, size: nat)
    requires b in p.frameBufs && p.Owner(b) == c && log <= p.log
    ensures HasBack(log, Finish(p, Done, n, size).log, b, c, Done, n)
  {
    FinishMoves(p, Done, n, size);
    MadeAllAt(p, p.frameBufs, Done, n, size);
    var k :| 0 <= k < |p.frameBufs| && p.frameBufs[k] == b;
    var x := |p.log| + k;
    assert Finish(p, Done, n, size).log[x] == MadeAll(p, p.frameBufs, Done, n, size)[k];
  }

  // ---- first in, first out ----

  ghost function Queued(w: World, act: Act, c: Cid): seq<Id> {
    if act.Drive? && act.op.Queue? && w.v.pool.Owner(act.op.b) == c then [act.op.b] else []
  }

  /** The buffers queued for the consumer in the steps from `i` to `j`, in order. */
  ghost function QueuedSince(worlds: seq<World>, acts: seq<Act>, c: Cid, i: nat, j: nat): seq<Id>
    requires |worlds| == |acts| + 1 && j <= |acts|
  {
    if i >= j then [] else
    QueuedSince(worlds, acts, c, i, j - 1) + Queued(worlds[j - 1], acts[j - 1], c)
  }

  lemma QueueAfter(v: Video, op: Op, c: Cid)
    requires Shape(v) && Allowed(v, op)
    ensures var q, q' := v.pool.Of(c).queue, Do(v, op).pool.Of(c).queue;
            Left(q + (if op.Queue? && v.pool.Owner(op.b) == c then [op.b] else []), q')
  {
    match op
    case Half(i) => HalfTurn(v, i, c);
    case NoSignal => NoVideoTurn(v, c);
    case _ => OpTurn(v, op, c);
  }

  lemma QueueNext(w: World, act: Act, w': World, c: Cid, added: seq<Id>)
    requires NextAct(w, act, w') && added == Queued(w, act, c)
    ensures Left(w.v.pool.Of(c).queue + added, w'.v.pool.Of(c).queue)
  {
    if act.Drive? { QueueAfter(w.v, act.op, c); }
  }

  lemma LeftOn(q: seq<Id>, before: seq<Id>, t: seq<Id>, added: seq<Id>, u: seq<Id>)
    requires Left(q + before, t) && Left(t + added, u)
    ensures Left(q + (before + added), u)
  {
    assert q + (before + added) == q + before + added;
    assert t + added == (q + before + added)[|q + before| - |t|..];
    LeftTwice(q + before + added, t + added, u);
  }

  /**
   * A consumer's queue is first in, first out: what it holds at a later time is
   * what it held, and what was queued since, without some from the front.
   */
  lemma {:induction false} QueueInOrder(worlds: seq<World>, acts: seq<Act>, c: Cid, i: nat, j: nat)
    requires IsHistory(worlds, acts) && i <= j < |worlds|
    ensures Left(worlds[i].v.pool.Of(c).queue + QueuedSince(worlds, acts, c, i, j), worlds[j].v.pool.Of(c).queue)
    decreases j
  {
    var q := worlds[i].v.pool.Of(c).queue;
    if i == j {
      assert q + [] == q;
    } else {
      QueueInOrder(worlds, acts, c, i, j - 1);
      ActInHistory(worlds, acts, j);
      QueuedNext(worlds, acts, c, i, j);
      QueueOn(worlds[j - 1], acts[j - 1], worlds[j], c, q, QueuedSince(worlds, acts, c, i, j - 1),
              QueuedSince(worlds, acts, c, i, j));
    }
  }

  lemma QueuedNext(worlds: seq<World>, acts: seq<Act>, c: Cid, i: nat, j: nat)
    requires |worlds| == |acts| + 1 && i < j <= |acts|
    ensures QueuedSince(worlds, acts, c, i, j)
              == QueuedSince(worlds, acts, c, i, j - 1) + Queued(worlds[j - 1], acts[j - 1], c)
  {
  }

  lemma QueueOn(w: World, act: Act, w': World, c: Cid, q: seq<Id>, before: seq<Id>, after: seq<Id>)
    requires NextAct(w, act, w') && Left(q + before, w.v.pool.Of(c).queue) && after == before + Queued(w, act, c)
    ensures Left(q + after, w'.v.pool.Of(c).queue)
  {
    QueueNext(w, act, w', c, Queued(w, act, c));
    LeftOn(q, before, w.v.pool.Of(c).queue, Queued(w, act, c), w'.v.pool.Of(c).queue);
  }
}
