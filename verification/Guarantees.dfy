/**
 * What the whole system guarantees about the frames the apps receive, over
 * every run of it in which the driver never handles 2^31 top halves in a row
 * without a bottom half (so that no event counter passes half its range while
 * a buffer is marked with it).
 */
module Guarantees {
  import opened Basics
  import opened ZeroCopy
  import opened Quarters
  import opened CardAddr
  import opened Protocol
  import opened Frames
  import opened Driver
  import opened Effects
  import opened Bounds
  import opened Marks
  import opened Sequence
  import opened Payload
  import opened Assembling
  import opened FrameLog
  import opened Rendering
  import opened Events
  import opened World

  ghost predicate Shows(w: World) {
    && Marked(w.v.zc, w.tops) && MovedOff(w.Sys())
    && Assembled(w.v) && Logged(w.v.asm, w.v.pool.log) && Numbered(w.v.asm)
  }

  /** The card's writes spare the copies, and the top half of a frame whose bottom half is on its way. */
  lemma WritesAssembled(w: World, q: nat, k: nat, bytes: seq<byte>)
    requires WorldInv(w) && MovedOff(w.Sys()) && Assembled(w.v) && CanHappen(w, CardWrites(q, k, bytes))
    ensures Assembled(VideoAfter(w, CardWrites(q, k, bytes)))
  {
    var b, off := w.card.run.value.dest.value, QuarterOff(w.v.cfg.len, q) + k;
    FrameApart(w.v);
    WriteFits(w, q, k, bytes);
    assert w.v.zc.Held(b);
    WritesCopies(w.v, VideoAfter(w, CardWrites(q, k, bytes)), b);
    if w.v.zc.cur == Some(b) { WritesCard(w, q, k, bytes); }
  }

  /** Only quarters 2-3 of the frame's zero-copy buffer are written once its top half has moved on. */
  lemma WritesCard(w: World, q: nat, k: nat, bytes: seq<byte>)
    requires Fits(w.v) && MovedOff(w.Sys()) && Assembled(w.v) && CanHappen(w, CardWrites(q, k, bytes))
    requires w.v.zc.cur == w.card.run.value.dest
    ensures CardHolds(VideoAfter(w, CardWrites(q, k, bytes)))
  {
    var v := w.v;
    if v.asm.topDone && v.zc.Rec(v.zc.cur.value).away.top {
      CutOffsets(FrameBytes(v.cfg.geo.w, v.cfg.geo.h));
      LaterQuarters(v.cfg.len, q);
      BlitLater(v.pool.Mem(v.zc.cur.value), v.asm.lastTop.value.bytes, QuarterOff(v.cfg.len, q) + k, bytes);
    }
  }

  lemma LaterQuarters(len: seq<nat>, q: nat)
    requires |len| == 4 && 2 <= q < 4
    ensures QuarterOff(len, q) >= QuarterOff(len, 2)
  {
  }

  lemma WritesCopies(v: Video, v': Video, b: Id)
    requires Assembled(v) && b !in v.pool.frameBufs
    requires v' == v.(pool := v.pool.(mem := v'.pool.mem)) && forall x: Id :: x != b ==> v'.pool.Mem(x) == v.pool.Mem(x)
    ensures TopKnown(v') && CopiesHold(v') && HeldApart(v')
    ensures v.zc.cur != Some(b) ==> CardHolds(v')
  {
    assert forall c: Cid :: v'.pool.Of(c) == v.pool.Of(c);
  }

  lemma MarksShow(w: World, act: Act)
    requires WorldInv(w) && Happens(w, act) && w.tops < TWO_TO_THE_31
    requires Marked(w.v.zc, w.tops) && MovedOff(w.Sys())
    ensures Marked(After(w, act).v.zc, After(w, act).tops) && MovedOff(After(w, act).Sys())
  {
    Projects(w, act);
    if StepOf(w, act).Some? {
      StepMarks(w.Sys(), StepOf(w, act).value, After(w, act).Sys(), w.tops);
    }
    assert After(w, act).Sys().zc == After(w, act).v.zc;
  }

  lemma StepMarks(s: Sys, step: Step, s': Sys, tops: nat)
    requires Inv(s) && Enabled(s, step) && s' == Apply(s, step)
    requires Marked(s.zc, tops) && MovedOff(s) && tops < TWO_TO_THE_31
    ensures Marked(s'.zc, TopsAfter(step, tops)) && MovedOff(s')
  {
    KeepsMarked(s, step, tops);
    KeepsMovedOff(s, step, tops);
  }

  lemma FramesShow(w: World, act: Act)
    requires WorldInv(w) && Shows(w) && CanHappen(w, act) && w.tops < TWO_TO_THE_31
    ensures var v' := VideoAfter(w, act); Assembled(v') && Logged(v'.asm, v'.pool.log) && Numbered(v'.asm)
  {
    match act
    case CardWrites(q, k, bytes) => WritesAssembled(w, q, k, bytes);
    case Drive(op) =>
      KeepsAssembled(w.v, op);
      KeepsLogged(w.v, op, w.tops);
      KeepsNumbered(w.v, op);
    case _ =>
  }

  lemma InitialShows(w: World)
    requires Initial(w)
    ensures Shows(w)
  {
  }

  lemma KeepsShows(w: World, act: Act, w': World)
    requires WorldInv(w) && Shows(w) && Happens(w, act) && w.tops < TWO_TO_THE_31 && w' == After(w, act)
    ensures Shows(w')
  {
    MarksShow(w, act);
    FramesShow(w, act);
  }

  /** Up to step `i` the driver never handled 2^31 top halves in a row without a bottom half. */
  ghost predicate CountersHold(worlds: seq<World>, i: nat)
    requires i < |worlds|
  {
    forall k: nat :: k <= i ==> worlds[k].tops < TWO_TO_THE_31
  }

  lemma {:induction false} HistoryShows(worlds: seq<World>, acts: seq<Act>, i: nat)
    requires IsHistory(worlds, acts) && i < |worlds| && CountersHold(worlds, i)
    ensures Shows(worlds[i])
  {
    if i == 0 {
      InitialShows(worlds[0]);
    } else {
      HistoryShows(worlds, acts, i - 1);
      HistoryKeeps(worlds, acts, i - 1);
      ShowsNext(worlds, acts, i);
    }
  }

  lemma ShowsNext(worlds: seq<World>, acts: seq<Act>, i: nat)
    requires IsHistory(worlds, acts) && 0 < i < |worlds| && worlds[i - 1].tops < TWO_TO_THE_31
    requires WorldInv(worlds[i - 1]) && Shows(worlds[i - 1])
    ensures Shows(worlds[i])
  {
    assert ActAt(worlds, acts, i - 1);
    KeepsShows(worlds[i - 1], acts[i - 1], worlds[i]);
  }

  // ---- one frame number, one payload; numbers that rise ----

  /**
   * Two complete buffers with the same frame number in one engine run hold the
   * same bytes, whether copied, scaled or written by the card, and whoever
   * received them.
   */
  lemma SameNumberSameBytes(worlds: seq<World>, acts: seq<Act>, i: nat, x: nat, y: nat)
    requires IsHistory(worlds, acts) && i < |worlds| && CountersHold(worlds, i)
    requires var log := worlds[i].v.pool.log;
             && worlds[i].v.asm.runStart <= x < |log| && worlds[i].v.asm.runStart <= y < |log|
             && log[x].state == Done && log[y].state == Done && log[x].seqno == log[y].seqno
    ensures worlds[i].v.pool.log[x].payload == worlds[i].v.pool.log[y].payload
  {
    HistoryShows(worlds, acts, i);
  }

  /** A consumer's complete buffers carry strictly rising frame numbers, by copy and zero-copy alike. */
  lemma NumbersRise(worlds: seq<World>, acts: seq<Act>, i: nat, x: nat, y: nat)
    requires IsHistory(worlds, acts) && i < |worlds| && CountersHold(worlds, i)
    requires var log := worlds[i].v.pool.log;
             && worlds[i].v.asm.runStart <= x < y < |log|
             && log[x].state == Done && log[y].state == Done && log[x].owner == log[y].owner
    ensures worlds[i].v.pool.log[x].seqno < worlds[i].v.pool.log[y].seqno < worlds[i].v.asm.seqno
    ensures worlds[i].v.asm.seqno == worlds[i].v.asm.dropped - worlds[i].v.asm.droppedAtStart + worlds[i].v.asm.finished
  {
    HistoryShows(worlds, acts, i);
  }

  /** A step that is an operation of the driver. */
  lemma Performed(worlds: seq<World>, acts: seq<Act>, k: nat)
    requires IsHistory(worlds, acts) && k < |acts| && acts[k].Drive?
    ensures Whole(worlds[k].v) && Shape(worlds[k].v) && Allowed(worlds[k].v, acts[k].op)
    ensures worlds[k + 1].v == Do(worlds[k].v, acts[k].op)
  {
    ActInHistory(worlds, acts, k + 1);
  }

  // ---- where the bytes of a frame come from ----

  /** Step `k` handles a top half that arrived, and leaves `a` to say so. */
  ghost predicate TopAt(worlds: seq<World>, acts: seq<Act>, k: nat, a: Assembly)
    requires |worlds| == |acts| + 1 && k < |acts|
  {
    && acts[k].Drive? && acts[k].op.Half? && acts[k].op.i.isTop && Shape(worlds[k].v)
    && Arrives(worlds[k].v, acts[k].op.i) && TopLeft(worlds[k].v, acts[k].op.i, a)
  }

  ghost predicate TopLeft(v: Video, i: HalfIn, a: Assembly)
    requires Shape(v)
  {
    && a.lastTop == Some(TopRead(v.cfg.geo, TopBytes(v, i), v.zc.cur))
    && a.hdcp == i.hdcp && a.late == TooLate(v, i)
  }

  predicate SameTop(a: Assembly, a': Assembly) {
    a'.lastTop == a.lastTop && a'.hdcp == a.hdcp && a'.late == a.late
  }

  /** The step acts on a half event, or delivers a frame without signal. */
  ghost predicate TakesHalf(w: World, act: Act) {
    act.Drive? && ((act.op.Half? && Capturing(w.v)) || act.op.NoSignal?)
  }

  ghost predicate NoHalfBetween(worlds: seq<World>, acts: seq<Act>, k: nat, j: nat)
    requires |worlds| == |acts| + 1 && j <= |acts|
  {
    forall m :: k < m < j ==> !TakesHalf(worlds[m], acts[m])
  }

  /** What a half event does to the record of the last top half. */
  lemma LastTopAfterHalf(v: Video, i: HalfIn)
    requires Whole(v) && Shape(v) && Acts(v)
    ensures var a' := VideoHalf(v, i).asm;
            a'.lastTop.Some? ==> i.isTop && Arrives(v, i) && TopLeft(v, i, a')
  {
    ArrivesIs(v, i);
  }

  /** What the other operations do to it. */
  lemma LastTopAfter(v: Video, op: Op)
    requires Shape(v) && Allowed(v, op) && (op.Half? ==> !Acts(v))
    ensures var a, a' := v.asm, Do(v, op).asm;
            if op.NoSignal? then a'.lastTop.None? else SameTop(a, a')
  {
  }

  ghost predicate ReadAt(worlds: seq<World>, acts: seq<Act>, i: nat, k: nat)
    requires |worlds| == |acts| + 1 && k < i <= |acts|
  {
    TopAt(worlds, acts, k, worlds[i].v.asm) && NoHalfBetween(worlds, acts, k, i)
  }

  lemma LastTopStep(w: World, act: Act, w': World)
    requires Happens(w, act) && w' == After(w, act) && w'.v.asm.lastTop.Some?
    ensures TakesHalf(w, act) ==>
              && act.Drive? && act.op.Half? && act.op.i.isTop && Shape(w.v) && Arrives(w.v, act.op.i)
              && TopLeft(w.v, act.op.i, w'.v.asm)
    ensures !TakesHalf(w, act) ==> SameTop(w.v.asm, w'.v.asm)
  {
    if act.Drive? && act.op.Half? && Acts(w.v) {
      LastTopAfterHalf(w.v, act.op.i);
    } else if act.Drive? {
      LastTopAfter(w.v, act.op);
    }
  }

  lemma {:induction false} LastTopTraced(worlds: seq<World>, acts: seq<Act>, i: nat) returns (k: nat)
    requires IsHistory(worlds, acts) && i < |worlds| && worlds[i].v.asm.lastTop.Some?
    ensures k < i && ReadAt(worlds, acts, i, k)
  {
    assert i > 0;
    LastTopAt(worlds, acts, i - 1);
    if TakesHalf(worlds[i - 1], acts[i - 1]) {
      k := i - 1;
    } else {
      k := LastTopTraced(worlds, acts, i - 1);
      NoneMore(worlds, acts, i - 1, k);
    }
  }

  lemma LastTopAt(worlds: seq<World>, acts: seq<Act>, i: nat)
    requires IsHistory(worlds, acts) && i < |acts| && worlds[i + 1].v.asm.lastTop.Some?
    ensures var w, act, w' := worlds[i], acts[i], worlds[i + 1];
            if TakesHalf(w, act) then TopAt(worlds, acts, i, w'.v.asm) else SameTop(w.v.asm, w'.v.asm)
  {
    assert ActAt(worlds, acts, i);
    LastTopStep(worlds[i], acts[i], worlds[i + 1]);
  }

  lemma NoneMore(worlds: seq<World>, acts: seq<Act>, i: nat, k: nat)
    requires |worlds| == |acts| + 1 && k < i < |acts| && !TakesHalf(worlds[i], acts[i])
    requires ReadAt(worlds, acts, i, k) && SameTop(worlds[i].v.asm, worlds[i + 1].v.asm)
    ensures ReadAt(worlds, acts, i + 1, k)
  {
  }

  /** What the output shows of the bytes of an input frame. */
  ghost predicate ShowsFrame(cfg: Config, raw: seq<byte>, payload: seq<byte>) {
    if cfg.Direct() then payload == raw else ShowsInput(cfg, raw, cfg.geo, Some(payload))
  }

  ghost predicate IsBlack(payload: seq<byte>, size: nat) {
    |payload| == size && forall m :: 0 <= m < size ==> payload[m] == [16, 128][m % 2]
  }

  /** Blue, for every two pixels. */
  ghost predicate IsBlue(payload: seq<byte>, size: nat) {
    |payload| == size && forall m :: 0 <= m < size ==> payload[m] == [41, 240, 41, 109][m % 4]
  }

  /** Step `j` ends a frame: a bottom half that arrives for the top half before it. */
  ghost predicate EndsFrame(worlds: seq<World>, acts: seq<Act>, j: nat)
    requires |worlds| == |acts| + 1 && j < |acts|
  {
    acts[j].Drive? && acts[j].op.Half? && Shape(worlds[j].v) && Completes(worlds[j].v, acts[j].op.i)
  }

  /** A step that hands a buffer back complete ends a frame, or sends the blue frame. */
  lemma CompleteAtFrameEnd(worlds: seq<World>, acts: seq<Act>, j: nat, x: nat)
    requires IsHistory(worlds, acts) && j < |acts| && CountersHold(worlds, j)
    requires |worlds[j].v.pool.log| <= x < |worlds[j + 1].v.pool.log| && worlds[j + 1].v.pool.log[x].state == Done
    ensures EndsFrame(worlds, acts, j) || acts[j] == Drive(NoSignal)
  {
    HistoryShows(worlds, acts, j);
    HistoryKeeps(worlds, acts, j);
    assert ActAt(worlds, acts, j);
    if !EndsFrame(worlds, acts, j) && acts[j] != Drive(NoSignal) {
      if acts[j].Drive? && acts[j].op.Half? { ArrivesIs(worlds[j].v, acts[j].op.i); }
      OnlyFailed(worlds[j], acts[j], worlds[j + 1]);
      AddedFailed(worlds[j].v.pool.log, worlds[j + 1].v.pool.log, x);
    }
  }

  lemma AddedFailed(log: seq<Completion>, log': seq<Completion>, x: nat)
    requires AddsFailed(log, log') && |log| <= x < |log'|
    ensures log'[x].state == Error
  {
    var made :| log' == log + made && AllFailed(made);
    assert log'[x] == made[x - |log|];
  }

  lemma OnlyFailed(w: World, act: Act, w': World)
    requires Happens(w, act) && w' == After(w, act) && Marked(w.v.zc, w.tops)
    requires act != Drive(NoSignal) && !(act.Drive? && act.op.Half? && EndsAFrame(w.v, act.op.i))
    ensures AddsFailed(w.v.pool.log, w'.v.pool.log)
  {
    if act.Drive? {
      OthersAddFailed(w.v, act.op, w.tops);
    } else {
      AddsNone(w.v.pool.log);
    }
  }

  /**
   * Every buffer handed back complete, other than a blue frame, is completed
   * at the end of a frame, and without HDCP it shows exactly the two halves:
   * quarters 0-1 as they were at one top half, then quarters 2-3 cut to the
   * frame as they were at the very next half handled, a bottom half of the
   * same geometry. With HDCP at either half it is black. No copy was too late.
   */
  lemma CompleteIsTwoHalves(worlds: seq<World>, acts: seq<Act>, j: nat, x: nat)
    returns (k: nat, first: seq<byte>, second: seq<byte>)
    requires IsHistory(worlds, acts) && j < |acts| && CountersHold(worlds, j) && acts[j] != Drive(NoSignal)
    requires |worlds[j].v.pool.log| <= x < |worlds[j + 1].v.pool.log| && worlds[j + 1].v.pool.log[x].state == Done
    ensures EndsFrame(worlds, acts, j)
    ensures k < j && ReadAt(worlds, acts, j, k) && worlds[k].v.cfg.geo == worlds[j].v.cfg.geo
    ensures IsFirstHalf(worlds[k].v, acts[k].op.i, first) && IsSecondHalf(worlds[j].v, acts[j].op.i, second)
    ensures var top, bottom, e := acts[k].op.i, acts[j].op.i, worlds[j + 1].v.pool.log[x];
            && !TooLate(worlds[k].v, top)
            && (if top.hdcp || bottom.hdcp then IsBlack(e.payload, worlds[j].v.cfg.OutSize())
                else !TooLate(worlds[j].v, bottom) && ShowsFrame(worlds[j].v.cfg, first + second, e.payload))
  {
    CompleteAtFrameEnd(worlds, acts, j, x);
    EndAt(worlds, acts, j, x);
    k := LastTopTraced(worlds, acts, j);
    FirstAt(worlds, acts, k, worlds[j].v.asm);
    first, second := TopBytes(worlds[k].v, acts[k].op.i), BottomBytes(worlds[j].v, acts[j].op.i);
  }

  /** What is completed at a frame end shows the top half on record and the second half. */
  lemma EndAt(worlds: seq<World>, acts: seq<Act>, j: nat, x: nat)
    requires IsHistory(worlds, acts) && j < |acts| && CountersHold(worlds, j) && EndsFrame(worlds, acts, j)
    requires |worlds[j].v.pool.log| <= x < |worlds[j + 1].v.pool.log| && worlds[j + 1].v.pool.log[x].state == Done
    ensures var v, i := worlds[j].v, acts[j].op.i;
            && v.asm.lastTop.Some? && v.asm.lastTop.value.geo == v.cfg.geo && LastPart(v) >= 0
            && IsSecondHalf(v, i, BottomBytes(v, i))
            && EndIs(v, i, v.asm.lastTop.value.bytes, BottomBytes(v, i), worlds[j + 1].v.pool.log[x].payload)
  {
    HistoryKeeps(worlds, acts, j);
    HistoryShows(worlds, acts, j);
    Performed(worlds, acts, j);
    EndOf(worlds[j], acts[j].op.i, worlds[j + 1].v, x);
  }

  /** What is known of the payload of a frame that ends complete. */
  ghost predicate EndIs(v: Video, i: HalfIn, first: seq<byte>, second: seq<byte>, payload: seq<byte>) {
    && !v.asm.late
    && (if v.asm.hdcp || i.hdcp then IsBlack(payload, v.cfg.OutSize())
        else !TooLate(v, i) && ShowsFrame(v.cfg, first + second, payload))
  }

  lemma EndOf(w: World, i: HalfIn, v': Video, x: nat)
    requires DriverInv(w) && Shows(w) && w.tops < TWO_TO_THE_31 && Completes(w.v, i) && HalfOk(w.v.cfg, i)
    requires v' == VideoHalf(w.v, i) && |w.v.pool.log| <= x < |v'.pool.log| && v'.pool.log[x].state == Done
    ensures var v := w.v;
            && v.asm.lastTop.Some? && v.asm.lastTop.value.geo == v.cfg.geo && LastPart(v) >= 0
            && IsSecondHalf(v, i, BottomBytes(v, i))
            && EndIs(v, i, v.asm.lastTop.value.bytes, BottomBytes(v, i), v'.pool.log[x].payload)
  {
    ArrivesIs(w.v, i);
    SecondHalfRead(w.v, i);
    EndShows(w.v, i, v', x, w.tops);
  }

  lemma FirstAt(worlds: seq<World>, acts: seq<Act>, k: nat, a: Assembly)
    requires IsHistory(worlds, acts) && k < |acts| && TopAt(worlds, acts, k, a)
    ensures IsFirstHalf(worlds[k].v, acts[k].op.i, TopBytes(worlds[k].v, acts[k].op.i))
  {
    HistoryKeeps(worlds, acts, k);
    Performed(worlds, acts, k);
    FirstHalfRead(worlds[k].v, acts[k].op.i);
  }

  /** With VideoScaler() as the scaler its pixels are those of the two halves, at their places. */
  lemma CompleteShowsPixels(worlds: seq<World>, acts: seq<Act>, j: nat, x: nat, special: Scaling)
    returns (k: nat, first: seq<byte>, second: seq<byte>)
    requires IsHistory(worlds, acts) && j < |acts| && CountersHold(worlds, j) && acts[j] != Drive(NoSignal)
    requires |worlds[j].v.pool.log| <= x < |worlds[j + 1].v.pool.log| && worlds[j + 1].v.pool.log[x].state == Done
    requires worlds[j].v.cfg.scale == WithSpecial(special)
    ensures k < j && ReadAt(worlds, acts, j, k)
    ensures IsFirstHalf(worlds[k].v, acts[k].op.i, first) && acts[j].Drive? && acts[j].op.Half?
    ensures Shape(worlds[j].v) && IsSecondHalf(worlds[j].v, acts[j].op.i, second)
    ensures !acts[k].op.i.hdcp && !acts[j].op.i.hdcp && !worlds[j].v.cfg.Direct() ==>
              ShowsPixels(worlds[j].v.cfg, first + second, worlds[j].v.cfg.geo, worlds[j + 1].v.pool.log[x].payload)
  {
    k, first, second := CompleteIsTwoHalves(worlds, acts, j, x);
    if !acts[k].op.i.hdcp && !acts[j].op.i.hdcp && !worlds[j].v.cfg.Direct() {
      PixelsShown(worlds[j].v.cfg, special, first + second, worlds[j].v.cfg.geo, worlds[j + 1].v.pool.log[x].payload);
    }
  }

  // ---- after a change of the input size ----

  /** ChangeVideoSize() accepts a size whose last quarter leaves the audio ring alone. */
  predicate Accepted(cfg: Config, g: Geometry) {
    Cut(FrameBytes(g.w, g.h))[3] + AUDIO_RING <= cfg.bufSize
  }

  /** Only an accepted change of the size changes the geometry and the programmed lengths. */
  lemma GeometryAfter(v: Video, op: Op)
    requires Shape(v) && Allowed(v, op)
    ensures var cfg := Do(v, op).cfg;
            if op.Resize? && Accepted(v.cfg, op.g)
            then cfg.geo == op.g && cfg.len == Cut(FrameBytes(op.g.w, op.g.h))
            else cfg.geo == v.cfg.geo && cfg.len == v.cfg.len
  {
    if op.Half? { HalfSizes(v, op.i); }
    if op.Resize? { CutOffsets(FrameBytes(op.g.w, op.g.h)); }
  }

  ghost predicate NoResize(acts: seq<Act>, r: nat, j: nat)
    requires j <= |acts|
  {
    forall m :: r < m < j ==> !(acts[m].Drive? && acts[m].op.Resize?)
  }

  lemma GeometryNext(w: World, act: Act, w': World)
    requires NextAct(w, act, w') && !(act.Drive? && act.op.Resize?)
    ensures w'.v.cfg.geo == w.v.cfg.geo && w'.v.cfg.len == w.v.cfg.len
  {
    if act.Drive? { GeometryAfter(w.v, act.op); }
  }

  lemma GeometryTaken(w: World, g: Geometry, wasRunning: bool, w': World)
    requires NextAct(w, Drive(Resize(g, wasRunning)), w')
    ensures if Accepted(w.v.cfg, g) then w'.v.cfg.geo == g && w'.v.cfg.len == Cut(FrameBytes(g.w, g.h))
            else w'.v.cfg.geo == w.v.cfg.geo && w'.v.cfg.len == w.v.cfg.len
  {
    GeometryAfter(w.v, Resize(g, wasRunning));
  }

  /** The geometry is that of the last change that was accepted. */
  lemma {:induction false} GeometryStays(worlds: seq<World>, acts: seq<Act>, r: nat, j: nat)
    requires IsHistory(worlds, acts) && r < j < |worlds| && NoResize(acts, r, j)
    requires acts[r].Drive? && acts[r].op.Resize?
    ensures var was, now, g := worlds[r].v.cfg, worlds[j].v.cfg, acts[r].op.g;
            if Accepted(was, g) then now.geo == g && now.len == Cut(FrameBytes(g.w, g.h))
            else now.geo == was.geo && now.len == was.len
    decreases j
  {
    ActInHistory(worlds, acts, j);
    if j == r + 1 {
      GeometryTaken(worlds[r], acts[r].op.g, acts[r].op.wasRunning, worlds[j]);
    } else {
      GeometryStays(worlds, acts, r, j - 1);
      GeometryNext(worlds[j - 1], acts[j - 1], worlds[j]);
    }
  }

  /**
   * After an accepted change of the input size and until the next one, every
   * frame handed out complete is one of the new size: both its halves were
   * read with that geometry, and the second one with its quarter lengths.
   */
  lemma ResizedFrames(worlds: seq<World>, acts: seq<Act>, r: nat, j: nat, x: nat)
    returns (k: nat, first: seq<byte>, second: seq<byte>)
    requires IsHistory(worlds, acts) && r < j < |acts| && CountersHold(worlds, j) && acts[j] != Drive(NoSignal)
    requires acts[r].Drive? && acts[r].op.Resize? && Accepted(worlds[r].v.cfg, acts[r].op.g) && NoResize(acts, r, j)
    requires |worlds[j].v.pool.log| <= x < |worlds[j + 1].v.pool.log| && worlds[j + 1].v.pool.log[x].state == Done
    ensures k < j && ReadAt(worlds, acts, j, k) && worlds[k].v.cfg.geo == worlds[j].v.cfg.geo == acts[r].op.g
    ensures IsFirstHalf(worlds[k].v, acts[k].op.i, first)
    ensures acts[j].Drive? && acts[j].op.Half? && Shape(worlds[j].v)
    ensures IsSecondHalf(worlds[j].v, acts[j].op.i, second)
    ensures !acts[k].op.i.hdcp && !acts[j].op.i.hdcp ==>
              ShowsFrame(worlds[j].v.cfg, first + second, worlds[j + 1].v.pool.log[x].payload)
  {
    GeometryStays(worlds, acts, r, j);
    k, first, second := CompleteIsTwoHalves(worlds, acts, j, x);
  }

  /** A frame sent without signal is blue for every consumer. */
  lemma NoSignalIsBlue(worlds: seq<World>, acts: seq<Act>, j: nat, x: nat)
    requires IsHistory(worlds, acts) && j < |acts| && acts[j] == Drive(NoSignal)
    requires |worlds[j].v.pool.log| <= x < |worlds[j + 1].v.pool.log| && worlds[j + 1].v.pool.log[x].state == Done
    ensures IsBlue(worlds[j + 1].v.pool.log[x].payload, worlds[j].v.cfg.OutSize())
  {
    HistoryKeeps(worlds, acts, j);
    assert ActAt(worlds, acts, j);
    NewIsBlue(worlds[j].v, worlds[j + 1].v.pool.log, x);
  }

  lemma NewIsBlue(v: Video, log': seq<Completion>, x: nat)
    requires Whole(v) && Fits(v) && log' == NoVideo(v).pool.log
    requires |v.pool.log| <= x < |log'| && log'[x].state == Done
    ensures log'[x].payload == Blue(v.cfg.OutSize())
  {
    var n, size := v.asm.seqno, v.cfg.OutSize();
    var p := HoldBuffers(v.pool, n, size, None);
    HoldBuffersFails(v.pool, n, size, None);
    FailsAdds(v.pool, p);
    BlueFrame(v, p);
    var p1 := BlitAll(p, p.frameBufs, 0, Blue(size));
    FinishMoves(p1, Done, n, size);
    if x < |p.log| {
      AddedFailed(v.pool.log, p.log, x);
    } else {
      NewCompletion(p.log, log', MadeAll(p1, p1.frameBufs, Done, n, size), x, n, Blue(size));
    }
  }

  lemma EndShows(was: Video, i: HalfIn, v': Video, x: nat, tops: nat)
    requires Ends(was, i) && Marked(was.zc, tops) && tops < TWO_TO_THE_31
    requires v' == BottomFrame(was, BottomStart(was, i), i)
    requires |was.pool.log| <= x < |v'.pool.log| && v'.pool.log[x].state == Done
    ensures was.asm.lastTop.Some? && LastPart(was) >= 0 && !was.asm.late
    ensures var e, t := v'.pool.log[x], was.asm.lastTop.value;
            if was.asm.hdcp || i.hdcp then e.payload == Black(was.cfg.OutSize())
            else !TooLate(was, i) && ShowsFrame(was.cfg, t.bytes + BottomBytes(was, i), e.payload)
  {
    ReadsAreFull(was, i);
    EndPayload(was, i, v', x, tops);
    DoneIsRendered(was, i, v', x, tops);
    if !was.asm.hdcp && !i.hdcp && !was.cfg.Direct() {
      RenderShows(was.cfg, was.asm.lastTop.value.bytes + BottomBytes(was, i), was.cfg.geo);
    }
  }

  lemma EndPayload(was: Video, i: HalfIn, v': Video, x: nat, tops: nat)
    requires Ends(was, i) && Marked(was.zc, tops) && tops < TWO_TO_THE_31
    requires v' == BottomFrame(was, BottomStart(was, i), i)
    requires |was.pool.log| <= x < |v'.pool.log| && v'.pool.log[x].state == Done
    ensures v'.pool.log[x].payload == Content(was, BottomStart(was, i), i)
    ensures v'.pool.log[x] in EndingFreed(was, i) + EndingCopies(was, i)
  {
    BottomOneFrame(was, i, tops);
    BottomLog(was, i);
    NewCompletion(was.pool.log, v'.pool.log, EndingFreed(was, i) + EndingCopies(was, i), x, was.asm.seqno,
                  Content(was, BottomStart(was, i), i));
  }

  lemma NewCompletion(log: seq<Completion>, log': seq<Completion>, made: seq<Completion>, x: nat, n: nat,
                      content: seq<byte>)
    requires log' == log + made && |log| <= x < |log'| && log'[x].state == Done && OneFrame(made, n, content)
    ensures log'[x] in made && log'[x].payload == content && log'[x].seqno == n
  {
    assert log'[x] == made[x - |log|];
  }

  /** A frame completed DONE was filled without failing. */
  lemma DoneIsRendered(was: Video, i: HalfIn, v': Video, x: nat, tops: nat)
    requires Ends(was, i) && Marked(was.zc, tops) && tops < TWO_TO_THE_31 && LastPart(was) >= 0
    requires v' == BottomFrame(was, BottomStart(was, i), i)
    requires |was.pool.log| <= x < |v'.pool.log| && v'.pool.log[x].state == Done
    ensures !was.asm.late && (was.asm.hdcp || i.hdcp || !TooLate(was, i))
    ensures !was.asm.hdcp && !i.hdcp && !was.cfg.Direct() ==>
              Render(was.cfg, was.asm.lastTop.value.bytes + BottomBytes(was, i), was.asm.frame, was.asm.frameLen)
              == Some(Content(was, BottomStart(was, i), i))
  {
    EndPayload(was, i, v', x, tops);
    DoneWasDone(was, i, v'.pool.log[x], tops);
    EndsGood(was, i);
    if !was.asm.hdcp && !i.hdcp && !was.cfg.Direct() {
      StagedRaw(was, i);
    }
  }

  lemma DoneWasDone(was: Video, i: HalfIn, e: Completion, tops: nat)
    requires Ends(was, i) && Marked(was.zc, tops) && tops < TWO_TO_THE_31
    requires e in EndingFreed(was, i) + EndingCopies(was, i) && e.state == Done
    ensures EndingState(was, i) == Done
    ensures !was.cfg.Direct() ==> was.pool.frameBufs != []
  {
    var z, p := EndingZc(was, i), EndingPool(was, i);
    EndingPoolIs(was, i);
    MadeAllAt(p, p.frameBufs, EndingState(was, i), was.asm.seqno, was.cfg.OutSize());
    if e in EndingFreed(was, i) {
      var freed := Freed(z, z.release);
      MadeFreedAt(Fill(was, BottomStart(was, i), i).pool, z, freed, was.cfg.OutSize());
      var m :| 0 <= m < |freed| && EndingFreed(was, i)[m] == e;
      FreedEntry(was, i, tops, freed[m]);
      DoneIsFree(was.zc, InTime(was.asm, i), EndingState(was, i), was.asm.seqno, tops);
      CardSize(was);
      assert was.cfg.Direct();
    }
  }
}
