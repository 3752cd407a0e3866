/**
 * Frame assembly and delivery: the consumers' queues, the buffer each consumer
 * holds for the frame in progress, the zero-copy buffers and the frame
 * counters, and what every operation under the capture lock does to them. The
 * methods of `Capture.Channel` are proved to compute these functions.
 */
module Frames {
  import opened Basics
  import opened ZeroCopy
  import opened Quarters
  import opened CardAddr
  import opened LineDouble

  /** A consumer: one open file handle with its own queue. */
  type Cid = nat

  datatype Consumer = Consumer(
    streaming: bool,
    queue: seq<Id>,
    inflight: int,         // buffers taken from the queue and not completed
    decimate: nat,         // deliver every Nth frame
    nextSeq: nat,          // first frame this consumer still wants
    held: Option<Id>,      // the buffer receiving the current frame
    delivered: nat,
    missed: nat,
    contig: bool)          // its buffers are allocated for zero-copy

  const NO_CONSUMER := Consumer(false, [], 0, 1, 0, None, 0, 0, false)

  /** A buffer handed back to its app. The payload is that of a complete frame. */
  datatype Completion = Completion(buf: Id, owner: Cid, state: VbState, seqno: nat, payload: seq<byte>)

  datatype Pool = Pool(
    owner: map<Id, Cid>,
    mapped: set<Id>,             // buffers the driver can address
    dma: map<Id, nat>,           // bus addresses, for zero-copy buffers
    mem: map<Id, seq<byte>>,
    ctx: map<Cid, Consumer>,
    consumers: seq<Cid>,
    frameBufs: seq<Id>,
    app: set<Id>,                // buffers the apps have
    queued: multiset<Id>,        // how often each buffer was queued so far
    log: seq<Completion>)
  {
    function Of(c: Cid): Consumer {
      if c in ctx then ctx[c] else NO_CONSUMER
    }

    function Owner(b: Id): Cid {
      if b in owner then owner[b] else 0
    }

    function Mem(b: Id): seq<byte> {
      if b in mem then mem[b] else []
    }

    function Dma(b: Id): nat {
      if b in dma then dma[b] else 0
    }

    function PutCtx(c: Cid, r: Consumer): Pool {
      this.(ctx := ctx[c := r])
    }
  }

  const NO_POOL := Pool(map[], {}, map[], map[], map[], [], [], {}, multiset{}, [])

  datatype Geometry = Geometry(w: nat, h: nat, il: bool)

  /** What was read at the last handled half if that was a top half: its frame and quarters 0-1. */
  datatype TopRead = TopRead(geo: Geometry, bytes: seq<byte>, from: Option<Id>)

  datatype Assembly = Assembly(
    topDone: bool,
    frame: Geometry,          // at the top half
    frameLen: seq<nat>,
    hdcp: bool,
    late: bool,
    staging: seq<byte>,
    seqno: nat,               // next frame number
    dropped: nat,
    stable: nat,
    zcCtx: Option<Cid>,
    lastTs: nat,
    gapPrev: nat,
    users: nat,               // consumers that keep the engine running
    // history, which the driver does not store
    lastTop: Option<TopRead>,
    finished: nat,            // calls of hws_finish_frame
    droppedAtStart: nat,      // `dropped` and the length of the log when the engine last started
    runStart: nat,
    shown: map<nat, seq<byte>>)   // the payload each frame number of this engine run was delivered with

  datatype Config = Config(
    geo: Geometry,            // the live input
    len: seq<nat>,            // programmed quarter lengths
    outW: nat, outH: nat,     // the output size all consumers share
    running: bool,            // capture is enabled
    pitchIsYuyv: bool,        // false for a card that delivers YV12
    bufSize: nat,             // bytes of each DMA buffer
    table: seq<Entry>,        // address translation windows
    scale: (seq<byte>, nat, nat, nat, nat) -> seq<byte>)
  {
    function OutSize(): nat {
      outW * outH * 2
    }

    /** The frame can go to a consumer's buffer as it arrives. */
    predicate Direct() {
      !geo.il && geo.w == outW && geo.h == outH
    }
  }

  datatype Video = Video(zc: Zc, pool: Pool, asm: Assembly, cfg: Config)

  const MAX_W: nat := 4096
  const MAX_H: nat := 2160
  const STAGING_BYTES: nat := MAX_W * MAX_H * 2

  // ---- bytes ----

  function Blit(m: seq<byte>, off: nat, s: seq<byte>): seq<byte> {
    if off + |s| <= |m| then m[..off] + s + m[off + |s|..] else m
  }

  function Take(s: seq<byte>, n: nat): seq<byte> {
    if n <= |s| then s[..n] else s
  }

  function Drop(s: seq<byte>, n: nat): seq<byte> {
    if n <= |s| then s[n..] else []
  }

  /** The same bytes written at the same place of every buffer of `bs`. */
  function BlitAll(p: Pool, bs: seq<Id>, off: nat, s: seq<byte>): Pool {
    p.(mem := map b | b in p.mem :: if b in bs then Blit(p.mem[b], off, s) else p.mem[b])
  }

  const BLUE_QUAD: seq<byte> := [41, 240, 41, 109]

  /** SetNoVideoMem(): the same four bytes for every pixel pair (output widths are even). */
  function Blue(size: nat): seq<byte> {
    seq(size, i requires 0 <= i => BLUE_QUAD[i % 4])
  }

  /** hws_render_staged(): the output frame made from the bytes of an input frame, or None when it fails. */
  function Render(cfg: Config, raw: seq<byte>, g: Geometry, len: seq<nat>): Option<seq<byte>> {
    if !g.il then Some(cfg.scale(raw, g.w, g.h, cfg.outW, cfg.outH))
    else if g.w == 0 || |len| != 4 || !LensFit(g.w * (2 * g.h), len) || !RowsJoin(len, g.w * 2) then None
    else
      var full := Doubled(raw, g.w * 2);
      if g.w == cfg.outW && 2 * g.h == cfg.outH then Some(full)
      else Some(cfg.scale(full, g.w, 2 * g.h, cfg.outW, cfg.outH))
  }

  // ---- completing buffers ----

  function Complete(p: Pool, b: Id, state: VbState, seqno: nat, size: nat): Pool {
    var c := p.Owner(b);
    var r := p.Of(c);
    var payload := if state.Done? then Take(p.Mem(b), size) else [];
    p.PutCtx(c, r.(inflight := r.inflight - 1, delivered := if state.Done? then r.delivered + 1 else r.delivered))
     .(app := p.app + {b}, log := p.log + [Completion(b, c, state, seqno, payload)])
  }

  function CompleteErrors(p: Pool, s: seq<Id>): Pool {
    if s == [] then p else Complete(CompleteErrors(p, s[..|s| - 1]), s[|s| - 1], Error, 0, 0)
  }

  /** The buffers hws_zc_release() takes off the list, each as it was retired. */
  function CompleteFreed(p: Pool, z: Zc, s: seq<Id>, size: nat): Pool {
    if s == [] then p else
    var b := s[|s| - 1];
    Complete(CompleteFreed(p, z, s[..|s| - 1], size), b, z.Rec(b).state, z.Rec(b).seqno, size)
  }

  /** hws_finish_frame() for the first buffer of the list. */
  function FinishOne(p: Pool, state: VbState, seqno: nat, size: nat): Pool
    requires p.frameBufs != []
  {
    var b := p.frameBufs[0];
    var c := p.Owner(b);
    Complete(p.(frameBufs := p.frameBufs[1..]).PutCtx(c, p.Of(c).(held := None)), b, state, seqno, size)
  }

  function Finish(p: Pool, state: VbState, seqno: nat, size: nat): Pool
    decreases |p.frameBufs|
  {
    if p.frameBufs == [] then p else Finish(FinishOne(p, state, seqno, size), state, seqno, size)
  }

  function Without(s: seq<Id>, b: Id): seq<Id> {
    if s == [] then [] else
    Without(s[..|s| - 1], b) + (if s[|s| - 1] == b then [] else [s[|s| - 1]])
  }

  /** A held buffer goes back with an error. */
  function FailHeld(p: Pool, c: Cid): Pool {
    match p.Of(c).held
    case None => p
    case Some(b) =>
      Complete(p.(frameBufs := Without(p.frameBufs, b)).PutCtx(c, p.Of(c).(held := None)), b, Error, 0, 0)
  }

  // ---- hws_hold_buffers ----

  datatype Hold = Hold(pool: Pool, small: seq<Id>)

  /** The consumer takes part in frame `seqno`. */
  predicate Wants(r: Consumer, c: Cid, seqno: nat, skip: Option<Cid>) {
    && r.streaming && r.held.None? && skip != Some(c)
    && !(seqno < r.nextSeq && r.nextSeq - seqno <= r.decimate)
  }

  function HoldOne(h: Hold, c: Cid, seqno: nat, size: nat, skip: Option<Cid>): Hold {
    var p := h.pool;
    var r := p.Of(c);
    if !Wants(r, c, seqno, skip) then h
    else if r.queue == [] then h.(pool := p.PutCtx(c, r.(missed := r.missed + 1)))
    else
      var b := r.queue[0];
      var r1 := r.(queue := r.queue[1..], inflight := r.inflight + 1, nextSeq := seqno + r.decimate);
      if b !in p.mapped || |p.Mem(b)| < size then Hold(p.PutCtx(c, r1), h.small + [b])
      else h.(pool := p.PutCtx(c, r1.(held := Some(b))).(frameBufs := p.frameBufs + [b]))
  }

  function HoldAll(p: Pool, cs: seq<Cid>, seqno: nat, size: nat, skip: Option<Cid>): Hold {
    if cs == [] then Hold(p, []) else
    HoldOne(HoldAll(p, cs[..|cs| - 1], seqno, size, skip), cs[|cs| - 1], seqno, size, skip)
  }

  function HoldBuffers(p: Pool, seqno: nat, size: nat, skip: Option<Cid>): Pool {
    var h := HoldAll(p, p.consumers, seqno, size, skip);
    CompleteErrors(h.pool, h.small)
  }

  // ---- hws_zc_pick ----

  /** Zero-copy can serve the consumer. */
  predicate Eligible(r: Consumer) {
    r.streaming && r.decimate == 1 && r.contig
  }

  /** The consumer zero-copy would serve: the first one that can take it, or the one it serves now. */
  function FindZc(p: Pool, cs: seq<Cid>, now: Option<Cid>): Option<Cid> {
    if cs == [] then None else
    var found := FindZc(p, cs[..|cs| - 1], now);
    var c := cs[|cs| - 1];
    if Eligible(p.Of(c)) && (found.None? || now == Some(c)) then Some(c) else found
  }

  predicate ZcBufferOk(v: Video, b: Id) {
    && |v.cfg.table| == 4 && |v.cfg.len| == 4
    && BufferOk(v.cfg.table, v.cfg.len, v.pool.Dma(b), b in v.pool.mapped, |v.pool.Mem(b)|)
  }

  /** Zero-copy can take a buffer for the next frame at all. */
  predicate ZcReady(v: Video, wanted: bool, hdcp: bool) {
    wanted && v.asm.stable >= 2 && v.cfg.Direct() && v.cfg.pitchIsYuyv && !hdcp
  }

  function PickFrom(v: Video, wanted: bool, hdcp: bool): Option<Cid> {
    if !ZcReady(v, wanted, hdcp) then None else
    var found := FindZc(v.pool, v.pool.consumers, v.asm.zcCtx);
    if found.None? then None else
    var q := v.pool.Of(found.value).queue;
    if q != [] && ZcBufferOk(v, q[0]) then found else None
  }

  function Picked(v: Video, from: Option<Cid>): Option<Id> {
    if from.None? || v.pool.Of(from.value).queue == [] then None else Some(v.pool.Of(from.value).queue[0])
  }

  function TakeQueued(p: Pool, c: Cid): Pool {
    var r := p.Of(c);
    if r.queue == [] then p else p.PutCtx(c, r.(queue := r.queue[1..], inflight := r.inflight + 1))
  }

  // ---- hws_video_half ----

  /**
   * What a half meets: the interrupt's time, how long after it the registers
   * were written and the copy ended, the module parameter, the HDCP bit when
   * it is read, whether the card refreshed the half, and the two DMA buffers.
   */
  datatype HalfIn = HalfIn(isTop: bool, ts: nat, writeDelay: nat, copyDelay: nat, wanted: bool, hdcpAtPick: bool,
                           hdcp: bool, stale: bool, src0: seq<byte>, src1: seq<byte>)

  predicate Acts(v: Video) {
    0 < v.cfg.geo.w <= MAX_W && 0 < v.cfg.geo.h <= MAX_H && v.cfg.running
  }

  function Gap(a: Assembly, ts: nat): nat {
    if a.lastTs != 0 && ts > a.lastTs then ts - a.lastTs else 0
  }

  function InTime(a: Assembly, i: HalfIn): bool {
    var gap := Gap(a, i.ts);
    i.ts != 0 && i.writeDelay < (if gap < a.gapPrev then gap else a.gapPrev) / 2
  }

  function Timed(a: Assembly, ts: nat): Assembly {
    a.(gapPrev := Gap(a, ts), lastTs := ts)
  }

  /** The half's first and second quarter: from the zero-copy buffer of this frame, or from the DMA buffers. */
  function Source(v: Video, i: HalfIn, q: nat): seq<byte>
    requires q < 2 && |v.cfg.len| == 4
  {
    var at := if i.isTop then q else 2 + q;
    match v.zc.cur
    case Some(b) => Drop(v.pool.Mem(b), QuarterOff(v.cfg.len, at))
    case None => if q == 0 then i.src0 else i.src1
  }

  function CopyLate(v: Video, i: HalfIn): bool {
    var gapPrev := Gap(v.asm, i.ts);
    v.zc.cur.None? && gapPrev != 0 && i.copyDelay > gapPrev
  }

  function Lose(a: Assembly): Assembly {
    a.(topDone := false, dropped := a.dropped + 1, seqno := a.seqno + 1)
  }

  function LoseIf(a: Assembly): Assembly {
    if a.topDone then Lose(a) else a
  }

  /** hws_zc_frame_end() with what it hands back. */
  function EndFrame(v: Video, state: VbState, seqno: nat): Video {
    var z := Advance(v.zc, state, seqno);
    v.(zc := Release(z), pool := CompleteFreed(v.pool, z, Freed(z, z.release), v.cfg.OutSize()))
  }

  /** The zero-copy part every top half begins with. */
  function TopStart(v: Video, i: HalfIn): Video {
    var from := PickFrom(v, i.wanted, i.hdcpAtPick);
    var picked := Picked(v, from);
    v.(zc := TopHalf(v.zc, picked, InTime(v.asm, i)),
       pool := if from.Some? then TakeQueued(v.pool, from.value) else v.pool,
       asm := Timed(v.asm, i.ts).(zcCtx := if from.Some? then from else v.asm.zcCtx, lastTop := None))
  }

  function BottomStart(v: Video, i: HalfIn): Video {
    v.(zc := BottomHalf(v.zc, InTime(v.asm, i)), asm := Timed(v.asm, i.ts).(lastTop := None))
  }

  /** The half is not where the driver reads it: the card did not write it there. */
  function Stale(v: Video, i: HalfIn): bool {
    i.stale || (v.zc.cur.Some? && !v.zc.Rec(v.zc.cur.value).pointed.At(i.isTop))
  }

  function TopBytes(v: Video, i: HalfIn): seq<byte>
    requires |v.cfg.len| == 4
  {
    Take(Source(v, i, 0), v.cfg.len[0]) + Take(Source(v, i, 1), v.cfg.len[1])
  }

  /** The copy a top half makes: straight into the held buffers, or into the staging frame. */
  function CopyTop(v: Video, p: Pool, a: Assembly, bytes: seq<byte>): Video {
    if a.hdcp then v.(pool := p, asm := a)
    else if v.cfg.Direct() then v.(pool := BlitAll(p, p.frameBufs, 0, bytes), asm := a)
    else if p.frameBufs != [] then v.(pool := p, asm := a.(staging := Blit(a.staging, 0, bytes)))
    else v.(pool := p, asm := a)
  }

  /** A top half that was refreshed; `was` is the state the half met. */
  function TopFrame(was: Video, v: Video, i: HalfIn): Video
    requires |was.cfg.len| == 4
  {
    var a := LoseIf(v.asm);
    var zowner := if was.zc.cur.Some? then Some(v.pool.Owner(was.zc.cur.value)) else None;
    var p0 := if zowner.Some? then FailHeld(v.pool, zowner.value) else v.pool;
    var p := HoldBuffers(p0, a.seqno, v.cfg.OutSize(), zowner);
    var bytes := TopBytes(was, i);
    CopyTop(v, p,
            a.(topDone := true, frame := v.cfg.geo, frameLen := v.cfg.len, hdcp := i.hdcp, late := CopyLate(was, i),
               lastTop := Some(TopRead(v.cfg.geo, bytes, was.zc.cur))),
            bytes)
  }

  /** The bytes of the frame in quarters 2-3, and where they start. */
  function BottomOff(a: Assembly): nat
    requires |a.frameLen| == 4
  {
    a.frameLen[0] + a.frameLen[1]
  }

  function LastPart(v: Video): int
    requires |v.asm.frameLen| == 4
  {
    FrameBytes(v.cfg.geo.w, v.cfg.geo.h) - BottomOff(v.asm) - v.asm.frameLen[2]
  }

  function BottomBytes(was: Video, i: HalfIn): seq<byte>
    requires |was.cfg.len| == 4 && |was.asm.frameLen| == 4 && LastPart(was) >= 0
  {
    Take(Source(was, i, 0), was.asm.frameLen[2]) + Take(Source(was, i, 1), LastPart(was))
  }

  /** What the bottom half writes, and the state the frame then has. */
  datatype Filled = Filled(pool: Pool, staging: seq<byte>, state: VbState, copied: bool)

  function BlankAll(was: Video, p: Pool, size: nat): Pool {
    var p1 := if was.zc.cur.Some? then BlitAll(p, [was.zc.cur.value], 0, Black(size)) else p;
    BlitAll(p1, p1.frameBufs, 0, Black(size))
  }

  function Fill(was: Video, v: Video, i: HalfIn): Filled
    requires |was.cfg.len| == 4 && |was.asm.frameLen| == 4 && v.cfg == was.cfg
  {
    var p, a, size := v.pool, was.asm, v.cfg.OutSize();
    if LastPart(was) < 0 then Filled(p, a.staging, Error, false)
    else if a.hdcp || i.hdcp then Filled(BlankAll(was, p, size), a.staging, Done, false)
    else if v.cfg.Direct() then
      Filled(BlitAll(p, p.frameBufs, BottomOff(a), BottomBytes(was, i)), a.staging, Done, true)
    else if p.frameBufs == [] then Filled(p, a.staging, Done, false)
    else
      var staging := Blit(a.staging, BottomOff(a), BottomBytes(was, i));
      match Render(v.cfg, Take(staging, FrameBytes(a.frame.w, a.frame.h)), a.frame, a.frameLen)
      case None => Filled(p, staging, Error, true)
      case Some(out) => Filled(BlitAll(p, p.frameBufs, 0, out), staging, Done, true)
  }

  /** The frame fails when a copy ended so late that the card may have overwritten the half. */
  function FrameState(was: Video, f: Filled, i: HalfIn): VbState {
    if f.state.Done? && (was.asm.late || (f.copied && CopyLate(was, i))) then Error else f.state
  }

  /** The payload frame `seqno` is delivered with, if anything is. */
  function Shown(a: Assembly, content: seq<byte>): map<nat, seq<byte>> {
    a.shown[a.seqno := content]
  }

  /** What the consumers of a complete frame receive. */
  function Content(was: Video, v: Video, i: HalfIn): seq<byte>
    requires |was.cfg.len| == 4 && |was.asm.frameLen| == 4 && v.cfg == was.cfg
  {
    var a, size := was.asm, v.cfg.OutSize();
    if a.hdcp || i.hdcp then Black(size)
    else if LastPart(was) < 0 || a.lastTop.None? then []
    else
      var raw := a.lastTop.value.bytes + BottomBytes(was, i);
      if v.cfg.Direct() then raw
      else match Render(v.cfg, raw, a.frame, a.frameLen)
           case None => []
           case Some(out) => out
  }

  function BottomFrame(was: Video, v: Video, i: HalfIn): Video
    requires |was.cfg.len| == 4 && |was.asm.frameLen| == 4 && v.cfg == was.cfg
  {
    var f := Fill(was, v, i);
    var state := FrameState(was, f, i);
    var a := v.asm.(topDone := false, staging := f.staging,
                    stable := if state.Done? then v.asm.stable + 1 else v.asm.stable);
    var v1 := EndFrame(v.(pool := f.pool, asm := a), state, a.seqno);
    v1.(pool := Finish(v1.pool, state, a.seqno, v.cfg.OutSize()),
        asm := a.(seqno := a.seqno + 1, finished := a.finished + 1, shown := Shown(a, Content(was, v, i))))
  }

  /** A bottom half without its top half, or after the input changed. */
  predicate NoTop(v: Video) {
    !v.asm.topDone || v.asm.frame != v.cfg.geo
  }

  function VideoHalf(v: Video, i: HalfIn): Video
    requires |v.cfg.len| == 4 && |v.asm.frameLen| == 4
  {
    if !Acts(v) then v
    else if i.isTop then
      var v1 := TopStart(v, i);
      if Stale(v1, i) then v1.(asm := LoseIf(v1.asm))
      else TopFrame(v, v1, i)
    else
      var v1 := BottomStart(v, i);
      if Stale(v1, i) then EndFrame(v1.(asm := LoseIf(v1.asm)), Error, 0)
      else if NoTop(v) then EndFrame(v1.(asm := Lose(v1.asm)), Error, 0)
      else BottomFrame(v, v1, i)
  }

  // ---- the other operations under the capture lock ----

  /** hws_zc_stop() with what it hands back. */
  function StopZcAll(v: Video, cardStopped: bool): Video {
    var z := StopMarks(v.zc, cardStopped);
    v.(zc := Release(z), pool := CompleteFreed(v.pool, z, Freed(z, z.release), v.cfg.OutSize()),
       asm := v.asm.(zcCtx := None, stable := 0))
  }

  /** One buffer from each consumer, filled blue and completed. */
  function SendBlue(p: Pool, seqno: nat, size: nat): Pool {
    var q := HoldBuffers(p, seqno, size, None);
    Finish(BlitAll(q, q.frameBufs, 0, Blue(size)), Done, seqno, size)
  }

  /** hws_deliver_no_video(). */
  function NoVideo(v: Video): Video {
    var a := v.asm.(topDone := false, lastTop := None);
    var size := v.cfg.OutSize();
    v.(pool := SendBlue(v.pool, a.seqno, size),
       asm := a.(seqno := a.seqno + 1, finished := a.finished + 1, shown := Shown(a, Blue(size))))
  }

  /** ChangeVideoSize(); a running engine is stopped first. */
  function SizeChange(v: Video, g: Geometry, wasRunning: bool): Video {
    var v1 := StopZcAll(v, wasRunning);
    var len := Cut(FrameBytes(g.w, g.h));
    if len[0] > v.cfg.bufSize - AUDIO_RING || len[3] > v.cfg.bufSize - AUDIO_RING then v1
    else v1.(cfg := v.cfg.(geo := g, len := len))
  }

  /** An app queues a buffer it has. */
  function QueueBuf(v: Video, b: Id): Video {
    var p := v.pool;
    var c := p.Owner(b);
    var r := p.Of(c);
    v.(pool := p.PutCtx(c, r.(queue := r.queue + [b])).(app := p.app - {b}, queued := p.queued + multiset{b}))
  }

  /** The engine starts: frame numbers begin again, and zero-copy is taken back while the card is stopped. */
  function EngineStart(v: Video): Video {
    var v1 := StopZcAll(v.(asm := v.asm.(seqno := 0, topDone := false)), true);
    v1.(asm := v1.asm.(lastTs := 0, gapPrev := 0, finished := 0, droppedAtStart := v1.asm.dropped,
                       runStart := |v1.pool.log|, shown := map[]))
  }

  /** One streamer more. */
  function JoinStream(v: Video, c: Cid): Video {
    v.(pool := v.pool.PutCtx(c, v.pool.Of(c).(nextSeq := 0, streaming := true)),
       asm := v.asm.(users := v.asm.users + 1))
  }

  /** hws_start_streaming_multi(); the first streamer starts the engine. */
  function StreamOn(v: Video, c: Cid): Video {
    if v.asm.users > 0 then JoinStream(v, c) else EngineStart(JoinStream(v, c))
  }

  /** A queued buffer returned by STREAMOFF: it was never in flight. */
  function ReturnOne(p: Pool, c: Cid): Pool
    requires p.Of(c).queue != []
  {
    var r := p.Of(c);
    var b := r.queue[0];
    p.PutCtx(c, r.(queue := r.queue[1..])).(app := p.app + {b},
        log := p.log + [Completion(b, p.Owner(b), Error, 0, [])])
  }

  function ReturnQueue(p: Pool, c: Cid): Pool
    decreases |p.Of(c).queue|
  {
    if p.Of(c).queue == [] then p else ReturnQueue(ReturnOne(p, c), c)
  }

  /** STREAMOFF, first part: nothing more is taken from the queue. */
  function StreamOffQueue(v: Video, c: Cid): Video {
    v.(pool := ReturnQueue(v.pool.PutCtx(c, v.pool.Of(c).(streaming := false)), c))
  }

  /** STREAMOFF, under the capture lock: the held buffer goes back, and zero-copy stops if it serves this consumer. */
  function StreamOffHeld(v: Video, c: Cid): Video {
    var v1 := v.(pool := FailHeld(v.pool, c));
    if v.asm.zcCtx == Some(c) then StopZcAll(v1, false) else v1
  }
}
