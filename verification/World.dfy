/**
 * The whole system: the card, the driver's capture state and the memory they
 * share. Every step of it is a step of the protocol, or leaves the protocol's
 * part alone.
 */
module World {
  import opened Basics
  import opened ZeroCopy
  import opened Quarters
  import opened CardAddr
  import opened Protocol
  import opened FrameHistory
  import opened Frames
  import opened Delivery
  import opened Driver
  import opened StreamOff
  import opened Bounds
  import opened Marks
  import opened CardRoom

  /** `tops` counts the top halves the driver acted on since its last bottom half. */
  datatype World = World(v: Video, card: Card, pend: seq<Event>, hist: Hist, tops: nat)
  {
    function Sys(): Sys {
      Protocol.Sys(v.zc, card, pend, hist)
    }
  }

  datatype Act =
    | CardDoes(step: Step)
    | CardWrites(q: nat, k: nat, bytes: seq<byte>)    // the run in progress, `k` bytes past the start of quarter `q`
    | Skip                                      // an event taken while capture is off or has no signal
    | Drive(op: Op)

  /**
   * What can happen. A run writes from the start of one of its two quarters
   * on, and as far as register 9 lets it: the largest quarter and one block.
   */
  ghost predicate CanHappen(w: World, act: Act) {
    match act
    case CardDoes(step) => (step.StartRun? || step.EndRun? || step.Halt? || step.Resume?) && Possible(w.Sys(), step)
    case CardWrites(q, k, bytes) =>
      && Shape(w.v) && w.card.run.Some? && w.card.run.value.dest.Some?
      && (if w.card.run.value.isTop then q < 2 else 2 <= q < 4)
      && k + |bytes| <= Max(w.v.cfg.len) + DMA_BLOCK
    case Skip => w.pend != []
    case Drive(op) =>
      && Shape(w.v) && Allowed(w.v, op)
      && (op.Half? ==> w.pend != [] && w.pend[0].isTop == op.i.isTop)
  }

  /** The protocol's step in a half event. */
  function HalfStep(v: Video, i: HalfIn): Step
    requires Shape(v)
  {
    if !Acts(v) then Discard
    else if i.isTop then HandleTop(Picked(v, PickFrom(v, i.wanted, i.hdcpAtPick)), InTime(v.asm, i))
    else HandleBottom(InTime(v.asm, i), Ending(v, i).0, Ending(v, i).1)
  }

  /** The protocol's step in an operation, if it has one. */
  function OpStep(v: Video, op: Op): Option<Step>
    requires Shape(v)
  {
    match op
    case Half(i) => Some(HalfStep(v, i))
    case Resize(_, wasRunning) => Some(StopZc(wasRunning))
    case StreamStart(_) => if v.asm.users == 0 then Some(StopZc(true)) else None
    case StreamStopHeld(c) => if v.asm.zcCtx == Some(c) then Some(StopZc(false)) else None
    case Quiesced => Some(StopZc(true))
    case _ => None
  }

  function StepOf(w: World, act: Act): Option<Step>
    requires CanHappen(w, act)
  {
    match act
    case CardDoes(step) => Some(step)
    case CardWrites(_, _, _) => None
    case Skip => Some(Discard)
    case Drive(op) => OpStep(w.v, op)
  }

  /** Every step of the system that is one of the protocol is a possible one. */
  lemma StepPossible(w: World, act: Act)
    requires Whole(w.v) && CanHappen(w, act) && StepOf(w, act).Some?
    ensures Possible(w.Sys(), StepOf(w, act).value)
  {
    if act.Drive? && act.op.Half? && Acts(w.v) && act.op.i.isTop {
      TopStartWhole(w.v, act.op.i);
    }
  }

  function Written(p: Pool, b: Id, off: nat, bytes: seq<byte>): Pool {
    p.(mem := p.mem[b := Blit(p.Mem(b), off, bytes)])
  }

  function VideoAfter(w: World, act: Act): Video
    requires CanHappen(w, act)
  {
    match act
    case CardWrites(q, k, bytes) =>
      w.v.(pool := Written(w.v.pool, w.card.run.value.dest.value, QuarterOff(w.v.cfg.len, q) + k, bytes))
    case Drive(op) => Do(w.v, op)
    case _ => w.v
  }

  function After(w: World, act: Act): World
    requires Whole(w.v) && CanHappen(w, act)
  {
    var step := StepOf(w, act);
    var s := if step.None? then w.Sys() else (StepPossible(w, act); Apply(w.Sys(), step.value));
    World(VideoAfter(w, act), s.card, s.pend, s.hist, if step.Some? then TopsAfter(step.value, w.tops) else w.tops)
  }

  /** The protocol's assumptions hold of the step, and lengths change only while the card makes no run. */
  ghost predicate Happens(w: World, act: Act) {
    && Whole(w.v) && CanHappen(w, act)
    && (act.Drive? && act.op.Resize? ==> w.card.run.None?)
    && (StepOf(w, act).Some? ==> (StepPossible(w, act); Assumed(w.Sys(), StepOf(w, act).value)))
  }

  /** What a step does to the zero-copy state is what the protocol says. */
  lemma Projects(w: World, act: Act)
    requires Whole(w.v) && CanHappen(w, act)
    ensures StepOf(w, act).None? ==> After(w, act).Sys() == w.Sys()
    ensures StepOf(w, act).Some? ==>
              Possible(w.Sys(), StepOf(w, act).value) && After(w, act).Sys() == Apply(w.Sys(), StepOf(w, act).value)
  {
    if StepOf(w, act).Some? { StepPossible(w, act); }
    if act.Drive? {
      if act.op.Half? {
        HalfProjects(w.v, act.op.i);
      } else {
        SameZc(w.v, act.op);
        OpProjects(w.v, act.op);
      }
    }
  }

  lemma OpProjects(v: Video, op: Op)
    requires Shape(v) && Allowed(v, op) && !op.Half?
    ensures OpStep(v, op).None? ==> Do(v, op).zc == v.zc
    ensures OpStep(v, op).Some? ==>
              OpStep(v, op).value.StopZc? && Do(v, op).zc == Stop(v.zc, OpStep(v, op).value.cardStopped)
  {
    SameZc(v, op);
  }

  // ---- what every step keeps ----

  /** Every buffer the card is pointed at or writes can take the longest run of any quarter. */
  ghost predicate CardOk(w: World) {
    forall b: Id :: w.v.zc.Pointed(b) || w.Sys().Writing(b) ==> ZcBufferOk(w.v, b)
  }

  ghost predicate DriverInv(w: World) {
    Whole(w.v) && Fits(w.v) && CardOk(w)
  }

  ghost predicate WorldInv(w: World) {
    Inv(w.Sys()) && AllTraced(w.Sys()) && DriverInv(w)
  }

  /** What the card writes stays in such a buffer. */
  lemma WriteInside(v: Video, b: Id, q: nat, k: nat, n: nat)
    requires |v.cfg.len| == 4 && ZcBufferOk(v, b) && q < 4 && k + n <= Max(v.cfg.len) + DMA_BLOCK
    ensures QuarterOff(v.cfg.len, q) + k + n <= |v.pool.Mem(b)|
  {
    RunStaysInBuffer(v.cfg.table, v.cfg.len, v.pool.Dma(b), b in v.pool.mapped, |v.pool.Mem(b)|, q,
                     Max(v.cfg.len) + DMA_BLOCK - 1);
  }

  lemma WrittenSound(z: Zc, p: Pool, b: Id, off: nat, bytes: seq<byte>)
    requires Sound(z, p, multiset{})
    ensures Sound(z, Written(p, b, off, bytes), multiset{})
  {
    assert forall c: Cid :: Written(p, b, off, bytes).Of(c) == p.Of(c);
    SameQueues(z, p, Written(p, b, off, bytes), multiset{});
    SameHeld(p, Written(p, b, off, bytes));
  }

  lemma WrittenSizes(p: Pool, b: Id, off: nat, bytes: seq<byte>)
    requires off + |bytes| <= |p.Mem(b)|
    ensures SameSizes(p, Written(p, b, off, bytes))
  {
  }

  /** The card's writes move no buffer and change no size. */
  lemma WritesKeep(v: Video, v': Video, b: Id, off: nat, bytes: seq<byte>)
    requires Whole(v) && Fits(v) && off + |bytes| <= |v.pool.Mem(b)|
    requires v' == v.(pool := Written(v.pool, b, off, bytes))
    ensures Whole(v') && Fits(v')
  {
    WrittenSound(v.zc, v.pool, b, off, bytes);
    WrittenSizes(v.pool, b, off, bytes);
    SameFits(v, v');
  }

  lemma WriteFits(w: World, q: nat, k: nat, bytes: seq<byte>)
    requires CardOk(w) && CanHappen(w, CardWrites(q, k, bytes))
    ensures QuarterOff(w.v.cfg.len, q) + k + |bytes| <= |w.v.pool.Mem(w.card.run.value.dest.value)|
  {
    assert w.Sys().Writing(w.card.run.value.dest.value);
    WriteInside(w.v, w.card.run.value.dest.value, q, k, |bytes|);
  }

  lemma VideoAfterKeeps(w: World, act: Act)
    requires DriverInv(w) && CanHappen(w, act)
    ensures Whole(VideoAfter(w, act)) && Fits(VideoAfter(w, act))
  {
    match act
    case CardWrites(q, k, bytes) => WriteKeeps(w, q, k, bytes);
    case Drive(op) => OpKeeps(w.v, op);
    case _ =>
  }

  lemma WriteKeeps(w: World, q: nat, k: nat, bytes: seq<byte>)
    requires DriverInv(w) && CanHappen(w, CardWrites(q, k, bytes))
    ensures Whole(VideoAfter(w, CardWrites(q, k, bytes))) && Fits(VideoAfter(w, CardWrites(q, k, bytes)))
  {
    WriteFits(w, q, k, bytes);
    var b, off := w.card.run.value.dest.value, QuarterOff(w.v.cfg.len, q) + k;
    WritesKeep(w.v, VideoAfter(w, CardWrites(q, k, bytes)), b, off, bytes);
  }

  lemma OpKeeps(v: Video, op: Op)
    requires Whole(v) && Fits(v) && Allowed(v, op)
    ensures Whole(Do(v, op)) && Fits(Do(v, op))
  {
    KeepsWhole(v, op);
    KeepsFits(v, op);
  }

  lemma WriteKeepsOk(w: World, q: nat, k: nat, bytes: seq<byte>, b: Id)
    requires CardOk(w) && CanHappen(w, CardWrites(q, k, bytes)) && ZcBufferOk(w.v, b)
    ensures ZcBufferOk(VideoAfter(w, CardWrites(q, k, bytes)), b)
  {
    var v' := VideoAfter(w, CardWrites(q, k, bytes));
    WriteFits(w, q, k, bytes);
    WrittenSizes(w.v.pool, w.card.run.value.dest.value, QuarterOff(w.v.cfg.len, q) + k, bytes);
    assert |v'.pool.Mem(b)| == |w.v.pool.Mem(b)|;
    SameBufferOk(w.v, v', b);
  }

  lemma OpKeepsOk(w: World, op: Op, b: Id)
    requires Inv(w.Sys()) && CardOk(w) && Happens(w, Drive(op))
    requires Do(w.v, op).zc.Pointed(b) || w.Sys().Writing(b)
    ensures ZcBufferOk(Do(w.v, op), b)
  {
    if Do(w.v, op).zc.Pointed(b) {
      PointedOk(w.v, op, b);
    } else {
      assert w.Sys().zc.Held(b);
      StaysOk(w.v, op, b);
    }
  }

  lemma SameCard(w: World, act: Act)
    requires Whole(w.v) && CanHappen(w, act) && !act.CardDoes?
    ensures After(w, act).card == w.card && After(w, act).v == VideoAfter(w, act)
  {
    if StepOf(w, act).Some? { StepPossible(w, act); }
  }

  lemma KeepsCardOk(w: World, act: Act, w': World)
    requires Inv(w.Sys()) && CardOk(w) && Happens(w, act) && w' == After(w, act)
    ensures CardOk(w')
  {
    forall b: Id | w'.v.zc.Pointed(b) || w'.Sys().Writing(b) ensures ZcBufferOk(w'.v, b) {
      match act
      case CardDoes(step) =>
      case CardWrites(q, k, bytes) =>
        SameCard(w, act);
        WriteKeepsOk(w, q, k, bytes, b);
      case Skip => SameCard(w, act);
      case Drive(op) =>
        SameCard(w, act);
        OpKeepsOk(w, op, b);
    }
  }

  // ---- over whole runs ----

  ghost predicate Initial(w: World) {
    && w.Sys() == INIT && w.tops == 0
    && w.v.pool == NO_POOL
    && !w.v.asm.topDone && w.v.asm.frameLen == [0, 0, 0, 0] && |w.v.asm.staging| == STAGING_BYTES
    && w.v.asm.seqno == w.v.asm.dropped == w.v.asm.finished == w.v.asm.droppedAtStart == w.v.asm.runStart == 0
    && w.v.asm.shown == map[] && w.v.asm.lastTop.None?
    && w.v.cfg.geo == Geometry(1920, 1080, false) && LensMatch(w.v.cfg) && ScaleFits(w.v.cfg)
  }

  ghost predicate ActAt(worlds: seq<World>, acts: seq<Act>, i: nat)
    requires |worlds| == |acts| + 1 && i < |acts|
  {
    Happens(worlds[i], acts[i]) && worlds[i + 1] == After(worlds[i], acts[i])
  }

  ghost predicate IsHistory(worlds: seq<World>, acts: seq<Act>) {
    && |worlds| == |acts| + 1
    && Initial(worlds[0])
    && (forall i :: 0 <= i < |acts| ==> ActAt(worlds, acts, i))
  }

  /** The step of the protocol, if any, that comes with a step of the system. */
  ghost function StepsOf(w: World, act: Act): seq<Step> {
    if !CanHappen(w, act) || StepOf(w, act).None? then [] else [StepOf(w, act).value]
  }

  /** The protocol's steps in the first `i` steps of a history. */
  ghost function Steps(worlds: seq<World>, acts: seq<Act>, i: nat): seq<Step>
    requires |worlds| == |acts| + 1 && i <= |acts|
  {
    if i == 0 then [] else Steps(worlds, acts, i - 1) + StepsOf(worlds[i - 1], acts[i - 1])
  }

  /**
   * The system refines the protocol: the protocol's part of any history is a
   * run of the step system, so its guarantees hold of the whole system.
   */
  lemma {:induction false} HistoryIsRun(worlds: seq<World>, acts: seq<Act>, i: nat) returns (states: seq<Sys>)
    requires IsHistory(worlds, acts) && i < |worlds|
    ensures IsRun(states, Steps(worlds, acts, i)) && states[|Steps(worlds, acts, i)|] == worlds[i].Sys()
  {
    if i == 0 {
      states := [INIT];
    } else {
      states := HistoryIsRun(worlds, acts, i - 1);
      ActInHistory(worlds, acts, i);
      states := RunStep(states, Steps(worlds, acts, i - 1), worlds[i - 1], acts[i - 1], worlds[i]);
    }
  }

  ghost predicate NextAct(w: World, act: Act, w': World) {
    Happens(w, act) && w' == After(w, act)
  }

  lemma ActInHistory(worlds: seq<World>, acts: seq<Act>, i: nat)
    requires IsHistory(worlds, acts) && 0 < i < |worlds|
    ensures NextAct(worlds[i - 1], acts[i - 1], worlds[i])
  {
    assert ActAt(worlds, acts, i - 1);
  }

  lemma RunStep(states: seq<Sys>, steps: seq<Step>, w: World, act: Act, w': World) returns (states': seq<Sys>)
    requires IsRun(states, steps) && states[|steps|] == w.Sys() && Happens(w, act) && w' == After(w, act)
    ensures var steps' := steps + StepsOf(w, act);
            IsRun(states', steps') && states'[|steps'|] == w'.Sys()
  {
    var step := StepOf(w, act);
    Projects(w, act);
    states' := states;
    if step.Some? {
      Extend(states, steps, step.value);
      states' := states + [Apply(w.Sys(), step.value)];
    } else {
      assert steps + [] == steps;
    }
  }

  lemma {:induction false} HistoryInv(worlds: seq<World>, acts: seq<Act>, i: nat)
    requires IsHistory(worlds, acts) && i < |worlds|
    ensures Inv(worlds[i].Sys()) && AllTraced(worlds[i].Sys())
  {
    var states := HistoryIsRun(worlds, acts, i);
    RunKeeps(states, Steps(worlds, acts, i), |Steps(worlds, acts, i)|);
  }

  lemma InvInHistory(worlds: seq<World>, acts: seq<Act>, i: nat)
    requires IsHistory(worlds, acts) && i < |worlds|
    ensures Inv(worlds[i].Sys())
  {
    HistoryInv(worlds, acts, i);
  }

  lemma InitialDriver(w: World)
    requires Initial(w)
    ensures DriverInv(w)
  {
    NothingIsWhole(w.v);
  }

  lemma DriverStep(w: World, act: Act, w': World)
    requires Inv(w.Sys()) && DriverInv(w) && Happens(w, act) && w' == After(w, act)
    ensures DriverInv(w')
  {
    VideoAfterKeeps(w, act);
    KeepsCardOk(w, act, w');
  }

  lemma DriverAtStart(worlds: seq<World>, acts: seq<Act>)
    requires IsHistory(worlds, acts)
    ensures DriverInv(worlds[0])
  {
    InitialDriver(worlds[0]);
  }

  lemma {:induction false} HistoryDriver(worlds: seq<World>, acts: seq<Act>, i: nat)
    requires IsHistory(worlds, acts) && i < |worlds|
    ensures DriverInv(worlds[i])
  {
    if i == 0 {
      DriverAtStart(worlds, acts);
    } else {
      HistoryDriver(worlds, acts, i - 1);
      DriverNext(worlds, acts, i);
    }
  }

  lemma DriverNext(worlds: seq<World>, acts: seq<Act>, i: nat)
    requires IsHistory(worlds, acts) && 0 < i < |worlds| && DriverInv(worlds[i - 1])
    ensures DriverInv(worlds[i])
  {
    InvInHistory(worlds, acts, i - 1);
    assert ActAt(worlds, acts, i - 1);
    DriverStep(worlds[i - 1], acts[i - 1], worlds[i]);
  }

  lemma HistoryKeeps(worlds: seq<World>, acts: seq<Act>, i: nat)
    requires IsHistory(worlds, acts) && i < |worlds|
    ensures WorldInv(worlds[i])
  {
    HistoryDriver(worlds, acts, i);
    HistoryInv(worlds, acts, i);
  }

  /**
   * In every reachable state each byte that a run can write reaches, through
   * the register of its quarter and the card's windows, its place in the buffer
   * the run was pointed at, and that is inside the buffer.
   */
  lemma CardWritesLand(worlds: seq<World>, acts: seq<Act>, i: nat, q: nat, k: nat)
    requires IsHistory(worlds, acts) && i < |worlds| && CanHappen(worlds[i], CardWrites(q, k, [0]))
    ensures Lands(worlds[i].v, worlds[i].card.run.value.dest.value, q, k)
  {
    HistoryDriver(worlds, acts, i);
    WriteLands(worlds[i], q, k);
  }

  /** The byte `k` past the start of quarter `q` reaches its place in buffer `b`, and is inside it. */
  ghost predicate Lands(v: Video, b: Id, q: nat, k: nat) {
    |v.cfg.len| == 4 && |v.cfg.table| == 4 && q < 4 &&
    var at, size := QuarterOff(v.cfg.len, q), |v.pool.Mem(b)|;
    && Reg(v.pool.Dma(b) + at, q) + k < TWO_TO_THE_32
    && CardBus(v.cfg.table, Reg(v.pool.Dma(b) + at, q) + k) == Some(v.pool.Dma(b) + at + k)
    && at + k < size
  }

  lemma WriteLands(w: World, q: nat, k: nat)
    requires CardOk(w) && CanHappen(w, CardWrites(q, k, [0]))
    ensures Lands(w.v, w.card.run.value.dest.value, q, k)
  {
    var v, b := w.v, w.card.run.value.dest.value;
    assert w.Sys().Writing(b);
    RunStaysInBuffer(v.cfg.table, v.cfg.len, v.pool.Dma(b), b in v.pool.mapped, |v.pool.Mem(b)|, q, k);
  }

  /**
   * In every reachable state the card neither points at nor writes a buffer
   * that an app has, that waits in a queue, or that halves are being copied to.
   */
  lemma CardLeavesOthersAlone(worlds: seq<World>, acts: seq<Act>, i: nat, b: Id)
    requires IsHistory(worlds, acts) && i < |worlds|
    requires var p := worlds[i].v.pool;
             b in p.app || b in p.frameBufs || b in p.Of(p.Owner(b)).queue
    ensures !worlds[i].v.zc.Pointed(b) && !worlds[i].Sys().Writing(b)
  {
    HistoryKeeps(worlds, acts, i);
    var w := worlds[i];
    assert Places(w.v.zc, w.v.pool, multiset{}, b) <= 1;
    HeldOccurs(w.v.zc, b);
    UnheldIsSafe(w.Sys(), b);
  }

  /** Every buffer is in exactly one place, and the counts are right, in every reachable state. */
  lemma OwnershipIsPartition(worlds: seq<World>, acts: seq<Act>, i: nat, b: Id)
    requires IsHistory(worlds, acts) && i < |worlds| && b in worlds[i].v.pool.owner
    ensures var z, p := worlds[i].v.zc, worlds[i].v.pool;
            && Occurs(z, b) + multiset(p.frameBufs)[b] + multiset(p.Of(p.Owner(b)).queue)[b]
               + (if b in p.app then 1 else 0) == 1
            && (b in p.frameBufs <==> p.Of(p.Owner(b)).held == Some(b))
            && p.Of(p.Owner(b)).inflight == |InFlight(z, p, multiset{}, p.Owner(b))|
            && p.queued[b] == Completions(p.log, b) + (if b in p.app then 0 else 1)
            && (z.Pointed(b) ==> z.Held(b))
  {
    HistoryKeeps(worlds, acts, i);
    var z, p := worlds[i].v.zc, worlds[i].v.pool;
    assert Places(z, p, multiset{}, b) == 1;
  }
}
