/**
 * The card and the driver's zero-copy state as one step system. Each step is
 * one section of the driver under its capture lock, or one action of the card.
 *
 * The card runs quarter pairs 0 (top) and 1 (bottom) in turn. It takes a
 * pair's address at the start of that pair's run and raises a half-done event
 * at its end. Runs are numbered in the order they start. Events wait in
 * `pend` until the driver handles them, and may be lost or discarded.
 */
module Protocol {
  import opened Basics
  import opened EventCounter
  import opened ZeroCopy

  /** A run in progress: the pair, the buffer it writes (None: the DMA buffers) and its number. */
  datatype Run = Run(isTop: bool, dest: Option<Id>, n: nat)

  /** A raised half-done event: the pair and the number of the run that ended. */
  datatype Event = Event(isTop: bool, n: nat)

  /** `serial` is the number of the last run started, `last` the last one of each pair. */
  datatype Card = Card(run: Option<Run>, nextTop: bool, stopped: bool, serial: nat, last: Two<nat>)

  /**
   * What happened so far, which neither side stores: the runs that took each
   * buffer since it was picked, the runs whose event the driver never handled,
   * and the run of the last event it did handle.
   */
  datatype Hist = Hist(runs: map<Id, Two<seq<nat>>>, gone: set<nat>, handled: nat)

  datatype Sys = Sys(zc: Zc, card: Card, pend: seq<Event>, hist: Hist)
  {
    function Runs(b: Id): Two<seq<nat>> {
      if b in hist.runs then hist.runs[b] else Two([], [])
    }

    /** An event of the pair is raised and not yet handled. */
    predicate Waiting(isTop: bool) {
      exists e :: e in pend && e.isTop == isTop
    }

    predicate Running(isTop: bool) {
      card.run.Some? && card.run.value.isTop == isTop
    }

    /** The card writes `b` now. */
    predicate Writing(b: Id) {
      card.run.Some? && card.run.value.dest == Some(b)
    }
  }

  datatype Step =
    | StartRun
    | EndRun(lost: bool)           // lost: the event never reaches the driver
    | Halt                         // the engine stops; a run in progress raises no event
    | Resume
    | Discard                      // an event the driver takes but does not act on
    | HandleTop(picked: Option<Id>, inTime: bool)
    | HandleBottom(inTime: bool, state: VbState, seqno: nat)
    | StopZc(cardStopped: bool)

  // ---- which steps can happen ----

  /**
   * Assumption (a): a register write judged in time precedes the next run of
   * its pair, so the event handled is the one of the pair's last run.
   */
  predicate InTimeHolds(s: Sys, isTop: bool, inTime: bool)
    requires s.pend != []
  {
    inTime ==> s.card.last.At(isTop) == s.pend[0].n
  }

  /**
   * Assumption (b): registers rewritten during a run of their pair leave no
   * raised event of that pair unhandled in `left`.
   */
  predicate NoBacklog(s: Sys, isTop: bool, rewrites: bool, left: seq<Event>) {
    rewrites && s.Running(isTop) ==> forall e :: e in left ==> e.isTop != isTop
  }

  predicate CanPick(s: Sys, picked: Option<Id>) {
    picked.Some? ==> !s.zc.Held(picked.value)
  }

  /** What the card and the driver could do without the assumptions. */
  predicate Possible(s: Sys, step: Step) {
    match step
    case StartRun => s.card.run.None? && !s.card.stopped
    case EndRun(_) => s.card.run.Some?
    case Halt => true
    case Resume => s.card.stopped && s.zc.prog == Two(None, None)
    case Discard => s.pend != []
    case HandleTop(picked, _) => s.pend != [] && s.pend[0].isTop && CanPick(s, picked)
    case HandleBottom(_, _, _) => s.pend != [] && !s.pend[0].isTop
    case StopZc(_) => true
  }

  predicate Assumed(s: Sys, step: Step)
    requires Possible(s, step)
  {
    match step
    case HandleTop(picked, inTime) =>
      && InTimeHolds(s, true, inTime)
      && NoBacklog(s, true, Rewrites(s.zc, true, picked), s.pend[1..])
    case HandleBottom(inTime, _, _) =>
      && InTimeHolds(s, false, inTime)
      && NoBacklog(s, false, Rewrites(s.zc, false, s.zc.next), s.pend[1..])
    case StopZc(cardStopped) =>
      // assumption (c): a stopped card has no run in progress
      && (cardStopped ==> s.card.run.None?)
      && NoBacklog(s, true, s.zc.prog.top.Some?, s.pend)
      && NoBacklog(s, false, s.zc.prog.bot.Some?, s.pend)
    case _ => true
  }

  predicate Enabled(s: Sys, step: Step) {
    Possible(s, step) && Assumed(s, step)
  }

  // ---- what they do ----

  function Start(s: Sys): Sys {
    var n := s.card.serial + 1;
    var isTop := s.card.nextTop;
    var dest := s.zc.prog.At(isTop);
    var runs := if dest.None? then s.hist.runs else
                  var r := s.Runs(dest.value);
                  s.hist.runs[dest.value := r.With(isTop, r.At(isTop) + [n])];
    s.(card := s.card.(run := Some(Run(isTop, dest, n)), nextTop := !isTop, serial := n,
                       last := s.card.last.With(isTop, n)),
       hist := s.hist.(runs := runs))
  }

  function End(s: Sys, lost: bool): Sys
    requires s.card.run.Some?
  {
    var r := s.card.run.value;
    var s1 := s.(card := s.card.(run := None));
    if lost then s1.(hist := s.hist.(gone := s.hist.gone + {r.n}))
    else s1.(pend := s.pend + [Event(r.isTop, r.n)])
  }

  function StopCard(s: Sys): Sys {
    var gone := if s.card.run.Some? then s.hist.gone + {s.card.run.value.n} else s.hist.gone;
    s.(card := s.card.(run := None, stopped := true), hist := s.hist.(gone := gone))
  }

  /** The driver has taken the first event; a buffer it picks starts with no runs. */
  function Take(s: Sys, picked: Option<Id>): Sys
    requires s.pend != []
  {
    var runs := if picked.None? then s.hist.runs else s.hist.runs[picked.value := Two([], [])];
    s.(pend := s.pend[1..], hist := s.hist.(handled := s.pend[0].n, runs := runs))
  }

  function Apply(s: Sys, step: Step): Sys
    requires Possible(s, step)
  {
    match step
    case StartRun => Start(s)
    case EndRun(lost) => End(s, lost)
    case Halt => StopCard(s)
    case Resume => s.(card := s.card.(stopped := false, nextTop := true))
    case Discard => s.(pend := s.pend[1..], hist := s.hist.(gone := s.hist.gone + {s.pend[0].n}))
    case HandleTop(picked, inTime) => Take(s, picked).(zc := TopHalf(s.zc, picked, inTime))
    case HandleBottom(inTime, state, seqno) =>
      Take(s, None).(zc := FrameEnd(BottomHalf(s.zc, inTime), state, seqno))
    case StopZc(cardStopped) => s.(zc := Stop(s.zc, cardStopped))
  }

  const INIT := Sys(IDLE, Card(None, true, true, 0, Two(0, 0)), [], Hist(map[], {}, 0))

  // ---- what every step keeps ----

  function Occurs(z: Zc, b: Id): nat {
    (if z.cur == Some(b) then 1 else 0) + (if z.next == Some(b) then 1 else 0) + multiset(z.release)[b]
  }

  /** A buffer is held in one place only, and the card only ever points at held buffers. */
  ghost predicate Owned(z: Zc) {
    && (forall b: Id :: Occurs(z, b) <= 1)
    && (z.prog.top.Some? ==> z.Held(z.prog.top.value))
    && (z.prog.bot.Some? ==> z.Held(z.prog.bot.value))
    && (z.next.Some? ==> z.prog.top == z.next && z.prog.bot != z.next)
  }

  ghost predicate EventsOrdered(pend: seq<Event>, low: nat, card: Card) {
    && (forall i :: 0 <= i < |pend| ==> low < pend[i].n <= card.last.At(pend[i].isTop))
    && (forall i, j :: 0 <= i < j < |pend| ==> pend[i].n < pend[j].n)
  }

  ghost predicate Ordered(s: Sys) {
    var c := s.card;
    && EventsOrdered(s.pend, s.hist.handled, c)
    && s.hist.handled <= c.serial
    && c.last.top <= c.serial && c.last.bot <= c.serial
    && (c.serial == c.last.top || c.serial == c.last.bot)
    && (c.last.top == c.last.bot ==> c.serial == 0)
    && (!c.nextTop ==> c.serial == c.last.top && c.serial > 0)
    && (c.serial > 0 && c.serial == c.last.bot ==> c.nextTop)
    && (c.stopped ==> c.run.None?)
    && (c.run.Some? ==>
          var r := c.run.value;
          && r.n == c.serial == c.last.At(r.isTop) && r.n > 0
          && c.nextTop == !r.isTop
          && s.hist.handled < r.n
          && (forall e :: e in s.pend ==> e.n < r.n)
          && r.n !in s.hist.gone)
    && (forall x :: x in s.hist.gone ==> x <= c.serial)
    && (forall e :: e in s.pend ==> e.n !in s.hist.gone)
  }

  /** The card writes only held buffers, and a late move leaves a mark the card has not passed. */
  ghost predicate Guarded(s: Sys) {
    s.card.run.Some? && s.card.run.value.dest.Some? ==>
      var r := s.card.run.value;
      var b := r.dest.value;
      && s.zc.Held(b)
      && (s.zc.prog.At(r.isTop) == Some(b) ||
          (!s.Waiting(r.isTop) && s.zc.Rec(b).freeAfter.At(r.isTop) == Next(s.zc.ev.At(r.isTop))))
  }

  ghost predicate Inv(s: Sys) {
    Owned(s.zc) && Ordered(s) && Guarded(s)
  }

  lemma HeldOccurs(z: Zc, b: Id)
    ensures z.Held(b) <==> Occurs(z, b) > 0
  {
  }

  lemma ReleaseOwned(z: Zc)
    requires Owned(z)
    ensures Owned(Release(z))
    ensures forall b: Id :: Release(z).Held(b) <==> z.Held(b) && (b in z.release ==> !z.Free(b))
  {
    forall b: Id ensures Occurs(Release(z), b) <= Occurs(z, b)
                  && (Release(z).Held(b) <==> z.Held(b) && (b in z.release ==> !z.Free(b)))
    {
      KeptPartition(z, z.release);
      KeptMembers(z, z.release, b);
      HeldOccurs(z, b);
    }
  }

  lemma KeepsOwned(s: Sys, step: Step)
    requires Owned(s.zc) && Enabled(s, step)
    ensures Owned(Apply(s, step).zc)
  {
    match step
    case HandleTop(picked, inTime) =>
      TopOwned(s.zc, picked, inTime);
    case HandleBottom(inTime, state, seqno) =>
      BottomOwned(s.zc, inTime, state, seqno);
      ReleaseOwned(Advance(BottomHalf(s.zc, inTime), state, seqno));
    case StopZc(cardStopped) =>
      StopOwned(s.zc, cardStopped);
      ReleaseOwned(StopMarks(s.zc, cardStopped));
    case _ =>
  }

  lemma RetireOccurs(z: Zc, b: Option<Id>, state: VbState, x: Id)
    ensures RetireIf(z, b, state) == z.(release := RetireIf(z, b, state).release, buf := RetireIf(z, b, state).buf)
    ensures multiset(RetireIf(z, b, state).release)[x] ==
            multiset(z.release)[x] + (if b == Some(x) then 1 else 0)
    ensures x in RetireIf(z, b, state).release <==> x in z.release || b == Some(x)
  {
  }

  lemma ProgramFrame(z: Zc, isTop: bool, buf: Option<Id>, inTime: bool)
    ensures Program(z, isTop, buf, inTime) ==
            z.(prog := z.prog.With(isTop, buf), buf := Program(z, isTop, buf, inTime).buf)
  {
  }

  /** A top half moves no buffer but the one it takes. */
  lemma TopOccurs(z: Zc, picked: Option<Id>, inTime: bool, b: Id)
    ensures Occurs(TopHalf(z, picked, inTime), b) == Occurs(z, b) + (if picked == Some(b) then 1 else 0)
    ensures TopHalf(z, picked, inTime).Held(b) <==> z.Held(b) || picked == Some(b)
  {
    var z1 := Count(z, true);
    ProgramFrame(TakeNext(z1, picked), true, picked, inTime);
    RetireOccurs(z1, z1.next, Error, b);
  }

  /** Where the frame in progress and the next one go. */
  lemma TopNext(z: Zc, picked: Option<Id>, inTime: bool)
    ensures TopHalf(z, picked, inTime).cur == z.cur && TopHalf(z, picked, inTime).next == picked
  {
    ProgramFrame(TakeNext(Count(z, true), picked), true, picked, inTime);
  }

  lemma TopOwned(z: Zc, picked: Option<Id>, inTime: bool)
    requires Owned(z) && (picked.Some? ==> !z.Held(picked.value))
    ensures Owned(TopHalf(z, picked, inTime))
    ensures TopHalf(z, picked, inTime).prog == z.prog.(top := picked)
    ensures TopHalf(z, picked, inTime).cur == z.cur && TopHalf(z, picked, inTime).next == picked
    ensures forall b: Id :: TopHalf(z, picked, inTime).Held(b) <==> z.Held(b) || picked == Some(b)
  {
    ProgramFrame(TakeNext(Count(z, true), picked), true, picked, inTime);
    forall b: Id
      ensures TopHalf(z, picked, inTime).Held(b) <==> z.Held(b) || picked == Some(b)
      ensures Occurs(TopHalf(z, picked, inTime), b) == Occurs(z, b) + (if picked == Some(b) then 1 else 0)
    {
      TopOccurs(z, picked, inTime, b);
    }
  }

  lemma BottomOccurs(z: Zc, inTime: bool, state: VbState, seqno: nat, b: Id)
    ensures Occurs(Advance(BottomHalf(z, inTime), state, seqno), b) == Occurs(z, b)
    ensures Advance(BottomHalf(z, inTime), state, seqno).Held(b) <==> z.Held(b)
  {
    ProgramFrame(Count(z, false), false, z.next, inTime);
  }

  lemma BottomOwned(z: Zc, inTime: bool, state: VbState, seqno: nat)
    requires Owned(z)
    ensures Owned(Advance(BottomHalf(z, inTime), state, seqno))
    ensures forall b: Id :: Advance(BottomHalf(z, inTime), state, seqno).Held(b) <==> z.Held(b)
  {
    ProgramFrame(Count(z, false), false, z.next, inTime);
    var z1 := BottomHalf(z, inTime);
    forall b: Id
      ensures Advance(z1, state, seqno).Held(b) <==> z.Held(b)
      ensures Occurs(Advance(z1, state, seqno), b) == Occurs(z, b)
    {
      BottomOccurs(z, inTime, state, seqno, b);
    }
  }

  lemma StopOccurs(z: Zc, cardStopped: bool, b: Id)
    ensures Occurs(StopMarks(z, cardStopped), b) == Occurs(z, b)
    ensures StopMarks(z, cardStopped).Held(b) <==> z.Held(b)
    ensures StopMarks(z, cardStopped).prog == Two(None, None)
    ensures StopMarks(z, cardStopped).cur == StopMarks(z, cardStopped).next == None
  {
    var z1 := Unpoint(z);
    ProgramFrame(z, true, None, false);
    ProgramFrame(Program(z, true, None, false), false, None, false);
    var z2 := RetireIf(RetireIf(z1, z1.cur, Error), z1.next, Error).(cur := None, next := None);
    MarkNowRecs(z2, z2.release, 0);
    RetireOccurs(z1, z1.cur, Error, b);
    RetireOccurs(RetireIf(z1, z1.cur, Error), z1.next, Error, b);
  }

  lemma StopOwned(z: Zc, cardStopped: bool)
    requires Owned(z)
    ensures Owned(StopMarks(z, cardStopped))
    ensures StopMarks(z, cardStopped).prog == Two(None, None)
    ensures StopMarks(z, cardStopped).cur == StopMarks(z, cardStopped).next == None
    ensures forall b: Id :: StopMarks(z, cardStopped).Held(b) <==> z.Held(b)
  {
    StopOccurs(z, cardStopped, 0);
    forall b: Id
      ensures StopMarks(z, cardStopped).Held(b) <==> z.Held(b)
      ensures Occurs(StopMarks(z, cardStopped), b) == Occurs(z, b)
    {
      StopOccurs(z, cardStopped, b);
    }
  }

  lemma StartOrdered(s: Sys)
    requires Ordered(s) && Enabled(s, StartRun)
    ensures Ordered(Apply(s, StartRun))
  {
  }

  lemma EndOrdered(s: Sys, lost: bool)
    requires Ordered(s) && Enabled(s, EndRun(lost))
    ensures Ordered(Apply(s, EndRun(lost)))
  {
    var s' := Apply(s, EndRun(lost));
    forall i | 0 <= i < |s'.pend|
      ensures s.hist.handled < s'.pend[i].n <= s'.card.last.At(s'.pend[i].isTop)
    {
      if i < |s.pend| { assert s'.pend[i] == s.pend[i]; }
    }
    assert forall e :: e in s.pend ==> e.n < s.card.run.value.n;
  }

  lemma HaltOrdered(s: Sys)
    requires Ordered(s)
    ensures Ordered(StopCard(s))
  {
    assert forall e :: e in s.pend && s.card.run.Some? ==> e.n < s.card.run.value.n;
  }

  /** Taking the first event, whether the driver acts on it or not. */
  lemma TakeOrdered(s: Sys, gone: set<nat>, handled: nat)
    requires Ordered(s) && s.pend != []
    requires gone == s.hist.gone || gone == s.hist.gone + {s.pend[0].n}
    requires handled == s.hist.handled || handled == s.pend[0].n
    ensures Ordered(s.(pend := s.pend[1..], hist := s.hist.(gone := gone, handled := handled)))
  {
    var t := s.pend[1..];
    assert s.pend[0] in s.pend;
    assert forall i :: 0 <= i < |t| ==> t[i] == s.pend[i + 1] && t[i] in s.pend;
    assert forall e :: e in t ==> e in s.pend && e.n > s.pend[0].n;
  }

  lemma KeepsOrdered(s: Sys, step: Step)
    requires Ordered(s) && Enabled(s, step)
    ensures Ordered(Apply(s, step))
  {
    match step
    case StartRun => StartOrdered(s);
    case EndRun(lost) => EndOrdered(s, lost);
    case Halt => HaltOrdered(s);
    case Resume =>
    case Discard => TakeOrdered(s, s.hist.gone + {s.pend[0].n}, s.hist.handled);
    case HandleTop(_, _) => TakeOrdered(s, s.hist.gone, s.pend[0].n);
    case HandleBottom(_, _, _) => TakeOrdered(s, s.hist.gone, s.pend[0].n);
    case StopZc(_) =>
  }

  /** What writing a pair's registers does to the record of one buffer. */
  lemma ProgramRec(z: Zc, isTop: bool, buf: Option<Id>, inTime: bool, b: Id)
    ensures var r, r' := z.Rec(b), Program(z, isTop, buf, inTime).Rec(b);
            && (z.prog.At(isTop) == Some(b) ==>
                  && r'.away == r.away.With(isTop, inTime)
                  && r'.freeAfter == r.freeAfter.With(isTop, if inTime then z.ev.At(isTop) else Next(z.ev.At(isTop))))
            && (z.prog.At(isTop) != Some(b) ==> r'.away == r.away && r'.freeAfter == r.freeAfter)
            && (buf == Some(b) ==> r'.pointed == r.pointed.With(isTop, inTime))
            && (buf != Some(b) ==> r'.pointed == r.pointed)
  {
  }

  lemma RetireRec(z: Zc, b: Option<Id>, state: VbState, x: Id)
    ensures var r, r' := z.Rec(x), RetireIf(z, b, state).Rec(x);
            r' == r.(state := if b == Some(x) then state else r.state)
  {
  }

  lemma AdvanceRec(z: Zc, state: VbState, seqno: nat, x: Id)
    ensures var r, r' := z.Rec(x), Advance(z, state, seqno).Rec(x);
            && r' == r.(state := r'.state, seqno := r'.seqno)
            && (z.cur != Some(x) ==> r' == r)
            && (z.cur == Some(x) ==>
                  && r'.state == EndState(r, state)
                  && r'.seqno == if r'.state.Done? then seqno else r.seqno)
  {
  }

  lemma TopRec(z: Zc, picked: Option<Id>, inTime: bool, b: Id)
    requires Owned(z) && (picked.Some? ==> !z.Held(picked.value)) && z.Held(b)
    ensures var r, r' := z.Rec(b), TopHalf(z, picked, inTime).Rec(b);
            && r'.pointed == r.pointed
            && (z.next != Some(b) ==> r'.state == r.state && r'.seqno == r.seqno)
            && (z.prog.top == Some(b) ==>
                  && r'.away == r.away.(top := inTime)
                  && r'.freeAfter == r.freeAfter.(top := if inTime then Next(z.ev.top) else Next(Next(z.ev.top))))
            && (z.prog.top != Some(b) ==> r'.away == r.away && r'.freeAfter == r.freeAfter)
  {
    var z1 := Count(z, true);
    RetireRec(z1, z1.next, Error, b);
    ProgramRec(TakeNext(z1, picked), true, picked, inTime, b);
  }

  lemma BottomRec(z: Zc, inTime: bool, state: VbState, seqno: nat, b: Id)
    requires Owned(z) && z.Held(b)
    ensures var r, r' := z.Rec(b), Advance(BottomHalf(z, inTime), state, seqno).Rec(b);
            && r'.pointed == (if z.next == Some(b) then r.pointed.(bot := inTime) else r.pointed)
            && (z.prog.bot == Some(b) ==>
                  && r'.away == r.away.(bot := inTime)
                  && r'.freeAfter == r.freeAfter.(bot := if inTime then Next(z.ev.bot) else Next(Next(z.ev.bot))))
            && (z.prog.bot != Some(b) ==> r'.away == r.away && r'.freeAfter == r.freeAfter)
            && (z.cur != Some(b) ==> r'.state == r.state && r'.seqno == r.seqno)
            && (z.cur == Some(b) ==>
                  && r'.state == EndState(BottomHalf(z, inTime).Rec(b), state)
                  && r'.seqno == if r'.state.Done? then seqno else r.seqno)
  {
    ProgramRec(Count(z, false), false, z.next, inTime, b);
    ProgramFrame(Count(z, false), false, z.next, inTime);
    AdvanceRec(BottomHalf(z, inTime), state, seqno, b);
  }

  lemma UnpointRec(z: Zc, b: Id)
    ensures var r, r', z' := z.Rec(b), Unpoint(z).Rec(b), Unpoint(z);
            && z' == z.(prog := Two(None, None), buf := z'.buf)
            && r'.pointed == r.pointed && r'.state == r.state && r'.seqno == r.seqno
            && r'.freeAfter.top == (if z.prog.top == Some(b) then Next(z.ev.top) else r.freeAfter.top)
            && r'.freeAfter.bot == (if z.prog.bot == Some(b) then Next(z.ev.bot) else r.freeAfter.bot)
            && r'.away.top == (if z.prog.top == Some(b) then false else r.away.top)
            && r'.away.bot == (if z.prog.bot == Some(b) then false else r.away.bot)
  {
    ProgramFrame(z, true, None, false);
    ProgramFrame(Program(z, true, None, false), false, None, false);
  }

  lemma StopMarksRec(z: Zc, cardStopped: bool, b: Id)
    requires Owned(z) && z.Held(b)
    ensures var r, r' := Unpoint(z).Rec(b), StopMarks(z, cardStopped).Rec(b);
            && StopMarks(z, cardStopped).ev == z.ev
            && r'.pointed == r.pointed && r'.away == r.away
            && r'.freeAfter == (if cardStopped then z.ev else r.freeAfter)
            && (z.cur == Some(b) || z.next == Some(b) ==> r'.state == Error)
            && (z.cur != Some(b) && z.next != Some(b) ==> r'.state == r.state && r'.seqno == r.seqno)
  {
    UnpointRec(z, b);
    var z1 := Unpoint(z);
    var y := RetireIf(z1, z1.cur, Error);
    RetireRec(z1, z1.cur, Error, b);
    RetireRec(y, z1.next, Error, b);
    RetireOccurs(z1, z1.cur, Error, b);
    RetireOccurs(y, z1.next, Error, b);
    var z2 := RetireIf(y, z1.next, Error).(cur := None, next := None);
    assert b in z2.release;
    MarkNowRecs(z2, z2.release, b);
  }

  /** After hws_zc_stop() every buffer is on its way out with an error, marked where it was pointed at. */
  lemma StopRec(z: Zc, cardStopped: bool, b: Id)
    requires Owned(z) && z.Held(b)
    ensures var r, r', z' := z.Rec(b), StopMarks(z, cardStopped).Rec(b), StopMarks(z, cardStopped);
            && z'.ev == z.ev
            && r'.pointed == r.pointed
            && (cardStopped ==> r'.freeAfter == z.ev)
            && (!cardStopped ==>
                  && r'.freeAfter.top == (if z.prog.top == Some(b) then Next(z.ev.top) else r.freeAfter.top)
                  && r'.freeAfter.bot == (if z.prog.bot == Some(b) then Next(z.ev.bot) else r.freeAfter.bot))
            && r'.away.top == (if z.prog.top == Some(b) then false else r.away.top)
            && r'.away.bot == (if z.prog.bot == Some(b) then false else r.away.bot)
            && (z.cur == Some(b) || z.next == Some(b) ==> r'.state == Error)
            && (z.cur != Some(b) && z.next != Some(b) ==> r'.state == r.state && r'.seqno == r.seqno)
  {
    UnpointRec(z, b);
    StopMarksRec(z, cardStopped, b);
  }

  /** hws_zc_release() never lets go of a buffer the card is writing. */
  lemma ReleaseGuarded(s: Sys)
    requires Owned(s.zc) && Guarded(s)
    ensures Guarded(s.(zc := Release(s.zc)))
  {
    ReleaseOwned(s.zc);
    NextNotReached(s.zc.ev.top);
    NextNotReached(s.zc.ev.bot);
  }

  lemma KeepsGuarded(s: Sys, step: Step)
    requires Inv(s) && Enabled(s, step)
    ensures Guarded(Apply(s, step))
  {
    if s.pend != [] {
      assert s.pend[0] in s.pend;
      assert forall e :: e in s.pend[1..] ==> e in s.pend;
    }
    match step
    case HandleTop(picked, inTime) => TopGuarded(s, picked, inTime);
    case HandleBottom(inTime, state, seqno) =>
      BottomGuarded(s, inTime, state, seqno);
      BottomOwned(s.zc, inTime, state, seqno);
      ReleaseGuarded(Take(s, None).(zc := Advance(BottomHalf(s.zc, inTime), state, seqno)));
    case StopZc(cardStopped) =>
      StopGuarded(s, cardStopped);
      StopOwned(s.zc, cardStopped);
      ReleaseGuarded(s.(zc := StopMarks(s.zc, cardStopped)));
    case _ =>
  }

  lemma TopGuarded(s: Sys, picked: Option<Id>, inTime: bool)
    requires Inv(s) && Enabled(s, HandleTop(picked, inTime))
    ensures Guarded(Apply(s, HandleTop(picked, inTime)))
  {
    TopOwned(s.zc, picked, inTime);
    assert s.pend[0] in s.pend;
    if s.card.run.Some? && s.card.run.value.dest.Some? {
      TopRec(s.zc, picked, inTime, s.card.run.value.dest.value);
    }
  }

  lemma BottomGuarded(s: Sys, inTime: bool, state: VbState, seqno: nat)
    requires Inv(s) && Enabled(s, HandleBottom(inTime, state, seqno))
    ensures Guarded(Take(s, None).(zc := Advance(BottomHalf(s.zc, inTime), state, seqno)))
  {
    assert s.pend[0] in s.pend;
    if s.card.run.Some? && s.card.run.value.dest.Some? {
      var b := s.card.run.value.dest.value;
      BottomOccurs(s.zc, inTime, state, seqno, b);
      BottomRec(s.zc, inTime, state, seqno, b);
      ProgramFrame(Count(s.zc, false), false, s.zc.next, inTime);
    }
  }

  lemma StopGuarded(s: Sys, cardStopped: bool)
    requires Inv(s) && Enabled(s, StopZc(cardStopped))
    ensures Guarded(s.(zc := StopMarks(s.zc, cardStopped)))
  {
    StopOwned(s.zc, cardStopped);
    if !cardStopped && s.card.run.Some? && s.card.run.value.dest.Some? {
      StopRec(s.zc, false, s.card.run.value.dest.value);
    }
  }

  lemma KeepsInv(s: Sys, step: Step)
    requires Inv(s) && Enabled(s, step)
    ensures Inv(Apply(s, step))
  {
    KeepsOwned(s, step);
    KeepsOrdered(s, step);
    KeepsGuarded(s, step);
  }
}
