/**
 * Which runs of the card wrote a zero-copy buffer: what holds of the history
 * of every buffer zero-copy has taken, in every reachable state.
 */
module FrameHistory {
  import opened Basics
  import opened ZeroCopy
  import opened Protocol

  ghost predicate Rising(r: seq<nat>, limit: nat) {
    && (forall i, j :: 0 <= i < j < |r| ==> r[i] < r[j])
    && (forall x :: x in r ==> 0 < x <= limit)
  }

  /** `e` is the one run of `r` whose event the driver handled; the events of the others never reached it. */
  ghost predicate OnlyHandled(r: seq<nat>, hist: Hist, e: nat) {
    e in r && e !in hist.gone && e <= hist.handled && forall x :: x in r && x != e ==> x in hist.gone
  }

  /** While a pair points at `b`, having moved there in time, its runs are the ones `b` has seen. */
  ghost predicate Covered(s: Sys, b: Id, isTop: bool) {
    var r := s.Runs(b).At(isTop);
    s.zc.prog.At(isTop) == Some(b) && s.zc.Rec(b).pointed.At(isTop) ==>
      && (forall x :: x in r ==>
            x in s.hist.gone || Event(isTop, x) in s.pend || (s.Running(isTop) && s.card.run.value.n == x))
      && (forall e :: e in s.pend && e.isTop == isTop ==> e.n in r)
      && (s.Running(isTop) ==> s.card.run.value.n in r)
  }

  /** Once a pair has moved on in time, exactly one of its runs into `b` was handled. */
  ghost predicate Closed(s: Sys, b: Id, isTop: bool) {
    s.zc.Rec(b).away.At(isTop) ==>
      && s.zc.prog.At(isTop) != Some(b)
      && (s.zc.Rec(b).pointed.At(isTop) ==> exists e :: OnlyHandled(s.Runs(b).At(isTop), s.hist, e))
  }

  /** Between the top and the bottom half that point the pairs at `b`. */
  ghost predicate Entering(s: Sys, b: Id) {
    s.zc.next == Some(b) ==>
      && s.Runs(b).bot == []
      && !s.zc.Rec(b).away.bot
      && (s.zc.Rec(b).pointed.top ==>
            var r := s.Runs(b).top;
            || (r != [] && r[|r| - 1] == s.card.serial && !s.card.nextTop)
            || (s.card.last.bot == s.card.serial && s.card.nextTop)
            || s.card.serial <= s.hist.handled)
  }

  /** The first bottom run into `b` follows a top run into `b` with no run between them. */
  ghost predicate SameFrame(s: Sys, b: Id) {
    var r, z := s.Runs(b), s.zc;
    z.Rec(b).pointed.top && z.Rec(b).pointed.bot ==>
      && (r.bot != [] ==> r.bot[0] > 0 && r.bot[0] - 1 in r.top)
      && (r.bot == [] && z.prog.bot == Some(b) ==>
            || (s.card.nextTop && z.prog.top == Some(b) && s.pend == [] && s.card.run.None?
                && s.card.last.bot == s.card.serial)
            || (!s.card.nextTop && r.top != [] && r.top[|r.top| - 1] == s.card.serial))
  }

  ghost predicate Traced(s: Sys, b: Id) {
    && Rising(s.Runs(b).top, s.card.last.top)
    && Rising(s.Runs(b).bot, s.card.last.bot)
    && Covered(s, b, true) && Covered(s, b, false)
    && Closed(s, b, true) && Closed(s, b, false)
    && Entering(s, b)
    && SameFrame(s, b)
  }

  ghost predicate AllTraced(s: Sys) {
    forall b: Id :: s.zc.Held(b) ==> Traced(s, b)
  }

  /** The handled and lost runs of a sequence stay so. */
  lemma OnlyHandledGrows(r: seq<nat>, h: Hist, h': Hist)
    requires h.gone <= h'.gone && h.handled <= h'.handled
    requires forall x :: x in h'.gone ==> x in h.gone || x > h.handled
    requires exists e :: OnlyHandled(r, h, e)
    ensures exists e :: OnlyHandled(r, h', e)
  {
    var e :| OnlyHandled(r, h, e);
    assert OnlyHandled(r, h', e);
  }

  lemma ClosedGrows(s: Sys, s': Sys, b: Id, isTop: bool)
    requires Closed(s, b, isTop)
    requires s'.zc.Rec(b).pointed.At(isTop) == s.zc.Rec(b).pointed.At(isTop)
    requires s'.zc.Rec(b).away.At(isTop) == s.zc.Rec(b).away.At(isTop)
    requires s.zc.Rec(b).away.At(isTop) ==> s'.zc.prog.At(isTop) != Some(b)
    requires s.zc.Rec(b).away.At(isTop) ==> s'.Runs(b).At(isTop) == s.Runs(b).At(isTop)
    requires s.hist.gone <= s'.hist.gone && s.hist.handled <= s'.hist.handled
    requires forall x :: x in s'.hist.gone ==> x in s.hist.gone || x > s.hist.handled
    ensures Closed(s', b, isTop)
  {
    if s.zc.Rec(b).away.At(isTop) && s.zc.Rec(b).pointed.At(isTop) {
      OnlyHandledGrows(s.Runs(b).At(isTop), s.hist, s'.hist);
    }
  }

  lemma RisingAppend(r: seq<nat>, limit: nat, n: nat)
    requires Rising(r, limit) && limit < n
    ensures Rising(r + [n], n)
  {
    var t := r + [n];
    forall i, j | 0 <= i < j < |t| ensures t[i] < t[j] {
      assert r[i] in r;
    }
  }

  lemma StartTraced(s: Sys, b: Id)
    requires Inv(s) && Enabled(s, StartRun) && s.zc.Held(b) && Traced(s, b)
    ensures Traced(Start(s), b)
  {
    var s' := Start(s);
    var isTop := s.card.nextTop;
    var n := s'.card.serial;
    var r, r' := s.Runs(b), s'.Runs(b);
    assert r' == (if s.zc.prog.At(isTop) == Some(b) then r.With(isTop, r.At(isTop) + [n]) else r);
    RisingAppend(r.At(isTop), s.card.last.At(isTop), n);
    ClosedGrows(s, s', b, true);
    ClosedGrows(s, s', b, false);
    assert Covered(s', b, true);
    assert Covered(s', b, false);
  }

  lemma EndTraced(s: Sys, lost: bool, b: Id)
    requires Inv(s) && Enabled(s, EndRun(lost)) && s.zc.Held(b) && Traced(s, b)
    ensures Traced(End(s, lost), b)
  {
    var s' := End(s, lost);
    ClosedGrows(s, s', b, true);
    ClosedGrows(s, s', b, false);
    EndCovered(s, lost, b, true);
    EndCovered(s, lost, b, false);
  }

  lemma EndCovered(s: Sys, lost: bool, b: Id, isTop: bool)
    requires s.card.run.Some? && Covered(s, b, isTop)
    ensures Covered(End(s, lost), b, isTop)
  {
    var s' := End(s, lost);
    assert !lost ==> Event(s.card.run.value.isTop, s.card.run.value.n) in s'.pend;
    assert forall e :: e in s.pend ==> e in s'.pend;
  }

  lemma HaltTraced(s: Sys, b: Id)
    requires Inv(s) && s.zc.Held(b) && Traced(s, b)
    ensures Traced(StopCard(s), b)
  {
    ClosedGrows(s, StopCard(s), b, true);
    ClosedGrows(s, StopCard(s), b, false);
  }

  lemma ResumeTraced(s: Sys, b: Id)
    requires Inv(s) && Enabled(s, Resume) && s.zc.Held(b) && Traced(s, b)
    ensures Traced(Apply(s, Resume), b)
  {
    ClosedGrows(s, Apply(s, Resume), b, true);
    ClosedGrows(s, Apply(s, Resume), b, false);
  }

  lemma DiscardTraced(s: Sys, b: Id)
    requires Inv(s) && Enabled(s, Discard) && s.zc.Held(b) && Traced(s, b)
    ensures Traced(Apply(s, Discard), b)
  {
    assert s.pend[0] in s.pend;
    ClosedGrows(s, Apply(s, Discard), b, true);
    ClosedGrows(s, Apply(s, Discard), b, false);
    DiscardCovered(s, b, true);
    DiscardCovered(s, b, false);
  }

  lemma DiscardCovered(s: Sys, b: Id, isTop: bool)
    requires Enabled(s, Discard) && Covered(s, b, isTop)
    ensures Covered(Apply(s, Discard), b, isTop)
  {
    assert s.pend == [s.pend[0]] + s.pend[1..];
  }

  /** An event handled in time is the one run of its pair into `b` that the driver saw. */
  lemma HandledInTime(s: Sys, b: Id, isTop: bool, h: Hist)
    requires Inv(s) && s.pend != [] && s.pend[0].isTop == isTop && Covered(s, b, isTop)
    requires Rising(s.Runs(b).At(isTop), s.card.last.At(isTop))
    requires s.zc.prog.At(isTop) == Some(b) && s.zc.Rec(b).pointed.At(isTop)
    requires s.card.last.At(isTop) == s.pend[0].n
    requires h.gone == s.hist.gone && h.handled == s.pend[0].n
    ensures OnlyHandled(s.Runs(b).At(isTop), h, s.pend[0].n)
  {
    var e := s.pend[0].n;
    assert s.pend[0] in s.pend;
    assert forall x :: Event(isTop, x) in s.pend ==> x >= e;
  }

  /** Nothing of the pair is raised or running when its last run's event is handled. */
  lemma LastHandled(s: Sys, isTop: bool)
    requires Inv(s) && s.pend != [] && s.pend[0].isTop == isTop
    requires s.card.last.At(isTop) == s.pend[0].n
    ensures !s.Running(isTop)
    ensures forall e :: e in s.pend[1..] ==> e.isTop != isTop
    ensures s.pend[0].n == s.card.serial ==> s.pend[1..] == [] && s.card.run.None?
  {
    assert s.pend[0] in s.pend;
    forall e | e in s.pend[1..] ensures e.isTop != isTop && e.n > s.pend[0].n && e.n <= s.card.serial {
      var i :| 0 <= i < |s.pend| - 1 && s.pend[1..][i] == e;
      assert s.pend[i + 1] == e;
    }
    assert s.pend[1..] != [] ==> s.pend[1..][0] in s.pend[1..];
  }

  /** `s'` follows `s` by handling an event of the pair, whose registers no longer point at `b`. */
  ghost predicate MovedOn(s: Sys, s': Sys, b: Id, isTop: bool, inTime: bool) {
    var r, r' := s.zc.Rec(b), s'.zc.Rec(b);
    && s.pend != [] && s.pend[0].isTop == isTop
    && s'.pend == s.pend[1..]
    && s'.card == s.card
    && s'.hist.gone == s.hist.gone && s'.hist.handled == s.pend[0].n
    && s'.Runs(b) == s.Runs(b)
    && s'.zc.prog.At(isTop) != Some(b)
    && s'.zc.prog.At(!isTop) == s.zc.prog.At(!isTop)
    && r'.pointed == r.pointed
    && r'.away.At(!isTop) == r.away.At(!isTop)
    && r'.away.At(isTop) == (if s.zc.prog.At(isTop) == Some(b) then inTime else r.away.At(isTop))
  }

  lemma MovedOnKeeps(s: Sys, s': Sys, b: Id, isTop: bool, inTime: bool)
    requires Inv(s) && MovedOn(s, s', b, isTop, inTime) && InTimeHolds(s, isTop, inTime)
    requires Covered(s, b, true) && Covered(s, b, false) && Closed(s, b, true) && Closed(s, b, false)
    requires Rising(s.Runs(b).At(isTop), s.card.last.At(isTop))
    ensures Covered(s', b, true) && Covered(s', b, false) && Closed(s', b, true) && Closed(s', b, false)
  {
    assert s.pend[0] in s.pend;
    assert s.pend == [s.pend[0]] + s.pend[1..];
    ClosedGrows(s, s', b, !isTop);
    if s.zc.prog.At(isTop) != Some(b) {
      ClosedGrows(s, s', b, isTop);
    } else if inTime && s.zc.Rec(b).pointed.At(isTop) {
      HandledInTime(s, b, isTop, s'.hist);
    }
  }

  lemma TopTraced(s: Sys, picked: Option<Id>, inTime: bool, b: Id)
    requires Inv(s) && Enabled(s, HandleTop(picked, inTime)) && s.zc.Held(b) && Traced(s, b)
    ensures Traced(Apply(s, HandleTop(picked, inTime)), b)
  {
    var s' := Apply(s, HandleTop(picked, inTime));
    TopOwned(s.zc, picked, inTime);
    TopRec(s.zc, picked, inTime, b);
    assert MovedOn(s, s', b, true, inTime);
    MovedOnKeeps(s, s', b, true, inTime);
    TopSameFrame(s, s', b, inTime);
  }

  lemma TopSameFrame(s: Sys, s': Sys, b: Id, inTime: bool)
    requires MovedOn(s, s', b, true, inTime) && SameFrame(s, b)
    ensures SameFrame(s', b)
  {
  }

  lemma PickTraced(s: Sys, b: Id, inTime: bool)
    requires Inv(s) && Enabled(s, HandleTop(Some(b), inTime))
    ensures Traced(Apply(s, HandleTop(Some(b), inTime)), b)
  {
    var s' := Apply(s, HandleTop(Some(b), inTime));
    TopOwned(s.zc, Some(b), inTime);
    var z1 := TakeNext(Count(s.zc, true), Some(b));
    assert s.pend[0] in s.pend;
    ProgramRec(z1, true, Some(b), inTime, b);
    assert s'.Runs(b) == Two([], []);
    assert s.zc.prog.top != Some(b) && s.zc.prog.bot != Some(b);
    assert s'.zc.Rec(b).away == Two(false, false) && s'.zc.Rec(b).pointed == Two(inTime, false);
    if inTime { LastHandled(s, true); }
  }

  lemma BottomMovesOn(s: Sys, s': Sys, inTime: bool, state: VbState, seqno: nat, b: Id)
    requires Inv(s) && Enabled(s, HandleBottom(inTime, state, seqno)) && s.zc.Held(b)
    requires s' == Take(s, None).(zc := Advance(BottomHalf(s.zc, inTime), state, seqno))
    ensures s.zc.next != Some(b) ==> MovedOn(s, s', b, false, inTime)
    ensures s'.pend == s.pend[1..] && s'.card == s.card
    ensures s'.hist.gone == s.hist.gone && s'.hist.handled == s.pend[0].n && s'.Runs(b) == s.Runs(b)
    ensures s'.zc.prog == s.zc.prog.(bot := s.zc.next) && s'.zc.next.None?
    ensures s.zc.next == Some(b) ==> s'.zc.Rec(b).pointed == s.zc.Rec(b).pointed.(bot := inTime)
    ensures s.zc.next == Some(b) ==> s'.zc.Rec(b).away == s.zc.Rec(b).away
  {
    ProgramFrame(Count(s.zc, false), false, s.zc.next, inTime);
    BottomRec(s.zc, inTime, state, seqno, b);
  }

  lemma BottomTraced(s: Sys, s': Sys, inTime: bool, state: VbState, seqno: nat, b: Id)
    requires Inv(s) && Enabled(s, HandleBottom(inTime, state, seqno)) && s.zc.Held(b) && Traced(s, b)
    requires s' == Take(s, None).(zc := Advance(BottomHalf(s.zc, inTime), state, seqno))
    ensures Traced(s', b)
  {
    BottomMovesOn(s, s', inTime, state, seqno, b);
    if s.zc.next == Some(b) {
      EnterFrame(s, s', b, inTime);
    } else {
      LeaveFrame(s, s', b, inTime);
    }
  }

  lemma LeaveFrame(s: Sys, s': Sys, b: Id, inTime: bool)
    requires Inv(s) && Traced(s, b) && s.zc.next != Some(b)
    requires s.pend != [] && InTimeHolds(s, false, inTime)
    requires MovedOn(s, s', b, false, inTime) && s'.zc.next.None?
    ensures Traced(s', b)
  {
    MovedOnKeeps(s, s', b, false, inTime);
    BottomSameFrame(s, s', b, inTime);
  }

  lemma BottomSameFrame(s: Sys, s': Sys, b: Id, inTime: bool)
    requires MovedOn(s, s', b, false, inTime) && SameFrame(s, b)
    ensures SameFrame(s', b)
  {
  }

  /** The bottom half that points quarters 2-3 at `b`, so that `b` receives the frame in progress. */
  lemma EnterFrame(s: Sys, s': Sys, b: Id, inTime: bool)
    requires Inv(s) && Traced(s, b) && s.zc.next == Some(b)
    requires s.pend != [] && !s.pend[0].isTop && InTimeHolds(s, false, inTime)
    requires s'.pend == s.pend[1..] && s'.card == s.card
    requires s'.hist.gone == s.hist.gone && s'.hist.handled == s.pend[0].n && s'.Runs(b) == s.Runs(b)
    requires s'.zc.prog == s.zc.prog.(bot := Some(b)) && s'.zc.next.None?
    requires s'.zc.Rec(b).pointed == s.zc.Rec(b).pointed.(bot := inTime)
    requires s'.zc.Rec(b).away == s.zc.Rec(b).away
    ensures Traced(s', b)
  {
    assert s.pend[0] in s.pend;
    assert s.pend == [s.pend[0]] + s.pend[1..];
    ClosedGrows(s, s', b, true);
    if inTime { LastHandled(s, false); }
    assert Covered(s', b, true);
    assert Covered(s', b, false);
    assert SameFrame(s', b);
  }

  lemma StopTraced(s: Sys, cardStopped: bool, b: Id)
    requires Inv(s) && Enabled(s, StopZc(cardStopped)) && s.zc.Held(b) && Traced(s, b)
    ensures Traced(s.(zc := StopMarks(s.zc, cardStopped)), b)
  {
    var s' := s.(zc := StopMarks(s.zc, cardStopped));
    StopOwned(s.zc, cardStopped);
    StopRec(s.zc, cardStopped, b);
    if s.zc.prog.top != Some(b) { ClosedGrows(s, s', b, true); }
    if s.zc.prog.bot != Some(b) { ClosedGrows(s, s', b, false); }
  }

  lemma ReleaseTraced(s: Sys, b: Id)
    requires Traced(s, b)
    ensures Traced(s.(zc := Release(s.zc)), b)
  {
    var s' := s.(zc := Release(s.zc));
    ClosedGrows(s, s', b, true);
    ClosedGrows(s, s', b, false);
  }

  lemma KeepsTraced(s: Sys, step: Step, b: Id)
    requires Inv(s) && Enabled(s, step) && s.zc.Held(b) && Traced(s, b)
    ensures Traced(Apply(s, step), b)
  {
    match step
    case StartRun => StartTraced(s, b);
    case EndRun(lost) => EndTraced(s, lost, b);
    case Halt => HaltTraced(s, b);
    case Resume => ResumeTraced(s, b);
    case Discard => DiscardTraced(s, b);
    case HandleTop(picked, inTime) => TopTraced(s, picked, inTime, b);
    case HandleBottom(inTime, state, seqno) =>
      BottomTraced(s, Take(s, None).(zc := Advance(BottomHalf(s.zc, inTime), state, seqno)), inTime, state, seqno, b);
      ReleaseTraced(Take(s, None).(zc := Advance(BottomHalf(s.zc, inTime), state, seqno)), b);
    case StopZc(cardStopped) =>
      StopTraced(s, cardStopped, b);
      ReleaseTraced(s.(zc := StopMarks(s.zc, cardStopped)), b);
  }

  /** The buffers held after a step were held before it or are picked by it. */
  lemma HeldAfter(s: Sys, step: Step, b: Id)
    requires Owned(s.zc) && Enabled(s, step) && Apply(s, step).zc.Held(b) && !s.zc.Held(b)
    ensures step.HandleTop? && step.picked == Some(b)
  {
    match step
    case HandleTop(picked, inTime) => TopOwned(s.zc, picked, inTime);
    case HandleBottom(inTime, state, seqno) =>
      BottomOwned(s.zc, inTime, state, seqno);
      ReleaseOwned(Advance(BottomHalf(s.zc, inTime), state, seqno));
    case StopZc(cardStopped) =>
      StopOwned(s.zc, cardStopped);
      ReleaseOwned(StopMarks(s.zc, cardStopped));
    case _ =>
  }

  lemma KeepsAllTraced(s: Sys, step: Step)
    requires Inv(s) && AllTraced(s) && Enabled(s, step)
    ensures AllTraced(Apply(s, step))
  {
    forall b: Id | Apply(s, step).zc.Held(b) ensures Traced(Apply(s, step), b) {
      if s.zc.Held(b) {
        KeepsTraced(s, step, b);
      } else {
        HeldAfter(s, step, b);
        PickTraced(s, b, step.inTime);
      }
    }
  }

  // ---- the two guarantees over whole runs of the system ----

  /** A run of the system: every step is enabled and leads from one state to the next. */
  ghost predicate IsRun(states: seq<Sys>, steps: seq<Step>) {
    && |states| == |steps| + 1
    && states[0] == INIT
    && (forall i :: 0 <= i < |steps| ==> StepAt(states, steps, i))
  }

  ghost predicate StepAt(states: seq<Sys>, steps: seq<Step>, i: nat)
    requires |states| == |steps| + 1 && i < |steps|
  {
    Enabled(states[i], steps[i]) && states[i + 1] == Apply(states[i], steps[i])
  }

  /** One more step at the end of a run. */
  lemma Extend(states: seq<Sys>, steps: seq<Step>, step: Step)
    requires IsRun(states, steps) && Enabled(states[|steps|], step)
    ensures IsRun(states + [Apply(states[|steps|], step)], steps + [step])
  {
    var t, u := states + [Apply(states[|steps|], step)], steps + [step];
    forall i | 0 <= i < |u| ensures StepAt(t, u, i) {
      if i < |steps| { assert StepAt(states, steps, i); }
    }
  }

  lemma StepKeeps(s: Sys, step: Step, s': Sys)
    requires Inv(s) && AllTraced(s) && Enabled(s, step) && s' == Apply(s, step)
    ensures Inv(s') && AllTraced(s')
  {
    KeepsInv(s, step);
    KeepsAllTraced(s, step);
  }

  lemma InitKeeps()
    ensures Inv(INIT) && AllTraced(INIT)
  {
  }

  lemma {:induction false} RunKeeps(states: seq<Sys>, steps: seq<Step>, i: nat)
    requires IsRun(states, steps) && i < |states|
    ensures Inv(states[i]) && AllTraced(states[i])
  {
    if i == 0 {
      InitKeeps();
    } else {
      RunKeeps(states, steps, i - 1);
      KeepsNext(states, steps, i);
    }
  }

  lemma KeepsNext(states: seq<Sys>, steps: seq<Step>, i: nat)
    requires IsRun(states, steps) && 0 < i < |states| && Inv(states[i - 1]) && AllTraced(states[i - 1])
    ensures Inv(states[i]) && AllTraced(states[i])
  {
    assert StepAt(states, steps, i - 1);
    StepKeeps(states[i - 1], steps[i - 1], states[i]);
  }

  /** What every step of a run starts from and leads to. */
  lemma StepInRun(states: seq<Sys>, steps: seq<Step>, i: nat)
    requires IsRun(states, steps) && 0 < i < |states|
    ensures Inv(states[i - 1]) && Enabled(states[i - 1], steps[i - 1])
    ensures states[i] == Apply(states[i - 1], steps[i - 1])
  {
    RunKeeps(states, steps, i - 1);
    assert StepAt(states, steps, i - 1);
  }

  predicate Picks(step: Step, b: Id) {
    step.HandleTop? && step.picked == Some(b)
  }

  lemma UnheldIsSafe(s: Sys, b: Id)
    requires Inv(s) && !s.zc.Held(b)
    ensures !s.zc.Pointed(b) && !s.Writing(b)
  {
  }

  /**
   * Safety. From the moment the driver hands a buffer back until it picks it
   * again, no pair points at it and the card does not write it: not in the run
   * in progress at that moment and not in any later one.
   */
  lemma {:induction false} HandedBackIsSafe(states: seq<Sys>, steps: seq<Step>, b: Id, i: nat, j: nat)
    requires IsRun(states, steps) && i < j < |states|
    requires states[i].zc.Held(b) && !states[i + 1].zc.Held(b)
    requires forall k :: i < k < j ==> !Picks(steps[k], b)
    ensures !states[j].zc.Held(b) && !states[j].zc.Pointed(b) && !states[j].Writing(b)
  {
    StaysHandedBack(states, steps, b, i, j);
    RunKeeps(states, steps, j);
    UnheldIsSafe(states[j], b);
  }

  lemma {:induction false} StaysHandedBack(states: seq<Sys>, steps: seq<Step>, b: Id, i: nat, j: nat)
    requires IsRun(states, steps) && i < j < |states|
    requires !states[i + 1].zc.Held(b)
    requires forall k :: i < k < j ==> !Picks(steps[k], b)
    ensures !states[j].zc.Held(b)
    decreases j
  {
    if j > i + 1 {
      StaysHandedBack(states, steps, b, i, j - 1);
      NotTaken(states, steps, b, j);
    }
  }

  lemma NotTaken(states: seq<Sys>, steps: seq<Step>, b: Id, j: nat)
    requires IsRun(states, steps) && 0 < j < |states| && !states[j - 1].zc.Held(b) && !Picks(steps[j - 1], b)
    ensures !states[j].zc.Held(b)
  {
    RunKeeps(states, steps, j - 1);
    StepInRun(states, steps, j);
    StaysOut(states[j - 1], steps[j - 1], b);
  }

  lemma StaysOut(s: Sys, step: Step, b: Id)
    requires Inv(s) && Enabled(s, step) && !s.zc.Held(b) && !Picks(step, b)
    ensures !Apply(s, step).zc.Held(b)
  {
    if Apply(s, step).zc.Held(b) {
      HeldAfter(s, step, b);
    }
  }

  /** The buffer zero-copy retires as a complete frame at this step, if any. */
  ghost predicate CompletesFrame(s: Sys, step: Step, b: Id) {
    && step.HandleBottom? && step.state == Done
    && s.zc.cur == Some(b)
    && EndState(BottomHalf(s.zc, step.inTime).Rec(b), Done) == Done
  }

  ghost predicate Single(r: seq<nat>, n: nat) {
    r == [n]
  }

  /**
   * A buffer completed as a whole frame was the destination of exactly one run
   * of each pair, both of one frame, if and only if no half-done event of the
   * runs it received was lost or discarded.
   */
  lemma DoneIsOneFrame(states: seq<Sys>, steps: seq<Step>, i: nat, b: Id)
    requires IsRun(states, steps) && i < |steps| && StepAt(states, steps, i) && CompletesFrame(states[i], steps[i], b)
    ensures var h := states[i + 1].hist;
            var r := states[i + 1].Runs(b);
            (exists n: nat :: Single(r.top, n) && Single(r.bot, n + 1)) <==>
            (forall x :: x in r.top || x in r.bot ==> x !in h.gone)
  {
    var s, step := states[i], steps[i];
    RunKeeps(states, steps, i);
    var s' := Take(s, None).(zc := Advance(BottomHalf(s.zc, step.inTime), step.state, step.seqno));
    BottomTraced(s, s', step.inTime, step.state, step.seqno, b);
    BottomRec(s.zc, step.inTime, step.state, step.seqno, b);
    assert s'.Runs(b) == states[i + 1].Runs(b) && s'.hist == states[i + 1].hist;
    WholeFrame(s', b);
  }

  lemma OneRun(r: seq<nat>, limit: nat, h: Hist)
    requires Rising(r, limit) && exists e :: OnlyHandled(r, h, e)
    ensures |r| > 0
    ensures |r| == 1 <==> forall x :: x in r ==> x !in h.gone
  {
    var e :| OnlyHandled(r, h, e);
    if |r| >= 2 {
      assert r[0] in r && r[1] in r;
    }
  }

  lemma WholeFrame(s: Sys, b: Id)
    requires Traced(s, b)
    requires s.zc.Rec(b).pointed == Two(true, true) && s.zc.Rec(b).away == Two(true, true)
    ensures var r := s.Runs(b);
            (exists n: nat :: Single(r.top, n) && Single(r.bot, n + 1)) <==>
            (forall x :: x in r.top || x in r.bot ==> x !in s.hist.gone)
  {
    var r := s.Runs(b);
    OneRun(r.top, s.card.last.top, s.hist);
    OneRun(r.bot, s.card.last.bot, s.hist);
    if |r.top| == 1 && |r.bot| == 1 {
      assert Single(r.top, r.top[0]) && Single(r.bot, r.top[0] + 1);
    }
  }
}
