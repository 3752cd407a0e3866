/**
 * How long a buffer waits on the release list once the handled half-done
 * events alternate between top and bottom, whatever was lost before that.
 */
module Progress {
  import opened Basics
  import opened EventCounter
  import opened ZeroCopy
  import opened Protocol
  import opened FrameHistory

  /** The half a step handles, if any (true: top). */
  function Half(step: Step): seq<bool> {
    if step.HandleTop? then [true] else if step.HandleBottom? then [false] else []
  }

  /** The halves the driver handled in steps `i` to `k`, in order. */
  function Halves(steps: seq<Step>, i: nat, k: nat): seq<bool>
    requires i <= k <= |steps|
  {
    if i == k then [] else Halves(steps, i, k - 1) + Half(steps[k - 1])
  }

  ghost predicate Alternate(h: seq<bool>) {
    forall i :: 0 < i < |h| ==> h[i] != h[i - 1]
  }

  /** How often a half occurs. */
  function Times(h: seq<bool>, x: bool): nat {
    multiset(h)[x]
  }

  // ---- how far a counter is past a mark ----

  /** One more than the events the counter is past the mark: 0 while it is one event short of it. */
  function Lag(ev: u32, mark: u32): u32 {
    Low32(ev + 1 - mark)
  }

  lemma LagNext(ev: u32, mark: u32)
    requires Lag(ev, mark) < TWO_TO_THE_32 - 1
    ensures Lag(Next(ev), mark) == Lag(ev, mark) + 1
  {
    var d: int := mark;
    Low32Shift(ev + 1, 1 - d);
    Low32Shift(ev + 1 - d, 1);
  }

  /** A mark set now, in time or one event ahead. */
  lemma LagNow(ev: u32)
    ensures Lag(ev, ev) == 1 && Lag(ev, Next(ev)) == 0
  {
  }

  lemma LagReached(ev: u32, mark: u32)
    requires 1 <= Lag(ev, mark) <= TWO_TO_THE_31
    ensures !EvBefore(ev, mark)
  {
  }

  /** A pair that does not point at `b` is at most `n` events past its mark, or one short of it. */
  ghost predicate Lagged(z: Zc, b: Id, n: nat) {
    && (z.prog.top != Some(b) ==> Lag(z.ev.top, z.Rec(b).freeAfter.top) <= n + 1)
    && (z.prog.bot != Some(b) ==> Lag(z.ev.bot, z.Rec(b).freeAfter.bot) <= n + 1)
  }

  /** And at least so many: pair 0 may still point at `b` while nothing is promised of it. */
  ghost predicate Since(z: Zc, b: Id, tops: int, bots: int) {
    && z.prog.bot != Some(b) && Lag(z.ev.bot, z.Rec(b).freeAfter.bot) > bots
    && (if z.prog.top == Some(b) then tops <= -2 else Lag(z.ev.top, z.Rec(b).freeAfter.top) > tops)
  }

  lemma SinceFree(z: Zc, b: Id, tops: int, bots: int, n: nat)
    requires Since(z, b, tops, bots) && Lagged(z, b, n) && n < TWO_TO_THE_31 && tops >= 0 && bots >= 0
    ensures z.Free(b)
  {
    LagReached(z.ev.top, z.Rec(b).freeAfter.top);
    LagReached(z.ev.bot, z.Rec(b).freeAfter.bot);
  }

  // ---- the bound from above ----

  lemma TopLagged(s: Sys, picked: Option<Id>, inTime: bool, b: Id, n: nat)
    requires Inv(s) && Enabled(s, HandleTop(picked, inTime)) && s.zc.Held(b) && Lagged(s.zc, b, n)
    requires n < TWO_TO_THE_31
    ensures Lagged(TopHalf(s.zc, picked, inTime), b, n + 1)
  {
    TopOwned(s.zc, picked, inTime);
    TopRec(s.zc, picked, inTime, b);
    ProgramFrame(TakeNext(Count(s.zc, true), picked), true, picked, inTime);
    LagNow(Next(s.zc.ev.top));
    if s.zc.prog.top != Some(b) { LagNext(s.zc.ev.top, s.zc.Rec(b).freeAfter.top); }
  }

  /** A buffer just picked is marked with both counters. */
  lemma PickLagged(s: Sys, b: Id, inTime: bool, n: nat)
    requires Inv(s) && Enabled(s, HandleTop(Some(b), inTime))
    ensures Lagged(TopHalf(s.zc, Some(b), inTime), b, n)
  {
    var z1 := TakeNext(Count(s.zc, true), Some(b));
    TopOwned(s.zc, Some(b), inTime);
    ProgramFrame(z1, true, Some(b), inTime);
    ProgramRec(z1, true, Some(b), inTime, b);
    LagNow(s.zc.ev.bot);
  }

  lemma BottomLagged(s: Sys, inTime: bool, state: VbState, seqno: nat, b: Id, n: nat)
    requires Inv(s) && Enabled(s, HandleBottom(inTime, state, seqno)) && s.zc.Held(b) && Lagged(s.zc, b, n)
    requires n < TWO_TO_THE_31
    ensures Lagged(Advance(BottomHalf(s.zc, inTime), state, seqno), b, n + 1)
  {
    BottomRec(s.zc, inTime, state, seqno, b);
    ProgramFrame(Count(s.zc, false), false, s.zc.next, inTime);
    LagNow(Next(s.zc.ev.bot));
    if s.zc.prog.bot != Some(b) { LagNext(s.zc.ev.bot, s.zc.Rec(b).freeAfter.bot); }
  }

  lemma StopLagged(s: Sys, cardStopped: bool, b: Id, n: nat)
    requires Inv(s) && s.zc.Held(b) && Lagged(s.zc, b, n)
    ensures Lagged(StopMarks(s.zc, cardStopped), b, n)
  {
    StopOccurs(s.zc, cardStopped, b);
    StopRec(s.zc, cardStopped, b);
    LagNow(s.zc.ev.top);
    LagNow(s.zc.ev.bot);
  }

  function Handled(step: Step): nat {
    if step.HandleTop? || step.HandleBottom? then 1 else 0
  }

  lemma KeepsLagged(s: Sys, step: Step, s': Sys, b: Id, n: nat)
    requires Inv(s) && Enabled(s, step) && s' == Apply(s, step) && n < TWO_TO_THE_31
    requires s.zc.Held(b) ==> Lagged(s.zc, b, n)
    ensures s'.zc.Held(b) ==> Lagged(s'.zc, b, n + Handled(step))
  {
    if s'.zc.Held(b) {
      if s.zc.Held(b) {
        StepLagged(s, step, b, n);
      } else {
        HeldAfter(s, step, b);
        PickLagged(s, b, step.inTime, n + 1);
      }
    }
  }

  lemma ReleaseLagged(z: Zc, b: Id, n: nat)
    requires Lagged(z, b, n)
    ensures Lagged(Release(z), b, n)
  {
    assert Release(z).Rec(b) == z.Rec(b);
  }

  /** The other steps leave the driver's state alone. */
  lemma OthersSame(s: Sys, step: Step)
    requires Enabled(s, step) && !step.HandleTop? && !step.HandleBottom? && !step.StopZc?
    ensures Apply(s, step).zc == s.zc
  {
  }

  lemma StepLagged(s: Sys, step: Step, b: Id, n: nat)
    requires Inv(s) && Enabled(s, step) && s.zc.Held(b) && Lagged(s.zc, b, n) && n < TWO_TO_THE_31
    ensures Lagged(Apply(s, step).zc, b, n + Handled(step))
  {
    match step
    case HandleTop(picked, inTime) => TopLagged(s, picked, inTime, b, n);
    case HandleBottom(inTime, state, seqno) =>
      BottomLagged(s, inTime, state, seqno, b, n);
      ReleaseLagged(Advance(BottomHalf(s.zc, inTime), state, seqno), b, n + 1);
    case StopZc(cardStopped) =>
      StopLagged(s, cardStopped, b, n);
      ReleaseLagged(StopMarks(s.zc, cardStopped), b, n);
    case _ => OthersSame(s, step);
  }

  // ---- the bound from below ----

  /** The counts from which a buffer put on the list by a step waits. */
  function TopsAt(step: Step): int {
    if step.HandleBottom? then -2 else -1
  }

  lemma StartsWaiting(s: Sys, step: Step, s': Sys, b: Id)
    requires Inv(s) && Enabled(s, step) && s' == Apply(s, step)
    requires b !in s.zc.release && b in s'.zc.release
    ensures Since(s'.zc, b, TopsAt(step), -1)
  {
    match step
    case HandleTop(picked, inTime) =>
      TopOwned(s.zc, picked, inTime);
      TopNext(s.zc, picked, inTime);
    case HandleBottom(inTime, state, seqno) => BottomStarts(s, inTime, state, seqno, b);
    case StopZc(cardStopped) => StopOccurs(s.zc, cardStopped, b);
    case _ =>
  }

  lemma BottomStarts(s: Sys, inTime: bool, state: VbState, seqno: nat, b: Id)
    requires Inv(s) && Enabled(s, HandleBottom(inTime, state, seqno))
    requires b !in s.zc.release && b in FrameEnd(BottomHalf(s.zc, inTime), state, seqno).release
    ensures FrameEnd(BottomHalf(s.zc, inTime), state, seqno).prog.bot != Some(b)
  {
    var z1 := Advance(BottomHalf(s.zc, inTime), state, seqno);
    ProgramFrame(Count(s.zc, false), false, s.zc.next, inTime);
    KeptMembers(z1, z1.release, b);
    assert s.zc.cur == Some(b) && Occurs(s.zc, b) <= 1;
  }

  lemma TopSince(s: Sys, picked: Option<Id>, inTime: bool, b: Id, tops: int, bots: int, n: nat)
    requires Inv(s) && Enabled(s, HandleTop(picked, inTime)) && b in s.zc.release
    requires Since(s.zc, b, tops, bots) && Lagged(s.zc, b, n) && n < TWO_TO_THE_31
    ensures Since(TopHalf(s.zc, picked, inTime), b, tops + 1, bots)
  {
    TopOwned(s.zc, picked, inTime);
    TopRec(s.zc, picked, inTime, b);
    ProgramFrame(TakeNext(Count(s.zc, true), picked), true, picked, inTime);
    if s.zc.prog.top != Some(b) { LagNext(s.zc.ev.top, s.zc.Rec(b).freeAfter.top); }
  }

  lemma BottomSince(s: Sys, inTime: bool, state: VbState, seqno: nat, b: Id, tops: int, bots: int, n: nat)
    requires Inv(s) && Enabled(s, HandleBottom(inTime, state, seqno)) && b in s.zc.release
    requires Since(s.zc, b, tops, bots) && Lagged(s.zc, b, n) && n < TWO_TO_THE_31
    ensures Since(Advance(BottomHalf(s.zc, inTime), state, seqno), b, tops, bots + 1)
  {
    BottomRec(s.zc, inTime, state, seqno, b);
    ProgramFrame(Count(s.zc, false), false, s.zc.next, inTime);
    assert Occurs(s.zc, b) <= 1;
    LagNext(s.zc.ev.bot, s.zc.Rec(b).freeAfter.bot);
  }

  lemma StopSince(s: Sys, cardStopped: bool, b: Id, tops: int, bots: int)
    requires Inv(s) && b in s.zc.release && Since(s.zc, b, tops, bots)
    ensures cardStopped ==> StopMarks(s.zc, cardStopped).Free(b)
    ensures !cardStopped ==> Since(StopMarks(s.zc, cardStopped), b, tops, bots)
  {
    StopOccurs(s.zc, cardStopped, b);
    StopRec(s.zc, cardStopped, b);
    NextNotReached(s.zc.ev.top);
    NextNotReached(s.zc.ev.bot);
  }

  lemma ReleaseSince(z: Zc, b: Id, tops: int, bots: int)
    requires Since(z, b, tops, bots)
    ensures Since(Release(z), b, tops, bots)
  {
    assert Release(z).Rec(b) == z.Rec(b);
  }

  lemma KeepsSince(s: Sys, step: Step, s': Sys, b: Id, tops: int, bots: int, n: nat)
    requires Inv(s) && Enabled(s, step) && s' == Apply(s, step)
    requires b in s.zc.release && b in s'.zc.release
    requires Since(s.zc, b, tops, bots) && Lagged(s.zc, b, n) && n < TWO_TO_THE_31
    ensures Since(s'.zc, b, tops + (if step.HandleTop? then 1 else 0), bots + (if step.HandleBottom? then 1 else 0))
  {
    match step
    case HandleTop(picked, inTime) => TopSince(s, picked, inTime, b, tops, bots, n);
    case HandleBottom(inTime, state, seqno) =>
      BottomSince(s, inTime, state, seqno, b, tops, bots, n);
      ReleaseSince(Advance(BottomHalf(s.zc, inTime), state, seqno), b, tops, bots + 1);
    case StopZc(cardStopped) =>
      StopSince(s, cardStopped, b, tops, bots);
      KeptMembers(StopMarks(s.zc, cardStopped), StopMarks(s.zc, cardStopped).release, b);
      if !cardStopped { ReleaseSince(StopMarks(s.zc, cardStopped), b, tops, bots); }
    case _ => OthersSame(s, step);
  }

  /** A bottom half at which both counts reach 0 hands the buffer back. */
  lemma BottomReleases(s: Sys, step: Step, s': Sys, b: Id, tops: int, bots: int, n: nat)
    requires Inv(s) && Enabled(s, step) && s' == Apply(s, step) && step.HandleBottom?
    requires b in s.zc.release && Since(s.zc, b, tops, bots) && tops >= 0 && bots >= -1
    requires Lagged(s.zc, b, n) && n < TWO_TO_THE_31 - 1
    ensures b !in s'.zc.release
  {
    var z1 := Advance(BottomHalf(s.zc, step.inTime), step.state, step.seqno);
    BottomSince(s, step.inTime, step.state, step.seqno, b, tops, bots, n);
    BottomLagged(s, step.inTime, step.state, step.seqno, b, n);
    SinceFree(z1, b, tops, bots + 1, n + 1);
    KeptMembers(z1, z1.release, b);
  }

  // ---- counting halves ----

  lemma {:induction false} FirstHalf(steps: seq<Step>, i: nat, k: nat)
    requires i < k <= |steps|
    ensures Halves(steps, i, k) == Half(steps[i]) + Halves(steps, i + 1, k)
  {
    if k > i + 1 {
      FirstHalf(steps, i, k - 1);
    }
  }

  /** In alternating halves that end with a bottom there are as many tops, or one less if they also start with one. */
  lemma {:induction false} Balance(h: seq<bool>)
    requires Alternate(h) && h != []
    ensures Times(h, true) - Times(h, false) == (if h[0] != h[|h| - 1] then 0 else if h[0] then 1 else -1)
  {
    if |h| > 1 {
      var t, last := h[..|h| - 1], h[|h| - 1];
      assert h == t + [last];
      AlternateParts(t, [last]);
      Balance(t);
      assert h[|h| - 1] != h[|h| - 2];
    } else {
      assert h == [h[0]];
    }
  }

  lemma AlternateParts(h: seq<bool>, t: seq<bool>)
    requires Alternate(h + t)
    ensures Alternate(h) && Alternate(t)
    ensures h != [] && t != [] ==> h[|h| - 1] != t[0]
  {
    forall i | 0 < i < |h| ensures h[i] != h[i - 1] {
      assert (h + t)[i] == h[i] && (h + t)[i - 1] == h[i - 1];
    }
    forall i | 0 < i < |t| ensures t[i] != t[i - 1] {
      assert (h + t)[|h| + i] == t[i] && (h + t)[|h| + i - 1] == t[i - 1];
    }
    if h != [] && t != [] {
      assert (h + t)[|h|] == t[0] && (h + t)[|h| - 1] == h[|h| - 1];
    }
  }

  /** Before the second bottom half of the window come enough tops. */
  lemma EnoughTops(first: Step, h: seq<bool>)
    requires Alternate(Half(first) + (h + [false])) && Times(h, false) >= 1
    ensures TopsAt(first) + Times(h, true) >= 0
  {
    AlternateParts(Half(first), h + [false]);
    Balance(h + [false]);
    assert Times(h + [false], true) == Times(h, true) && Times(h + [false], false) == Times(h, false) + 1;
  }

  // ---- over whole runs ----

  lemma LaggedNext(states: seq<Sys>, steps: seq<Step>, k: nat, b: Id, n: nat)
    requires IsRun(states, steps) && 0 < k < |states| && n < TWO_TO_THE_31
    requires states[k - 1].zc.Held(b) ==> Lagged(states[k - 1].zc, b, n)
    ensures states[k].zc.Held(b) ==> Lagged(states[k].zc, b, n + Handled(steps[k - 1]))
  {
    StepInRun(states, steps, k);
    KeepsLagged(states[k - 1], steps[k - 1], states[k], b, n);
  }

  /** A buffer's marks lag by no more than the halves handled since a time it was not held. */
  lemma {:induction false} RunLagged(states: seq<Sys>, steps: seq<Step>, p: nat, k: nat, b: Id)
    requires IsRun(states, steps) && p <= k < |states|
    requires !states[p].zc.Held(b) && |Halves(steps, p, k)| < TWO_TO_THE_31
    ensures states[k].zc.Held(b) ==> Lagged(states[k].zc, b, |Halves(steps, p, k)|)
    decreases k
  {
    if k > p {
      RunLagged(states, steps, p, k - 1, b);
      LaggedNext(states, steps, k, b, |Halves(steps, p, k - 1)|);
    }
  }

  lemma StartsAt(states: seq<Sys>, steps: seq<Step>, i: nat, b: Id)
    requires IsRun(states, steps) && i < |steps|
    requires b !in states[i].zc.release && b in states[i + 1].zc.release
    ensures Since(states[i + 1].zc, b, TopsAt(steps[i]), -1)
  {
    StepInRun(states, steps, i + 1);
    StartsWaiting(states[i], steps[i], states[i + 1], b);
  }

  lemma SinceNext(states: seq<Sys>, steps: seq<Step>, k: nat, b: Id, tops: int, bots: int, n: nat)
    requires IsRun(states, steps) && 0 < k < |states| && n < TWO_TO_THE_31
    requires b in states[k - 1].zc.release && b in states[k].zc.release
    requires Since(states[k - 1].zc, b, tops, bots) && Lagged(states[k - 1].zc, b, n)
    ensures Since(states[k].zc, b, tops + (if steps[k - 1].HandleTop? then 1 else 0),
                  bots + (if steps[k - 1].HandleBottom? then 1 else 0))
  {
    StepInRun(states, steps, k);
    KeepsSince(states[k - 1], steps[k - 1], states[k], b, tops, bots, n);
  }

  /** The buffer stays on the list from step `i` to state `k`. */
  ghost predicate StaysListed(states: seq<Sys>, i: nat, k: nat, b: Id)
    requires k < |states|
  {
    i < k && b !in states[i].zc.release && forall m :: i < m <= k ==> b in states[m].zc.release
  }

  lemma {:induction false} WaitsThrough(states: seq<Sys>, steps: seq<Step>, p: nat, i: nat, k: nat, b: Id)
    requires IsRun(states, steps) && p <= i < k < |states| && StaysListed(states, i, k, b)
    requires !states[p].zc.Held(b) && |Halves(steps, p, k)| < TWO_TO_THE_31
    ensures var h := Halves(steps, i + 1, k);
            Since(states[k].zc, b, TopsAt(steps[i]) + Times(h, true), -1 + Times(h, false))
    decreases k
  {
    if k == i + 1 {
      StartsAt(states, steps, i, b);
    } else {
      var h := Halves(steps, i + 1, k - 1);
      WaitsThrough(states, steps, p, i, k - 1, b);
      RunLagged(states, steps, p, k - 1, b);
      OneMore(h, steps[k - 1]);
      SinceNext(states, steps, k, b, TopsAt(steps[i]) + Times(h, true), -1 + Times(h, false),
                |Halves(steps, p, k - 1)|);
    }
  }

  lemma OneMore(h: seq<bool>, step: Step)
    ensures var h' := h + Half(step);
            && Times(h', true) == Times(h, true) + (if step.HandleTop? then 1 else 0)
            && Times(h', false) == Times(h, false) + (if step.HandleBottom? then 1 else 0)
  {
  }

  /**
   * A buffer put on the release list is handed back no later than the second
   * bottom half after that, if the halves alternate from the one that put it
   * there on. What came before does not matter, as long as fewer than 2^31 - 1
   * halves were handled since some time `p` the buffer was not with zero-copy.
   */
  lemma ReleasedBySecondBottom(states: seq<Sys>, steps: seq<Step>, p: nat, i: nat, j: nat, b: Id)
    requires IsRun(states, steps) && p <= i < j < |states|
    requires !states[p].zc.Held(b) && |Halves(steps, p, j)| < TWO_TO_THE_31 - 1
    requires Alternate(Halves(steps, i, j))
    requires b !in states[i].zc.release && b in states[i + 1].zc.release
    requires Times(Halves(steps, i + 1, j), false) >= 2
    ensures exists k :: i + 1 < k <= j && b !in states[k].zc.release
  {
    NotListed(states, steps, p, i, j, b);
  }

  lemma {:induction false} NotListed(states: seq<Sys>, steps: seq<Step>, p: nat, i: nat, j: nat, b: Id)
    requires IsRun(states, steps) && p <= i < j < |states|
    requires !states[p].zc.Held(b) && |Halves(steps, p, j)| < TWO_TO_THE_31 - 1
    requires Alternate(Halves(steps, i, j)) && Times(Halves(steps, i + 1, j), false) >= 2
    ensures !StaysListed(states, i, j, b)
    decreases j
  {
    var k := j - 1;
    OneMore(Halves(steps, i + 1, k), steps[k]);
    AlternateParts(Halves(steps, i, k), Half(steps[k]));
    if StaysListed(states, i, j, b) {
      if steps[k].HandleBottom? {
        SecondBottom(states, steps, p, i, j, b);
      } else {
        NotListed(states, steps, p, i, k, b);
      }
    }
  }

  lemma ReleasesNext(states: seq<Sys>, steps: seq<Step>, j: nat, b: Id, tops: int, bots: int, n: nat)
    requires IsRun(states, steps) && 0 < j < |states| && steps[j - 1].HandleBottom? && n < TWO_TO_THE_31 - 1
    requires b in states[j - 1].zc.release && Since(states[j - 1].zc, b, tops, bots) && tops >= 0 && bots >= -1
    requires Lagged(states[j - 1].zc, b, n)
    ensures b !in states[j].zc.release
  {
    StepInRun(states, steps, j);
    BottomReleases(states[j - 1], steps[j - 1], states[j], b, tops, bots, n);
  }

  lemma TopsThere(steps: seq<Step>, i: nat, j: nat)
    requires i + 1 < j <= |steps| && steps[j - 1].HandleBottom? && Alternate(Halves(steps, i, j))
    requires Times(Halves(steps, i + 1, j - 1), false) >= 1
    ensures TopsAt(steps[i]) + Times(Halves(steps, i + 1, j - 1), true) >= 0
  {
    FirstHalf(steps, i, j);
    EnoughTops(steps[i], Halves(steps, i + 1, j - 1));
  }

  /** The last step of the window is the second bottom half in it. */
  lemma SecondBottom(states: seq<Sys>, steps: seq<Step>, p: nat, i: nat, j: nat, b: Id)
    requires IsRun(states, steps) && p <= i && i + 1 < j < |states| && steps[j - 1].HandleBottom?
    requires !states[p].zc.Held(b) && |Halves(steps, p, j)| < TWO_TO_THE_31 - 1
    requires Alternate(Halves(steps, i, j))
    requires StaysListed(states, i, j - 1, b)
    requires Times(Halves(steps, i + 1, j - 1), false) >= 1
    ensures b !in states[j].zc.release
  {
    var h, n := Halves(steps, i + 1, j - 1), |Halves(steps, p, j - 1)|;
    TopsThere(steps, i, j);
    WaitedUntil(states, steps, p, i, j - 1, b, n);
    assert |Halves(steps, p, j)| == n + 1;
    ReleasesNext(states, steps, j, b, TopsAt(steps[i]) + Times(h, true), -1 + Times(h, false), n);
  }

  lemma WaitedUntil(states: seq<Sys>, steps: seq<Step>, p: nat, i: nat, k: nat, b: Id, n: nat)
    requires IsRun(states, steps) && p <= i < k < |states| && StaysListed(states, i, k, b)
    requires !states[p].zc.Held(b) && n == |Halves(steps, p, k)| < TWO_TO_THE_31
    ensures var h := Halves(steps, i + 1, k);
            Since(states[k].zc, b, TopsAt(steps[i]) + Times(h, true), -1 + Times(h, false))
    ensures b in states[k].zc.release && Lagged(states[k].zc, b, n)
  {
    WaitsThrough(states, steps, p, i, k, b);
    RunLagged(states, steps, p, k, b);
  }
}
