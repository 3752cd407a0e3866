/**
 * The frame-rate measurement: each interval between frame ends counts as the
 * number of periods it spans, in units of the shortest interval seen, and a
 * window of a second yields the mean period.
 */
module RateWindow {
  import opened Basics

  const MSEC: nat := 1_000_000
  const SECOND: nat := 1_000_000_000
  const RESTART: nat := 200 * MSEC

  /** Times are nanoseconds; 0 stands for none. */
  datatype Win = Win(frameEnd: nat, start: nat, minDelta: nat, frames: nat)

  /** Periods an interval counts as, in units of `unit`. */
  function Count(d: nat, unit: nat): nat
    requires unit > 0
  {
    var n := (d + unit / 2) / unit;
    if n == 0 then 1 else n
  }

  predicate Restarts(w: Win, now: nat) {
    w.frameEnd == 0 || now < w.frameEnd || now - w.frameEnd > RESTART || w.start == 0
  }

  /** The shortest interval seen, which the next division is by. */
  function Unit(w: Win, now: nat): nat
    requires !Restarts(w, now)
  {
    var d := now - w.frameEnd;
    if w.minDelta == 0 || d < w.minDelta then d else w.minDelta
  }

  /** The code divides by zero: two frame ends of an open window at one time. */
  predicate DividesByZero(w: Win, now: nat) {
    !Restarts(w, now) && Unit(w, now) == 0
  }

  lemma DividesByZeroExactly(w: Win, now: nat)
    ensures DividesByZero(w, now) <==> !Restarts(w, now) && now == w.frameEnd
  {
  }

  /** The window after a frame end, and the measured period (0: the window is still open). */
  function Fed(w: Win, now: nat): (Win, nat)
    requires !DividesByZero(w, now)
  {
    if Restarts(w, now) then (Win(now, now, 0, 0), 0) else
    var d := now - w.frameEnd;
    var unit := Unit(w, now);
    var frames := w.frames + Count(d, unit);
    if now - w.start < SECOND then (Win(now, w.start, unit, frames), 0)
    else (Win(now, now, unit, 0), (now - w.start) / frames)
  }

  /** Counts stay below 2^32, and never reach the division as zero. */
  predicate Sane(w: Win) {
    w.frameEnd > 0 && w.start > 0 ==>
      && w.start <= w.frameEnd && w.frames <= w.frameEnd - w.start
      && w.frameEnd - w.start < SECOND
  }

  lemma ScaledBy(d: int, k: nat)
    ensures d >= 1 ==> d * k >= k
    ensures d <= -1 ==> d * k <= -(k as int)
  {
  }

  lemma Quotient(x: nat, k: nat, q: nat)
    requires k > 0 && q * k <= x < q * k + k
    ensures x / k == q
  {
    var n := x / k;
    assert (q - n) * k == q * k - n * k;
    ScaledBy(q - n, k);
  }

  /** An interval counts as `m` when it is within half a unit of `m` units. */
  lemma CountIs(d: nat, unit: nat, m: nat)
    requires unit > 0 && m > 0 && m * unit <= d + unit / 2 < m * unit + unit
    ensures Count(d, unit) == m
  {
    Quotient(d + unit / 2, unit, m);
  }

  lemma CountAbove(d: nat, unit: nat, m: nat)
    requires unit > 0 && m * unit + unit <= d + unit / 2
    ensures Count(d, unit) > m
  {
    var n := (d + unit / 2) / unit;
    assert (m - n) * unit == m * unit - n * unit;
    ScaledBy(m - n, unit);
    assert n * unit <= d + unit / 2 < n * unit + unit;
  }

  lemma CountBound(d: nat, unit: nat)
    requires 0 < unit <= d
    ensures 1 <= Count(d, unit) <= d
  {
    var n := (d + unit / 2) / unit;
    assert n * unit <= d + unit / 2 < n * unit + unit;
    Product(n, unit, d);
  }

  lemma Product(n: nat, unit: nat, d: nat)
    requires 0 < unit <= d && n * unit <= d + unit / 2
    ensures n <= d
  {
    if unit >= 2 {
      assert n * (unit - 2) >= 0;
      assert n * unit >= 2 * n;
    }
  }

  lemma FedSane(w: Win, now: nat)
    requires Sane(w) && !DividesByZero(w, now)
    ensures Sane(Fed(w, now).0) && Fed(w, now).0.frames < TWO_TO_THE_32
  {
    if !Restarts(w, now) {
      CountBound(now - w.frameEnd, Unit(w, now));
    }
  }

  /** hws_rate_win and hws_rate_frame_end(). */
  class Window {
    var frameEnd: nat
    var start: nat
    var minDelta: nat
    var frames: u32

    ghost function View(): Win
      reads this
    {
      Win(frameEnd, start, minDelta, frames)
    }

    constructor ()
      ensures View() == Win(0, 0, 0, 0)
    {
      frameEnd, start, minDelta, frames := 0, 0, 0, 0;
    }

    method FrameEnd(now: nat) returns (iv: nat)
      requires Sane(View()) && !DividesByZero(View(), now)
      modifies this
      ensures Sane(View()) && (View(), iv) == Fed(old(View()), now)
    {
      FedSane(View(), now);
      var prev := frameEnd;
      frameEnd := now;
      if prev == 0 || now < prev || now - prev > RESTART || start == 0 {
        start, frames, minDelta := now, 0, 0;
        return 0;
      }
      var d := now - prev;
      if minDelta == 0 || d < minDelta {
        minDelta := d;
      }
      CountBound(d, minDelta);
      var n := (d + minDelta / 2) / minDelta;
      frames := frames + (if n == 0 then 1 else n);
      var elapsed := now - start;
      if elapsed < SECOND {
        return 0;
      }
      iv := elapsed / frames;
      start, frames := now, 0;
    }
  }

  // ---- any frame ends ----

  /** Frame ends at times that are not 0, no two in a row at one time. */
  predicate Times(ts: seq<nat>) {
    (forall t :: t in ts ==> t > 0) && forall i :: 0 < i < |ts| ==> ts[i] != ts[i - 1]
  }

  lemma TimesPrefix(ts: seq<nat>)
    requires Times(ts) && ts != []
    ensures Times(ts[..|ts| - 1])
    ensures |ts| > 1 ==> ts[..|ts| - 1][|ts| - 2] == ts[|ts| - 2] != ts[|ts| - 1]
  {
    var t := ts[..|ts| - 1];
    forall i | 0 <= i < |t| ensures t[i] > 0 && (i > 0 ==> t[i] != t[i - 1]) {
      assert t[i] == ts[i] && ts[i] in ts && (i > 0 ==> t[i - 1] == ts[i - 1]);
    }
  }

  /** The window after all of them, and what the last one measured. */
  function FedAll(ts: seq<nat>): (r: (Win, nat))
    requires Times(ts)
    ensures r.0.frameEnd == (if ts == [] then 0 else ts[|ts| - 1])
  {
    if ts == [] then (Win(0, 0, 0, 0), 0) else
    TimesPrefix(ts);
    Fed(FedAll(ts[..|ts| - 1]).0, ts[|ts| - 1])
  }

  /** From frame end `s` to the last one, no two are more than 200 ms apart, nor less than `shortest`. */
  ghost predicate NoGap(ts: seq<nat>, s: nat, shortest: nat) {
    && s < |ts|
    && forall i :: s < i < |ts| ==> ts[i - 1] + shortest <= ts[i] <= ts[i - 1] + RESTART
  }

  /**
   * Whatever the times of the frame ends, the window began at one of them and
   * holds no gap; and a period is measured over such a window of a second or
   * more, none of whose intervals is shorter than the unit they were counted in.
   */
  lemma {:induction false} WindowHasNoGap(ts: seq<nat>) returns (s: nat, from: nat)
    requires Times(ts) && ts != []
    ensures var w := FedAll(ts).0; NoGap(ts, s, w.minDelta) && w.start == ts[s] && (w.minDelta == 0 ==> s == |ts| - 1)
    ensures FedAll(ts).1 > 0 ==>
              NoGap(ts, from, FedAll(ts).0.minDelta) && ts[|ts| - 1] - ts[from] >= SECOND && s == |ts| - 1
  {
    var n := |ts| - 1;
    var t, now := ts[..n], ts[n];
    s, from := n, 0;
    if t != [] {
      TimesPrefix(ts);
      var was, _ := WindowHasNoGap(t);
      if !Restarts(FedAll(t).0, now) {
        GapGrows(ts, was, FedAll(t).0.minDelta, Unit(FedAll(t).0, now));
        from := was;
        if now - ts[was] < SECOND { s := was; }
      }
    }
  }

  lemma GapGrows(ts: seq<nat>, s: nat, shortest: nat, unit: nat)
    requires |ts| >= 2 && NoGap(ts[..|ts| - 1], s, shortest) && (unit <= shortest || s == |ts| - 2)
    requires ts[|ts| - 2] + unit <= ts[|ts| - 1] <= ts[|ts| - 2] + RESTART
    ensures NoGap(ts, s, unit)
  {
    var t := ts[..|ts| - 1];
    forall i | s < i < |ts| ensures ts[i - 1] + unit <= ts[i] <= ts[i - 1] + RESTART {
      if i < |ts| - 1 { assert t[i] == ts[i] && t[i - 1] == ts[i - 1]; }
    }
  }

  // ---- when an interval counts as the periods it spans ----

  /** All intervals of `m` periods that frame ends at most `jitter` early or late can make are counted as `m`. */
  ghost predicate AlwaysCounted(period: nat, jitter: nat, m: nat)
    requires 2 * jitter < period
  {
    forall unit: nat, d: nat ::
      period - 2 * jitter <= unit <= period + 2 * jitter && m * period - 2 * jitter <= d <= m * period + 2 * jitter ==>
        unit > 0 && Count(d, unit) == m
  }

  /**
   * The bound on the jitter, derived: an interval of `m` periods is counted
   * right whatever the jitter if and only if the jitter is below the period
   * divided by 2(2m + 3).
   */
  lemma JitterBound(period: nat, jitter: nat, m: nat)
    requires 2 * jitter < period && m > 0
    ensures AlwaysCounted(period, jitter, m) <==> 2 * jitter * (2 * m + 3) < period
  {
    if 2 * jitter * (2 * m + 3) < period {
      forall unit: nat, d: nat
        | period - 2 * jitter <= unit <= period + 2 * jitter && m * period - 2 * jitter <= d <= m * period + 2 * jitter
        ensures unit > 0 && Count(d, unit) == m
      {
        CountedRight(period, jitter, m, unit, d);
      }
    } else {
      CountedTooHigh(period, jitter, m);
    }
  }

  lemma TimesWithin(m: nat, unit: int, period: nat, e: nat)
    requires period - e <= unit <= period + e
    ensures m * period - m * e <= m * unit <= m * period + m * e
  {
    assert m * (period + e - unit) == m * period + m * e - m * unit;
    assert m * (unit - period + e) == m * unit - m * period + m * e;
    NotNegative(m, period + e - unit);
    NotNegative(m, unit - period + e);
  }

  lemma NotNegative(m: nat, x: int)
    requires x >= 0
    ensures m * x >= 0
  {
  }

  lemma BoundSplit(jitter: nat, m: nat)
    ensures 2 * jitter * (2 * m + 3) == 2 * (m * (2 * jitter)) + 3 * (2 * jitter)
    ensures m * (2 * jitter) >= 0
  {
  }

  lemma CountedRight(period: nat, jitter: nat, m: nat, unit: nat, d: nat)
    requires m > 0 && 2 * jitter * (2 * m + 3) < period
    requires period - 2 * jitter <= unit <= period + 2 * jitter
               && m * period - 2 * jitter <= d <= m * period + 2 * jitter
    ensures unit > 0 && Count(d, unit) == m
  {
    BoundSplit(jitter, m);
    TimesWithin(m, unit, period, 2 * jitter);
    CountIs(d, unit, m);
  }

  /** The shortest single-period interval, and then the longest interval of `m` periods. */
  lemma CountedTooHigh(period: nat, jitter: nat, m: nat)
    requires 2 * jitter < period && m > 0 && 2 * jitter * (2 * m + 3) >= period
    ensures !AlwaysCounted(period, jitter, m)
  {
    var unit, d := period - 2 * jitter, m * period + 2 * jitter;
    BoundSplit(jitter, m);
    assert m * unit == m * period - m * (2 * jitter);
    CountAbove(d, unit, m);
  }

  // ---- a steady signal ----

  /** A frame end: its time, and which period of the signal it ends. */
  datatype Tick = Tick(at: nat, n: nat)

  /** The frame ends of a signal of one period that started at `base`. */
  predicate OnBeat(t: Tick, base: int, period: nat, jitter: nat) {
    base + period * t.n - jitter <= t.at <= base + period * t.n + jitter
  }

  /** One frame end follows another without restarting the window. */
  predicate Follows(a: Tick, b: Tick, period: nat, jitter: nat) {
    && a.n < b.n && a.at < b.at <= a.at + RESTART
    && 2 * jitter * (2 * (b.n - a.n) + 3) < period
  }

  /** The window that opened at `start` has counted every period up to the last frame end. */
  predicate Tracking(w: Win, start: Tick, last: Tick, period: nat, jitter: nat) {
    && 0 < start.at <= last.at && start.n <= last.n
    && w.frameEnd == last.at && w.start == start.at
    && w.frames == last.n - start.n
    && 2 * jitter < period && period - 2 * jitter <= w.minDelta <= period + 2 * jitter
  }

  /** The measured period of a window of `n` frames is the mean, rounded down. */
  predicate Accurate(iv: nat, period: nat, jitter: nat, n: int) {
    n > 0 && period * n - 2 * jitter - (n - 1) <= iv * n <= period * n + 2 * jitter
  }

  /** The first interval since the restart spans one period. */
  lemma FirstInterval(base: int, period: nat, jitter: nat, a: Tick, b: Tick)
    requires OnBeat(a, base, period, jitter) && OnBeat(b, base, period, jitter)
    requires a.at > 0 && Follows(a, b, period, jitter) && b.n == a.n + 1
    ensures var w := Fed(Win(a.at, a.at, 0, 0), b.at);
            w.1 == 0 && Tracking(w.0, a, b, period, jitter)
  {
    var d: nat := b.at - a.at;
    Spanned(base, period, jitter, a, b);
    OnePeriod(jitter, period);
    CountIs(d, d, 1);
  }

  lemma OnePeriod(jitter: nat, period: nat)
    requires 2 * jitter * (2 * 1 + 3) < period
    ensures 10 * jitter < period && 1 * period == period
  {
  }

  lemma Spanned(base: int, period: nat, jitter: nat, a: Tick, b: Tick)
    requires OnBeat(a, base, period, jitter) && OnBeat(b, base, period, jitter) && a.n <= b.n
    ensures (b.n - a.n) * period - 2 * jitter <= b.at - a.at <= (b.n - a.n) * period + 2 * jitter
  {
    assert period * b.n == period * a.n + (b.n - a.n) * period;
  }

  /** Each further frame end adds the periods since the last one, or closes the window with the mean period. */
  lemma NextInterval(w: Win, base: int, period: nat, jitter: nat, start: Tick, a: Tick, b: Tick)
    requires Tracking(w, start, a, period, jitter)
    requires OnBeat(start, base, period, jitter) && OnBeat(a, base, period, jitter) && OnBeat(b, base, period, jitter)
    requires Follows(a, b, period, jitter)
    ensures var next := Fed(w, b.at);
            if b.at - start.at < SECOND then next.1 == 0 && Tracking(next.0, start, b, period, jitter)
            else Tracking(next.0, b, b, period, jitter) && Accurate(next.1, period, jitter, b.n - start.n)
  {
    var d: nat := b.at - a.at;
    var unit: nat := if d < w.minDelta then d else w.minDelta;
    IntervalCounted(w.minDelta, base, period, jitter, a, b);
    assert !Restarts(w, b.at) && Fed(w, b.at).0.minDelta == unit;
    if b.at - start.at >= SECOND {
      Spanned(base, period, jitter, start, b);
      Mean(b.at - start.at, b.n - start.n);
    }
  }

  /** An interval counts as the periods it spans, and the shortest interval stays within its bounds. */
  lemma IntervalCounted(minDelta: nat, base: int, period: nat, jitter: nat, a: Tick, b: Tick)
    requires 2 * jitter < period && period - 2 * jitter <= minDelta <= period + 2 * jitter
    requires OnBeat(a, base, period, jitter) && OnBeat(b, base, period, jitter) && Follows(a, b, period, jitter)
    ensures var d := b.at - a.at;
            var unit := if d < minDelta then d else minDelta;
            Count(d, unit) == b.n - a.n && period - 2 * jitter <= unit <= period + 2 * jitter
  {
    var d: nat, m: nat := b.at - a.at, b.n - a.n;
    Spanned(base, period, jitter, a, b);
    Longer(m, period);
    CountedRight(period, jitter, m, if d < minDelta then d else minDelta, d);
  }

  lemma Longer(m: nat, period: nat)
    requires m > 0
    ensures m * period >= period
  {
    assert (m - 1) * period >= 0;
  }

  lemma Mean(elapsed: nat, n: nat)
    requires n > 0
    ensures elapsed / n * n <= elapsed < elapsed / n * n + n
  {
  }

  /** The states a window goes through, fed the frame ends after a restart at the first. */
  function Fold(ts: seq<Tick>): (r: (Win, nat))
    requires ts != [] && forall i :: 0 < i < |ts| ==> ts[i - 1].at < ts[i].at
    ensures r.0.frameEnd == ts[|ts| - 1].at
  {
    if |ts| == 1 then (Win(ts[0].at, ts[0].at, 0, 0), 0) else
    Fed(Fold(ts[..|ts| - 1]).0, ts[|ts| - 1].at)
  }

  ghost predicate Steady(ts: seq<Tick>, base: int, period: nat, jitter: nat) {
    && |ts| >= 2 && ts[0].at > 0 && ts[1].n == ts[0].n + 1
    && (forall i :: 0 <= i < |ts| ==> OnBeat(ts[i], base, period, jitter))
    && (forall i :: 0 < i < |ts| ==> Follows(ts[i - 1], ts[i], period, jitter))
  }

  lemma SteadyPrefix(ts: seq<Tick>, base: int, period: nat, jitter: nat)
    requires Steady(ts, base, period, jitter) && |ts| > 2
    ensures Steady(ts[..|ts| - 1], base, period, jitter)
    ensures Follows(ts[|ts| - 2], ts[|ts| - 1], period, jitter) && OnBeat(ts[|ts| - 1], base, period, jitter)
    ensures forall i :: 0 <= i < |ts| ==> OnBeat(ts[i], base, period, jitter)
  {
    var t := ts[..|ts| - 1];
    forall i | 0 < i < |t| ensures Follows(t[i - 1], t[i], period, jitter) {
      assert Follows(ts[i - 1], ts[i], period, jitter);
    }
  }

  lemma SteadyNext(w: Win, base: int, period: nat, jitter: nat, start: Tick, a: Tick, b: Tick)
    requires Tracking(w, start, a, period, jitter)
    requires OnBeat(start, base, period, jitter) && OnBeat(a, base, period, jitter) && OnBeat(b, base, period, jitter)
    requires Follows(a, b, period, jitter)
    ensures var next := Fed(w, b.at);
            if b.at - start.at < SECOND then next.1 == 0 && Tracking(next.0, start, b, period, jitter)
            else Tracking(next.0, b, b, period, jitter) && Accurate(next.1, period, jitter, b.n - start.n)
                 && (jitter == 0 ==> next.1 == period)
  {
    NextInterval(w, base, period, jitter, start, a, b);
    if b.at - start.at >= SECOND && jitter == 0 { ExactMean(Fed(w, b.at).1, period, b.n - start.n); }
  }

  /**
   * For a steady signal every window measures the period to within twice the
   * jitter divided by the frames in it, rounded down, however many frame ends
   * are missed, as long as the jitter is within its bound for each gap.
   */
  lemma {:induction false} SteadyIsMeasured(ts: seq<Tick>, base: int, period: nat, jitter: nat) returns (s: nat, o: nat)
    requires Steady(ts, base, period, jitter)
    ensures s < |ts| && Tracking(Fold(ts).0, ts[s], ts[|ts| - 1], period, jitter)
    ensures Fold(ts).1 != 0 ==> o < s == |ts| - 1 && Accurate(Fold(ts).1, period, jitter, ts[s].n - ts[o].n)
    ensures Fold(ts).1 != 0 && jitter == 0 ==> Fold(ts).1 == period
    decreases |ts|
  {
    var t := ts[..|ts| - 1];
    o := 0;
    if |ts| == 2 {
      s := 0;
      assert OnBeat(ts[0], base, period, jitter) && OnBeat(ts[1], base, period, jitter)
          && Follows(ts[0], ts[1], period, jitter);
      FirstInterval(base, period, jitter, ts[0], ts[1]);
    } else {
      SteadyPrefix(ts, base, period, jitter);
      s, o := SteadyIsMeasured(t, base, period, jitter);
      SteadyNext(Fold(t).0, base, period, jitter, ts[s], ts[|ts| - 2], ts[|ts| - 1]);
      if ts[|ts| - 1].at - ts[s].at >= SECOND {
        o, s := s, |ts| - 1;
      }
    }
  }

  lemma ExactMean(iv: nat, period: nat, n: nat)
    requires Accurate(iv, period, 0, n)
    ensures iv == period
  {
    assert (period - iv) * n == period * n - iv * n;
    ScaledBy(period - iv, n);
  }
}
