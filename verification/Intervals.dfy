/** Picking the standard or the offered frame interval nearest to a measured or wanted one. */
module Intervals {
  import opened Basics

  const SECOND_NS: nat := 1_000_000_000
  const TWO_TO_THE_64: int := 0x1_0000_0000_0000_0000

  type u64 = x: int | 0 <= x < TWO_TO_THE_64

  /** The standard frame intervals, as numerator and denominator of seconds. */
  const STANDARD: seq<(nat, nat)> := [
    (1001, 24000), (1, 24), (1, 25), (1001, 30000), (1, 30), (1, 50), (1001, 60000), (1, 60), (1, 100),
    (1001, 120000), (1, 120), (1, 144), (1, 240)]

  function Nanoseconds(f: (nat, nat)): nat
    requires f.1 > 0
  {
    f.0 * SECOND_NS / f.1
  }

  /** The standard intervals in nanoseconds. */
  const STANDARD_NS: seq<u64> := [
    41708333, 41666666, 40000000, 33366666, 33333333, 20000000, 16683333, 16666666, 10000000, 8341666, 8333333,
        6944444, 4166666]

  lemma StandardNs(i: nat)
    requires i < 13
    ensures |STANDARD| == |STANDARD_NS| == 13
    ensures STANDARD[i].1 > 0 && STANDARD_NS[i] == Nanoseconds(STANDARD[i])
  {
  }

  function Err(a: u64, b: u64): u64 {
    if a > b then a - b else b - a
  }

  /** The first of the candidates nearest to `want`. */
  predicate FirstNearest(cand: seq<u64>, want: u64, i: int) {
    && 0 <= i < |cand|
    && (forall j :: 0 <= j < |cand| ==> Err(cand[i], want) <= Err(cand[j], want))
    && (forall j :: 0 <= j < i ==> Err(cand[i], want) < Err(cand[j], want))
  }

  /** The loop of both functions. An error of 2^64 - 1 is never below the initial one. */
  method Nearest(cand: seq<u64>, want: u64) returns (best: int, bestErr: u64)
    ensures best < 0 <==> forall j :: 0 <= j < |cand| ==> Err(cand[j], want) == TWO_TO_THE_64 - 1
    ensures best < 0 ==> best == -1
    ensures best >= 0 ==> FirstNearest(cand, want, best) && bestErr == Err(cand[best], want)
  {
    best, bestErr := -1, TWO_TO_THE_64 - 1;
    for i := 0 to |cand|
      invariant -1 <= best < i
      invariant best < 0 ==> bestErr == TWO_TO_THE_64 - 1
      invariant best >= 0 ==> bestErr == Err(cand[best], want) < TWO_TO_THE_64 - 1
      invariant forall j :: 0 <= j < i ==> bestErr <= Err(cand[j], want)
      invariant forall j :: 0 <= j < best ==> bestErr < Err(cand[j], want)
    {
      var err := Err(cand[i], want);
      if err < bestErr {
        best, bestErr := i, err;
      }
    }
  }

  /** hws_snap_interval(); the product wraps at 64 bits. */
  method SnapInterval(meas: u64, tol: u32) returns (best: int)
    ensures best >= 0 ==> FirstNearest(STANDARD_NS, meas, best)
    ensures best >= 0 ==> STANDARD_NS[best] == Nanoseconds(STANDARD[best])
    ensures best >= 0 <==> exists i :: FirstNearest(STANDARD_NS, meas, i)
                                       && Within(Err(STANDARD_NS[i], meas), tol, STANDARD_NS[i])
    ensures best < 0 ==> best == -1
  {
    var at, err := Nearest(STANDARD_NS, meas);
    assert Err(STANDARD_NS[12], meas) < TWO_TO_THE_64 - 1;
    if at >= 0 && err * tol % TWO_TO_THE_64 <= STANDARD_NS[at] {
      StandardNs(at);
      return at;
    }
    best := -1;
    forall i | FirstNearest(STANDARD_NS, meas, i) ensures i == at {
      OneNearest(STANDARD_NS, meas, i, at);
    }
  }

  lemma OneNearest(cand: seq<u64>, want: u64, i: int, j: int)
    requires FirstNearest(cand, want, i) && FirstNearest(cand, want, j)
    ensures i == j
  {
    assert Err(cand[i], want) == Err(cand[j], want);
  }

  /** hws_closest_interval(). */
  method ClosestInterval(cand: seq<u64>, want: u64) returns (best: int)
    ensures best >= 0 ==> FirstNearest(cand, want, best)
    ensures best >= 0 <==> exists i :: FirstNearest(cand, want, i) && Err(cand[i], want) < TWO_TO_THE_64 - 1
                                       && Within(Err(cand[i], want), 100, want)
    ensures best < 0 ==> best == -1
  {
    var at, err := Nearest(cand, want);
    if at >= 0 && err * 100 % TWO_TO_THE_64 <= want {
      return at;
    }
    best := -1;
    forall i | FirstNearest(cand, want, i) && at >= 0 ensures i == at {
      OneNearest(cand, want, i, at);
    }
  }

  // ---- where the product wraps ----

  /** The tolerance test as the code makes it, and as it is meant. */
  predicate Within(err: u64, tol: nat, bound: u64) {
    err * tol % TWO_TO_THE_64 <= bound
  }

  predicate MeantWithin(err: u64, tol: nat, bound: u64) {
    err * tol <= bound
  }

  /** The smallest error whose product with `tol` wraps. */
  function FirstWrap(tol: nat): nat
    requires tol > 0
  {
    (TWO_TO_THE_64 + tol - 1) / tol
  }

  lemma FirstWrapIs(tol: nat)
    requires tol > 0
    ensures TWO_TO_THE_64 <= FirstWrap(tol) * tol < TWO_TO_THE_64 + tol
    ensures forall err: nat :: err < FirstWrap(tol) ==> err * tol < TWO_TO_THE_64
  {
    Quotient(TWO_TO_THE_64 + tol - 1, tol);
    forall err: nat | err < FirstWrap(tol) ensures err * tol < TWO_TO_THE_64 {
      OneLess(err, FirstWrap(tol), tol);
    }
  }

  lemma Quotient(x: nat, tol: nat)
    requires tol > 0
    ensures x / tol * tol <= x < x / tol * tol + tol
  {
  }

  lemma OneLess(err: nat, f: nat, tol: nat)
    requires err < f
    ensures err * tol <= f * tol - tol
  {
    assert f * tol - tol - err * tol == (f - 1 - err) * tol;
    NotNegative(f - 1 - err, tol);
  }

  lemma NotNegative(a: nat, b: nat)
    ensures a * b >= 0
  {
  }

  lemma NoWrap(x: int)
    requires 0 <= x < TWO_TO_THE_64
    ensures x % TWO_TO_THE_64 == x
  {
  }

  /** Below the first wrap the test is the one meant, and at it it accepts whatever the bound. */
  lemma WithinIs(err: u64, tol: nat, bound: u64)
    requires tol > 0
    ensures err < FirstWrap(tol) ==> (Within(err, tol, bound) <==> MeantWithin(err, tol, bound))
    ensures err == FirstWrap(tol) && bound >= tol - 1 && tol <= TWO_TO_THE_64 ==>
              Within(err, tol, bound) && !MeantWithin(err, tol, bound)
  {
    FirstWrapIs(tol);
    if err < FirstWrap(tol) {
      NoWrap(err * tol);
    } else if err == FirstWrap(tol) && tol <= TWO_TO_THE_64 {
      NoWrap(err * tol - TWO_TO_THE_64);
      assert err * tol % TWO_TO_THE_64 == err * tol - TWO_TO_THE_64;
    }
  }

  /** hws_snap_interval() judges the measurement as it is meant to. */
  ghost predicate SnapsRight(meas: u64, tol: nat) {
    forall i :: FirstNearest(STANDARD_NS, meas, i) ==>
      (Within(Err(STANDARD_NS[i], meas), tol, STANDARD_NS[i]) <==>
       MeantWithin(Err(STANDARD_NS[i], meas), tol, STANDARD_NS[i]))
  }

  /** From the longest standard interval on, that is the nearest; below it the error is less than it. */
  lemma NearestIs(meas: u64, i: int)
    requires FirstNearest(STANDARD_NS, meas, i)
    ensures meas >= STANDARD_NS[0] ==> i == 0
    ensures meas < STANDARD_NS[0] ==> Err(STANDARD_NS[i], meas) <= STANDARD_NS[0]
  {
    assert Err(STANDARD_NS[i], meas) <= Err(STANDARD_NS[0], meas);
    StandardBelow(i);
  }

  lemma StandardBelow(i: nat)
    requires i < |STANDARD_NS|
    ensures i > 0 ==> STANDARD_NS[i] < STANDARD_NS[0]
  {
  }

  /** For every tolerance, no measurement below the first wrap past the longest interval is misjudged. */
  lemma SnapsRightBelow(meas: u64, tol: u32)
    requires tol > 0 && meas < STANDARD_NS[0] + FirstWrap(tol)
    ensures SnapsRight(meas, tol)
  {
    forall i | FirstNearest(STANDARD_NS, meas, i)
      ensures Within(Err(STANDARD_NS[i], meas), tol, STANDARD_NS[i]) <==>
              MeantWithin(Err(STANDARD_NS[i], meas), tol, STANDARD_NS[i])
    {
      NearestIs(meas, i);
      if meas < STANDARD_NS[0] { LateWrap(tol); }
      WithinIs(Err(STANDARD_NS[i], meas), tol, STANDARD_NS[i]);
    }
  }

  /** A 32-bit tolerance does not wrap the errors of short measurements. */
  lemma LateWrap(tol: u32)
    requires tol > 0
    ensures FirstWrap(tol) > STANDARD_NS[0]
  {
    FirstWrapIs(tol);
  }

  /**
   * All measurements below `limit` are judged right if and only if the limit
   * is at most the longest interval plus 2^64 / tol, rounded up: at that point
   * the product wraps and the measurement is taken for 24000/1001 frames a
   * second. (A tolerance of 1 never wraps.)
   */
  lemma SnapIsExact(tol: u32, limit: nat)
    requires 1 < tol <= STANDARD_NS[0]
    ensures (forall meas: u64 :: meas < limit ==> SnapsRight(meas, tol)) <==> limit <= STANDARD_NS[0] + FirstWrap(tol)
  {
    var at: nat := STANDARD_NS[0] + FirstWrap(tol);
    if limit <= at {
      forall meas: u64 | meas < limit ensures SnapsRight(meas, tol) {
        SnapsRightBelow(meas, tol);
      }
    } else {
      HalfRange(tol);
      assert at < TWO_TO_THE_64;
      SnapWraps(at, tol);
    }
  }

  lemma HalfRange(tol: u32)
    requires tol > 1
    ensures FirstWrap(tol) <= TWO_TO_THE_64 / 2
  {
    FirstWrapIs(tol);
  }

  /** The first measurement that wraps is snapped wrongly. */
  lemma SnapWraps(meas: u64, tol: u32)
    requires 1 < tol <= STANDARD_NS[0] && meas == STANDARD_NS[0] + FirstWrap(tol)
    ensures !SnapsRight(meas, tol)
  {
    var err: u64 := FirstWrap(tol);
    WithinIs(err, tol, STANDARD_NS[0]);
    assert Err(STANDARD_NS[0], meas) == err;
    assert FirstNearest(STANDARD_NS, meas, 0) by {
      forall j | 0 <= j < |STANDARD_NS| ensures Err(STANDARD_NS[0], meas) <= Err(STANDARD_NS[j], meas) {
        StandardBelow(j);
      }
    }
  }

  /** hws_closest_interval() judges its nearest candidate as it is meant to. */
  ghost predicate ClosestRight(cand: seq<u64>, want: u64, i: int)
    requires FirstNearest(cand, want, i)
  {
    Within(Err(cand[i], want), 100, want) <==> MeantWithin(Err(cand[i], want), 100, want)
  }

  /** It does so for all candidates with errors below `limit` if and only if no such error wraps times 100. */
  lemma ClosestIsExact(limit: nat)
    ensures (forall cand: seq<u64>, want: u64, i: int ::
               FirstNearest(cand, want, i) && Err(cand[i], want) < limit ==> ClosestRight(cand, want, i))
            <==> limit <= FirstWrap(100)
  {
    if limit <= FirstWrap(100) {
      forall cand: seq<u64>, want: u64, i: int | FirstNearest(cand, want, i) && Err(cand[i], want) < limit
        ensures ClosestRight(cand, want, i)
      {
        WithinIs(Err(cand[i], want), 100, want);
      }
    } else {
      var far: u64, want: u64 := FirstWrap(100) + 100, 100;
      WithinIs(FirstWrap(100), 100, want);
      assert FirstNearest([far], want, 0) && Err([far][0], want) == FirstWrap(100);
      assert !ClosestRight([far], want, 0);
    }
  }
}
