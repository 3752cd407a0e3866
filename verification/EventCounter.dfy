/**
 * The u32 counters of handled half-done interrupts and the comparison that
 * holds a buffer until a counter reaches its mark.
 */
module EventCounter {
  import opened Basics

  /** Reads a u32 difference as a signed 32-bit number. */
  function Signed32(x: u32): int {
    if x < TWO_TO_THE_31 then x else x - TWO_TO_THE_32
  }

  /** The u32 a counter that never wraps would hold. */
  function Low32(n: int): u32 {
    n % TWO_TO_THE_32
  }

  function Next(ev: u32): u32 {
    Low32(ev + 1)
  }

  /** True while the counter `ev` has not reached `mark`. */
  predicate EvBefore(ev: u32, mark: u32) {
    Signed32(Low32(ev - mark)) < 0
  }

  lemma Low32Shift(n: int, d: int)
    ensures Low32(Low32(n) + d) == Low32(n + d)
  {
    var k := n / TWO_TO_THE_32;
    assert n == k * TWO_TO_THE_32 + Low32(n);
    ModPeriod(Low32(n) + d, k);
  }

  lemma {:induction false} ModPeriod(x: int, k: int)
    ensures (x + k * TWO_TO_THE_32) % TWO_TO_THE_32 == x % TWO_TO_THE_32
  {
    var q, r := x / TWO_TO_THE_32, x % TWO_TO_THE_32;
    assert x + k * TWO_TO_THE_32 == (q + k) * TWO_TO_THE_32 + r;
    DivUnique(x + k * TWO_TO_THE_32, q + k, r);
  }

  lemma DivUnique(y: int, q: int, r: int)
    requires y == q * TWO_TO_THE_32 + r && 0 <= r < TWO_TO_THE_32
    ensures y % TWO_TO_THE_32 == r
  {
    var q', r' := y / TWO_TO_THE_32, y % TWO_TO_THE_32;
    assert (q - q') * TWO_TO_THE_32 == r' - r;
  }

  /**
   * On counters that differ by less than 2^31 the wrapping comparison agrees
   * with the order of counters that never wrap; at exactly 2^31 behind it
   * still does, and at 2^31 ahead it no longer does.
   */
  lemma EvBeforeIsOrder(ev: int, mark: int)
    ensures -TWO_TO_THE_31 <= ev - mark < TWO_TO_THE_31 ==>
              (EvBefore(Low32(ev), Low32(mark)) <==> ev < mark)
    ensures ev - mark == TWO_TO_THE_31 ==> EvBefore(Low32(ev), Low32(mark))
  {
    var d := Low32(ev) - Low32(mark);
    assert Low32(d) == Low32(ev - mark) by {
      var k := mark / TWO_TO_THE_32;
      assert mark == k * TWO_TO_THE_32 + Low32(mark);
      var m: int := Low32(mark);
      Low32Shift(ev, -m);
      ModPeriod(ev - mark, k);
      assert ev - mark + k * TWO_TO_THE_32 == ev - Low32(mark);
    }
    if 0 <= ev - mark < TWO_TO_THE_32 {
      DivUnique(ev - mark, 0, ev - mark);
    } else if -TWO_TO_THE_31 <= ev - mark < 0 {
      DivUnique(ev - mark, -1, ev - mark + TWO_TO_THE_32);
    }
  }

  /** A mark one event ahead is never taken for reached, at any counter value. */
  lemma NextNotReached(ev: u32)
    ensures EvBefore(ev, Next(ev))
    ensures !EvBefore(ev, ev)
    ensures !EvBefore(Next(ev), Next(ev))
  {
  }
}
