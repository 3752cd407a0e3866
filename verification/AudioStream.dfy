/**
 * Delivery of audio into the ring buffer the sound core reads, and the paced
 * silence while the card sends nothing. Times are nanoseconds, and samples are
 * counted in frames at 48 kHz.
 */
module AudioStream {
  type Sample = int

  const PACKET: nat := 1024
  const GAP_NS: nat := 40_000_000
  const NS_PER_MS: nat := 1_000_000

  /** The place of the frame written `age` frames ago. */
  function Back(pos: nat, age: nat, size: nat): int {
    if age <= pos then pos - age else pos - age + size
  }

  /** The ring holds the last frames delivered, as many as fit. */
  predicate HoldsLast(ring: seq<Sample>, pos: nat, total: seq<Sample>) {
    && pos < |ring|
    && forall age {:trigger Back(pos, age, |ring|)} :: 1 <= age <= |ring| && age <= |total| ==>
         ring[Back(pos, age, |ring|)] == total[|total| - age]
  }

  /** The ring with `data` written at `pos`, around the end if need be. */
  function Written(ring: seq<Sample>, pos: nat, data: seq<Sample>): seq<Sample>
    requires pos < |ring| && |data| <= 2 * |ring| - pos
  {
    if pos + |data| > |ring| then
      var first := |ring| - pos;
      var once := ring[..pos] + data[..first];
      data[first..] + once[|data| - first..]
    else ring[..pos] + data + ring[pos + |data|..]
  }

  function Advanced(pos: nat, n: nat, size: nat): nat
    requires size > 0
  {
    (pos + n) % size
  }

  lemma AdvancedIs(pos: nat, n: nat, size: nat)
    requires pos < size && n <= 2 * size - pos
    ensures Advanced(pos, n, size) ==
            if pos + n < size then pos + n else if pos + n < 2 * size then pos + n - size else 0
  {
    var x := pos + n;
    if x < size {
      RestIs(x, size, 0);
    } else if x < 2 * size {
      RestIs(x, size, 1);
    } else {
      RestIs(x, size, 2);
    }
  }

  lemma RestIs(x: nat, size: nat, q: nat)
    requires q * size <= x < q * size + size
    ensures x % size == x - q * size
  {
    var k := x / size;
    assert x == k * size + x % size;
    assert (k - q) * size == k * size - q * size;
    Within(k - q, size);
  }

  lemma Within(d: int, size: nat)
    ensures d >= 1 ==> d * size >= size
    ensures d <= -1 ==> d * size <= -(size as int)
  {
  }

  lemma WrittenHolds(ring: seq<Sample>, pos: nat, total: seq<Sample>, data: seq<Sample>)
    requires HoldsLast(ring, pos, total) && |data| <= 2 * |ring| - pos
    ensures |Written(ring, pos, data)| == |ring|
    ensures HoldsLast(Written(ring, pos, data), Advanced(pos, |data|, |ring|), total + data)
  {
    var size, t, all := |ring|, Written(ring, pos, data), total + data;
    var pos' := Advanced(pos, |data|, size);
    AdvancedIs(pos, |data|, size);
    forall age | 1 <= age <= size && age <= |all| ensures t[Back(pos', age, size)] == all[|all| - age] {
      if age > |data| {
        assert Back(pos', age, size) == Back(pos, age - |data|, size);
        assert ring[Back(pos, age - |data|, size)] == total[|total| - (age - |data|)];
      }
    }
  }

  // ---- periods ----

  /** Period callbacks: one for each delivery that completes a period. */
  function Callbacks(used: nat, n: nat, period: nat): nat
    requires period > 0
  {
    if (used + n) / period > 0 then 1 else 0
  }

  /**
   * The callbacks keep up with the periods, floor(frames / period) of them
   * after `frames` frames, if and only if no delivery completes two periods.
   */
  lemma OneCallbackExactly(frames: nat, n: nat, period: nat)
    requires period > 0
    ensures Callbacks(frames % period, n, period) == (frames + n) / period - frames / period
            <==> frames % period + n < 2 * period
    ensures (frames % period + n) % period == (frames + n) % period
  {
    var q: nat, used: nat := frames / period, frames % period;
    var x: nat := used + n;
    var k: nat, r: nat := x / period, x % period;
    assert frames == q * period + used && x == k * period + r;
    assert frames + n == (q + k) * period + r;
    QuotientIs(frames + n, period, q + k, r);
    PeriodsDone(x, period, k, r);
  }

  lemma PeriodsDone(x: nat, period: nat, k: nat, r: nat)
    requires period > 0 && x == k * period + r && r < period
    ensures k <= 1 <==> x < 2 * period
  {
    assert k * period - 2 * period == (k - 2) * period;
    Within(k - 2, period);
  }

  lemma QuotientIs(x: nat, k: nat, q: nat, r: nat)
    requires k > 0 && x == q * k + r && r < k
    ensures x / k == q && x % k == r
  {
    RestIs(x, k, q);
    assert x / k * k == q * k;
    assert (x / k - q) * k == 0;
    Within(x / k - q, k);
  }

  // ---- silence ----

  /** Frames due at 48 kHz after so many nanoseconds. */
  function Due(gap: nat): nat {
    gap * 48 / NS_PER_MS
  }

  /** The silence that keeps up with 48 kHz in whole packets. */
  function PacedSilence(gap: nat): nat {
    PACKET * (Due(gap) / PACKET)
  }

  lemma PacedGrows(a: nat, b: nat)
    requires a <= b
    ensures Due(a) <= Due(b) && PacedSilence(a) <= PacedSilence(b)
  {
  }

  /** Never ahead of 48 kHz, and less than one packet behind. */
  lemma PacedIsClose(gap: nat)
    ensures PacedSilence(gap) <= Due(gap) < PacedSilence(gap) + PACKET
  {
  }

  /** The substream's ring and the state of the silence worker. */
  class Stream {
    const ring: array<Sample>
    const period: nat
    var pos: nat
    var periodUsed: nat
    var lastPacket: nat
    var silenceFrames: nat
    var inGap: bool
    ghost var total: seq<Sample>       // everything delivered
    ghost var callbacks: nat           // periods reported to the sound core
    ghost var clock: nat               // the time of the last operation

    /** The ring holds the last frames delivered, and the frames since the last whole period are counted. */
    ghost predicate Ring()
      reads this, ring
    {
      period > 0 && HoldsLast(ring[..], pos, total) && periodUsed == |total| % period
    }

    /** With the sound core's constraints: at least two periods, each at least one packet. */
    ghost predicate Valid()
      reads this, ring
    {
      && ring.Length >= 2 * period && period >= PACKET
      && Ring() && callbacks == |total| / period
      && silenceFrames % PACKET == 0
      && lastPacket <= clock && silenceFrames <= PacedSilence(clock - lastPacket)
    }

    constructor (size: nat, periodSize: nat, now: nat)
      requires size >= 2 * periodSize && periodSize >= PACKET
      ensures Valid() && total == [] && fresh(ring)
    {
      ring := new Sample[size](_ => 0);
      period := periodSize;
      pos, periodUsed, lastPacket, silenceFrames, inGap := 0, 0, now, 0, false;
      total, callbacks, clock := [], 0, now;
    }

    method CopyIn(at: nat, data: seq<Sample>)
      requires at + |data| <= ring.Length
      modifies ring
      ensures ring[..] == old(ring[..at]) + data + old(ring[at + |data|..])
    {
      forall k | 0 <= k < |data| {
        ring[at + k] := data[k];
      }
    }

    /** The frames go in at the current place, around the end if need be. */
    method CopyAround(data: seq<Sample>)
      requires pos < ring.Length && |data| <= 2 * ring.Length - pos
      modifies ring
      ensures ring[..] == Written(old(ring[..]), pos, data)
    {
      if pos + |data| > ring.Length {
        var first := ring.Length - pos;
        CopyIn(pos, data[..first]);
        CopyIn(0, data[first..]);
      } else {
        CopyIn(pos, data);
      }
    }

    /** _deliver_samples(); what the second copy writes has to fit the ring. */
    method Deliver(data: seq<Sample>)
      requires Ring() && |data| <= 2 * ring.Length - pos
      modifies this`pos, this`periodUsed, this`total, this`callbacks, ring
      ensures Ring() && total == old(total) + data
      ensures callbacks == old(callbacks) + Callbacks(old(periodUsed), |data|, period)
      ensures old(callbacks == |total| / period) ==>
                (callbacks == |total| / period <==> old(periodUsed) + |data| < 2 * period)
      ensures old(Valid()) && |data| <= period ==> Valid()
    {
      OneCallbackExactly(|total|, |data|, period);
      if |data| == 0 {
        assert total + data == total;
        return;
      }
      WrittenHolds(ring[..], pos, total, data);
      CopyAround(data);
      pos := (pos + |data|) % ring.Length;
      var elapsed := (periodUsed + |data|) / period;
      periodUsed := (periodUsed + |data|) % period;
      total := total + data;
      if elapsed > 0 {
        callbacks := callbacks + 1;
      }
    }

    /** A packet from the card, which ends a gap. */
    method CardPacket(now: nat, data: seq<Sample>)
      requires Valid() && clock <= now && |data| <= period
      modifies this, ring
      ensures Valid() && total == old(total) + data
      ensures lastPacket == now && silenceFrames == 0
    {
      lastPacket, silenceFrames, inGap := now, 0, false;
      clock := now;
      Deliver(data);
    }

    method SilentPacket()
      requires Valid() && silenceFrames + PACKET <= PacedSilence(clock - lastPacket)
      modifies this`pos, this`periodUsed, this`total, this`callbacks, this`silenceFrames, ring
      ensures Valid() && silenceFrames == old(silenceFrames) + PACKET && total == old(total) + seq(PACKET, _ => 0)
    {
      Deliver(seq(PACKET, _ => 0));
      silenceFrames := silenceFrames + PACKET;
    }

    /** hws_audio_silence_work() */
    method SilenceWork(now: nat)
      requires Valid() && clock <= now
      modifies this, ring
      ensures Valid() && lastPacket == old(lastPacket)
      ensures silenceFrames == if now - lastPacket > GAP_NS then PacedSilence(now - lastPacket) else old(silenceFrames)
      ensures total == old(total) + seq(silenceFrames - old(silenceFrames), _ => 0)
    {
      PacedGrows(clock - lastPacket, now - lastPacket);
      clock := now;
      var gap := now - lastPacket;
      if gap > GAP_NS {
        inGap := true;
        var due := gap * 48 / NS_PER_MS;
        while silenceFrames + PACKET <= due
          invariant Valid() && clock == now && lastPacket == old(lastPacket)
          invariant old(silenceFrames) <= silenceFrames
          invariant total == old(total) + seq(silenceFrames - old(silenceFrames), _ => 0)
          decreases due - silenceFrames
        {
          PacedMore(silenceFrames, due);
          SilenceMore(old(total), silenceFrames - old(silenceFrames));
          SilentPacket();
        }
        PacedEnd(silenceFrames, due);
      }
    }
  }

  lemma SilenceMore(t: seq<Sample>, n: nat)
    ensures t + seq(n, _ => 0) + seq(PACKET, _ => 0) == t + seq(n + PACKET, _ => 0)
  {
  }

  lemma PacedMore(silence: nat, due: nat)
    requires silence % PACKET == 0 && silence + PACKET <= due
    ensures (silence + PACKET) % PACKET == 0 && silence + PACKET <= PACKET * (due / PACKET)
  {
  }

  lemma PacedEnd(silence: nat, due: nat)
    requires silence % PACKET == 0 && silence <= PACKET * (due / PACKET) && silence + PACKET > due
    ensures silence == PACKET * (due / PACKET)
  {
  }
}
