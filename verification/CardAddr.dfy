/**
 * Addresses as the card sees them. Bits 31:29 of a buffer register pick one of
 * four windows of 512 MiB, whose table entry supplies the upper address bits;
 * the low 29 bits are the offset. Masks are written as quotients and remainders.
 */
module CardAddr {
  import opened Basics
  import opened Quarters

  const WINDOW: nat := 0x2000_0000
  const AUDIO_RING: nat := 10 * 1024

  /** An entry of the translation table: the upper and lower word of a bus address. */
  datatype Entry = Entry(hi: u32, lo: u32)

  function EntryOf(bus: nat): Entry
    requires bus < TWO_TO_THE_32 * TWO_TO_THE_32
  {
    Entry(bus / TWO_TO_THE_32, bus % TWO_TO_THE_32)
  }

  /** The start of the window that holds a bus address. */
  function WindowStart(bus: nat): nat {
    bus - bus % WINDOW
  }

  function Target(e: Entry): nat {
    e.hi * TWO_TO_THE_32 + (e.lo - e.lo % WINDOW)
  }

  function QuarterOff(len: seq<nat>, q: nat): nat
    requires q <= |len|
  {
    if q == 0 then 0 else QuarterOff(len, q - 1) + len[q - 1]
  }

  /** hws_zc_reg(): the register value for quarter `q` at bus address `a`. */
  function Reg(a: nat, q: nat): u32
    requires q < 4
  {
    (q + 1) * WINDOW + a % WINDOW
  }

  /** hws_card_addr(): the bus address a register value reaches. */
  function CardBus(table: seq<Entry>, reg: u32): Option<nat>
    requires |table| == 4
  {
    var win := reg / WINDOW;
    if win < 1 || win > 4 then None else Some(Target(table[win - 1]) + reg % WINDOW)
  }

  /** hws_zc_buffer_ok() for a buffer of `size` bytes at bus address `dma` (0: none). */
  function BufferOk(table: seq<Entry>, len: seq<nat>, dma: nat, mapped: bool, size: nat): bool
    requires |table| == 4 && |len| == 4
  {
    var end := Span(len);
    && dma != 0 && mapped && size >= end
    && (forall q :: 0 <= q < 4 ==>
          && WindowStart(dma) == Target(table[q])
          && WindowStart(dma + end - 1) == Target(table[q]))
  }

  lemma SameWindow(a: nat, b: nat, k: nat)
    requires WindowStart(a) == WindowStart(b) && a <= a + k <= b
    ensures (a + k) % WINDOW == a % WINDOW + k
    ensures WindowStart(a + k) == WindowStart(a)
  {
    var s := WindowStart(a);
    assert a + k - s < WINDOW;
    WindowUnique(s, a + k - s);
  }

  lemma WindowUnique(s: nat, r: nat)
    requires s % WINDOW == 0 && r < WINDOW
    ensures (s + r) % WINDOW == r
  {
  }

  lemma {:induction false} OffsetBound(len: seq<nat>, q: nat)
    requires |len| == 4 && q < 4
    ensures QuarterOff(len, q) + Max(len) + DMA_BLOCK <= Span(len)
  {
    assert QuarterOff(len, 0) == 0;
    assert QuarterOff(len, 1) == len[0];
    assert QuarterOff(len, 2) == len[0] + len[1];
    assert QuarterOff(len, 3) == len[0] + len[1] + len[2];
  }

  /**
   * Every byte the longest run of any quarter can touch lies in the buffer,
   * at the place the quarter's register says.
   */
  lemma RunStaysInBuffer(table: seq<Entry>, len: seq<nat>, dma: nat, mapped: bool, size: nat, q: nat, k: nat)
    requires |table| == 4 && |len| == 4 && q < 4
    requires BufferOk(table, len, dma, mapped, size)
    requires k < Max(len) + DMA_BLOCK
    ensures var at := QuarterOff(len, q);
            && Reg(dma + at, q) + k < TWO_TO_THE_32
            && CardBus(table, Reg(dma + at, q) + k) == Some(dma + at + k)
            && at + k < size
  {
    var at, end := QuarterOff(len, q), Span(len);
    OffsetBound(len, q);
    assert WindowStart(dma) == Target(table[q]) && WindowStart(dma + end - 1) == Target(table[q]);
    SameWindow(dma, dma + end - 1, at);
    SameWindow(dma + at, dma + end - 1, k);
    var reg := Reg(dma + at, q) + k;
    var low := (dma + at) % WINDOW + k;
    assert low == (dma + at + k) % WINDOW;
    assert reg == (q + 1) * WINDOW + low;
    assert reg / WINDOW == q + 1 && reg % WINDOW == low by { WindowDiv(q + 1, low); }
    assert WindowStart(dma + at + k) == Target(table[q]);
  }

  lemma WindowDiv(n: nat, low: nat)
    requires low < WINDOW
    ensures (n * WINDOW + low) / WINDOW == n && (n * WINDOW + low) % WINDOW == low
  {
  }

  lemma TargetOfEntry(bus: nat)
    requires bus < TWO_TO_THE_32 * TWO_TO_THE_32
    ensures Target(EntryOf(bus)) == WindowStart(bus)
  {
    var hi, lo := bus / TWO_TO_THE_32, bus % TWO_TO_THE_32;
    assert bus == hi * TWO_TO_THE_32 + lo;
    assert TWO_TO_THE_32 == 8 * WINDOW;
    var s := hi * 8 * WINDOW + (lo - lo % WINDOW);
    assert s % WINDOW == 0 by {
      var n := lo / WINDOW;
      assert lo - lo % WINDOW == n * WINDOW;
      assert s == (hi * 8 + n) * WINDOW;
      WindowDiv(hi * 8 + n, 0);
    }
    WindowUnique(s, lo % WINDOW);
  }

  /** The card's own buffers: with the table entry made from it, a DMA buffer's register reaches it. */
  lemma DmaRegReaches(table: seq<Entry>, bus: nat, q: nat)
    requires |table| == 4 && q < 4
    requires bus < TWO_TO_THE_32 * TWO_TO_THE_32 && table[q] == EntryOf(bus)
    ensures CardBus(table, Reg(bus, q)) == Some(bus)
  {
    TargetOfEntry(bus);
    WindowDiv(q + 1, bus % WINDOW);
  }

  // ---- register 9 ----

  /** hws_set_dma_max(): the value written, in units of 16 bytes, for DMA buffers of `size` bytes. */
  function DmaMax(len: seq<nat>, size: nat): nat
    requires size >= AUDIO_RING + DMA_BLOCK
  {
    var cap := size - AUDIO_RING - DMA_BLOCK;
    var max := Max(len);
    (if max == 0 || max > cap then cap else max) / 16
  }

  /** A run that register 9 ends, with the block in progress, stays below the audio ring. */
  lemma OverlongRunMissesAudio(len: seq<nat>, size: nat)
    requires size >= AUDIO_RING + DMA_BLOCK
    ensures DmaMax(len, size) * 16 + DMA_BLOCK <= size - AUDIO_RING
  {
  }

  /** With lengths the driver programs, register 9 is exactly the largest quarter unless that is capped. */
  lemma DmaMaxIsLargest(frame: nat, size: nat)
    requires size >= AUDIO_RING + DMA_BLOCK && Max(Cut(frame)) <= size - AUDIO_RING - DMA_BLOCK
    ensures DmaMax(Cut(frame), size) * 16 == Max(Cut(frame))
  {
    CutCovers(frame);
    var q := Cut(frame)[3];
    assert q % 16 == 0 by {
      assert q == q / DMA_BLOCK * DMA_BLOCK;
      assert q == (q / DMA_BLOCK * 128) * 16;
    }
  }
}
