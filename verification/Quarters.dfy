/**
 * How a frame is cut into the four quarters the card moves, and how much room
 * a buffer needs for the longest run the card can make.
 */
module Quarters {
  import opened Basics

  const DMA_BLOCK: nat := 2048
  const ZC_SLACK: nat := 8192

  /** Bytes of one YUYV frame. */
  function FrameBytes(w: nat, h: nat): nat {
    w * h * 2
  }

  function FirstQuarter(frame: nat): nat {
    frame / (4 * DMA_BLOCK) * DMA_BLOCK
  }

  function LastQuarter(frame: nat): nat {
    ((frame - 3 * FirstQuarter(frame)) / DMA_BLOCK + 1) * DMA_BLOCK
  }

  /** The lengths of the quarters of a frame of so many bytes. */
  function Cut(frame: nat): seq<nat> {
    var q := FirstQuarter(frame);
    [q, q, q, LastQuarter(frame)]
  }

  function Max(s: seq<nat>): nat {
    if s == [] then 0 else
    var m := Max(s[..|s| - 1]);
    if s[|s| - 1] > m then s[|s| - 1] else m
  }

  function Span(len: seq<nat>): nat
    requires |len| == 4
  {
    len[0] + len[1] + len[2] + Max(len) + DMA_BLOCK
  }

  lemma FirstQuarterBound(frame: nat)
    ensures 4 * FirstQuarter(frame) <= frame < 4 * FirstQuarter(frame) + 4 * DMA_BLOCK
    ensures FirstQuarter(frame) % DMA_BLOCK == 0
  {
  }

  lemma {:induction false} MaxIsLargest(s: seq<nat>)
    ensures forall x :: x in s ==> x <= Max(s)
    ensures s != [] ==> Max(s) in s
  {
    if s != [] {
      var t := s[..|s| - 1];
      assert s == t + [s[|s| - 1]];
      MaxIsLargest(t);
      if t == [] {
        assert Max(t) == 0;
      }
    }
  }

  /**
   * The quarters are whole blocks, pass the frame by more than nothing and at
   * most one block, and the last one is the largest.
   */
  lemma CutCovers(frame: nat)
    ensures var len := Cut(frame);
            && (forall i :: 0 <= i < 4 ==> len[i] % DMA_BLOCK == 0)
            && 0 < len[0] + len[1] + len[2] + len[3] - frame <= DMA_BLOCK
            && Max(len) == len[3]
            && len[0] + len[1] + len[2] <= frame
  {
    FirstQuarterBound(frame);
    var q, r := FirstQuarter(frame), LastQuarter(frame);
    var len := Cut(frame);
    assert q % DMA_BLOCK == 0 && r % DMA_BLOCK == 0;
    assert r >= q;
    MaxIsLargest(len);
    assert len[3] in len;
  }

  /** The first three are each a fourth of the frame, rounded down to whole blocks. */
  lemma CutIsFourths(frame: nat)
    ensures var len := Cut(frame);
            len[0] == len[1] == len[2] && 4 * len[0] <= frame < 4 * (len[0] + DMA_BLOCK) && len[0] % DMA_BLOCK == 0
  {
    FirstQuarterBound(frame);
  }

  /** The longest run passes the frame by more than one block and at most two. */
  lemma SpanExcess(frame: nat)
    ensures DMA_BLOCK < Span(Cut(frame)) - frame <= 2 * DMA_BLOCK
  {
    CutCovers(frame);
  }

  /** 4096 bytes of slack fit every input size, and no less does: 2 x 512 needs them all. */
  lemma LeastSlack(slack: nat)
    ensures (forall w: nat, h: nat :: Span(Cut(FrameBytes(w, h))) <= FrameBytes(w, h) + slack) <==> slack >= 4096
  {
    if slack >= 4096 {
      forall w: nat, h: nat ensures Span(Cut(FrameBytes(w, h))) <= FrameBytes(w, h) + slack {
        SpanExcess(FrameBytes(w, h));
      }
    } else {
      CutCovers(FrameBytes(2, 512));
      assert Span(Cut(FrameBytes(2, 512))) == FrameBytes(2, 512) + 4096;
    }
  }

  /** Buffers the card writes itself are this much longer than the frame: room for the longest run of any size. */
  lemma ZcSlackFits(w: nat, h: nat)
    ensures Span(Cut(FrameBytes(w, h))) <= FrameBytes(w, h) + ZC_SLACK
  {
    LeastSlack(ZC_SLACK);
  }

  /** hws_quarter_sizes(): fills `len`; the error return is never taken. */
  method QuarterSizes(w: nat, h: nat, len: array<nat>) returns (r: int)
    requires len.Length == 4
    requires FrameBytes(w, h) < TWO_TO_THE_31
    modifies len
    ensures r == 0 && len[..] == Cut(FrameBytes(w, h))
  {
    var frame := w * h * 2;
    var q := frame / (4 * DMA_BLOCK) * DMA_BLOCK;
    FirstQuarterBound(frame);
    var rest: int := frame - q * 3;
    r := if rest < 0 then -1 else 0;
    if r == 0 {
      len[0], len[1], len[2] := q, q, q;
      len[3] := (rest / DMA_BLOCK + 1) * DMA_BLOCK;
    }
  }

  /** hws_zc_span(): bytes a zero-copy buffer must hold. */
  method ZcSpan(len: seq<nat>) returns (end: nat)
    requires |len| == 4
    ensures end == Span(len)
  {
    var max := 0;
    for q := 0 to 4
      invariant max == Max(len[..q])
    {
      assert len[..q + 1][..q] == len[..q];
      if len[q] > max {
        max := len[q];
      }
    }
    assert len[..4] == len;
    end := len[0] + len[1] + len[2] + max + DMA_BLOCK;
  }
}
