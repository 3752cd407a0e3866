/**
 * The CPU scalers. Pixels are YUYV: two bytes each, luma first, with U in the
 * even and V in the odd pixels. A ratio scaler makes each group of output
 * bytes from a group of source bytes, each byte a plain copy.
 */
module Scale {
  import opened Basics
  import opened LineDouble

  /** The source row an output row is taken from. */
  datatype RowMap = EverySecond | TwoOfThree | FourOfSix | ThreeOfFour | ThirdTwice
  {
    function From(y: nat): nat {
      match this
      case EverySecond => 2 * y
      case TwoOfThree => y / 2 * 3 + y % 2
      case FourOfSix => y / 4 * 6 + (if y % 4 == 3 then 5 else y % 4 * 2)
      case ThreeOfFour => y / 3 * 4 + y % 3
      case ThirdTwice => y / 3 * 2 + (if y % 3 == 2 then 1 else y % 3)
    }

    /** The scalers that reduce use some of the source rows. */
    predicate Uses(y: nat) {
      match this
      case EverySecond => y % 2 == 0
      case TwoOfThree => y % 3 != 2
      case FourOfSix => y % 6 != 1 && y % 6 != 3
      case ThreeOfFour => y % 4 != 3
      case ThirdTwice => true
    }

    /** How many output rows the first `y` source rows make. */
    function Made(y: nat): nat {
      if y == 0 then 0 else Made(y - 1) + (if Uses(y - 1) then 1 else 0)
    }
  }

  /** The offsets in the source group of the bytes of even and odd output groups. */
  datatype Ratio = Ratio(inBytes: nat, even: seq<nat>, odd: seq<nat>, rows: RowMap)
  {
    function Taps(j: nat): seq<nat> {
      if j % 2 == 0 then even else odd
    }

    function OutBytes(): nat {
      |even|
    }

    predicate Even() {
      |odd| == |even| > 0
    }
  }

  /** 2:1 both ways. */
  const HALF := Ratio(8, [0, 1, 4, 3], [0, 1, 4, 3], EverySecond)
  /** 3:2 both ways; an odd group starts at an odd pixel, so its U and V are exchanged. */
  const THREE_TO_TWO := Ratio(6, [0, 1, 2, 3], [0, 3, 2, 1], TwoOfThree)
  /** 3:2 both ways, in groups of six pixels. */
  const SIX_TO_FOUR := Ratio(12, [0, 1, 4, 7, 8, 9, 10, 11], [0, 1, 4, 7, 8, 9, 10, 11], FourOfSix)
  /** 4:3 both ways. */
  const FOUR_TO_THREE := Ratio(16, [0, 1, 2, 3, 4, 5, 8, 7, 10, 9, 14, 15], [0, 1, 2, 3, 4, 5, 8, 7, 10, 9, 14, 15],
      ThreeOfFour)
  /** 2:3 both ways. */
  const TWO_TO_THREE := Ratio(8, [0, 1, 2, 3, 4, 5, 4, 7, 6, 5, 6, 7], [0, 1, 2, 3, 4, 5, 4, 7, 6, 5, 6, 7], ThirdTwice)

  function At(src: seq<byte>, i: nat): byte {
    if i < |src| then src[i] else 0
  }

  function Group(src: seq<byte>, s: nat, taps: seq<nat>): seq<byte> {
    seq(|taps|, k requires 0 <= k < |taps| => At(src, s + taps[k]))
  }

  /** `n` groups from source offset `s` on. */
  function Row(src: seq<byte>, s: nat, r: Ratio, n: nat): seq<byte> {
    if n == 0 then [] else Row(src, s, r, n - 1) + Group(src, s + (n - 1) * r.inBytes, r.Taps(n - 1))
  }

  /** Output row `y`; source rows are `stride` bytes. */
  function RowOf(src: seq<byte>, stride: nat, r: Ratio, n: nat, y: nat): seq<byte> {
    Row(src, r.rows.From(y) * stride, r, n)
  }

  /** The first `rows` output rows of `n` groups each. */
  function Frame(src: seq<byte>, stride: nat, r: Ratio, n: nat, rows: nat): seq<byte> {
    if rows == 0 then [] else Frame(src, stride, r, n, rows - 1) + RowOf(src, stride, r, n, rows - 1)
  }

  // ---- closed forms ----

  lemma Steps(n: nat, k: nat, j: nat)
    requires j < n
    ensures j * k + k <= n * k
    ensures (j + 1) * k == j * k + k
  {
    assert (n - j - 1) * k >= 0;
    assert n * k == (j + 1) * k + (n - j - 1) * k;
  }

  lemma {:induction false} RowLength(src: seq<byte>, s: nat, r: Ratio, n: nat)
    requires r.Even()
    ensures |Row(src, s, r, n)| == n * r.OutBytes()
  {
    if n > 0 {
      RowLength(src, s, r, n - 1);
      Steps(n, r.OutBytes(), n - 1);
    }
  }

  lemma {:induction false} RowAt(src: seq<byte>, s: nat, r: Ratio, n: nat, j: nat, k: nat)
    requires r.Even() && j < n && k < r.OutBytes()
    ensures j * r.OutBytes() + k < |Row(src, s, r, n)|
    ensures Row(src, s, r, n)[j * r.OutBytes() + k] == At(src, s + j * r.inBytes + r.Taps(j)[k])
  {
    RowLength(src, s, r, n);
    RowLength(src, s, r, n - 1);
    Steps(n, r.OutBytes(), j);
    if j < n - 1 {
      RowAt(src, s, r, n - 1, j, k);
    }
  }

  lemma RowOfLength(src: seq<byte>, stride: nat, r: Ratio, n: nat, y: nat, w: nat)
    requires r.Even() && w == n * r.OutBytes()
    ensures |RowOf(src, stride, r, n, y)| == w
  {
    RowLength(src, r.rows.From(y) * stride, r, n);
  }

  lemma {:induction false} FrameLength(src: seq<byte>, stride: nat, r: Ratio, n: nat, rows: nat, w: nat)
    requires r.Even() && w == n * r.OutBytes()
    ensures |Frame(src, stride, r, n, rows)| == rows * w
  {
    if rows > 0 {
      FrameLength(src, stride, r, n, rows - 1, w);
      RowOfLength(src, stride, r, n, rows - 1, w);
      Steps(rows, w, rows - 1);
    }
  }

  /** Where byte `c` of row `y` lies among the first rows. */
  lemma RowPlace(y: nat, rows: nat, c: nat, w: nat)
    requires y < rows && c < w
    ensures y * w + c < rows * w
    ensures y < rows - 1 ==> y * w + c < (rows - 1) * w
  {
    Steps(rows, w, y);
    if y < rows - 1 { Steps(rows - 1, w, y); }
  }

  lemma ConcatAt(a: seq<byte>, b: seq<byte>, i: nat)
    requires i < |a| + |b|
    ensures (a + b)[i] == if i < |a| then a[i] else b[i - |a|]
  {
  }

  lemma {:induction false} FrameRow(src: seq<byte>, stride: nat, r: Ratio, n: nat, rows: nat, y: nat, c: nat, w: nat,
                                    start: nat)
    requires r.Even() && y < rows && c < w == n * r.OutBytes() && start == y * w
    ensures start + c < |Frame(src, stride, r, n, rows)| == rows * w
    ensures |RowOf(src, stride, r, n, y)| == w
    ensures Frame(src, stride, r, n, rows)[start + c] == RowOf(src, stride, r, n, y)[c]
    decreases rows
  {
    FrameLength(src, stride, r, n, rows, w);
    FrameLength(src, stride, r, n, rows - 1, w);
    RowOfLength(src, stride, r, n, rows - 1, w);
    RowPlace(y, rows, c, w);
    ConcatAt(Frame(src, stride, r, n, rows - 1), RowOf(src, stride, r, n, rows - 1), start + c);
    if y < rows - 1 {
      FrameRow(src, stride, r, n, rows - 1, y, c, w, start);
    }
  }

  /**
   * Byte `k` of group `j` of output row `y` is one source byte, given by the
   * row map and the offsets. `w` is the length of an output row, `start` where
   * row `y` starts, `at` where the byte is in it and `from` where the group
   * starts in the source.
   */
  lemma FrameAt(src: seq<byte>, stride: nat, r: Ratio, n: nat, rows: nat, y: nat, j: nat, k: nat, w: nat, start: nat,
                at: nat, from: nat)
    requires r.Even() && y < rows && j < n && k < r.OutBytes()
    requires w == n * r.OutBytes() && start == y * w && at == j * r.OutBytes() + k
    requires from == r.rows.From(y) * stride + j * r.inBytes
    ensures start + at < |Frame(src, stride, r, n, rows)| == rows * w
    ensures Frame(src, stride, r, n, rows)[start + at] == At(src, from + r.Taps(j)[k])
  {
    RowOfAt(src, stride, r, n, y, j, k, w, at, from);
    FrameRow(src, stride, r, n, rows, y, at, w, start);
  }

  lemma RowOfAt(src: seq<byte>, stride: nat, r: Ratio, n: nat, y: nat, j: nat, k: nat, w: nat, at: nat, from: nat)
    requires r.Even() && j < n && k < r.OutBytes()
    requires w == n * r.OutBytes() && at == j * r.OutBytes() + k
    requires from == r.rows.From(y) * stride + j * r.inBytes
    ensures at < |RowOf(src, stride, r, n, y)| == w
    ensures RowOf(src, stride, r, n, y)[at] == At(src, from + r.Taps(j)[k])
  {
    RowAt(src, r.rows.From(y) * stride, r, n, j, k);
    RowOfLength(src, stride, r, n, y, w);
  }

  /** An output byte at `at` may come from source byte `from`: luma from luma, U from U, V from V. */
  predicate SameSample(at: nat, from: nat) {
    if at % 2 == 0 then from % 2 == 0 else from % 4 == at % 4
  }

  ghost predicate KeepsSamples(r: Ratio) {
    r.Even() && forall j: nat, k: nat :: k < r.OutBytes() ==>
        SameSample(j * r.OutBytes() + k, j * r.inBytes + r.Taps(j)[k])
  }

  lemma Fours(a: nat, x: nat)
    ensures (4 * a + x) % 4 == x % 4 && (4 * a + x) % 2 == x % 2
  {
    assert 4 * a + x == 2 * (2 * a) + x;
  }

  lemma SameSampleShifted(at: nat, from: nat, a: nat, b: nat)
    requires SameSample(at, from)
    ensures SameSample(4 * a + at, 4 * b + from)
  {
    Fours(a, at);
    Fours(b, from);
  }

  lemma TimesFour(j: nat, a: nat)
    ensures j * (4 * a) == 4 * (j * a)
  {
  }

  lemma WholePairsKept(r: Ratio, a: nat, b: nat)
    requires r.Even() && r.odd == r.even && r.OutBytes() == 4 * a && r.inBytes == 4 * b
    requires forall k :: 0 <= k < r.OutBytes() ==> SameSample(k, r.even[k])
    ensures KeepsSamples(r)
  {
    forall j: nat, k: nat | k < r.OutBytes() ensures SameSample(j * r.OutBytes() + k, j * r.inBytes + r.Taps(j)[k]) {
      SameSampleShifted(k, r.even[k], j * a, j * b);
      TimesFour(j, a);
      TimesFour(j, b);
    }
  }

  /** Every ratio scaler keeps each chroma sample in its own U or V position. */
  lemma SamplesKept()
    ensures KeepsSamples(HALF) && KeepsSamples(THREE_TO_TWO) && KeepsSamples(SIX_TO_FOUR)
    ensures KeepsSamples(FOUR_TO_THREE) && KeepsSamples(TWO_TO_THREE)
  {
    WholePairsKept(HALF, 1, 2);
    WholePairsKept(SIX_TO_FOUR, 2, 3);
    WholePairsKept(FOUR_TO_THREE, 3, 4);
    WholePairsKept(TWO_TO_THREE, 3, 2);
    ThreesKept();
  }

  lemma ThreesKept()
    ensures KeepsSamples(THREE_TO_TWO)
  {
    var r := THREE_TO_TWO;
    forall j: nat, k: nat | k < r.OutBytes() ensures SameSample(j * r.OutBytes() + k, j * r.inBytes + r.Taps(j)[k]) {
      if j % 2 == 0 {
        SameSampleShifted(k, r.even[k], j, j / 2 * 3);
      } else {
        SameSampleShifted(k, 6 + r.odd[k], j, j / 2 * 3);
      }
    }
  }

  // ---- the loops ----

  lemma RowBytes(src: seq<byte>, s: nat, r: Ratio, n: nat, w: nat)
    requires r.Even() && w == r.OutBytes()
    ensures |Row(src, s, r, n)| == n * w
  {
    RowLength(src, s, r, n);
  }

  /** Where the groups of a row are, and from where they are taken. */
  lemma {:induction false} RowGroup(src: seq<byte>, s: nat, r: Ratio, n: nat, j: nat, w: nat, at: nat, p: nat)
    requires r.Even() && j < n && w == r.OutBytes() && at == j * w && p == s + j * r.inBytes
    ensures at + w <= |Row(src, s, r, n)| && Row(src, s, r, n)[at..at + w] == Group(src, p, r.Taps(j))
  {
    var front := Row(src, s, r, n - 1);
    RowBytes(src, s, r, n - 1, w);
    if j < n - 1 {
      Steps(n - 1, w, j);
      RowGroup(src, s, r, n - 1, j, w, at, p);
      Inside(front, Group(src, s + (n - 1) * r.inBytes, r.Taps(n - 1)), at, w);
    }
  }

  lemma Inside(a: seq<byte>, b: seq<byte>, at: nat, w: nat)
    requires at + w <= |a|
    ensures (a + b)[at..at + w] == a[at..at + w]
  {
  }

  /** One more row behind those already written. */
  lemma RowStep(before: seq<byte>, after: seq<byte>, was: seq<byte>, src: seq<byte>, stride: nat, r: Ratio, n: nat,
                k: nat, d: nat, w: nat)
    requires r.Even() && w == n * r.OutBytes() && d == k * w && d + w <= |was| == |before|
    requires before == Frame(src, stride, r, n, k) + was[d..]
    requires after == before[..d] + RowOf(src, stride, r, n, k) + before[d + w..]
    ensures after == Frame(src, stride, r, n, k + 1) + was[d + w..] && (k + 1) * w == d + w
  {
    FrameLength(src, stride, r, n, k, w);
    assert before[..d] == Frame(src, stride, r, n, k);
    assert before[d + w..] == was[d + w..];
  }

  /** The start of a row within a frame of whole rows. */
  lemma RowInside(y: nat, h: nat, w: nat)
    requires y < h
    ensures y * w + w <= h * w && (y + 1) * w == y * w + w
  {
    Steps(h, w, y);
  }

  lemma {:induction false} MadeTwoOfThree(y: nat)
    ensures TwoOfThree.Made(y) == y / 3 * 2 + y % 3
  {
    if y > 0 {
      MadeTwoOfThree(y - 1);
      assert (y - 1) / 3 * 2 + (y - 1) % 3 + (if (y - 1) % 3 != 2 then 1 else 0) == y / 3 * 2 + y % 3;
    }
  }

  lemma {:induction false} MadeFourOfSix(y: nat)
    ensures FourOfSix.Made(y) == y / 6 * 4 + (if y % 6 == 5 then 3 else (y % 6 + 1) / 2)
  {
    if y > 0 {
      MadeFourOfSix(y - 1);
    }
  }

  lemma {:induction false} MadeThreeOfFour(y: nat)
    ensures ThreeOfFour.Made(y) == y / 4 * 3 + y % 4
  {
    if y > 0 {
      MadeThreeOfFour(y - 1);
    }
  }

  /** A source row a reducing scaler uses makes the output row that comes from it. */
  lemma MadeFrom(m: RowMap, y: nat)
    requires m.Uses(y) && (m == TwoOfThree || m == FourOfSix || m == ThreeOfFour)
    ensures m.From(m.Made(y)) == y && m.Made(y + 1) == m.Made(y) + 1
  {
    match m
    case TwoOfThree =>
      MadeTwoOfThree(y);
      assert (y / 3 * 2 + y % 3) / 2 == y / 3;
    case FourOfSix =>
      MadeFourOfSix(y);
      assert (y / 6 * 4 + (if y % 6 == 5 then 3 else (y % 6 + 1) / 2)) / 4 == y / 6;
    case ThreeOfFour =>
      MadeThreeOfFour(y);
      assert (y / 4 * 3 + y % 4) / 3 == y / 4;
  }

  lemma {:induction false} MadeGrows(m: RowMap, y: nat, h: nat)
    requires y <= h
    ensures m.Made(y) <= m.Made(h)
  {
    if y < h {
      MadeGrows(m, y, h - 1);
    }
  }

  /** The whole source frame makes the whole output frame. */
  lemma MadeAll(m: RowMap, h: nat, outH: nat)
    requires (m == TwoOfThree && 2 * h == 3 * outH) || (m == FourOfSix && 2 * h == 3 * outH && h % 6 == 0)
               || (m == ThreeOfFour && 3 * h == 4 * outH)
    ensures m.Made(h) == outH
  {
    match m
    case TwoOfThree => MadeTwoOfThree(h);
    case FourOfSix => MadeFourOfSix(h);
    case ThreeOfFour => MadeThreeOfFour(h);
  }

  /** The source rows taken for the first `y` output rows of an enlarging scaler. */
  function Taken(y: nat): nat {
    if y == 0 then 0 else Taken(y - 1) + (if (y - 1) % 3 == 2 then 0 else 1)
  }

  lemma {:induction false} TakenClosed(y: nat)
    ensures Taken(y) == y / 3 * 2 + y % 3
  {
    if y > 0 {
      TakenClosed(y - 1);
    }
  }

  /** A row that is not a repetition comes from the next source row, which the frame has. */
  lemma TakenFrom(y: nat, h: nat, outH: nat)
    requires y < outH && 3 * h == 2 * outH && y % 3 != 2
    ensures Taken(y) < h && ThirdTwice.From(y) == Taken(y)
  {
    TakenClosed(y);
  }

  lemma RowsInside(k: nat, h: nat, w: nat)
    requires k <= h
    ensures k * w <= h * w && (k < h ==> k * w + w <= h * w)
  {
    if k < h { RowInside(k, h, w); }
  }

  /** Before the first part of `row` and after the last one. */
  lemma Between(was: seq<byte>, row: seq<byte>, d: nat)
    requires d <= |was|
    ensures was == was[..d] + row[..0] + was[d..] && row[..|row|] == row
  {
  }

  /** The next part of `row`, which goes to `d`, behind the part already there. */
  method PutGroup(dest: array<byte>, at: nat, group: seq<byte>, ghost d: nat, ghost row: seq<byte>,
                  ghost was: seq<byte>)
    requires d <= at && at - d + |group| <= |row| && d + |row| <= |was| == dest.Length
    requires group == row[at - d..at - d + |group|]
    requires dest[..] == was[..d] + row[..at - d] + was[at..]
    modifies dest
    ensures dest[..] == was[..d] + row[..at - d + |group|] + was[at + |group|..]
  {
    ghost var before := dest[..];
    MemCpy(dest, at, group);
    AppendPart(before, dest[..], was, d, row[..at - d], group, at);
    assert row[..at - d] + group == row[..at - d + |group|];
  }

  lemma HalfBytes(src: seq<byte>, p: nat, j: nat)
    requires p + 8 <= |src|
    ensures Group(src, p, HALF.Taps(j)) == [src[p], src[p + 1], src[p + 4], src[p + 3]]
  {
  }

  method HalfGroup(dest: array<byte>, at: nat, src: seq<byte>, p: nat, ghost j: nat, ghost d: nat, ghost s: nat,
                   ghost n: nat, ghost row: seq<byte>, ghost was: seq<byte>)
    requires j < n && p == s + j * 8 && p + 8 <= |src| && row == Row(src, s, HALF, n)
    requires at == d + j * 4 && |row| == n * 4 && d + |row| <= |was| == dest.Length
    requires dest[..] == was[..d] + row[..at - d] + was[at..]
    modifies dest
    ensures dest[..] == was[..d] + row[..at + 4 - d] + was[at + 4..]
  {
    var group := [src[p], src[p + 1], src[p + 4], src[p + 3]];
    HalfBytes(src, p, j);
    RowGroup(src, s, HALF, n, j, 4, at - d, p);
    PutGroup(dest, at, group, d, row, was);
  }

  method RowHalf(dest: array<byte>, d: nat, src: seq<byte>, s: nat, n: nat, ghost was: seq<byte>)
    requires d + n * 4 <= dest.Length && s + n * 8 <= |src| && was == dest[..]
    modifies dest
    ensures dest[..] == was[..d] + Row(src, s, HALF, n) + was[d + n * 4..]
  {
    ghost var row := Row(src, s, HALF, n);
    RowBytes(src, s, HALF, n, 4);
    Between(was, row, d);
    var j: nat, at: nat, p: nat := 0, d, s;
    while j < n
      invariant 0 <= j <= n && at == d + j * 4 && p == s + j * 8
      invariant dest[..] == was[..d] + row[..at - d] + was[at..]
    {
      HalfGroup(dest, at, src, p, j, d, s, n, row, was);
      j, at, p := j + 1, at + 4, p + 8;
    }
  }

  /** The next output row of RowHalf, made from the source row at `p`. */
  method NextRowHalf(dest: array<byte>, d: nat, src: seq<byte>, p: nat, stride: nat, n: nat, w: nat, ghost k: nat,
                     ghost was: seq<byte>)
    requires w == n * 4 && d == k * w && d + w <= dest.Length == |was| && p + n * 8 <= |src|
    requires p == HALF.rows.From(k) * stride
    requires dest[..] == Frame(src, stride, HALF, n, k) + was[d..]
    modifies dest
    ensures dest[..] == Frame(src, stride, HALF, n, k + 1) + was[d + w..]
    ensures (k + 1) * w == d + w
  {
    ghost var before := dest[..];
    RowHalf(dest, d, src, p, n, before);
    RowStep(before, dest[..], was, src, stride, HALF, n, k, d, w);
  }

  /** UHD_TO_FHD_Scaler() and V2560X1440_To_HD_Scaler(). */
  method ScaleHalf(dest: array<byte>, src: seq<byte>, inW: nat, inH: nat, outW: nat, outH: nat)
    requires inW == 2 * outW && inH == 2 * outH && outW % 2 == 0
    requires |src| >= inH * (inW * 2) && dest.Length >= outH * (outW * 2)
    modifies dest
    ensures dest[..] == Frame(src, inW * 2, HALF, outW / 2, outH) + old(dest[outH * (outW * 2)..])
  {
    ghost var was := dest[..];
    var w, stride := outW * 2, inW * 2;
    var y: nat, p: nat, d: nat := 0, 0, 0;
    while y < outH
      invariant 0 <= y <= outH && p == 2 * y * stride && d == y * w
      invariant d <= dest.Length && dest[..] == Frame(src, stride, HALF, outW / 2, y) + was[d..]
    {
      RowInside(y, outH, w);
      RowInside(2 * y, inH, stride);
      RowInside(2 * y + 1, inH, stride);
      NextRowHalf(dest, d, src, p, stride, outW / 2, w, y, was);
      p := p + stride + stride;
      d := d + w;
      y := y + 1;
    }
  }

  lemma ThreeBytes(src: seq<byte>, p: nat, j: nat)
    requires p + 4 <= |src|
    ensures Group(src, p, THREE_TO_TWO.Taps(j))
            == if (j * 3) % 2 == 1 then [src[p], src[p + 3], src[p + 2], src[p + 1]] else src[p..p + 4]
  {
  }

  method ThreeGroup(dest: array<byte>, at: nat, src: seq<byte>, p: nat, j: nat, ghost d: nat, ghost s: nat,
                    ghost n: nat, ghost row: seq<byte>, ghost was: seq<byte>)
    requires j < n && p == s + j * 6 && p + 6 <= |src| && row == Row(src, s, THREE_TO_TWO, n)
    requires at == d + j * 4 && |row| == n * 4 && d + |row| <= |was| == dest.Length
    requires dest[..] == was[..d] + row[..at - d] + was[at..]
    modifies dest
    ensures dest[..] == was[..d] + row[..at + 4 - d] + was[at + 4..]
  {
    var x := j * 3;
    var group := if x % 2 == 1 then [src[p], src[p + 3], src[p + 2], src[p + 1]] else src[p..p + 4];
    ThreeBytes(src, p, j);
    RowGroup(src, s, THREE_TO_TWO, n, j, 4, at - d, p);
    PutGroup(dest, at, group, d, row, was);
  }

  method RowThree(dest: array<byte>, d: nat, src: seq<byte>, s: nat, n: nat, ghost was: seq<byte>)
    requires d + n * 4 <= dest.Length && s + n * 6 <= |src| && was == dest[..]
    modifies dest
    ensures dest[..] == was[..d] + Row(src, s, THREE_TO_TWO, n) + was[d + n * 4..]
  {
    ghost var row := Row(src, s, THREE_TO_TWO, n);
    RowBytes(src, s, THREE_TO_TWO, n, 4);
    Between(was, row, d);
    var j: nat, at: nat, p: nat := 0, d, s;
    while j < n
      invariant 0 <= j <= n && at == d + j * 4 && p == s + j * 6
      invariant dest[..] == was[..d] + row[..at - d] + was[at..]
    {
      ThreeGroup(dest, at, src, p, j, d, s, n, row, was);
      j, at, p := j + 1, at + 4, p + 6;
    }
  }

  /** The next output row of RowThree, made from the source row at `p`. */
  method NextRowThree(dest: array<byte>, d: nat, src: seq<byte>, p: nat, stride: nat, n: nat, w: nat, ghost k: nat,
                      ghost was: seq<byte>)
    requires w == n * 4 && d == k * w && d + w <= dest.Length == |was| && p + n * 6 <= |src|
    requires p == THREE_TO_TWO.rows.From(k) * stride
    requires dest[..] == Frame(src, stride, THREE_TO_TWO, n, k) + was[d..]
    modifies dest
    ensures dest[..] == Frame(src, stride, THREE_TO_TWO, n, k + 1) + was[d + w..]
    ensures (k + 1) * w == d + w
  {
    ghost var before := dest[..];
    RowThree(dest, d, src, p, n, before);
    RowStep(before, dest[..], was, src, stride, THREE_TO_TWO, n, k, d, w);
  }

  /** One source row of RowThree: it makes the next output row or is skipped. */
  method SourceThree(dest: array<byte>, src: seq<byte>, y: nat, p: nat, d: nat, stride: nat, n: nat, w: nat,
                     ghost k: nat, ghost was: seq<byte>)
    returns (d': nat, ghost k': nat)
    requires p == y * stride && stride == n * 6 && w == n * 4 && p + stride <= |src|
    requires k == THREE_TO_TWO.rows.Made(y) && d == k * w <= dest.Length == |was|
    requires THREE_TO_TWO.rows.Made(y + 1) > k ==> d + w <= dest.Length
    requires dest[..] == Frame(src, stride, THREE_TO_TWO, n, k) + was[d..]
    modifies dest
    ensures k' == THREE_TO_TWO.rows.Made(y + 1) && d' == k' * w <= dest.Length
    ensures dest[..] == Frame(src, stride, THREE_TO_TWO, n, k') + was[d'..]
  {
    d', k' := d, k;
    if y % 3 != 2 {
      MadeFrom(THREE_TO_TWO.rows, y);
      NextRowThree(dest, d, src, p, stride, n, w, k, was);
      d' := d + w;
      k' := k + 1;
    }
  }

  method RowsThree(dest: array<byte>, src: seq<byte>, inH: nat, outH: nat, n: nat, w: nat, stride: nat,
                   ghost was: seq<byte>)
    requires w == n * 4 && stride == n * 6 && 2 * inH == 3 * outH
    requires |src| >= inH * stride && dest.Length >= outH * w && was == dest[..]
    modifies dest
    ensures dest[..] == Frame(src, stride, THREE_TO_TWO, n, outH) + was[outH * w..]
  {
    MadeAll(THREE_TO_TWO.rows, inH, outH);
    var y: nat, p: nat, d: nat := 0, 0, 0;
    ghost var k: nat := 0;
    while y < inH
      invariant 0 <= y <= inH && p == y * stride && d == k * w
      invariant k == THREE_TO_TWO.rows.Made(y)
      invariant d <= dest.Length && dest[..] == Frame(src, stride, THREE_TO_TWO, n, k) + was[d..]
    {
      MadeGrows(THREE_TO_TWO.rows, y + 1, inH);
      RowInside(y, inH, stride);
      RowsInside(k, outH, w);
      d, k := SourceThree(dest, src, y, p, d, stride, n, w, k, was);
      p := p + stride;
      y := y + 1;
    }
  }

  /** FHD_To_HD_Scaler(). */
  method ScaleThreeToTwo(dest: array<byte>, src: seq<byte>, inW: nat, inH: nat, outW: nat, outH: nat)
    requires 2 * inW == 3 * outW && 2 * inH == 3 * outH
    requires |src| >= inH * (inW * 2) && dest.Length >= outH * (outW * 2)
    modifies dest
    ensures dest[..] == Frame(src, inW * 2, THREE_TO_TWO, outW / 2, outH) + old(dest[outH * (outW * 2)..])
  {
    RowsThree(dest, src, inH, outH, inW / 3, outW * 2, inW * 2, dest[..]);
  }

  lemma SixBytes(src: seq<byte>, p: nat, j: nat)
    requires p + 12 <= |src|
    ensures Group(src, p, SIX_TO_FOUR.Taps(j))
              == [src[p], src[p + 1], src[p + 4], src[p + 7], src[p + 8], src[p + 9], src[p + 10], src[p + 11]]
  {
  }

  method SixGroup(dest: array<byte>, at: nat, src: seq<byte>, p: nat, ghost j: nat, ghost d: nat, ghost s: nat,
                  ghost n: nat, ghost row: seq<byte>, ghost was: seq<byte>)
    requires j < n && p == s + j * 12 && p + 12 <= |src| && row == Row(src, s, SIX_TO_FOUR, n)
    requires at == d + j * 8 && |row| == n * 8 && d + |row| <= |was| == dest.Length
    requires dest[..] == was[..d] + row[..at - d] + was[at..]
    modifies dest
    ensures dest[..] == was[..d] + row[..at + 8 - d] + was[at + 8..]
  {
    var group := [src[p], src[p + 1], src[p + 4], src[p + 7], src[p + 8], src[p + 9], src[p + 10], src[p + 11]];
    SixBytes(src, p, j);
    RowGroup(src, s, SIX_TO_FOUR, n, j, 8, at - d, p);
    PutGroup(dest, at, group, d, row, was);
  }

  lemma SixRowBytes(src: seq<byte>, s: nat, n: nat)
    ensures |Row(src, s, SIX_TO_FOUR, n)| == n * 8
  {
    RowBytes(src, s, SIX_TO_FOUR, n, 8);
  }

  method RowSix(dest: array<byte>, d: nat, src: seq<byte>, s: nat, n: nat, ghost was: seq<byte>)
    requires d + n * 8 <= dest.Length && s + n * 12 <= |src| && was == dest[..]
    modifies dest
    ensures dest[..] == was[..d] + Row(src, s, SIX_TO_FOUR, n) + was[d + n * 8..]
  {
    ghost var row := Row(src, s, SIX_TO_FOUR, n);
    SixRowBytes(src, s, n);
    Between(was, row, d);
    var j: nat, at: nat, p: nat := 0, d, s;
    while j < n
      invariant 0 <= j <= n && at == d + j * 8 && p == s + j * 12
      invariant dest[..] == was[..d] + row[..at - d] + was[at..]
    {
      SixGroup(dest, at, src, p, j, d, s, n, row, was);
      j, at, p := j + 1, at + 8, p + 12;
    }
  }

  /** The next output row of RowSix, made from the source row at `p`. */
  method NextRowSix(dest: array<byte>, d: nat, src: seq<byte>, p: nat, stride: nat, n: nat, w: nat, ghost k: nat,
                    ghost was: seq<byte>)
    requires w == n * 8 && d == k * w && d + w <= dest.Length == |was| && p + n * 12 <= |src|
    requires p == SIX_TO_FOUR.rows.From(k) * stride
    requires dest[..] == Frame(src, stride, SIX_TO_FOUR, n, k) + was[d..]
    modifies dest
    ensures dest[..] == Frame(src, stride, SIX_TO_FOUR, n, k + 1) + was[d + w..]
    ensures (k + 1) * w == d + w
  {
    ghost var before := dest[..];
    RowSix(dest, d, src, p, n, before);
    RowStep(before, dest[..], was, src, stride, SIX_TO_FOUR, n, k, d, w);
  }

  /** One source row of RowSix: it makes the next output row or is skipped. */
  method SourceSix(dest: array<byte>, src: seq<byte>, y: nat, p: nat, d: nat, stride: nat, n: nat, w: nat,
                   ghost k: nat, ghost was: seq<byte>)
    returns (d': nat, ghost k': nat)
    requires p == y * stride && stride == n * 12 && w == n * 8 && p + stride <= |src|
    requires k == SIX_TO_FOUR.rows.Made(y) && d == k * w <= dest.Length == |was|
    requires SIX_TO_FOUR.rows.Made(y + 1) > k ==> d + w <= dest.Length
    requires dest[..] == Frame(src, stride, SIX_TO_FOUR, n, k) + was[d..]
    modifies dest
    ensures k' == SIX_TO_FOUR.rows.Made(y + 1) && d' == k' * w <= dest.Length
    ensures dest[..] == Frame(src, stride, SIX_TO_FOUR, n, k') + was[d'..]
  {
    d', k' := d, k;
    if y % 6 != 1 && y % 6 != 3 {
      MadeFrom(SIX_TO_FOUR.rows, y);
      NextRowSix(dest, d, src, p, stride, n, w, k, was);
      d' := d + w;
      k' := k + 1;
    }
  }

  method RowsSix(dest: array<byte>, src: seq<byte>, inH: nat, outH: nat, n: nat, w: nat, stride: nat,
                 ghost was: seq<byte>)
    requires w == n * 8 && stride == n * 12 && 2 * inH == 3 * outH && inH % 6 == 0
    requires |src| >= inH * stride && dest.Length >= outH * w && was == dest[..]
    modifies dest
    ensures dest[..] == Frame(src, stride, SIX_TO_FOUR, n, outH) + was[outH * w..]
  {
    MadeAll(SIX_TO_FOUR.rows, inH, outH);
    var y: nat, p: nat, d: nat := 0, 0, 0;
    ghost var k: nat := 0;
    while y < inH
      invariant 0 <= y <= inH && p == y * stride && d == k * w
      invariant k == SIX_TO_FOUR.rows.Made(y)
      invariant d <= dest.Length && dest[..] == Frame(src, stride, SIX_TO_FOUR, n, k) + was[d..]
    {
      MadeGrows(SIX_TO_FOUR.rows, y + 1, inH);
      RowInside(y, inH, stride);
      RowsInside(k, outH, w);
      d, k := SourceSix(dest, src, y, p, d, stride, n, w, k, was);
      p := p + stride;
      y := y + 1;
    }
  }

  /** UHD_To_2560x1440_Scaler(). */
  method ScaleSixToFour(dest: array<byte>, src: seq<byte>, inW: nat, inH: nat, outW: nat, outH: nat)
    requires 2 * inW == 3 * outW && 2 * inH == 3 * outH && inW % 6 == 0 && inH % 6 == 0
    requires |src| >= inH * (inW * 2) && dest.Length >= outH * (outW * 2)
    modifies dest
    ensures dest[..] == Frame(src, inW * 2, SIX_TO_FOUR, outW / 4, outH) + old(dest[outH * (outW * 2)..])
  {
    RowsSix(dest, src, inH, outH, inW / 6, outW * 2, inW * 2, dest[..]);
  }

  lemma FourBytes(src: seq<byte>, p: nat, j: nat)
    requires p + 16 <= |src|
    ensures Group(src, p, FOUR_TO_THREE.Taps(j))
              == src[p..p + 6] + [src[p + 8], src[p + 7], src[p + 10], src[p + 9], src[p + 14], src[p + 15]]
  {
  }

  method FourGroup(dest: array<byte>, at: nat, src: seq<byte>, p: nat, ghost j: nat, ghost d: nat, ghost s: nat,
                   ghost n: nat, ghost row: seq<byte>, ghost was: seq<byte>)
    requires j < n && p == s + j * 16 && p + 16 <= |src| && row == Row(src, s, FOUR_TO_THREE, n)
    requires at == d + j * 12 && |row| == n * 12 && d + |row| <= |was| == dest.Length
    requires dest[..] == was[..d] + row[..at - d] + was[at..]
    modifies dest
    ensures dest[..] == was[..d] + row[..at + 12 - d] + was[at + 12..]
  {
    var group := src[p..p + 6] + [src[p + 8], src[p + 7], src[p + 10], src[p + 9], src[p + 14], src[p + 15]];
    FourBytes(src, p, j);
    RowGroup(src, s, FOUR_TO_THREE, n, j, 12, at - d, p);
    PutGroup(dest, at, group, d, row, was);
  }

  method RowFour(dest: array<byte>, d: nat, src: seq<byte>, s: nat, n: nat, ghost was: seq<byte>)
    requires d + n * 12 <= dest.Length && s + n * 16 <= |src| && was == dest[..]
    modifies dest
    ensures dest[..] == was[..d] + Row(src, s, FOUR_TO_THREE, n) + was[d + n * 12..]
  {
    ghost var row := Row(src, s, FOUR_TO_THREE, n);
    RowBytes(src, s, FOUR_TO_THREE, n, 12);
    Between(was, row, d);
    var j: nat, at: nat, p: nat := 0, d, s;
    while j < n
      invariant 0 <= j <= n && at == d + j * 12 && p == s + j * 16
      invariant dest[..] == was[..d] + row[..at - d] + was[at..]
    {
      FourGroup(dest, at, src, p, j, d, s, n, row, was);
      j, at, p := j + 1, at + 12, p + 16;
    }
  }

  /** The next output row of RowFour, made from the source row at `p`. */
  method NextRowFour(dest: array<byte>, d: nat, src: seq<byte>, p: nat, stride: nat, n: nat, w: nat, ghost k: nat,
                     ghost was: seq<byte>)
    requires w == n * 12 && d == k * w && d + w <= dest.Length == |was| && p + n * 16 <= |src|
    requires p == FOUR_TO_THREE.rows.From(k) * stride
    requires dest[..] == Frame(src, stride, FOUR_TO_THREE, n, k) + was[d..]
    modifies dest
    ensures dest[..] == Frame(src, stride, FOUR_TO_THREE, n, k + 1) + was[d + w..]
    ensures (k + 1) * w == d + w
  {
    ghost var before := dest[..];
    RowFour(dest, d, src, p, n, before);
    RowStep(before, dest[..], was, src, stride, FOUR_TO_THREE, n, k, d, w);
  }

  /** One source row of RowFour: it makes the next output row or is skipped. */
  method SourceFour(dest: array<byte>, src: seq<byte>, y: nat, p: nat, d: nat, stride: nat, n: nat, w: nat,
                    ghost k: nat, ghost was: seq<byte>)
    returns (d': nat, ghost k': nat)
    requires p == y * stride && stride == n * 16 && w == n * 12 && p + stride <= |src|
    requires k == FOUR_TO_THREE.rows.Made(y) && d == k * w <= dest.Length == |was|
    requires FOUR_TO_THREE.rows.Made(y + 1) > k ==> d + w <= dest.Length
    requires dest[..] == Frame(src, stride, FOUR_TO_THREE, n, k) + was[d..]
    modifies dest
    ensures k' == FOUR_TO_THREE.rows.Made(y + 1) && d' == k' * w <= dest.Length
    ensures dest[..] == Frame(src, stride, FOUR_TO_THREE, n, k') + was[d'..]
  {
    d', k' := d, k;
    if y % 4 != 3 {
      MadeFrom(FOUR_TO_THREE.rows, y);
      NextRowFour(dest, d, src, p, stride, n, w, k, was);
      d' := d + w;
      k' := k + 1;
    }
  }

  method RowsFour(dest: array<byte>, src: seq<byte>, inH: nat, outH: nat, n: nat, w: nat, stride: nat,
                  ghost was: seq<byte>)
    requires w == n * 12 && stride == n * 16 && 3 * inH == 4 * outH
    requires |src| >= inH * stride && dest.Length >= outH * w && was == dest[..]
    modifies dest
    ensures dest[..] == Frame(src, stride, FOUR_TO_THREE, n, outH) + was[outH * w..]
  {
    MadeAll(FOUR_TO_THREE.rows, inH, outH);
    var y: nat, p: nat, d: nat := 0, 0, 0;
    ghost var k: nat := 0;
    while y < inH
      invariant 0 <= y <= inH && p == y * stride && d == k * w
      invariant k == FOUR_TO_THREE.rows.Made(y)
      invariant d <= dest.Length && dest[..] == Frame(src, stride, FOUR_TO_THREE, n, k) + was[d..]
    {
      MadeGrows(FOUR_TO_THREE.rows, y + 1, inH);
      RowInside(y, inH, stride);
      RowsInside(k, outH, w);
      d, k := SourceFour(dest, src, y, p, d, stride, n, w, k, was);
      p := p + stride;
      y := y + 1;
    }
  }

  /** V2560X1440_To_FHD_Scaler(). */
  method ScaleFourToThree(dest: array<byte>, src: seq<byte>, inW: nat, inH: nat, outW: nat, outH: nat)
    requires 3 * inW == 4 * outW && 3 * inH == 4 * outH && inW % 8 == 0
    requires |src| >= inH * (inW * 2) && dest.Length >= outH * (outW * 2)
    modifies dest
    ensures dest[..] == Frame(src, inW * 2, FOUR_TO_THREE, outW / 6, outH) + old(dest[outH * (outW * 2)..])
  {
    RowsFour(dest, src, inH, outH, inW / 8, outW * 2, inW * 2, dest[..]);
  }

  lemma TwoBytes(src: seq<byte>, p: nat, j: nat)
    requires p + 8 <= |src|
    ensures Group(src, p, TWO_TO_THREE.Taps(j))
              == src[p..p + 6] + [src[p + 4], src[p + 7], src[p + 6], src[p + 5], src[p + 6], src[p + 7]]
  {
  }

  method TwoGroup(dest: array<byte>, at: nat, src: seq<byte>, p: nat, ghost j: nat, ghost d: nat, ghost s: nat,
                  ghost n: nat, ghost row: seq<byte>, ghost was: seq<byte>)
    requires j < n && p == s + j * 8 && p + 8 <= |src| && row == Row(src, s, TWO_TO_THREE, n)
    requires at == d + j * 12 && |row| == n * 12 && d + |row| <= |was| == dest.Length
    requires dest[..] == was[..d] + row[..at - d] + was[at..]
    modifies dest
    ensures dest[..] == was[..d] + row[..at + 12 - d] + was[at + 12..]
  {
    var group := src[p..p + 6] + [src[p + 4], src[p + 7], src[p + 6], src[p + 5], src[p + 6], src[p + 7]];
    TwoBytes(src, p, j);
    RowGroup(src, s, TWO_TO_THREE, n, j, 12, at - d, p);
    PutGroup(dest, at, group, d, row, was);
  }

  method RowTwo(dest: array<byte>, d: nat, src: seq<byte>, s: nat, n: nat, ghost was: seq<byte>)
    requires d + n * 12 <= dest.Length && s + n * 8 <= |src| && was == dest[..]
    modifies dest
    ensures dest[..] == was[..d] + Row(src, s, TWO_TO_THREE, n) + was[d + n * 12..]
  {
    ghost var row := Row(src, s, TWO_TO_THREE, n);
    RowBytes(src, s, TWO_TO_THREE, n, 12);
    Between(was, row, d);
    var j: nat, at: nat, p: nat := 0, d, s;
    while j < n
      invariant 0 <= j <= n && at == d + j * 12 && p == s + j * 8
      invariant dest[..] == was[..d] + row[..at - d] + was[at..]
    {
      TwoGroup(dest, at, src, p, j, d, s, n, row, was);
      j, at, p := j + 1, at + 12, p + 8;
    }
  }

  /** The next output row of RowTwo, made from the source row at `p`. */
  method NextRowTwo(dest: array<byte>, d: nat, src: seq<byte>, p: nat, stride: nat, n: nat, w: nat, ghost k: nat,
                    ghost was: seq<byte>)
    requires w == n * 12 && d == k * w && d + w <= dest.Length == |was| && p + n * 8 <= |src|
    requires p == TWO_TO_THREE.rows.From(k) * stride
    requires dest[..] == Frame(src, stride, TWO_TO_THREE, n, k) + was[d..]
    modifies dest
    ensures dest[..] == Frame(src, stride, TWO_TO_THREE, n, k + 1) + was[d + w..]
    ensures (k + 1) * w == d + w
  {
    ghost var before := dest[..];
    RowTwo(dest, d, src, p, n, before);
    RowStep(before, dest[..], was, src, stride, TWO_TO_THREE, n, k, d, w);
  }

  /** Every third output row repeats the one before it. */
  method RepeatRow(dest: array<byte>, d: nat, src: seq<byte>, stride: nat, n: nat, w: nat, ghost k: nat,
                   ghost was: seq<byte>)
    requires k % 3 == 2 && w == n * 12 && d == k * w && d + w <= dest.Length == |was|
    requires dest[..] == Frame(src, stride, TWO_TO_THREE, n, k) + was[d..]
    modifies dest
    ensures dest[..] == Frame(src, stride, TWO_TO_THREE, n, k + 1) + was[d + w..]
    ensures (k + 1) * w == d + w
  {
    ghost var before := dest[..];
    LastRow(before, was, src, stride, TWO_TO_THREE, n, k - 1, d, w);
    SameSource(k);
    var last := dest[d - w..d];
    MemCpy(dest, d, last);
    RowStep(before, dest[..], was, src, stride, TWO_TO_THREE, n, k, d, w);
  }

  lemma SameSource(k: nat)
    requires k % 3 == 2
    ensures ThirdTwice.From(k) == ThirdTwice.From(k - 1)
  {
  }

  lemma LastRow(before: seq<byte>, was: seq<byte>, src: seq<byte>, stride: nat, r: Ratio, n: nat, k: nat, d: nat,
                w: nat)
    requires r.Even() && w == n * r.OutBytes() && d == (k + 1) * w <= |was|
    requires before == Frame(src, stride, r, n, k + 1) + was[d..]
    ensures w <= d <= |before| && before[d - w..d] == RowOf(src, stride, r, n, k)
  {
    FrameLength(src, stride, r, n, k, w);
    RowOfLength(src, stride, r, n, k, w);
    Steps(k + 1, w, k);
  }

  /** One output row of the enlarging scaler: the next source row, or the row before again. */
  method TargetTwo(dest: array<byte>, src: seq<byte>, y: nat, p: nat, d: nat, stride: nat, n: nat, w: nat,
                   ghost from: nat, ghost was: seq<byte>)
    returns (p': nat, ghost from': nat)
    requires p == from * stride && stride == n * 8 && w == n * 12 && from == Taken(y)
    requires y % 3 != 2 ==> p + stride <= |src| && ThirdTwice.From(y) == from
    requires d == y * w && d + w <= dest.Length == |was|
    requires dest[..] == Frame(src, stride, TWO_TO_THREE, n, y) + was[d..]
    modifies dest
    ensures from' == Taken(y + 1) && p' == from' * stride
    ensures dest[..] == Frame(src, stride, TWO_TO_THREE, n, y + 1) + was[d + w..]
  {
    p', from' := p, from;
    if y % 3 == 2 {
      RepeatRow(dest, d, src, stride, n, w, y, was);
    } else {
      NextRowTwo(dest, d, src, p, stride, n, w, y, was);
      RowSum(from, 1, stride);
      p' := p + stride;
      from' := from + 1;
    }
  }

  method RowsTwo(dest: array<byte>, src: seq<byte>, inH: nat, outH: nat, n: nat, w: nat, stride: nat,
                 ghost was: seq<byte>)
    requires w == n * 12 && stride == n * 8 && 3 * inH == 2 * outH
    requires |src| >= inH * stride && dest.Length >= outH * w && was == dest[..]
    modifies dest
    ensures dest[..] == Frame(src, stride, TWO_TO_THREE, n, outH) + was[outH * w..]
  {
    var y: nat, p: nat, d: nat := 0, 0, 0;
    ghost var from: nat := 0;
    while y < outH
      invariant 0 <= y <= outH && d == y * w && p == from * stride
      invariant from == Taken(y)
      invariant d <= dest.Length && dest[..] == Frame(src, stride, TWO_TO_THREE, n, y) + was[d..]
    {
      RowInside(y, outH, w);
      if y % 3 != 2 {
        TakenFrom(y, inH, outH);
        RowInside(from, inH, stride);
      }
      p, from := TargetTwo(dest, src, y, p, d, stride, n, w, from, was);
      d := d + w;
      y := y + 1;
    }
  }

  /** HD_To_FHD_Scaler(). */
  method ScaleTwoToThree(dest: array<byte>, src: seq<byte>, inW: nat, inH: nat, outW: nat, outH: nat)
    requires 3 * inW == 2 * outW && 3 * inH == 2 * outH && outW % 6 == 0
    requires |src| >= inH * (inW * 2) && dest.Length >= outH * (outW * 2)
    modifies dest
    ensures dest[..] == Frame(src, inW * 2, TWO_TO_THREE, outW / 6, outH) + old(dest[outH * (outW * 2)..])
  {
    RowsTwo(dest, src, inH, outH, outW / 6, outW * 2, inW * 2, dest[..]);
  }

  // ---- any size: crop or pad ----

  /** Pixels left out at each side, and pixels of black added at each side. */
  function Crop(in_: nat, out: nat): nat {
    if in_ > out then (in_ - out) / 2 else 0
  }

  function Pad(in_: nat, out: nat): nat {
    if in_ > out then 0 else (out - in_) / 2
  }

  function Slice(src: seq<byte>, at: nat, n: nat): (r: seq<byte>)
    ensures |r| == n && forall k :: 0 <= k < n ==> r[k] == At(src, at + k)
  {
    seq<byte>(n, k requires 0 <= k < n => At(src, at + k))
  }

  /** An output row made from the source row that starts at `p`. */
  function PaddedRow(src: seq<byte>, p: nat, inW: nat, outW: nat): seq<byte> {
    var pad := Pad(inW, outW);
    Black(2 * pad) + Slice(src, p + Crop(inW, outW) * 2, (outW - 2 * pad) * 2) + Black(2 * pad)
  }

  function WindowRow(src: seq<byte>, inW: nat, outW: nat, y: nat): seq<byte> {
    PaddedRow(src, y * (inW * 2), inW, outW)
  }

  function WindowRows(src: seq<byte>, inW: nat, outW: nat, crop: nat, rows: nat): seq<byte> {
    if rows == 0 then [] else WindowRows(src, inW, outW, crop, rows - 1) + WindowRow(src, inW, outW, crop + rows - 1)
  }

  function Window(src: seq<byte>, inW: nat, inH: nat, outW: nat, outH: nat): seq<byte> {
    var pad := Pad(inH, outH);
    var black := Black(pad * (outW * 2));
    black + WindowRows(src, inW, outW, Crop(inH, outH), outH - 2 * pad) + black
  }

  /** Pixels of an axis that come from the source. */
  function Kept(in_: nat, out: nat): nat {
    out - 2 * Pad(in_, out)
  }

  predicate OddPad(in_: nat, out: nat) {
    out > in_ && (out - in_) % 2 == 1
  }

  /** Where All_VideoScaler() reads byte `b` of the pixels it takes for row `y` of the window. */
  function ReadAt(inW: nat, inH: nat, outW: nat, outH: nat, y: nat, b: nat): nat {
    (Crop(inH, outH) + y) * (inW * 2) + Crop(inW, outW) * 2 + b
  }

  ghost predicate ReadsWithin(inW: nat, inH: nat, outW: nat, outH: nat, size: nat) {
    forall y: nat, b: nat :: y < Kept(inH, outH) && b < Kept(inW, outW) * 2 ==>
      ReadAt(inW, inH, outW, outH, y, b) < size
  }

  /** It reads inside the source frame alone. */
  ghost predicate ReadsInside(inW: nat, inH: nat, outW: nat, outH: nat) {
    ReadsWithin(inW, inH, outW, outH, inH * (inW * 2))
  }

  /** The furthest byte read. */
  function LastRead(inW: nat, inH: nat, outW: nat, outH: nat): nat
    requires Kept(inH, outH) > 0 && Kept(inW, outW) > 0
  {
    ReadAt(inW, inH, outW, outH, Kept(inH, outH) - 1, 2 * Kept(inW, outW) - 1)
  }

  lemma LastReadDecides(inW: nat, inH: nat, outW: nat, outH: nat, size: nat)
    requires Kept(inH, outH) > 0 && Kept(inW, outW) > 0
    ensures ReadsWithin(inW, inH, outW, outH, size) <==> LastRead(inW, inH, outW, outH) < size
  {
    var rows: nat, cols: nat, crop: nat := Kept(inH, outH), Kept(inW, outW), Crop(inH, outH);
    forall y: nat, b: nat | y < rows && b < cols * 2
      ensures ReadAt(inW, inH, outW, outH, y, b) <= LastRead(inW, inH, outW, outH)
    {
      RowsGrow(crop + y, crop + rows - 1, inW * 2);
    }
  }

  /** It is in the last row taken, which has `k` source rows below it. */
  lemma LastReadInside(inW: nat, inH: nat, outW: nat, outH: nat, k: nat)
    requires Kept(inH, outH) > 0 && Kept(inW, outW) > 0 && k == inH - (Crop(inH, outH) + Kept(inH, outH))
    ensures LastRead(inW, inH, outW, outH) < inH * (inW * 2) <==> (OddPad(inW, outW) ==> inW > 0 && inH > outH)
  {
    var last: nat, s: nat := Crop(inH, outH) + Kept(inH, outH) - 1, inW * 2;
    RowSum(last, k + 1, s);
    RowSum(k, 1, s);
    LastFits(inW, outW, inH > outH, k, s);
  }

  /** With an odd number of rows added the last row taken is behind the source. */
  lemma LastReadBehind(inW: nat, inH: nat, outW: nat, outH: nat)
    requires Kept(inH, outH) > 0 && Kept(inW, outW) > 0 && OddPad(inH, outH)
    ensures LastRead(inW, inH, outW, outH) >= inH * (inW * 2)
  {
    assert Crop(inH, outH) + (Kept(inH, outH) - 1) == inH;
  }

  predicate StaysInside(inW: nat, inH: nat, outW: nat, outH: nat) {
    !OddPad(inH, outH) && (OddPad(inW, outW) ==> inW > 0 && inH > outH)
  }

  lemma LastReadExact(inW: nat, inH: nat, outW: nat, outH: nat, size: nat)
    requires Kept(inH, outH) > 0 && Kept(inW, outW) > 0 && size == inH * (inW * 2)
    ensures LastRead(inW, inH, outW, outH) < size <==> StaysInside(inW, inH, outW, outH)
  {
    if OddPad(inH, outH) {
      LastReadBehind(inW, inH, outW, outH);
    } else {
      LastReadInside(inW, inH, outW, outH, inH - (Crop(inH, outH) + Kept(inH, outH)));
    }
  }

  /**
   * All reads are inside the source unless the height is padded by an odd
   * number of rows, or the width by an odd number of pixels while the last
   * source row is used. (With nothing to take nothing is read.)
   */
  lemma ReadsInsideExact(inW: nat, inH: nat, outW: nat, outH: nat)
    ensures ReadsInside(inW, inH, outW, outH) <==>
              Kept(inH, outH) == 0 || Kept(inW, outW) == 0 || StaysInside(inW, inH, outW, outH)
  {
    if Kept(inH, outH) > 0 && Kept(inW, outW) > 0 {
      var size: nat := inH * (inW * 2);
      LastReadDecides(inW, inH, outW, outH, size);
      LastReadExact(inW, inH, outW, outH, size);
    }
  }

  /** Whatever the sizes, the reads end at most a row and a pixel behind the source frame. */
  lemma ReadsLittlePast(inW: nat, inH: nat, outW: nat, outH: nat)
    ensures ReadsWithin(inW, inH, outW, outH, inH * (inW * 2) + inW * 2 + 2)
  {
    if Kept(inH, outH) > 0 && Kept(inW, outW) > 0 {
      LastReadDecides(inW, inH, outW, outH, inH * (inW * 2) + inW * 2 + 2);
      RowsGrow(Crop(inH, outH) + Kept(inH, outH) - 1, inH, inW * 2);
    }
  }

  lemma RowsGrow(a: nat, b: nat, s: nat)
    requires a <= b
    ensures a * s <= b * s
  {
    RowSum(a, b - a, s);
  }

  /** The last row taken, with `k` source rows below it. */
  lemma LastFits(inW: nat, outW: nat, below: bool, k: nat, s: nat)
    requires Kept(inW, outW) > 0 && s == inW * 2 && (below <==> k > 0)
    ensures Crop(inW, outW) * 2 + 2 * Kept(inW, outW) - 1 < s + k * s
            <==> (OddPad(inW, outW) ==> inW > 0 && below)
  {
    OddPadCrossesRow(inW, outW);
    if k > 0 { RowsGrow(1, k, s); }
    LastPixel(inW, outW);
  }

  lemma LastPixel(inW: nat, outW: nat)
    ensures OddPad(inW, outW) ==> Crop(inW, outW) == 0 && Kept(inW, outW) == inW + 1
  {
  }

  /** A row of the window is taken from one source row alone if and only if the width's padding is even. */
  lemma OddPadCrossesRow(inW: nat, outW: nat)
    ensures Crop(inW, outW) + Kept(inW, outW) <= inW <==> !OddPad(inW, outW)
  {
  }

  /** What one row of the window reads ends inside `size` bytes; `p` is where the source row starts. */
  predicate RowRead(p: nat, inW: nat, outW: nat, size: nat) {
    Kept(inW, outW) == 0 || p + Crop(inW, outW) * 2 + Kept(inW, outW) * 2 <= size
  }

  lemma RowIsRead(inW: nat, inH: nat, outW: nat, outH: nat, size: nat, y: nat)
    requires ReadsWithin(inW, inH, outW, outH, size) && y < Kept(inH, outH)
    ensures RowRead((Crop(inH, outH) + y) * (inW * 2), inW, outW, size)
  {
    if Kept(inW, outW) > 0 {
      assert ReadAt(inW, inH, outW, outH, y, Kept(inW, outW) * 2 - 1) < size;
    }
  }

  const BLACK_PIXEL: seq<byte> := [0x10, 0x80]

  /** Byte `c` of pixel `x` of an output row made from source row `y`. */
  function WindowByte(src: seq<byte>, inW: nat, outW: nat, y: nat, x: nat, c: nat): byte
    requires c < 2
  {
    var pad := Pad(inW, outW);
    if pad <= x < outW - pad then At(src, y * (inW * 2) + 2 * (x - pad + Crop(inW, outW)) + c) else BLACK_PIXEL[c]
  }

  lemma WindowRowAt(src: seq<byte>, inW: nat, outW: nat, y: nat, x: nat, c: nat)
    requires x < outW && c < 2
    ensures |WindowRow(src, inW, outW, y)| == outW * 2
    ensures WindowRow(src, inW, outW, y)[2 * x + c] == WindowByte(src, inW, outW, y, x, c)
  {
  }

  lemma {:induction false} WindowRowsAt(src: seq<byte>, inW: nat, outW: nat, crop: nat, rows: nat, y: nat, b: nat,
                                        w: nat, start: nat)
    requires y < rows && b < w == outW * 2 && start == y * w
    ensures start + b < |WindowRows(src, inW, outW, crop, rows)| == rows * w
    ensures |WindowRow(src, inW, outW, crop + y)| == w
    ensures WindowRows(src, inW, outW, crop, rows)[start + b] == WindowRow(src, inW, outW, crop + y)[b]
    decreases rows
  {
    WindowRowsLength(src, inW, outW, crop, rows, w);
    WindowRowsLength(src, inW, outW, crop, rows - 1, w);
    Steps(rows, w, y);
    if y < rows - 1 {
      WindowRowsAt(src, inW, outW, crop, rows - 1, y, b, w, start);
    }
  }

  lemma {:induction false} WindowRowsLength(src: seq<byte>, inW: nat, outW: nat, crop: nat, rows: nat, w: nat)
    requires w == outW * 2
    ensures |WindowRows(src, inW, outW, crop, rows)| == rows * w
  {
    if rows > 0 {
      WindowRowsLength(src, inW, outW, crop, rows - 1, w);
      Steps(rows, w, rows - 1);
    }
  }

  lemma RowSum(a: nat, b: nat, w: nat)
    ensures (a + b) * w == a * w + b * w
  {
  }

  /** Byte `c` of a pixel lies at an even or an odd place of the frame. */
  lemma PixelPlace(y: nat, outW: nat, x: nat, c: nat, w: nat)
    requires w == outW * 2 && c < 2
    ensures (y * w + 2 * x + c) % 2 == c
  {
    assert y * w == 2 * (y * outW);
    assert y * w + 2 * x + c == 2 * (y * outW + x) + c;
  }

  lemma BlackAt(size: nat, i: nat, c: nat)
    requires i < size && c < 2 && i % 2 == c
    ensures Black(size)[i] == BLACK_PIXEL[c]
  {
  }

  lemma WindowLength(src: seq<byte>, inW: nat, inH: nat, outW: nat, outH: nat, w: nat)
    requires w == outW * 2
    ensures |Window(src, inW, inH, outW, outH)| == outH * w
    ensures Pad(inH, outH) * w + (outH - 2 * Pad(inH, outH)) * w + Pad(inH, outH) * w == outH * w
  {
    var pad: nat := Pad(inH, outH);
    var rows: nat := outH - 2 * pad;
    WindowRowsLength(src, inW, outW, Crop(inH, outH), rows, w);
    RowSum(pad, rows, w);
    RowSum(pad + rows, pad, w);
  }

  /** Above the window. */
  lemma WindowTop(src: seq<byte>, inW: nat, inH: nat, outW: nat, outH: nat, x: nat, y: nat, c: nat, w: nat, start: nat)
    requires x < outW && y < Pad(inH, outH) && c < 2 && w == outW * 2 && start == y * w
    ensures start + 2 * x + c < |Window(src, inW, inH, outW, outH)|
    ensures Window(src, inW, inH, outW, outH)[start + 2 * x + c] == BLACK_PIXEL[c]
  {
    RowPlace(y, Pad(inH, outH), 2 * x + c, w);
    PixelPlace(y, outW, x, c, w);
    BlackAt(Pad(inH, outH) * w, start + 2 * x + c, c);
  }

  /** Below it. */
  lemma WindowBottom(src: seq<byte>, inW: nat, inH: nat, outW: nat, outH: nat, x: nat, y: nat, c: nat, w: nat,
                     start: nat)
    requires x < outW && outH - Pad(inH, outH) <= y < outH && c < 2 && w == outW * 2 && start == y * w
    ensures start + 2 * x + c < |Window(src, inW, inH, outW, outH)|
    ensures Window(src, inW, inH, outW, outH)[start + 2 * x + c] == BLACK_PIXEL[c]
  {
    var pad: nat := Pad(inH, outH);
    var rows: nat := outH - 2 * pad;
    var z: nat := y - pad - rows;
    var margin: nat, i: nat := pad * w, z * w + 2 * x + c;
    WindowRowsLength(src, inW, outW, Crop(inH, outH), rows, w);
    BottomPlace(pad, rows, z, w, y);
    RowPlace(z, pad, 2 * x + c, w);
    PixelPlace(z, outW, x, c, w);
    BlackAt(margin, i, c);
    AfterTwo(Black(margin), WindowRows(src, inW, outW, Crop(inH, outH), rows), Black(margin), i);
  }

  lemma BottomPlace(pad: nat, rows: nat, z: nat, w: nat, y: nat)
    requires y == pad + rows + z
    ensures y * w == pad * w + rows * w + z * w
  {
    RowSum(pad, rows, w);
    RowSum(pad + rows, z, w);
  }

  lemma AfterTwo(a: seq<byte>, b: seq<byte>, c: seq<byte>, i: nat)
    requires i < |c|
    ensures (a + b + c)[|a| + |b| + i] == c[i]
  {
  }

  lemma AfterOne(a: seq<byte>, b: seq<byte>, c: seq<byte>, i: nat)
    requires i < |b|
    ensures (a + b + c)[|a| + i] == b[i]
  {
  }

  /** Byte `b` of row `z` of the rows `body` between two margins of `pad` rows. */
  lemma MiddleAt(black: seq<byte>, body: seq<byte>, pad: nat, z: nat, b: nat, w: nat, start: nat)
    requires |black| == pad * w && start == (pad + z) * w && z * w + b < |body|
    ensures start + b < |black + body + black| && (black + body + black)[start + b] == body[z * w + b]
  {
    RowSum(pad, z, w);
    AfterOne(black, body, black, z * w + b);
  }

  /** Inside it. */
  lemma WindowMiddle(src: seq<byte>, inW: nat, inH: nat, outW: nat, outH: nat, x: nat, y: nat, c: nat, w: nat,
                     start: nat)
    requires x < outW && Pad(inH, outH) <= y < outH - Pad(inH, outH) && c < 2 && w == outW * 2 && start == y * w
    ensures start + (2 * x + c) < |Window(src, inW, inH, outW, outH)|
    ensures Window(src, inW, inH, outW, outH)[start + (2 * x + c)]
            == WindowByte(src, inW, outW, y - Pad(inH, outH) + Crop(inH, outH), x, c)
  {
    var pad: nat, crop := Pad(inH, outH), Crop(inH, outH);
    var rows: nat, z: nat := outH - 2 * pad, y - pad;
    WindowRowsAt(src, inW, outW, crop, rows, z, 2 * x + c, w, z * w);
    MiddleAt(Black(pad * w), WindowRows(src, inW, outW, crop, rows), pad, z, 2 * x + c, w, start);
    WindowRowAt(src, inW, outW, crop + z, x, c);
  }

  /**
   * Output pixel (x, y) of All_VideoScaler() is the source pixel of the centred
   * window, or black outside it; crop and padding can differ per axis. `w` is
   * the length of an output row, `start` where row `y` starts.
   */
  lemma WindowAt(src: seq<byte>, inW: nat, inH: nat, outW: nat, outH: nat, x: nat, y: nat, c: nat, w: nat, start: nat)
    requires x < outW && y < outH && c < 2 && w == outW * 2 && start == y * w
    ensures start + 2 * x + c < |Window(src, inW, inH, outW, outH)| == outH * w
    ensures Window(src, inW, inH, outW, outH)[start + 2 * x + c] ==
            if Pad(inH, outH) <= y < outH - Pad(inH, outH)
            then WindowByte(src, inW, outW, y - Pad(inH, outH) + Crop(inH, outH), x, c)
            else BLACK_PIXEL[c]
  {
    WindowLength(src, inW, inH, outW, outH, w);
    if y < Pad(inH, outH) {
      WindowTop(src, inW, inH, outW, outH, x, y, c, w, start);
    } else if y < outH - Pad(inH, outH) {
      WindowMiddle(src, inW, inH, outW, outH, x, y, c, w, start);
    } else {
      WindowBottom(src, inW, inH, outW, outH, x, y, c, w, start);
    }
  }

  lemma AppendPart(before: seq<byte>, after: seq<byte>, was: seq<byte>, d0: nat, done: seq<byte>, part: seq<byte>,
                   d: nat)
    requires d == d0 + |done| && d + |part| <= |was|
    requires before == was[..d0] + done + was[d..]
    requires after == before[..d] + part + before[d + |part|..]
    ensures after == was[..d0] + (done + part) + was[d + |part|..]
  {
    assert before[..d] == was[..d0] + done;
    assert before[d + |part|..] == was[d + |part|..];
  }

  lemma BlackMore(j: nat)
    ensures Black(2 * (j + 1)) == Black(2 * j) + BLACK_PIXEL
  {
  }

  /** `n` black pixels. */
  method FillBlack(dest: array<byte>, d: nat, n: nat, ghost was: seq<byte>)
    requires d + 2 * n <= dest.Length && was == dest[..]
    modifies dest
    ensures dest[..] == was[..d] + Black(2 * n) + was[d + 2 * n..]
  {
    var j: nat := 0;
    while j < n
      invariant 0 <= j <= n
      invariant dest[..] == was[..d] + Black(2 * j) + was[d + 2 * j..]
    {
      var at: nat := d + 2 * j;
      ghost var before := dest[..];
      MemCpy(dest, at, BLACK_PIXEL);
      BlackMore(j);
      AppendPart(before, dest[..], was, d, Black(2 * j), BLACK_PIXEL, at);
      j := j + 1;
    }
  }

  /** The `n` bytes read; with nothing to read the place may be outside. */
  function TakePart(src: seq<byte>, at: nat, n: nat): (part: seq<byte>)
    requires n == 0 || at + n <= |src|
    ensures part == Slice(src, at, n)
  {
    if n == 0 then [] else src[at..at + n]
  }

  /** One row of the window between its margins; `p` is where the source row starts. */
  method PutWindowRow(dest: array<byte>, d: nat, src: seq<byte>, p: nat, inW: nat, outW: nat, ghost was: seq<byte>)
    requires RowRead(p, inW, outW, |src|)
    requires d + outW * 2 <= dest.Length && was == dest[..]
    modifies dest
    ensures dest[..] == was[..d] + PaddedRow(src, p, inW, outW) + was[d + outW * 2..]
  {
    var pad: nat := Pad(inW, outW);
    var part := TakePart(src, p + Crop(inW, outW) * 2, (outW - 2 * pad) * 2);
    PaddedParts(src, p, inW, outW, pad, part);
    PutBetween(dest, d, part, pad, was);
  }

  lemma PaddedParts(src: seq<byte>, p: nat, inW: nat, outW: nat, pad: nat, part: seq<byte>)
    requires pad == Pad(inW, outW) && part == Slice(src, p + Crop(inW, outW) * 2, (outW - 2 * pad) * 2)
    ensures PaddedRow(src, p, inW, outW) == Black(2 * pad) + part + Black(2 * pad) && 4 * pad + |part| == outW * 2
  {
  }

  method PutBetween(dest: array<byte>, d: nat, part: seq<byte>, pad: nat, ghost was: seq<byte>)
    requires d + 4 * pad + |part| <= dest.Length && was == dest[..]
    modifies dest
    ensures dest[..] == was[..d] + (Black(2 * pad) + part + Black(2 * pad)) + was[d + (4 * pad + |part|)..]
  {
    FillBlack(dest, d, pad, was);
    ghost var one := dest[..];
    PutPart(dest, d + 2 * pad, part, pad, one);
    JoinPadded(was, one, dest[..], d, Black(2 * pad), part, Black(2 * pad));
  }

  /** The source pixels and the margin behind them. */
  method PutPart(dest: array<byte>, d: nat, part: seq<byte>, pad: nat, ghost was: seq<byte>)
    requires d + |part| + 2 * pad <= dest.Length && was == dest[..]
    modifies dest
    ensures dest[..] == was[..d] + part + Black(2 * pad) + was[d + |part| + 2 * pad..]
  {
    MemCpy(dest, d, part);
    ghost var one := dest[..];
    FillBlack(dest, d + |part|, pad, one);
  }

  lemma JoinPadded(was: seq<byte>, one: seq<byte>, two: seq<byte>, d: nat, a: seq<byte>, b: seq<byte>, c: seq<byte>)
    requires d + |a| + |b| + |c| <= |was|
    requires one == was[..d] + a + was[d + |a|..]
    requires two == one[..d + |a|] + b + c + one[d + |a| + |b| + |c|..]
    ensures two == was[..d] + (a + b + c) + was[d + |a| + |b| + |c|..]
  {
  }

  lemma RowWidth(src: seq<byte>, p: nat, inW: nat, outW: nat)
    ensures |PaddedRow(src, p, inW, outW)| == outW * 2
  {
  }

  /** One more row behind the rows `done`. */
  method NextWindowRow(dest: array<byte>, ghost d0: nat, d: nat, src: seq<byte>, p: nat, inW: nat, outW: nat,
                       ghost done: seq<byte>, ghost was: seq<byte>)
    requires RowRead(p, inW, outW, |src|)
    requires d == d0 + |done| && d + outW * 2 <= |was| == dest.Length
    requires dest[..] == was[..d0] + done + was[d..]
    modifies dest
    ensures dest[..] == was[..d0] + (done + PaddedRow(src, p, inW, outW)) + was[d + outW * 2..]
  {
    ghost var before := dest[..];
    PutWindowRow(dest, d, src, p, inW, outW, before);
    RowWidth(src, p, inW, outW);
    AppendPart(before, dest[..], was, d0, done, PaddedRow(src, p, inW, outW), d);
  }

  lemma RowsFit(src: seq<byte>, inW: nat, outW: nat, crop: nat, y: nat, rows: nat, p: nat)
    requires y < rows && p == (crop + y) * (inW * 2)
    ensures WindowRows(src, inW, outW, crop, y + 1)
              == WindowRows(src, inW, outW, crop, y) + PaddedRow(src, p, inW, outW)
    ensures |WindowRows(src, inW, outW, crop, y)| + outW * 2 == |WindowRows(src, inW, outW, crop, y + 1)|
            <= |WindowRows(src, inW, outW, crop, rows)|
  {
    var w: nat := outW * 2;
    RowWidth(src, p, inW, outW);
    WindowRowsLength(src, inW, outW, crop, y + 1, w);
    WindowRowsLength(src, inW, outW, crop, rows, w);
    RowsGrow(y + 1, rows, w);
  }

  /** Row `y` of the window. */
  method PutRow(dest: array<byte>, ghost d0: nat, d: nat, src: seq<byte>, p: nat, inW: nat, ghost inH: nat, outW: nat,
                ghost outH: nat, ghost crop: nat, ghost rows: nat, ghost y: nat, ghost done: seq<byte>,
                ghost was: seq<byte>) returns (ghost done': seq<byte>)
    requires ReadsWithin(inW, inH, outW, outH, |src|) && crop == Crop(inH, outH) && y < rows == Kept(inH, outH)
    requires p == (crop + y) * (inW * 2) && done == WindowRows(src, inW, outW, crop, y) && d == d0 + |done|
    requires d0 + |WindowRows(src, inW, outW, crop, rows)| <= |was| == dest.Length
    requires d <= dest.Length && dest[..] == was[..d0] + done + was[d..]
    modifies dest
    ensures done' == WindowRows(src, inW, outW, crop, y + 1) && |done'| == |done| + outW * 2
    ensures p + inW * 2 == (crop + (y + 1)) * (inW * 2)
    ensures d + outW * 2 <= dest.Length && dest[..] == was[..d0] + done' + was[d + outW * 2..]
  {
    RowIsRead(inW, inH, outW, outH, |src|, y);
    RowsFit(src, inW, outW, crop, y, rows, p);
    RowSum(crop + y, 1, inW * 2);
    NextWindowRow(dest, d0, d, src, p, inW, outW, done, was);
    done' := done + PaddedRow(src, p, inW, outW);
  }

  /** The rows of the window, `n` bytes. */
  method PutWindow(dest: array<byte>, d0: nat, src: seq<byte>, inW: nat, ghost inH: nat, outW: nat, ghost outH: nat,
                   crop: nat, rows: nat, ghost n: nat, ghost was: seq<byte>)
    requires ReadsWithin(inW, inH, outW, outH, |src|) && crop == Crop(inH, outH) && rows == Kept(inH, outH)
    requires n == |WindowRows(src, inW, outW, crop, rows)| && d0 + n <= dest.Length && was == dest[..]
    modifies dest
    ensures dest[..] == was[..d0] + WindowRows(src, inW, outW, crop, rows) + was[d0 + n..]
  {
    var y: nat, p: nat, d: nat := 0, crop * (inW * 2), d0;
    ghost var done: seq<byte> := [];
    while y < rows
      invariant 0 <= y <= rows && p == (crop + y) * (inW * 2)
      invariant done == WindowRows(src, inW, outW, crop, y) && d == d0 + |done| <= dest.Length
      invariant dest[..] == was[..d0] + done + was[d..]
    {
      done := PutRow(dest, d0, d, src, p, inW, inH, outW, outH, crop, rows, y, done, was);
      p, d, y := p + inW * 2, d + outW * 2, y + 1;
    }
  }

  /** All_VideoScaler(): `src` holds the frame and what the source buffer has behind it. */
  method ScaleAny(dest: array<byte>, src: seq<byte>, inW: nat, inH: nat, outW: nat, outH: nat)
    requires ReadsWithin(inW, inH, outW, outH, |src|) && dest.Length >= outH * (outW * 2)
    modifies dest
    ensures dest[..] == Window(src, inW, inH, outW, outH) + old(dest[outH * (outW * 2)..])
  {
    var pad: nat, crop := Pad(inH, outH), Crop(inH, outH);
    var rows: nat := outH - 2 * pad;
    ghost var n: nat := rows * (outW * 2);
    WindowParts(src, inW, inH, outW, outH, pad * outW, rows, n);
    PutParts(dest, src, inW, inH, outW, outH, crop, pad * outW, rows, n, dest[..]);
  }

  lemma WindowParts(src: seq<byte>, inW: nat, inH: nat, outW: nat, outH: nat, margin: nat, rows: nat, n: nat)
    requires margin == Pad(inH, outH) * outW && rows == Kept(inH, outH) && n == rows * (outW * 2)
    ensures 2 * margin + n + 2 * margin == outH * (outW * 2)
    ensures Window(src, inW, inH, outW, outH)
              == Black(2 * margin) + WindowRows(src, inW, outW, Crop(inH, outH), rows) + Black(2 * margin)
  {
    var pad: nat, w: nat := Pad(inH, outH), outW * 2;
    assert 2 * margin == pad * w;
    RowSum(pad, rows, w);
    RowSum(pad + rows, pad, w);
  }

  /** The black rows above, the window of `n` bytes, and the black rows below; `margin` is in pixels. */
  method PutParts(dest: array<byte>, src: seq<byte>, inW: nat, ghost inH: nat, outW: nat, ghost outH: nat, crop: nat,
                  margin: nat, rows: nat, ghost n: nat, ghost was: seq<byte>)
    requires ReadsWithin(inW, inH, outW, outH, |src|) && crop == Crop(inH, outH) && rows == Kept(inH, outH)
    requires n == rows * (outW * 2) && 2 * margin + n + 2 * margin <= dest.Length && was == dest[..]
    modifies dest
    ensures dest[..] == Black(2 * margin) + WindowRows(src, inW, outW, crop, rows) + Black(2 * margin)
                        + was[2 * margin + n + 2 * margin..]
  {
    var d: nat, size: nat := 2 * margin, rows * (outW * 2);
    WindowRowsLength(src, inW, outW, crop, rows, outW * 2);
    FillBlack(dest, 0, margin, was);
    ghost var one := dest[..];
    PutWindow(dest, d, src, inW, inH, outW, outH, crop, rows, n, one);
    ghost var two := dest[..];
    FillBlack(dest, d + size, margin, two);
    FromStart(was, one, two, dest[..], Black(d), WindowRows(src, inW, outW, crop, rows), Black(d));
  }

  lemma FromStart(was: seq<byte>, one: seq<byte>, two: seq<byte>, three: seq<byte>, a: seq<byte>, b: seq<byte>,
                  c: seq<byte>)
    requires |a| + |b| + |c| <= |was|
    requires one == was[..0] + a + was[|a|..]
    requires two == one[..|a|] + b + one[|a| + |b|..]
    requires three == two[..|a| + |b|] + c + two[|a| + |b| + |c|..]
    ensures three == a + b + c + was[|a| + |b| + |c|..]
  {
  }
}
