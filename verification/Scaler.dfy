/**
 * VideoScaler(): which scaler a pair of sizes gets, and what the output then
 * shows of the source.
 */
module Scaler {
  import opened Basics
  import opened Scale

  datatype Choice = ByRatio(r: Ratio) | AnySize | Special

  /** The scaler VideoScaler() picks; `Special` are the pairs of sizes whose scaler is not part of this model. */
  function Dispatch(inW: nat, inH: nat, outW: nat, outH: nat): Choice {
    if (inW, inH, outW, outH) == (1920, 1080, 1280, 720) then ByRatio(THREE_TO_TWO)
    else if (inW, inH, outW, outH) == (1280, 720, 1920, 1080) then ByRatio(TWO_TO_THREE)
    else if (inW, inH, outW, outH) == (3840, 2160, 1920, 1080) then ByRatio(HALF)
    else if (inW, inH, outW, outH) == (3840, 2160, 2560, 1440) then ByRatio(SIX_TO_FOUR)
    else if (inW, inH, outW, outH) == (2560, 1440, 1920, 1080) then ByRatio(FOUR_TO_THREE)
    else if (inW, inH, outW, outH) == (2560, 1440, 1280, 720) then ByRatio(HALF)
    else if SpecialPair(inW, inH, outW, outH) then Special
    else AnySize
  }

  predicate SpecialPair(inW: nat, inH: nat, outW: nat, outH: nat) {
    match (inW, inH)
    case (1920, 1080) => (outW, outH) in {(800, 600), (720, 480), (720, 576)}
    case (3840, 2160) => (outW, outH) in {(800, 600), (1280, 720)}
    case (4096, 2160) => (outW, outH) in {(800, 600), (1920, 1080), (1280, 720)}
    case (1280, 720) => (outW, outH) in {(800, 600), (720, 480), (720, 576)}
    case (720, 576) => (outW, outH) in {(720, 480), (1920, 1080), (1280, 720)}
    case (720, 480) => (outW, outH) in {(720, 576), (1920, 1080), (1280, 720)}
    case (1280, 1024) => (outW, outH) in {(1920, 1080), (1280, 720), (800, 600), (720, 480), (720, 576)}
    case (2560, 1440) => (outW, outH) == (800, 600)
    case _ => false
  }

  /** The output frame of a pair of sizes that is part of this model. */
  function Scaled(src: seq<byte>, inW: nat, inH: nat, outW: nat, outH: nat): seq<byte>
    requires Dispatch(inW, inH, outW, outH) != Special
  {
    match Dispatch(inW, inH, outW, outH)
    case ByRatio(r) => Frame(src, inW * 2, r, outW * 2 / r.OutBytes(), outH)
    case AnySize => Window(src, inW, inH, outW, outH)
  }

  /** Every one of them is filled exactly. */
  lemma ScaledFills(src: seq<byte>, inW: nat, inH: nat, outW: nat, outH: nat)
    requires Dispatch(inW, inH, outW, outH) != Special
    ensures |Scaled(src, inW, inH, outW, outH)| == outH * (outW * 2)
  {
    match Dispatch(inW, inH, outW, outH)
    case ByRatio(r) => FrameLength(src, inW * 2, r, outW * 2 / r.OutBytes(), outH, outW * 2);
    case AnySize => WindowLength(src, inW, inH, outW, outH, outW * 2);
  }

  // ---- what the output shows ----

  /** Byte `a` of row `y` of a picture with rows of `w` bytes. */
  function ByteAt(picture: seq<byte>, w: nat, y: nat, a: nat): byte {
    if y * w + a < |picture| then picture[y * w + a] else 0
  }

  /** The pairs of sizes with one shape between which the whole picture is scaled. */
  predicate WholePair(inW: nat, inH: nat, outW: nat, outH: nat) {
    (inW, inH, outW, outH) in {(1920, 1080, 1280, 720), (1280, 720, 1920, 1080), (3840, 2160, 1920, 1080),
                               (3840, 2160, 2560, 1440), (2560, 1440, 1920, 1080), (2560, 1440, 1280, 720)}
  }

  /** Position `s` of `inN` is where position `y` of `outN` should be taken from, give or take `d`. */
  predicate Near(s: nat, y: nat, inN: nat, outN: nat, d: nat) {
    y * inN <= s * outN + d * outN && s * outN <= y * inN + d * outN
  }

  /** Byte `f` of source row `s` is where byte `a` of output row `y` belongs, and the same kind of sample. */
  predicate BelongsTo(inW: nat, inH: nat, outW: nat, outH: nat, y: nat, a: nat, s: nat, f: nat) {
    && s < inH && Near(s, y, inH, outH, 1)
    && f < inW * 2 && Near(f / 2, a / 2, inW, outW, 2) && SameSample(a, f)
  }

  ghost predicate TakenNear(src: seq<byte>, inW: nat, inH: nat, outW: nat, outH: nat, out: seq<byte>, y: nat, a: nat) {
    exists s: nat, f: nat ::
      BelongsTo(inW, inH, outW, outH, y, a, s, f) && ByteAt(out, outW * 2, y, a) == ByteAt(src, inW * 2, s, f)
  }

  /** Everywhere in the output is what is in the same part of the source, within a row and two pixels. */
  ghost predicate ShowsWhole(src: seq<byte>, inW: nat, inH: nat, outW: nat, outH: nat, out: seq<byte>) {
    && |out| == outH * (outW * 2)
    && forall y: nat, a: nat :: y < outH && a < outW * 2 ==> TakenNear(src, inW, inH, outW, outH, out, y, a)
  }

  /** Where position `x` of an axis of `out` positions is on one of `in_` positions with the same centre. */
  function Centred(in_: nat, out: nat, x: nat): Option<nat> {
    if in_ > out then Some(x + (in_ - out) / 2)
    else
      var pad := (out - in_) / 2;
      if pad <= x < out - pad then Some(x - pad) else None
  }

  function CentredByte(src: seq<byte>, inW: nat, inH: nat, outW: nat, outH: nat, y: nat, x: nat, c: nat): byte
    requires c < 2
  {
    match (Centred(inH, outH, y), Centred(inW, outW, x))
    case (Some(s), Some(p)) => ByteAt(src, inW * 2, s, 2 * p + c)
    case _ => if c == 0 then 16 else 128
  }

  /** The output is the centre of the source at its own scale, with a black margin where the source is smaller. */
  ghost predicate ShowsCentre(src: seq<byte>, inW: nat, inH: nat, outW: nat, outH: nat, out: seq<byte>) {
    && |out| == outH * (outW * 2)
    && forall y: nat, x: nat, c: nat :: y < outH && x < outW && c < 2 ==>
         ByteAt(out, outW * 2, y, 2 * x + c) == CentredByte(src, inW, inH, outW, outH, y, x, c)
  }

  /** What VideoScaler() is to make of a picture, outside the pairs that are not part of this model. */
  ghost predicate Shows(src: seq<byte>, inW: nat, inH: nat, outW: nat, outH: nat, out: seq<byte>) {
    if WholePair(inW, inH, outW, outH) then ShowsWhole(src, inW, inH, outW, outH, out)
    else ShowsCentre(src, inW, inH, outW, outH, out)
  }

  lemma PairDispatch(inW: nat, inH: nat, outW: nat, outH: nat)
    requires !SpecialPair(inW, inH, outW, outH)
    ensures WholePair(inW, inH, outW, outH) <==> Dispatch(inW, inH, outW, outH).ByRatio?
    ensures !WholePair(inW, inH, outW, outH) <==> Dispatch(inW, inH, outW, outH) == AnySize
  {
  }

  /** Group `j`, byte `k` is byte `a` of the output row at `start`; `n` groups make a row. */
  lemma RatioByte(src: seq<byte>, inW: nat, r: Ratio, n: nat, rows: nat, y: nat, a: nat, j: nat, k: nat, w: nat,
                  start: nat, row: nat, group: nat)
    requires r.Even() && y < rows && j < n && k < r.OutBytes() && w == n * r.OutBytes()
    requires a == j * r.OutBytes() + k && start == y * w
    requires row == r.rows.From(y) * (inW * 2) && group == j * r.inBytes
    ensures var out, from := Frame(src, inW * 2, r, n, rows), row + group + r.Taps(j)[k];
            start + a < |out| && out[start + a] == (if from < |src| then src[from] else 0)
  {
    FrameAt(src, inW * 2, r, n, rows, y, j, k, w, start, a, row + group);
  }

  lemma RatioSame(src: seq<byte>, inW: nat, r: Ratio, n: nat, rows: nat, y: nat, a: nat, j: nat, k: nat, w: nat,
                  group: nat, s: nat, f: nat)
    requires r.Even() && y < rows && j < n && k < r.OutBytes() && w == n * r.OutBytes()
    requires a == j * r.OutBytes() + k && group == j * r.inBytes && s == r.rows.From(y) && f == group + r.Taps(j)[k]
    ensures ByteAt(Frame(src, inW * 2, r, n, rows), w, y, a) == ByteAt(src, inW * 2, s, f)
  {
    var start: nat, stride: nat := y * w, inW * 2;
    RatioByte(src, inW, r, n, rows, y, a, j, k, w, start, s * stride, group);
    SameByte(src, Frame(src, stride, r, n, rows), stride, w, y, a, s, f, start, s * stride);
  }

  lemma Taken(src: seq<byte>, inW: nat, inH: nat, outW: nat, outH: nat, out: seq<byte>, y: nat, a: nat, s: nat, f: nat)
    requires BelongsTo(inW, inH, outW, outH, y, a, s, f)
    requires ByteAt(out, outW * 2, y, a) == ByteAt(src, inW * 2, s, f)
    ensures TakenNear(src, inW, inH, outW, outH, out, y, a)
  {
  }

  lemma SameByte(src: seq<byte>, out: seq<byte>, stride: nat, w: nat, y: nat, a: nat, s: nat, f: nat, start: nat,
                 row: nat)
    requires start == y * w && row == s * stride && start + a < |out|
    requires out[start + a] == (if row + f < |src| then src[row + f] else 0)
    ensures ByteAt(out, w, y, a) == ByteAt(src, stride, s, f)
  {
  }

  lemma SampleKept(r: Ratio, j: nat, k: nat)
    requires KeepsSamples(r) && k < r.OutBytes()
    ensures SameSample(j * r.OutBytes() + k, j * r.inBytes + r.Taps(j)[k])
  {
  }

  lemma HalfSample(j: nat, k: nat, a: nat, f: nat)
    requires k < 4 && a == j * 4 + k && f == j * 8 + HALF.Taps(j)[k]
    ensures SameSample(a, f)
  {
    SamplesKept();
    SampleKept(HALF, j, k);
  }

  lemma HalfNear(inW: nat, inH: nat, outW: nat, outH: nat, y: nat, a: nat, j: nat, k: nat, f: nat)
    requires (inW, inH, outW, outH) in {(3840, 2160, 1920, 1080), (2560, 1440, 1280, 720)}
    requires y < outH && a < outW * 2 && j == a / 4 && k == a % 4
    requires f == j * 8 + HALF.Taps(j)[k] && SameSample(a, f)
    ensures BelongsTo(inW, inH, outW, outH, y, a, HALF.rows.From(y), f)
  {
  }

  lemma ThreeSample(j: nat, k: nat, a: nat, f: nat)
    requires k < 4 && a == j * 4 + k && f == j * 6 + THREE_TO_TWO.Taps(j)[k]
    ensures SameSample(a, f)
  {
    SamplesKept();
    SampleKept(THREE_TO_TWO, j, k);
  }

  lemma ThreeNear(inW: nat, inH: nat, outW: nat, outH: nat, y: nat, a: nat, j: nat, k: nat, f: nat)
    requires (inW, inH, outW, outH) == (1920, 1080, 1280, 720)
    requires y < outH && a < outW * 2 && j == a / 4 && k == a % 4
    requires f == j * 6 + THREE_TO_TWO.Taps(j)[k] && SameSample(a, f)
    ensures BelongsTo(inW, inH, outW, outH, y, a, THREE_TO_TWO.rows.From(y), f)
  {
  }

  lemma TwoSample(j: nat, k: nat, a: nat, f: nat)
    requires k < 12 && a == j * 12 + k && f == j * 8 + TWO_TO_THREE.Taps(j)[k]
    ensures SameSample(a, f)
  {
    SamplesKept();
    SampleKept(TWO_TO_THREE, j, k);
  }

  lemma TwoNear(inW: nat, inH: nat, outW: nat, outH: nat, y: nat, a: nat, j: nat, k: nat, f: nat)
    requires (inW, inH, outW, outH) == (1280, 720, 1920, 1080)
    requires y < outH && a < outW * 2 && j == a / 12 && k == a % 12
    requires f == j * 8 + TWO_TO_THREE.Taps(j)[k] && SameSample(a, f)
    ensures BelongsTo(inW, inH, outW, outH, y, a, TWO_TO_THREE.rows.From(y), f)
  {
  }

  lemma SixSample(j: nat, k: nat, a: nat, f: nat)
    requires k < 8 && a == j * 8 + k && f == j * 12 + SIX_TO_FOUR.Taps(j)[k]
    ensures SameSample(a, f)
  {
    SamplesKept();
    SampleKept(SIX_TO_FOUR, j, k);
  }

  lemma SixNear(inW: nat, inH: nat, outW: nat, outH: nat, y: nat, a: nat, j: nat, k: nat, f: nat)
    requires (inW, inH, outW, outH) == (3840, 2160, 2560, 1440)
    requires y < outH && a < outW * 2 && j == a / 8 && k == a % 8
    requires f == j * 12 + SIX_TO_FOUR.Taps(j)[k] && SameSample(a, f)
    ensures BelongsTo(inW, inH, outW, outH, y, a, SIX_TO_FOUR.rows.From(y), f)
  {
  }

  lemma FourSample(j: nat, k: nat, a: nat, f: nat)
    requires k < 12 && a == j * 12 + k && f == j * 16 + FOUR_TO_THREE.Taps(j)[k]
    ensures SameSample(a, f)
  {
    SamplesKept();
    SampleKept(FOUR_TO_THREE, j, k);
  }

  lemma FourNear(inW: nat, inH: nat, outW: nat, outH: nat, y: nat, a: nat, j: nat, k: nat, f: nat)
    requires (inW, inH, outW, outH) == (2560, 1440, 1920, 1080)
    requires y < outH && a < outW * 2 && j == a / 12 && k == a % 12
    requires f == j * 16 + FOUR_TO_THREE.Taps(j)[k] && SameSample(a, f)
    ensures BelongsTo(inW, inH, outW, outH, y, a, FOUR_TO_THREE.rows.From(y), f)
  {
  }

  lemma HalfShows(src: seq<byte>, inW: nat, inH: nat, outW: nat, outH: nat)
    requires (inW, inH, outW, outH) in {(3840, 2160, 1920, 1080), (2560, 1440, 1280, 720)}
    ensures ShowsWhole(src, inW, inH, outW, outH, Frame(src, inW * 2, HALF, outW * 2 / 4, outH))
  {
    var n: nat, out := outW * 2 / 4, Frame(src, inW * 2, HALF, outW * 2 / 4, outH);
    FrameLength(src, inW * 2, HALF, n, outH, outW * 2);
    forall y: nat, a: nat | y < outH && a < outW * 2 ensures TakenNear(src, inW, inH, outW, outH, out, y, a) {
      HalfAt(src, inW, inH, outW, outH, n, y, a);
    }
  }

  lemma HalfAt(src: seq<byte>, inW: nat, inH: nat, outW: nat, outH: nat, n: nat, y: nat, a: nat)
    requires (inW, inH, outW, outH) in {(3840, 2160, 1920, 1080), (2560, 1440, 1280, 720)}
    requires n == outW * 2 / 4 && y < outH && a < outW * 2
    ensures TakenNear(src, inW, inH, outW, outH, Frame(src, inW * 2, HALF, n, outH), y, a)
  {
    var j: nat, k: nat, s: nat := a / 4, a % 4, HALF.rows.From(y);
    var f: nat := j * 8 + HALF.Taps(j)[k];
    HalfSample(j, k, a, f);
    HalfNear(inW, inH, outW, outH, y, a, j, k, f);
    RatioSame(src, inW, HALF, n, outH, y, a, j, k, outW * 2, j * 8, s, f);
    Taken(src, inW, inH, outW, outH, Frame(src, inW * 2, HALF, n, outH), y, a, s, f);
  }

  lemma ThreeShows(src: seq<byte>, inW: nat, inH: nat, outW: nat, outH: nat)
    requires (inW, inH, outW, outH) == (1920, 1080, 1280, 720)
    ensures ShowsWhole(src, inW, inH, outW, outH, Frame(src, inW * 2, THREE_TO_TWO, outW * 2 / 4, outH))
  {
    var n: nat, out := outW * 2 / 4, Frame(src, inW * 2, THREE_TO_TWO, outW * 2 / 4, outH);
    FrameLength(src, inW * 2, THREE_TO_TWO, n, outH, outW * 2);
    forall y: nat, a: nat | y < outH && a < outW * 2 ensures TakenNear(src, inW, inH, outW, outH, out, y, a) {
      ThreeAt(src, inW, inH, outW, outH, n, y, a);
    }
  }

  lemma ThreeAt(src: seq<byte>, inW: nat, inH: nat, outW: nat, outH: nat, n: nat, y: nat, a: nat)
    requires (inW, inH, outW, outH) == (1920, 1080, 1280, 720)
    requires n == outW * 2 / 4 && y < outH && a < outW * 2
    ensures TakenNear(src, inW, inH, outW, outH, Frame(src, inW * 2, THREE_TO_TWO, n, outH), y, a)
  {
    var j: nat, k: nat, s: nat := a / 4, a % 4, THREE_TO_TWO.rows.From(y);
    var f: nat := j * 6 + THREE_TO_TWO.Taps(j)[k];
    ThreeSample(j, k, a, f);
    ThreeNear(inW, inH, outW, outH, y, a, j, k, f);
    RatioSame(src, inW, THREE_TO_TWO, n, outH, y, a, j, k, outW * 2, j * 6, s, f);
    Taken(src, inW, inH, outW, outH, Frame(src, inW * 2, THREE_TO_TWO, n, outH), y, a, s, f);
  }

  lemma TwoShows(src: seq<byte>, inW: nat, inH: nat, outW: nat, outH: nat)
    requires (inW, inH, outW, outH) == (1280, 720, 1920, 1080)
    ensures ShowsWhole(src, inW, inH, outW, outH, Frame(src, inW * 2, TWO_TO_THREE, outW * 2 / 12, outH))
  {
    var n: nat, out := outW * 2 / 12, Frame(src, inW * 2, TWO_TO_THREE, outW * 2 / 12, outH);
    FrameLength(src, inW * 2, TWO_TO_THREE, n, outH, outW * 2);
    forall y: nat, a: nat | y < outH && a < outW * 2 ensures TakenNear(src, inW, inH, outW, outH, out, y, a) {
      TwoAt(src, inW, inH, outW, outH, n, y, a);
    }
  }

  lemma TwoAt(src: seq<byte>, inW: nat, inH: nat, outW: nat, outH: nat, n: nat, y: nat, a: nat)
    requires (inW, inH, outW, outH) == (1280, 720, 1920, 1080)
    requires n == outW * 2 / 12 && y < outH && a < outW * 2
    ensures TakenNear(src, inW, inH, outW, outH, Frame(src, inW * 2, TWO_TO_THREE, n, outH), y, a)
  {
    var j: nat, k: nat, s: nat := a / 12, a % 12, TWO_TO_THREE.rows.From(y);
    var f: nat := j * 8 + TWO_TO_THREE.Taps(j)[k];
    TwoSample(j, k, a, f);
    TwoNear(inW, inH, outW, outH, y, a, j, k, f);
    RatioSame(src, inW, TWO_TO_THREE, n, outH, y, a, j, k, outW * 2, j * 8, s, f);
    Taken(src, inW, inH, outW, outH, Frame(src, inW * 2, TWO_TO_THREE, n, outH), y, a, s, f);
  }

  lemma SixShows(src: seq<byte>, inW: nat, inH: nat, outW: nat, outH: nat)
    requires (inW, inH, outW, outH) == (3840, 2160, 2560, 1440)
    ensures ShowsWhole(src, inW, inH, outW, outH, Frame(src, inW * 2, SIX_TO_FOUR, outW * 2 / 8, outH))
  {
    var n: nat, out := outW * 2 / 8, Frame(src, inW * 2, SIX_TO_FOUR, outW * 2 / 8, outH);
    FrameLength(src, inW * 2, SIX_TO_FOUR, n, outH, outW * 2);
    forall y: nat, a: nat | y < outH && a < outW * 2 ensures TakenNear(src, inW, inH, outW, outH, out, y, a) {
      SixAt(src, inW, inH, outW, outH, n, y, a);
    }
  }

  lemma SixAt(src: seq<byte>, inW: nat, inH: nat, outW: nat, outH: nat, n: nat, y: nat, a: nat)
    requires (inW, inH, outW, outH) == (3840, 2160, 2560, 1440)
    requires n == outW * 2 / 8 && y < outH && a < outW * 2
    ensures TakenNear(src, inW, inH, outW, outH, Frame(src, inW * 2, SIX_TO_FOUR, n, outH), y, a)
  {
    var j: nat, k: nat, s: nat := a / 8, a % 8, SIX_TO_FOUR.rows.From(y);
    var f: nat := j * 12 + SIX_TO_FOUR.Taps(j)[k];
    SixSample(j, k, a, f);
    SixNear(inW, inH, outW, outH, y, a, j, k, f);
    RatioSame(src, inW, SIX_TO_FOUR, n, outH, y, a, j, k, outW * 2, j * 12, s, f);
    Taken(src, inW, inH, outW, outH, Frame(src, inW * 2, SIX_TO_FOUR, n, outH), y, a, s, f);
  }

  lemma FourShows(src: seq<byte>, inW: nat, inH: nat, outW: nat, outH: nat)
    requires (inW, inH, outW, outH) == (2560, 1440, 1920, 1080)
    ensures ShowsWhole(src, inW, inH, outW, outH, Frame(src, inW * 2, FOUR_TO_THREE, outW * 2 / 12, outH))
  {
    var n: nat, out := outW * 2 / 12, Frame(src, inW * 2, FOUR_TO_THREE, outW * 2 / 12, outH);
    FrameLength(src, inW * 2, FOUR_TO_THREE, n, outH, outW * 2);
    forall y: nat, a: nat | y < outH && a < outW * 2 ensures TakenNear(src, inW, inH, outW, outH, out, y, a) {
      FourAt(src, inW, inH, outW, outH, n, y, a);
    }
  }

  lemma FourAt(src: seq<byte>, inW: nat, inH: nat, outW: nat, outH: nat, n: nat, y: nat, a: nat)
    requires (inW, inH, outW, outH) == (2560, 1440, 1920, 1080)
    requires n == outW * 2 / 12 && y < outH && a < outW * 2
    ensures TakenNear(src, inW, inH, outW, outH, Frame(src, inW * 2, FOUR_TO_THREE, n, outH), y, a)
  {
    var j: nat, k: nat, s: nat := a / 12, a % 12, FOUR_TO_THREE.rows.From(y);
    var f: nat := j * 16 + FOUR_TO_THREE.Taps(j)[k];
    FourSample(j, k, a, f);
    FourNear(inW, inH, outW, outH, y, a, j, k, f);
    RatioSame(src, inW, FOUR_TO_THREE, n, outH, y, a, j, k, outW * 2, j * 16, s, f);
    Taken(src, inW, inH, outW, outH, Frame(src, inW * 2, FOUR_TO_THREE, n, outH), y, a, s, f);
  }

  lemma CentreShows(src: seq<byte>, inW: nat, inH: nat, outW: nat, outH: nat)
    ensures ShowsCentre(src, inW, inH, outW, outH, Window(src, inW, inH, outW, outH))
  {
    var w: nat, out := outW * 2, Window(src, inW, inH, outW, outH);
    WindowLength(src, inW, inH, outW, outH, w);
    forall y: nat, x: nat, c: nat | y < outH && x < outW && c < 2
      ensures ByteAt(out, w, y, 2 * x + c) == CentredByte(src, inW, inH, outW, outH, y, x, c)
    {
      WindowAt(src, inW, inH, outW, outH, x, y, c, w, y * w);
      CentredIs(src, inW, inH, outW, outH, y, x, c);
    }
  }

  lemma CentredIs(src: seq<byte>, inW: nat, inH: nat, outW: nat, outH: nat, y: nat, x: nat, c: nat)
    requires y < outH && x < outW && c < 2
    ensures CentredByte(src, inW, inH, outW, outH, y, x, c) ==
            if Pad(inH, outH) <= y < outH - Pad(inH, outH)
            then WindowByte(src, inW, outW, y - Pad(inH, outH) + Crop(inH, outH), x, c)
            else BLACK_PIXEL[c]
  {
  }

  /** Every modelled pair of sizes shows what it is to show. */
  lemma ScaledShows(src: seq<byte>, inW: nat, inH: nat, outW: nat, outH: nat)
    requires !SpecialPair(inW, inH, outW, outH)
    ensures Dispatch(inW, inH, outW, outH) != Special
    ensures Shows(src, inW, inH, outW, outH, Scaled(src, inW, inH, outW, outH))
  {
    PairDispatch(inW, inH, outW, outH);
    if !WholePair(inW, inH, outW, outH) {
      CentreShows(src, inW, inH, outW, outH);
    } else {
      WholeShows(src, inW, inH, outW, outH);
    }
  }

  lemma WholeShows(src: seq<byte>, inW: nat, inH: nat, outW: nat, outH: nat)
    requires WholePair(inW, inH, outW, outH) && Dispatch(inW, inH, outW, outH).ByRatio?
    ensures ShowsWhole(src, inW, inH, outW, outH, Scaled(src, inW, inH, outW, outH))
  {
    if inW == 1920 {
      ThreeShows(src, inW, inH, outW, outH);
    } else if inW == 1280 {
      TwoShows(src, inW, inH, outW, outH);
    } else if inW == 2 * outW {
      HalfShows(src, inW, inH, outW, outH);
    } else if inW == 3840 {
      SixShows(src, inW, inH, outW, outH);
    } else {
      FourShows(src, inW, inH, outW, outH);
    }
  }
  /**
   * VideoScaler() for the pairs of this model; `src` holds the frame and what
   * the source buffer has behind it.
   */
  method VideoScaler(dest: array<byte>, src: seq<byte>, inW: nat, inH: nat, outW: nat, outH: nat)
    requires !SpecialPair(inW, inH, outW, outH)
    requires WholePair(inW, inH, outW, outH) || ReadsWithin(inW, inH, outW, outH, |src|)
    requires |src| >= inH * (inW * 2) && dest.Length >= outH * (outW * 2)
    modifies dest
    ensures Shows(src, inW, inH, outW, outH, dest[..outH * (outW * 2)])
    ensures dest[outH * (outW * 2)..] == old(dest[outH * (outW * 2)..])
  {
    ghost var behind := dest[outH * (outW * 2)..];
    PairDispatch(inW, inH, outW, outH);
    ScaledShows(src, inW, inH, outW, outH);
    Dispatched(dest, src, inW, inH, outW, outH);
    ScaledFills(src, inW, inH, outW, outH);
    Apart(dest[..], Scaled(src, inW, inH, outW, outH), behind);
  }

  lemma Apart(s: seq<byte>, a: seq<byte>, b: seq<byte>)
    requires s == a + b
    ensures s[..|a|] == a && s[|a|..] == b
  {
  }

  /** The choice VideoScaler() makes. */
  method Dispatched(dest: array<byte>, src: seq<byte>, inW: nat, inH: nat, outW: nat, outH: nat)
    requires Dispatch(inW, inH, outW, outH) != Special
    requires Dispatch(inW, inH, outW, outH) == AnySize ==> ReadsWithin(inW, inH, outW, outH, |src|)
    requires |src| >= inH * (inW * 2) && dest.Length >= outH * (outW * 2)
    modifies dest
    ensures dest[..] == Scaled(src, inW, inH, outW, outH) + old(dest[outH * (outW * 2)..])
  {
    if inW == 1920 && inH == 1080 && outW == 1280 && outH == 720 {
      ScaledBy(src, inW, inH, outW, outH, THREE_TO_TWO, outW / 2);
      ScaleThreeToTwo(dest, src, inW, inH, outW, outH);
    } else if inW == 1280 && inH == 720 && outW == 1920 && outH == 1080 {
      ScaledBy(src, inW, inH, outW, outH, TWO_TO_THREE, outW / 6);
      ScaleTwoToThree(dest, src, inW, inH, outW, outH);
    } else if inW == 3840 && inH == 2160 && outW == 1920 && outH == 1080 {
      ScaledBy(src, inW, inH, outW, outH, HALF, outW / 2);
      ScaleHalf(dest, src, inW, inH, outW, outH);
    } else if inW == 3840 && inH == 2160 && outW == 2560 && outH == 1440 {
      ScaledBy(src, inW, inH, outW, outH, SIX_TO_FOUR, outW / 4);
      ScaleSixToFour(dest, src, inW, inH, outW, outH);
    } else if inW == 2560 && inH == 1440 && outW == 1920 && outH == 1080 {
      ScaledBy(src, inW, inH, outW, outH, FOUR_TO_THREE, outW / 6);
      ScaleFourToThree(dest, src, inW, inH, outW, outH);
    } else if inW == 2560 && inH == 1440 && outW == 1280 && outH == 720 {
      ScaledBy(src, inW, inH, outW, outH, HALF, outW / 2);
      ScaleHalf(dest, src, inW, inH, outW, outH);
    } else {
      OtherwiseAny(inW, inH, outW, outH);
      ScaleAny(dest, src, inW, inH, outW, outH);
    }
  }

  lemma ScaledBy(src: seq<byte>, inW: nat, inH: nat, outW: nat, outH: nat, r: Ratio, n: nat)
    requires Dispatch(inW, inH, outW, outH) == ByRatio(r) && n == outW * 2 / |r.even|
    ensures Scaled(src, inW, inH, outW, outH) == Frame(src, inW * 2, r, n, outH)
  {
  }

  lemma OtherwiseAny(inW: nat, inH: nat, outW: nat, outH: nat)
    requires Dispatch(inW, inH, outW, outH) != Special
    requires !((inW == 1920 && inH == 1080 && outW == 1280 && outH == 720)
             || (inW == 1280 && inH == 720 && outW == 1920 && outH == 1080)
             || (inW == 3840 && inH == 2160 && (outW, outH) in {(1920, 1080), (2560, 1440)})
             || (inW == 2560 && inH == 1440 && (outW, outH) in {(1920, 1080), (1280, 720)}))
    ensures Dispatch(inW, inH, outW, outH) == AnySize
  {
  }
}
