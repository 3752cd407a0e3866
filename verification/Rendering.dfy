/** Rendering a staged frame: line doubling of interlaced fields, then scaling. */
module Rendering {
  import opened Basics
  import opened Quarters
  import opened LineDouble
  import opened Frames
  import opened Driver
  import opened Bounds
  import S = Scaler

  /** The lengths are those of the frame's quarters, and the input size is one the driver accepts. */
  ghost predicate SizeMatches(g: Geometry, len: seq<nat>) {
    SizeOk(g) && len == Cut(FrameBytes(g.w, g.h))
  }

  /** The four quarters of a staged frame lie one behind the other. */
  function StagedQuarters(staging: seq<byte>, len: seq<nat>): seq<seq<byte>>
    requires |len| == 4 && len[0] + len[1] + len[2] <= |staging|
  {
    [staging, staging[len[0]..], staging[len[0] + len[1]..], staging[len[0] + len[1] + len[2]..]]
  }

  lemma StagedField(staging: seq<byte>, len: seq<nat>, total: nat)
    requires |len| == 4 && LastLen(total, len) >= 0 && total <= |staging|
    ensures Field(StagedQuarters(staging, len), len, total) == staging[..total]
  {
    var a, b := len[0], len[0] + len[1];
    var c := b + len[2];
    assert staging[a..][..len[1]] == staging[a..b] && staging[b..][..len[2]] == staging[b..c];
    assert staging[c..][..LastLen(total, len)] == staging[c..total];
    assert staging[..a] + staging[a..b] == staging[..b];
    assert staging[..b] + staging[b..c] == staging[..c];
    assert staging[..c] + staging[c..total] == staging[..total];
  }

  lemma FieldSize(w: nat, h: nat)
    ensures w * (2 * h) == FrameBytes(w, h) && w * 2 * (2 * h) == FrameBytes(w, 2 * h) == 2 * FrameBytes(w, h)
  {
    assert w * (2 * h) == 2 * (w * h);
    assert w * 2 * (2 * h) == 2 * (w * (2 * h));
  }

  // ---- what a rendered frame shows ----

  /** Every field row, of `row` bytes, twice. */
  ghost predicate RowsTwice(field: seq<byte>, row: nat, rows: nat, full: seq<byte>) {
    && |full| == 2 * |field|
    && forall s: nat, c: nat :: s < 2 * rows && c < row ==> S.ByteAt(full, row, s, c) == S.ByteAt(field, row, s / 2, c)
  }

  /** The rows of a field join across its quarters, three of them of q bytes. */
  predicate FieldJoins(g: Geometry) {
    var q := FirstQuarter(FrameBytes(g.w, g.h));
    g.w > 0 && (q == 0 || 4 * g.w <= 3 * q || q == g.w)
  }

  /** An interlaced frame shown at its own size, or scaled from that. */
  ghost predicate ShowsField(cfg: Config, raw: seq<byte>, g: Geometry, out: seq<byte>) {
    exists full ::
      && RowsTwice(raw, g.w * 2, g.h, full)
      && out == (if g.w == cfg.outW && 2 * g.h == cfg.outH then full
                 else cfg.scale(full, g.w, 2 * g.h, cfg.outW, cfg.outH))
  }

  /** The output made of the bytes `raw` of an input frame; none when its field cannot be doubled. */
  ghost predicate ShowsInput(cfg: Config, raw: seq<byte>, g: Geometry, out: Option<seq<byte>>) {
    if !g.il then out == Some(cfg.scale(raw, g.w, g.h, cfg.outW, cfg.outH))
    else if !FieldJoins(g) then out == None
    else out.Some? && ShowsField(cfg, raw, g, out.value)
  }

  lemma DoubledRows(raw: seq<byte>, row: nat, rows: nat)
    requires row > 0 && |raw| == rows * row
    ensures RowsTwice(raw, row, rows, Doubled(raw, row))
  {
    var full := Doubled(raw, row);
    DoubledSizeOf(raw, row, rows);
    forall s: nat, c: nat | s < 2 * rows && c < row
      ensures S.ByteAt(full, row, s, c) == S.ByteAt(raw, row, s / 2, c)
    {
      DoubledRow(raw, row, rows, s / 2, s % 2, c);
    }
  }

  lemma DoubledSizeOf(raw: seq<byte>, row: nat, rows: nat)
    requires row > 0 && |raw| == rows * row
    ensures |Doubled(raw, row)| == 2 * |raw|
  {
    DoubledLength(raw, row, rows);
    assert 2 * rows * row == 2 * (rows * row);
  }

  lemma DoubledRow(raw: seq<byte>, row: nat, rows: nat, k: nat, odd: nat, c: nat)
    requires row > 0 && |raw| == rows * row && k < rows && odd < 2 && c < row
    ensures S.ByteAt(Doubled(raw, row), row, 2 * k + odd, c) == S.ByteAt(raw, row, k, c)
  {
    DoubledAt(raw, row, rows, k, c);
    DoubledPlace(raw, Doubled(raw, row), row, k, odd, c);
  }

  lemma DoubledPlace(raw: seq<byte>, full: seq<byte>, row: nat, k: nat, odd: nat, c: nat)
    requires odd < 2 && c < row && |full| == 2 * |raw| && k * row + row <= |raw|
    requires full[2 * (k * row) + c] == full[2 * (k * row) + row + c] == raw[k * row + c]
    ensures S.ByteAt(full, row, 2 * k + odd, c) == S.ByteAt(raw, row, k, c)
  {
    assert (2 * k + odd) * row == 2 * (k * row) + odd * row;
  }

  /** Render() shows the input; `raw` is a frame of the geometry with its programmed quarters. */
  lemma RenderShows(cfg: Config, raw: seq<byte>, g: Geometry)
    requires g.w > 0 && |raw| == FrameBytes(g.w, g.h)
    ensures ShowsInput(cfg, raw, g, Render(cfg, raw, g, Cut(FrameBytes(g.w, g.h))))
  {
    if g.il {
      FieldSize(g.w, g.h);
      CutRowsJoinExactly(FrameBytes(g.w, g.h), g.w * 2);
      if FieldJoins(g) {
        FieldRows(g.w, g.h);
        DoubledRows(raw, g.w * 2, g.h);
      }
    }
  }

  lemma FieldRows(w: nat, h: nat)
    ensures FrameBytes(w, h) == h * (w * 2)
  {
    assert w * h * 2 == h * (w * 2);
  }

  /** hws_render_staged(); `full` is the frame the scaler reads from. */
  method RenderStaged(cfg: Config, staging: seq<byte>, full: array<byte>, g: Geometry, len: seq<nat>)
    returns (out: Option<seq<byte>>)
    requires g.w > 0 && SizeMatches(g, len) && |staging| == STAGING_BYTES == full.Length
    modifies full
    ensures out == Render(cfg, Frames.Take(staging, FrameBytes(g.w, g.h)), g, len)
    ensures FrameBytes(g.w, g.h) <= |staging| && ShowsInput(cfg, staging[..FrameBytes(g.w, g.h)], g, out)
  {
    var total := FrameBytes(g.w, g.h);
    FrameBytesMax(g);
    RenderShows(cfg, staging[..total], g);
    if !g.il {
      return Some(cfg.scale(staging[..total], g.w, g.h, cfg.outW, cfg.outH));
    }
    CutOffsets(total);
    FieldSize(g.w, g.h);
    var h := 2 * g.h;
    var src := StagedQuarters(staging, len);
    StagedField(staging, len, total);
    var r := MemCopyFrame(full, g.w, h, true, src, len);
    if r < 0 {
      return None;
    }
    var doubled := full[..g.w * 2 * h];
    assert doubled == Doubled(staging[..total], g.w * 2);
    if g.w == cfg.outW && h == cfg.outH {
      out := Some(doubled);
    } else {
      out := Some(cfg.scale(doubled, g.w, h, cfg.outW, cfg.outH));
    }
  }

  // ---- the scaler ----

  type Scaling = (seq<byte>, nat, nat, nat, nat) -> seq<byte>

  /** VideoScaler() as a configuration's scaler; `special` are the pairs of sizes outside this model. */
  function WithSpecial(special: Scaling): Scaling {
    (raw, w, h, ow, oh) =>
      if S.Dispatch(w, h, ow, oh) == S.Special then special(raw, w, h, ow, oh) else S.Scaled(raw, w, h, ow, oh)
  }

  /** With VideoScaler() as the scaler the pixels of a rendered frame are those of the input. */
  ghost predicate ShowsPixels(cfg: Config, raw: seq<byte>, g: Geometry, out: seq<byte>) {
    if !g.il then ScaledPixels(cfg, raw, g.w, g.h, out)
    else exists full ::
      && RowsTwice(raw, g.w * 2, g.h, full)
      && (if g.w == cfg.outW && 2 * g.h == cfg.outH then out == full else ScaledPixels(cfg, full, g.w, 2 * g.h, out))
  }

  ghost predicate ScaledPixels(cfg: Config, src: seq<byte>, w: nat, h: nat, out: seq<byte>) {
    !S.SpecialPair(w, h, cfg.outW, cfg.outH) ==> S.Shows(src, w, h, cfg.outW, cfg.outH, out)
  }

  lemma PixelsShown(cfg: Config, special: Scaling, raw: seq<byte>, g: Geometry, out: seq<byte>)
    requires cfg.scale == WithSpecial(special) && ShowsInput(cfg, raw, g, Some(out))
    ensures ShowsPixels(cfg, raw, g, out)
  {
    if !g.il {
      ScaleShows(cfg, special, raw, g.w, g.h);
    } else {
      var full :| RowsTwice(raw, g.w * 2, g.h, full)
                  && out == (if g.w == cfg.outW && 2 * g.h == cfg.outH then full
                             else cfg.scale(full, g.w, 2 * g.h, cfg.outW, cfg.outH));
      ScaleShows(cfg, special, full, g.w, 2 * g.h);
    }
  }

  lemma ScaleShows(cfg: Config, special: Scaling, src: seq<byte>, w: nat, h: nat)
    requires cfg.scale == WithSpecial(special)
    ensures ScaledPixels(cfg, src, w, h, cfg.scale(src, w, h, cfg.outW, cfg.outH))
  {
    if !S.SpecialPair(w, h, cfg.outW, cfg.outH) {
      S.ScaledShows(src, w, h, cfg.outW, cfg.outH);
    }
  }

  /** It fills the output frame exactly, which is all the rest assumes of a scaler. */
  lemma ScalersFit(cfg: Config, special: Scaling)
    requires ScaleFits(cfg.(scale := special))
    ensures ScaleFits(cfg.(scale := WithSpecial(special)))
  {
    var scale := WithSpecial(special);
    forall raw: seq<byte>, w: nat, h: nat, ow: nat, oh: nat ensures |scale(raw, w, h, ow, oh)| == ow * oh * 2 {
      if S.Dispatch(w, h, ow, oh) == S.Special {
        assert |cfg.(scale := special).scale(raw, w, h, ow, oh)| == ow * oh * 2;
      } else {
        S.ScaledFills(raw, w, h, ow, oh);
        OutputBytes(ow, oh);
      }
    }
  }

  lemma OutputBytes(w: nat, h: nat)
    ensures h * (w * 2) == w * h * 2
  {
  }
}
