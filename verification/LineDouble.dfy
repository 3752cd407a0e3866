/**
 * Line doubling of an interlaced field that lies in four quarters whose ends
 * need not fall between two rows.
 */
module LineDouble {
  import opened Basics
  import opened Quarters

  /** Every row of a field twice. */
  function Doubled(field: seq<byte>, row: nat): seq<byte>
    requires row > 0
  {
    if |field| < row then [] else
    var last := field[|field| - row..];
    Doubled(field[..|field| - row], row) + last + last
  }

  lemma {:induction false} DoubledLength(field: seq<byte>, row: nat, rows: nat)
    requires row > 0 && |field| == rows * row
    ensures |Doubled(field, row)| == 2 * rows * row
  {
    if rows > 0 {
      assert (rows - 1) * row == |field| - row;
      DoubledLength(field[..|field| - row], row, rows - 1);
    } else {
      assert |field| == 0;
    }
  }

  lemma {:induction false} DoubledAppend(field: seq<byte>, one: seq<byte>, row: nat)
    requires row > 0 && |one| == row
    ensures Doubled(field + one, row) == Doubled(field, row) + one + one
  {
    var t := field + one;
    assert t[..|t| - row] == field && t[|t| - row..] == one;
  }

  lemma RowFits(rows: nat, row: nat, k: nat)
    requires k < rows
    ensures k * row + row <= rows * row
    ensures (k + 1) * row == k * row + row
  {
    assert (rows - (k + 1)) * row >= 0;
    assert rows * row == (k + 1) * row + (rows - (k + 1)) * row;
  }

  /** Two copies of `last` behind `done`. */
  lemma TwoBehind(done: seq<byte>, last: seq<byte>, c: nat)
    requires c < |last|
    ensures (done + last + last)[..|done|] == done
    ensures (done + last + last)[|done| + c] == (done + last + last)[|done| + |last| + c] == last[c]
  {
  }

  /** The last row is written twice, behind the doubling of the rows before it. */
  lemma DoubledEnd(field: seq<byte>, row: nat, n: nat)
    requires row > 0 && |field| == n + row
    ensures Doubled(field, row) == Doubled(field[..n], row) + field[n..] + field[n..]
  {
  }

  /** Output rows 2k and 2k+1, which start at twice the start of field row k, are both that row. */
  lemma {:induction false} DoubledAt(field: seq<byte>, row: nat, rows: nat, k: nat, c: nat)
    requires row > 0 && |field| == rows * row && k < rows && c < row
    ensures var start := k * row;
            && 0 <= start + row <= |field| && |Doubled(field, row)| == 2 * |field|
            && Doubled(field, row)[2 * start + c] == field[start + c]
            && Doubled(field, row)[2 * start + row + c] == field[start + c]
  {
    RowFits(rows, row, k);
    RowFits(rows, row, rows - 1);
    var start: nat, n: nat := k * row, (rows - 1) * row;
    var done, last := Doubled(field[..n], row), field[n..];
    DoubledLength(field[..n], row, rows - 1);
    DoubledEnd(field, row, n);
    TwoBehind(done, last, c);
    if k < rows - 1 {
      RowFits(rows - 1, row, k);
      DoubledAt(field[..n], row, rows - 1, k, c);
      PrefixAt(done + last + last, |done|, 2 * start + c, row);
    }
  }

  lemma PrefixAt(s: seq<byte>, n: nat, i: nat, row: nat)
    requires i + row < n <= |s|
    ensures s[i] == s[..n][i] && s[i + row] == s[..n][i + row]
  {
  }

  // ---- the copy ----

  method MemCpy(dest: array<byte>, d: nat, src: seq<byte>)
    requires d + |src| <= dest.Length
    modifies dest
    ensures dest[..] == old(dest[..d]) + src + old(dest[d + |src|..])
  {
    forall k | 0 <= k < |src| {
      dest[d + k] := src[k];
    }
  }

  /** One row, written twice. */
  method PutTwice(dest: array<byte>, d: nat, one: seq<byte>)
    requires d + 2 * |one| <= dest.Length
    modifies dest
    ensures dest[..] == old(dest[..d]) + one + one + old(dest[d + 2 * |one|..])
  {
    MemCpy(dest, d, one);
    MemCpy(dest, d + |one|, one);
  }

  lemma AppendTwice(before: seq<byte>, after: seq<byte>, pre: seq<byte>, done: seq<byte>, one: seq<byte>,
                    post: seq<byte>, at: nat)
    requires |done| + 2 * |one| <= |post| && at == |pre| + |done|
    requires before == pre + done + post[|done|..]
    requires after == before[..at] + one + one + before[at + 2 * |one|..]
    ensures after == pre + (done + one + one) + post[|done| + 2 * |one|..]
  {
    assert before[..at] == pre + done;
    assert before[at + 2 * |one|..] == post[|done| + 2 * |one|..];
  }

  /** What one more row adds to the part of the destination already written. */
  lemma DoubleStep(before: seq<byte>, after: seq<byte>, pre: seq<byte>, post: seq<byte>, done: seq<byte>,
                   one: seq<byte>, s: nat, row: nat)
    requires row > 0 && s == |done| && |one| == row && 2 * (s + row) <= |post|
    requires |Doubled(done, row)| == 2 * s
    requires before == pre + Doubled(done, row) + post[2 * s..]
    requires var at := |pre| + 2 * s; after == before[..at] + one + one + before[at + 2 * row..]
    ensures |Doubled(done + one, row)| == 2 * (s + row)
    ensures after == pre + Doubled(done + one, row) + post[2 * (s + row)..]
  {
    DoubledAppend(done, one, row);
    AppendTwice(before, after, pre, Doubled(done, row), one, post, |pre| + 2 * s);
  }

  /** `lines` rows from `src`, each written twice, from `d` on. */
  method DoubleRows(dest: array<byte>, d: nat, src: seq<byte>, lines: nat, row: nat)
    requires row > 0 && |src| == lines * row && d + 2 * |src| <= dest.Length
    modifies dest
    ensures |Doubled(src, row)| == 2 * |src|
    ensures dest[..] == old(dest[..d]) + Doubled(src, row) + old(dest[d + 2 * |src|..])
  {
    ghost var pre, post := dest[..d], dest[d..];
    var s: nat, h: nat := 0, 0;
    while h < lines
      invariant 0 <= h <= lines
      invariant s == h * row <= |src|
      invariant |Doubled(src[..s], row)| == 2 * s
      invariant dest[..] == pre + Doubled(src[..s], row) + post[2 * s..]
    {
      RowFits(lines, row, h);
      ghost var before := dest[..];
      PutTwice(dest, d + 2 * s, src[s..s + row]);
      DoubleStep(before, dest[..], pre, post, src[..s], src[s..s + row], s, row);
      assert src[..s] + src[s..s + row] == src[..s + row];
      s := s + row;
      h := h + 1;
    }
    assert src[..s] == src;
    assert post[2 * s..] == old(dest[d + 2 * |src|..]);
  }

  lemma {:induction false} DoubledConcat(a: seq<byte>, b: seq<byte>, row: nat, rows: nat)
    requires row > 0 && |b| == rows * row
    ensures Doubled(a + b, row) == Doubled(a, row) + Doubled(b, row)
    decreases rows, 1
  {
    if rows == 0 {
      assert b == [];
      assert a + b == a;
    } else {
      RowFits(rows, row, rows - 1);
      DoubledConcatStep(a, b, row, rows);
    }
  }

  lemma {:induction false} DoubledConcatStep(a: seq<byte>, b: seq<byte>, row: nat, rows: nat)
    requires row > 0 && rows > 0 && |b| == rows * row && |b| - row == (rows - 1) * row && |b| >= row
    ensures Doubled(a + b, row) == Doubled(a, row) + Doubled(b, row)
    decreases rows, 0
  {
    var t, one := b[..|b| - row], b[|b| - row..];
    assert b == t + one;
    DoubledConcat(a, t, row, rows - 1);
    Regroup(a, t, one);
    Regroup(Doubled(a, row), Doubled(t, row), one);
    DoubledAppend(a + t, one, row);
    DoubledAppend(t, one, row);
  }

  lemma Regroup(x: seq<byte>, y: seq<byte>, one: seq<byte>)
    ensures x + (y + one) == (x + y) + one
    ensures x + (y + one + one) == x + y + one + one
  {
  }

  // ---- MemCopyFrame ----

  /** The bytes the next quarter must supply to complete a row that ends `n` bytes on. */
  function Pad(n: nat, row: nat): (p: nat)
    requires row > 0
    ensures p < row
  {
    if n == 0 then 0 else if n < row then row - n else Pad(n - row, row)
  }

  /** The rows that `n` bytes begin. */
  function RowsBegun(n: nat, row: nat): nat
    requires row > 0
  {
    if n == 0 then 0 else if n < row then 1 else 1 + RowsBegun(n - row, row)
  }

  /** Bytes of input for a w x h output frame: half of it when a field is doubled. */
  function InputBytes(w: nat, h: nat, interlace: bool): nat {
    if interlace then w * h else w * 2 * h
  }

  function LastLen(total: nat, len: seq<nat>): int
    requires |len| == 4
  {
    total - len[0] - len[1] - len[2]
  }

  /** The check on the lengths that MemCopyFrame() makes before it copies anything. */
  predicate LensFit(total: nat, len: seq<nat>)
    requires |len| == 4
  {
    LastLen(total, len) >= 0 && FirstQuarter(total) == len[0]
  }

  /** Each row that straddles a quarter's end is completed within the next quarter. */
  predicate RowsJoin(len: seq<nat>, row: nat)
    requires |len| == 4 && row > 0
  {
    var skip := Pad(len[0], row);
    skip <= len[1] && Pad(len[1] - skip, row) <= len[2]
  }

  /** The concatenation of the four quarters, cut to the frame. */
  function Field(src: seq<seq<byte>>, len: seq<nat>, total: nat): seq<byte>
    requires |src| == 4 && |len| == 4 && LastLen(total, len) >= 0
    requires len[0] <= |src[0]| && len[1] <= |src[1]| && len[2] <= |src[2]| && LastLen(total, len) <= |src[3]|
  {
    src[0][..len[0]] + src[1][..len[1]] + src[2][..len[2]] + src[3][..LastLen(total, len)]
  }

  lemma {:induction false} PadFills(n: nat, row: nat)
    requires row > 0
    ensures Pad(n, row) < row && n + Pad(n, row) == RowsBegun(n, row) * row
  {
    if n >= row {
      PadFills(n - row, row);
      assert RowsBegun(n, row) * row == RowsBegun(n - row, row) * row + row;
    }
  }

  lemma Floor(n: nat, row: nat)
    requires row > 0
    ensures n / row * row <= n < n / row * row + row
  {
  }

  /** Two multiples of a row that are less than two rows apart. */
  lemma NextMultiple(m: int, k: int, row: nat, x: nat)
    requires x == m * row - k * row && x < 2 * row
    ensures x == 0 || x == row
  {
    assert x == (m - k) * row;
    ScaledBy(m - k, row);
    ScaledBy(m - k - 1, row);
    assert (m - k - 1) * row == x - row;
  }

  /** The whole rows in `n` bytes, and what completes the rest to a row. */
  lemma WholeRows(n: nat, row: nat, k: nat, full: nat)
    requires row > 0 && k == n / row && full == k * row
    ensures full <= n < full + row
    ensures Pad(n, row) == if n == full then 0 else full + row - n
  {
    PadFills(n, row);
    Floor(n, row);
    NextMultiple(RowsBegun(n, row), k, row, n + Pad(n, row) - full);
  }

  lemma MulDiv(k: nat, row: nat)
    requires row > 0
    ensures k * row / row == k && k * row % row == 0
  {
    var n := k * row;
    var q, r := n / row, n % row;
    assert n == q * row + r;
    Distinct(k, q, r, row);
  }

  lemma Distinct(k: int, q: int, r: nat, row: nat)
    requires r < row && k * row == q * row + r
    ensures k == q && r == 0
  {
    assert (k - q) * row == r;
    ScaledBy(k - q, row);
  }

  lemma ScaledBy(d: int, row: nat)
    ensures d >= 1 ==> d * row >= row
    ensures d <= -1 ==> d * row <= -(row as int)
  {
  }

  /** The same with the division done: `full` bytes of `cur` are `lines` whole rows, and less than a row is left. */
  method CopyRows(dest: array<byte>, d: nat, cur: seq<byte>, nxt: seq<byte>, row: nat, lines: nat, full: nat)
    returns (d': nat, skip: nat)
    requires row > 0 && |nxt| >= row && full == lines * row && full <= |cur| < full + row
    requires d + 2 * (if |cur| == full then full else full + row) <= dest.Length
    modifies dest
    ensures skip == (if |cur| == full then 0 else full + row - |cur|) && d' == d + 2 * (|cur| + skip)
    ensures |Doubled(cur + nxt[..skip], row)| == 2 * (|cur| + skip)
    ensures dest[..] == old(dest[..d]) + Doubled(cur + nxt[..skip], row) + old(dest[d'..])
  {
    if |cur| > full {
      d', skip := CopyStraddling(dest, d, cur, nxt, row, lines, full);
    } else {
      d', skip := d + 2 * full, 0;
      assert cur + nxt[..0] == cur;
      DoubleRows(dest, d, cur, lines, row);
    }
  }

  /** The whole rows, and then a row that continues in the next quarter. */
  method CopyStraddling(dest: array<byte>, d: nat, cur: seq<byte>, nxt: seq<byte>, row: nat, lines: nat, full: nat)
    returns (d': nat, skip: nat)
    requires row > 0 && |nxt| >= row && full == lines * row && full < |cur| < full + row
    requires d + 2 * (full + row) <= dest.Length
    modifies dest
    ensures skip == full + row - |cur| && d' == d + 2 * (full + row)
    ensures |Doubled(cur + nxt[..skip], row)| == 2 * (full + row)
    ensures dest[..] == old(dest[..d]) + Doubled(cur + nxt[..skip], row) + old(dest[d'..])
  {
    ghost var before := dest[..];
    var whole := cur[..full];
    DoubleRows(dest, d, whole, lines, row);
    ghost var mid := dest[..];
    skip := full + row - |cur|;
    d' := d + 2 * (full + row);
    ghost var one := cur[full..] + nxt[..skip];
    JoinRow(dest, d + 2 * full, cur[full..], nxt, row);
    JoinedBytes(before, mid, dest[..], d, whole, one, row);
    assert whole + one == cur + nxt[..skip];
  }

  /**
   * The rest `cur` of a quarter: its whole rows, then the row that continues
   * in the next quarter `nxt`. Returns how much of `nxt` that row took.
   */
  method CopyQuarter(dest: array<byte>, d: nat, cur: seq<byte>, nxt: seq<byte>, row: nat)
    returns (d': nat, skip: nat, ghost rows: nat)
    requires row > 0 && |nxt| >= row
    requires d + 2 * (|cur| + Pad(|cur|, row)) <= dest.Length
    modifies dest
    ensures skip == Pad(|cur|, row) && d' == d + 2 * (|cur| + skip) && |cur| + skip == rows * row
    ensures |Doubled(cur + nxt[..skip], row)| == 2 * (|cur| + skip)
    ensures dest[..] == old(dest[..d]) + Doubled(cur + nxt[..skip], row) + old(dest[d'..])
  {
    var lines := |cur| / row;
    var full := lines * row;
    WholeRows(|cur|, row, lines, full);
    PadFills(|cur|, row);
    rows := RowsBegun(|cur|, row);
    d', skip := CopyRows(dest, d, cur, nxt, row, lines, full);
  }

  lemma JoinedBytes(before: seq<byte>, mid: seq<byte>, after: seq<byte>, d: nat, whole: seq<byte>, one: seq<byte>,
                    row: nat)
    requires row > 0 && |one| == row && d + 2 * |whole| + 2 * row <= |before|
    requires |Doubled(whole, row)| == 2 * |whole|
    requires mid == before[..d] + Doubled(whole, row) + before[d + 2 * |whole|..]
    requires var at := d + 2 * |whole|;
             after == mid[..at] + one + one + mid[at + 2 * row..]
    ensures |Doubled(whole + one, row)| == 2 * |whole| + 2 * row
    ensures after == before[..d] + Doubled(whole + one, row) + before[d + 2 * |whole| + 2 * row..]
  {
    var at := d + 2 * |whole|;
    DoubledAppend(whole, one, row);
    assert mid[..at] == before[..d] + Doubled(whole, row);
    assert mid[at + 2 * row..] == before[at + 2 * row..];
  }

  /** The row that starts with `a` and continues in `b`, written twice: the second time from the first. */
  method JoinRow(dest: array<byte>, d: nat, a: seq<byte>, b: seq<byte>, row: nat)
    requires 0 < |a| <= row <= |b| && d + 2 * row <= dest.Length
    modifies dest
    ensures var one := a + b[..row - |a|];
            dest[..] == old(dest[..d]) + one + one + old(dest[d + 2 * row..])
  {
    ghost var was := dest[..];
    MemCpy(dest, d, a);
    ghost var half := dest[..];
    MemCpy(dest, d + |a|, b[..row - |a|]);
    ghost var once := dest[..];
    OnceWritten(was, half, once, d, a, b[..row - |a|]);
    MemCpy(dest, d + row, dest[d..d + row]);
    TwiceWritten(was, once, dest[..], d, a + b[..row - |a|]);
  }

  lemma OnceWritten(was: seq<byte>, half: seq<byte>, once: seq<byte>, d: nat, a: seq<byte>, b: seq<byte>)
    requires d + |a| + |b| <= |was| && half == was[..d] + a + was[d + |a|..]
    requires once == half[..d + |a|] + b + half[d + |a| + |b|..]
    ensures once == was[..d] + (a + b) + was[d + |a| + |b|..]
  {
    assert half[..d + |a|] == was[..d] + a;
    assert half[d + |a| + |b|..] == was[d + |a| + |b|..];
  }

  lemma TwiceWritten(was: seq<byte>, once: seq<byte>, twice: seq<byte>, d: nat, one: seq<byte>)
    requires d + 2 * |one| <= |was| && once == was[..d] + one + was[d + |one|..]
    requires var e := d + |one|;
             twice == once[..e] + once[d..e] + once[e + |one|..]
    ensures twice == was[..d] + one + one + was[d + 2 * |one|..]
  {
    var e := d + |one|;
    assert once[..e] == was[..d] + one;
    assert once[d..e] == one;
    assert once[e + |one|..] == was[e + |one|..];
  }

  /** Rounding up to whole rows stays within a length that is whole rows. */
  lemma RoundedFits(n: nat, row: nat, total: nat, k: int)
    requires row > 0 && n <= total && total == k * row
    ensures n + Pad(n, row) <= total
  {
    PadFills(n, row);
    var m := RowsBegun(n, row);
    ScaledBy(m - k, row);
    assert (m - k) * row == n + Pad(n, row) - total;
  }

  /** The parts the quarters are copied in: each ends with the row it shares with the next quarter. */
  lemma PartsMakeField(src: seq<seq<byte>>, len: seq<nat>, total: nat, s0: nat, s1: nat, s2: nat)
    requires |src| == 4 && |len| == 4 && LastLen(total, len) >= 0
    requires len[0] <= |src[0]| && len[1] <= |src[1]| && len[2] <= |src[2]| && LastLen(total, len) <= |src[3]|
    requires s0 <= len[1] && s1 <= len[2] && s2 <= LastLen(total, len)
    ensures Field(src, len, total) ==
            (src[0][..len[0]] + src[1][..s0]) + (src[1][s0..len[1]] + src[2][..s1])
            + (src[2][s1..len[2]] + src[3][..s2]) + src[3][s2..LastLen(total, len)]
  {
    assert src[1][..len[1]] == src[1][..s0] + src[1][s0..len[1]];
    assert src[2][..len[2]] == src[2][..s1] + src[2][s1..len[2]];
    assert src[3][..LastLen(total, len)] == src[3][..s2] + src[3][s2..LastLen(total, len)];
  }

  /** What is left when whole rows are taken from whole rows is whole rows. */
  lemma LeftRows(total: nat, k: int, taken: nat, g: int, row: nat)
    requires row > 0 && total == k * row && taken == g * row && taken <= total
    ensures total - taken == (k - g) * row && k - g >= 0
    ensures (total - taken) / row == k - g
  {
    ScaledBy(k - g, row);
    if k - g >= 0 {
      MulDiv(k - g, row);
    }
  }

  /**
   * One quarter of the field. `done` is the part of the field already doubled
   * into the destination and `k` the number of rows still to come.
   */
  method NextQuarter(dest: array<byte>, d: nat, cur: seq<byte>, nxt: seq<byte>, row: nat, ghost done: seq<byte>,
                     ghost k: nat, ghost limit: nat)
    returns (d': nat, skip: nat, ghost done': seq<byte>, ghost k': nat)
    requires row > 0 && |nxt| >= row
    requires d == 2 * |done| <= dest.Length && dest[..d] == Doubled(done, row)
    requires |cur| <= k * row && d + 2 * (k * row) <= limit <= dest.Length
    modifies dest
    ensures skip == Pad(|cur|, row)
    ensures done' == done + (cur + nxt[..skip])
    ensures k' * row == k * row - |cur| - skip
    ensures d' == 2 * |done'| <= dest.Length && dest[..d'] == Doubled(done', row)
    ensures dest[limit..] == old(dest[limit..])
  {
    ghost var rows;
    RoundedFits(|cur|, row, k * row, k);
    d', skip, rows := CopyQuarter(dest, d, cur, nxt, row);
    ghost var part := cur + nxt[..skip];
    done', k' := done + part, 0;
    DoubledConcat(done, part, row, rows);
    assert dest[..d'] == old(dest[..d]) + Doubled(part, row);
    LeftRows(k * row, k, |cur| + skip, rows, row);
    k' := k - rows;
  }

  /** The last quarter, which is whole rows. */
  method LastQuarterRows(dest: array<byte>, d: nat, cur: seq<byte>, row: nat, ghost done: seq<byte>, ghost k: nat)
    requires row > 0 && d == 2 * |done| <= dest.Length && dest[..d] == Doubled(done, row)
    requires |cur| == k * row && d + 2 * |cur| <= dest.Length
    modifies dest
    ensures var field := done + cur;
            && |Doubled(field, row)| == 2 * |field|
            && dest[..] == Doubled(field, row) + old(dest[2 * |field|..])
  {
    var lines := |cur| / row;
    MulDiv(k, row);
    DoubleRows(dest, d, cur, lines, row);
    DoubledConcat(done, cur, row, k);
  }

  lemma EvenRows(w: nat, h: nat)
    requires h % 2 == 0
    ensures w * h == h / 2 * (w * 2) && w * 2 * h == 2 * (w * h)
  {
    var k := h / 2;
    assert h == 2 * k;
    assert w * (2 * k) == k * (w * 2);
  }

  /** The check MemCopyFrame() makes first: false when it returns -1 without copying. */
  method CheckLens(total: nat, len: seq<nat>) returns (ok: bool)
    requires |len| == 4
    ensures ok == LensFit(total, len)
  {
    var last: int := total - len[0] - len[1] - len[2];
    var q := total / (4 * 16 * 128) * 16 * 128;
    ok := last >= 0 && q == len[0];
  }

  /**
   * MemCopyFrame() for an interlaced input: w x h is the output frame and the
   * four quarters hold one field of half its rows.
   */
  method DoubleField(dest: array<byte>, w: nat, h: nat, src: seq<seq<byte>>, len: seq<nat>) returns (r: int)
    requires w > 0 && h % 2 == 0 && |src| == 4 && |len| == 4
    requires dest.Length >= w * 2 * h
    requires forall q :: 0 <= q < 4 ==> |src[q]| >= len[q] && |src[q]| >= w * 2
    requires LastLen(w * h, len) <= |src[3]|
    modifies dest
    ensures r == 0 <==> LensFit(w * h, len) && RowsJoin(len, w * 2)
    ensures r == 0 ==>
              var field := Field(src, len, w * h);
              |Doubled(field, w * 2)| == w * 2 * h && dest[..] == Doubled(field, w * 2) + old(dest[w * 2 * h..])
    ensures r != 0 ==> r == -1
  {
    var total, row := w * h, w * 2;
    EvenRows(w, h);
    var ok := CheckLens(total, len);
    if !ok {
      return -1;
    }
    r := DoubleQuarters(dest, total, row, src, len, h / 2);
  }

  method DoubleQuarters(dest: array<byte>, total: nat, row: nat, src: seq<seq<byte>>, len: seq<nat>, ghost k: nat)
    returns (r: int)
    requires row > 0 && |src| == 4 && |len| == 4 && total == k * row
    requires dest.Length >= 2 * total && LensFit(total, len)
    requires forall q :: 0 <= q < 4 ==> |src[q]| >= len[q] && |src[q]| >= row
    requires LastLen(total, len) <= |src[3]|
    modifies dest
    ensures r == 0 <==> RowsJoin(len, row)
    ensures r == 0 ==>
              var field := Field(src, len, total);
              |Doubled(field, row)| == 2 * total && dest[..] == Doubled(field, row) + old(dest[2 * total..])
    ensures r != 0 ==> r == -1
  {
    var last := total - len[0] - len[1] - len[2];
    var ok, d, s1;
    ghost var done, k2;
    ok, d, s1, done, k2 := FirstTwo(dest, total, row, src, len, k);
    if !ok {
      return -1;
    }
    FieldLength(src, len, total);
    LastTwo(dest, d, src[2][s1..len[2]], src[3], last, row, done, k2);
    PartsMakeField(src, len, total, Pad(len[0], row), s1, Pad(len[2] - s1, row));
    r := 0;
  }

  lemma FieldLength(src: seq<seq<byte>>, len: seq<nat>, total: nat)
    requires |src| == 4 && |len| == 4 && LastLen(total, len) >= 0
    requires len[0] <= |src[0]| && len[1] <= |src[1]| && len[2] <= |src[2]| && LastLen(total, len) <= |src[3]|
    ensures |Field(src, len, total)| == total
  {
  }

  /** The first two quarters; fails when a row would need more than the next quarter holds. */
  method FirstTwo(dest: array<byte>, total: nat, row: nat, src: seq<seq<byte>>, len: seq<nat>, ghost k: nat)
    returns (ok: bool, d: nat, s1: nat, ghost done: seq<byte>, ghost k2: nat)
    requires row > 0 && |src| == 4 && |len| == 4 && total == k * row
    requires dest.Length >= 2 * total && len[0] + len[1] + len[2] <= total
    requires forall q :: 0 <= q < 4 ==> |src[q]| >= len[q] && |src[q]| >= row
    modifies dest
    ensures ok == RowsJoin(len, row)
    ensures ok ==>
              var s0 := Pad(len[0], row);
              && s1 == Pad(len[1] - s0, row) && s1 <= len[2]
              && done == (src[0][..len[0]] + src[1][..s0]) + (src[1][s0..len[1]] + src[2][..s1])
              && d == 2 * |done| <= dest.Length && dest[..d] == Doubled(done, row)
              && k2 * row == total - |done|
              && dest[2 * total..] == old(dest[2 * total..])
  {
    d, s1, done, k2, ok := 0, 0, [], 0, false;
    assert dest[..0] == Doubled([], row);
    var s0;
    ghost var k0;
    d, s0, done, k0 := NextQuarter(dest, 0, src[0][..len[0]], src[1], row, [], k, 2 * total);
    if len[1] < s0 {
      return;
    }
    SecondQuarterFits(len, row, total, s0, k0, d);
    d, s1, done, k2 := NextQuarter(dest, d, src[1][s0..len[1]], src[2], row, done, k0, 2 * total);
    ok := s1 <= len[2];
  }

  lemma SecondQuarterFits(len: seq<nat>, row: nat, total: nat, s0: nat, k0: nat, d: nat)
    requires |len| == 4 && row > 0 && s0 <= len[1] && len[0] + len[1] + len[2] <= total
    requires k0 * row == total - len[0] - s0 && d == 2 * (len[0] + s0)
    ensures len[1] - s0 <= k0 * row && d + 2 * (k0 * row) == 2 * total
  {
  }

  method LastTwo(dest: array<byte>, d: nat, cur: seq<byte>, nxt: seq<byte>, last: nat, row: nat,
                 ghost done: seq<byte>, ghost k: nat)
    requires row > 0 && |nxt| >= row && last <= |nxt|
    requires d == 2 * |done| <= dest.Length && dest[..d] == Doubled(done, row)
    requires |cur| + last == k * row && d + 2 * (k * row) <= dest.Length
    modifies dest
    ensures Pad(|cur|, row) <= last
    ensures var s2 := Pad(|cur|, row);
            var field := done + (cur + nxt[..s2]) + nxt[s2..last];
            && |Doubled(field, row)| == 2 * |field|
            && dest[..] == Doubled(field, row) + old(dest[2 * |field|..])
  {
    ghost var rest: nat := |cur| + last;
    var d', s2;
    ghost var done', k';
    d', s2, done', k' := NextQuarter(dest, d, cur, nxt, row, done, k, d + 2 * rest);
    NotNegative(k', row);
    LastQuarterRows(dest, d', nxt[s2..last], row, done', k');
  }

  lemma NotNegative(k: nat, row: nat)
    ensures k * row >= 0
  {
  }

  /** The output of MemCopyFrame() when it succeeds. */
  function Output(src: seq<seq<byte>>, len: seq<nat>, w: nat, h: nat, interlace: bool): seq<byte>
    requires w > 0 && |src| == 4 && |len| == 4 && LastLen(InputBytes(w, h, interlace), len) >= 0
    requires len[0] <= |src[0]| && len[1] <= |src[1]| && len[2] <= |src[2]|
    requires LastLen(InputBytes(w, h, interlace), len) <= |src[3]|
  {
    var field := Field(src, len, InputBytes(w, h, interlace));
    if interlace then Doubled(field, w * 2) else field
  }

  /** One more part behind those already written. */
  method Append(dest: array<byte>, d: nat, part: seq<byte>, ghost prefix: seq<byte>, ghost total: nat)
    returns (ghost prefix': seq<byte>)
    requires d == |prefix| && d + |part| <= total <= dest.Length && dest[..d] == prefix
    modifies dest
    ensures prefix' == prefix + part && dest[..d + |part|] == prefix'
    ensures dest[total..] == old(dest[total..])
  {
    MemCpy(dest, d, part);
    prefix' := prefix + part;
  }

  /** MemCopyFrame() for a progressive input: the four quarters one after another. */
  method CopyField(dest: array<byte>, total: nat, src: seq<seq<byte>>, len: seq<nat>) returns (r: int)
    requires |src| == 4 && |len| == 4 && dest.Length >= total
    requires forall q :: 0 <= q < 4 ==> |src[q]| >= len[q]
    requires LastLen(total, len) <= |src[3]|
    modifies dest
    ensures r == 0 <==> LensFit(total, len)
    ensures r == 0 ==> |Field(src, len, total)| == total && dest[..] == Field(src, len, total) + old(dest[total..])
    ensures r != 0 ==> r == -1
  {
    var ok := CheckLens(total, len);
    if !ok {
      return -1;
    }
    var last := total - len[0] - len[1] - len[2];
    ghost var done := [];
    done := Append(dest, 0, src[0][..len[0]], done, total);
    done := Append(dest, len[0], src[1][..len[1]], done, total);
    done := Append(dest, len[0] + len[1], src[2][..len[2]], done, total);
    done := Append(dest, len[0] + len[1] + len[2], src[3][..last], done, total);
    assert done == Field(src, len, total);
    assert dest[..] == dest[..total] + dest[total..];
    r := 0;
  }

  /** MemCopyFrame(): the whole output frame is written exactly when it returns 0. */
  method MemCopyFrame(dest: array<byte>, w: nat, h: nat, interlace: bool, src: seq<seq<byte>>, len: seq<nat>)
    returns (r: int)
    requires w > 0 && (interlace ==> h % 2 == 0) && |src| == 4 && |len| == 4
    requires dest.Length >= w * 2 * h
    requires forall q :: 0 <= q < 4 ==> |src[q]| >= len[q] && |src[q]| >= w * 2
    requires LastLen(InputBytes(w, h, interlace), len) <= |src[3]|
    modifies dest
    ensures r == 0 <==> LensFit(InputBytes(w, h, interlace), len) && (interlace ==> RowsJoin(len, w * 2))
    ensures r == 0 ==>
              var out := Output(src, len, w, h, interlace);
              |out| == w * 2 * h && dest[..] == out + old(dest[w * 2 * h..])
    ensures r != 0 ==> r == -1
  {
    if interlace {
      r := DoubleField(dest, w, h, src, len);
    } else {
      r := CopyField(dest, w * 2 * h, src, len);
    }
  }

  /**
   * With the quarters the driver programs, three of them of q bytes, the
   * lengths always fit, and the rows join exactly when q is 0, when two rows
   * are at most 3q, or when a row is 2q.
   */
  lemma CutRowsJoinExactly(total: nat, row: nat)
    requires row > 0
    ensures LensFit(total, Cut(total))
    ensures var q := FirstQuarter(total);
            RowsJoin(Cut(total), row) <==> q == 0 || 2 * row <= 3 * q || row == 2 * q
  {
    CutCovers(total);
    var q := FirstQuarter(total);
    if 0 < q < row {
      StraddledPads(q, row);
    } else if q >= row {
      PadFills(q, row);
      PadFills(q - Pad(q, row), row);
    }
  }

  /** Quarters shorter than a row: what the second one and the third one supply. */
  lemma StraddledPads(q: nat, row: nat)
    requires 0 < q < row
    ensures Pad(q, row) == row - q
    ensures row <= 2 * q ==> Pad(q - Pad(q, row), row) == (if row == 2 * q then 0 else 2 * row - 2 * q)
  {
  }

  /** So they do whenever a quarter holds a row. */
  lemma CutRowsJoin(total: nat, row: nat)
    requires row > 0 && (row <= FirstQuarter(total) || FirstQuarter(total) == 0)
    ensures LensFit(total, Cut(total)) && RowsJoin(Cut(total), row)
  {
    CutRowsJoinExactly(total, row);
  }

  /** A one-row field of the widest input has quarters of a quarter row, and is refused. */
  lemma OneWideRowRefused()
    ensures !RowsJoin(Cut(4096 * 2), 4096 * 2)
  {
    CutRowsJoinExactly(4096 * 2, 4096 * 2);
  }
}
