/** The per-pixel `warp` lambda of the integer kernel: from the four mask neighbours of a
    pixel, its column and the row limits of its row to one output value. The source
    plane is read through `srcRow`, the source row of the pixel's own mask row (the
    kernel's `srcp`), exactly as the lambda reads `srcp[v * srcStride + h]`. The kernel
    only reads its source and mask planes, so they are values here: a plane is a sequence
    of rows of equal width. */
module Warp {
  import opened FixedPoint

  /** A read-only plane of samples, row by row. */
  type Plane = seq<seq<int>>

  /** The number of samples in each row of a plane (0 for a plane without rows). */
  function Width(p: Plane): int
  {
    if |p| == 0 then 0 else |p[0]|
  }

  /** Every row of the plane has the same number of samples. */
  predicate Rectangular(p: Plane)
  {
    forall i :: 0 <= i < |p| ==> |p[i]| == Width(p)
  }

  /** The mask values above, below, left and right of a pixel. */
  datatype Cross = Cross(up: int, down: int, left: int, right: int)

  /** The per-plane constants the lambda captures from the filter instance: the plane's
      fixed-point depths, SMAGL and the output peak. */
  datatype PlaneParams = PlaneParams(depthH: int, depthV: int, smagl: nat, peak: int)
  {
    predicate Valid()
    {
      (smagl == 0 || smagl == 2) && 0 <= peak
    }

    /** SMAG = 1 << SMAGL, the source pixels per mask pixel in each axis. */
    function Smag(): nat
    {
      Pow2(smagl)
    }
  }

  /** Where one output pixel samples the source: `col` is the source column of the left
      taps, `row` the offset of the upper taps from the pixel's own source row, and
      `remH`/`remV` the 7-bit weights of the right and the lower taps. */
  datatype Displacement = Displacement(col: int, row: int, remH: int, remV: int)

  /** `((a - b) << 7) * depth >> 16`: a mask difference scaled by a fixed-point depth,
      in 1/128 mask pixels. */
  function Gradient(a: int, b: int, depth: int): (g: int)
    ensures a == b || depth == 0 ==> g == 0
  {
    Asr(Shl(a - b, 7) * depth, 16)
  }

  /** The vertical gradient after the row's clamp. */
  function VerticalShift(c: Cross, yLimitMin: int, yLimitMax: int, k: PlaneParams): int
    requires yLimitMin <= yLimitMax
  {
    Clamp(Gradient(c.up, c.down, k.depthV), yLimitMin, yLimitMax)
  }

  /** The source column before the boundary clamp: the horizontal gradient at source
      resolution plus the pixel's own source column `x << SMAGL`. */
  function UnclampedColumn(c: Cross, x: int, k: PlaneParams): int
    requires k.Valid()
  {
    Asr(Gradient(c.left, c.right, k.depthH), 7 - k.smagl) + Shl(x, k.smagl)
  }

  /** The displacement and weights of one pixel: the horizontal and vertical gradients,
      the vertical one clamped to the row's limits, split at source resolution into whole
      pixels and 7-bit weights; the column is clamped into [0, xLimitMax] and its weight
      dropped to 0 whenever the unclamped column is outside [0, xLimitMax). */
  function Displace(c: Cross, x: int, yLimitMin: int, yLimitMax: int, xLimitMax: int, k: PlaneParams)
    : Displacement
    requires k.Valid() && yLimitMin <= yLimitMax && 0 <= xLimitMax
  {
    var h := Gradient(c.left, c.right, k.depthH);
    var v := VerticalShift(c, yLimitMin, yLimitMax, k);
    var col := UnclampedColumn(c, x, k);
    Displacement(
      Clamp(col, 0, xLimitMax),
      Asr(v, 7 - k.smagl),
      if !(col < xLimitMax && !(col < 0)) then 0 else Low7(Shl(h, k.smagl)),
      Low7(Shl(v, k.smagl)))
  }

  /** Both weights are 7-bit, the column lies in [0, xLimitMax], a nonzero horizontal
      weight always has its right tap at most xLimitMax, and the row offset stays within
      the row limits shifted to source resolution. */
  lemma DisplaceBounds(c: Cross, x: int, yLimitMin: int, yLimitMax: int, xLimitMax: int, k: PlaneParams)
    requires k.Valid() && yLimitMin <= yLimitMax && 0 <= xLimitMax
    ensures var d := Displace(c, x, yLimitMin, yLimitMax, xLimitMax, k);
            0 <= d.remH < 128 && 0 <= d.remV < 128 &&
            0 <= d.col <= xLimitMax && (d.remH != 0 ==> d.col < xLimitMax) &&
            Asr(yLimitMin, 7 - k.smagl) <= d.row <= Asr(yLimitMax, 7 - k.smagl)
  {
    var v := VerticalShift(c, yLimitMin, yLimitMax, k);
    AsrMonotone(yLimitMin, v, 7 - k.smagl);
    AsrMonotone(v, yLimitMax, 7 - k.smagl);
  }

  /** The value of the right-hand tap of a source row. Past the plane's last column the
      kernel's read has weight 0 (Displace: remH != 0 ==> col < xLimitMax), so the edge
      column stands in for it without changing any result (BlendBounds: w == 0 picks a). */
  function RightTap(src: Plane, row: int, col: int): int
    requires 0 <= row < |src| && 0 <= col < |src[row]|
  {
    if col + 1 < |src[row]| then src[row][col + 1] else src[row][col]
  }

  /** What the lambda needs of its row: the row limits are ordered, the column limit is a
      column of the source, and both rows the clamped offsets can reach are source rows. */
  predicate RowFits(src: Plane, srcRow: int, yLimitMin: int, yLimitMax: int, xLimitMax: int, k: PlaneParams)
    requires k.Valid()
  {
    Rectangular(src) && yLimitMin <= yLimitMax && 0 <= xLimitMax < Width(src) &&
    0 <= srcRow + Asr(yLimitMin, 7 - k.smagl) &&
    srcRow + Asr(yLimitMax, 7 - k.smagl) + 1 < |src|
  }

  /** The four source samples one output pixel reads: the left and right taps of the
      upper row, then those of the row below it. */
  function Taps(src: Plane, srcRow: int, c: Cross, x: int,
                yLimitMin: int, yLimitMax: int, xLimitMax: int, k: PlaneParams): (t: seq<int>)
    requires k.Valid() && RowFits(src, srcRow, yLimitMin, yLimitMax, xLimitMax, k)
    ensures |t| == 4
  {
    DisplaceBounds(c, x, yLimitMin, yLimitMax, xLimitMax, k);
    var d := Displace(c, x, yLimitMin, yLimitMax, xLimitMax, k);
    var r0 := srcRow + d.row;
    [src[r0][d.col], RightTap(src, r0, d.col), src[r0 + 1][d.col], RightTap(src, r0 + 1, d.col)]
  }

  /** One output pixel: a horizontal blend of the two taps in each of two source rows,
      a vertical blend of the results, clamped to [0, peak]. */
  function WarpPoint(src: Plane, srcRow: int, c: Cross, x: int,
                     yLimitMin: int, yLimitMax: int, xLimitMax: int, k: PlaneParams): (r: int)
    requires k.Valid() && RowFits(src, srcRow, yLimitMin, yLimitMax, xLimitMax, k)
    ensures 0 <= r <= k.peak
  {
    DisplaceBounds(c, x, yLimitMin, yLimitMax, xLimitMax, k);
    var d := Displace(c, x, yLimitMin, yLimitMax, xLimitMax, k);
    var t := Taps(src, srcRow, c, x, yLimitMin, yLimitMax, xLimitMax, k);
    Clamp(Blend(Blend(t[0], t[1], d.remH), Blend(t[2], t[3], d.remH), d.remV), 0, k.peak)
  }

  /** The vertical offset and its weight together are the clamped gradient at source
      resolution: `v << SMAGL == 128 * (v >> (7 - SMAGL)) + ((v << SMAGL) & 127)`, so the
      pixel samples exactly v * SMAG / 128 source rows away from its own row. */
  lemma {:induction false} VerticalPosition(c: Cross, x: int, yLimitMin: int, yLimitMax: int, xLimitMax: int, k: PlaneParams)
    requires k.Valid() && yLimitMin <= yLimitMax && 0 <= xLimitMax
    ensures var d := Displace(c, x, yLimitMin, yLimitMax, xLimitMax, k);
            128 * d.row + d.remV == k.Smag() * VerticalShift(c, yLimitMin, yLimitMax, k)
  {
    SplitFixedPoint(VerticalShift(c, yLimitMin, yLimitMax, k), k.smagl);
  }

  /** Away from the horizontal boundary the column and its weight together are the pixel's
      own position plus the horizontal gradient, at source resolution and in 1/128 pixels. */
  lemma {:induction false} HorizontalPosition(c: Cross, x: int, yLimitMin: int, yLimitMax: int, xLimitMax: int, k: PlaneParams)
    requires k.Valid() && yLimitMin <= yLimitMax && 0 <= xLimitMax
    requires 0 <= UnclampedColumn(c, x, k) < xLimitMax
    ensures var d := Displace(c, x, yLimitMin, yLimitMax, xLimitMax, k);
            128 * d.col + d.remH == k.Smag() * (128 * x + Gradient(c.left, c.right, k.depthH))
  {
    var h := Gradient(c.left, c.right, k.depthH);
    SplitFixedPoint(h, k.smagl);
    Pow2Values();
  }

  /** A fixed-point value v in 1/128 units, scaled by 2^s, splits into its integer part at
      the scaled resolution and its 7-bit fraction. */
  lemma SplitFixedPoint(v: int, s: nat)
    requires s == 0 || s == 2
    ensures Shl(v, s) == 128 * Asr(v, 7 - s) + Low7(Shl(v, s))
  {
    Pow2Values();
    if s == 2 {
      var q, r := v / 32, v % 32;
      assert v == 32 * q + r && 0 <= r < 32;
      assert 4 * v == 128 * q + 4 * r;
      assert (4 * v) % 128 == 4 * r;
    }
  }

  /** With no gradient, a pixel whose row limits admit a zero offset reads its own source
      sample, `src[srcRow][x << SMAGL]`, unchanged. */
  lemma StillPoint(src: Plane, srcRow: int, c: Cross, x: int,
                   yLimitMin: int, yLimitMax: int, xLimitMax: int, k: PlaneParams)
    requires k.Valid() && RowFits(src, srcRow, yLimitMin, yLimitMax, xLimitMax, k)
    requires Gradient(c.left, c.right, k.depthH) == 0 && Gradient(c.up, c.down, k.depthV) == 0
    requires yLimitMin <= 0 <= yLimitMax && 0 <= Shl(x, k.smagl) <= xLimitMax
    ensures 0 <= srcRow < |src| && Shl(x, k.smagl) < |src[srcRow]|
    ensures 0 <= src[srcRow][Shl(x, k.smagl)] <= k.peak ==>
              WarpPoint(src, srcRow, c, x, yLimitMin, yLimitMax, xLimitMax, k) == src[srcRow][Shl(x, k.smagl)]
  {
    Pow2Values();
    AsrMonotone(yLimitMin, 0, 7 - k.smagl);
    DisplaceBounds(c, x, yLimitMin, yLimitMax, xLimitMax, k);
    var d := Displace(c, x, yLimitMin, yLimitMax, xLimitMax, k);
    var t := Taps(src, srcRow, c, x, yLimitMin, yLimitMax, xLimitMax, k);
    BlendBounds(t[0], t[1], d.remH);
    BlendBounds(t[2], t[3], d.remH);
    BlendBounds(t[0], t[2], d.remV);
  }

  /** With no gradient, a pixel whose row limits force the offset to -1 (the last mask
      row) blends its own source sample with the one above it, with weight 128 - SMAG
      on its own. */
  lemma PinnedPoint(src: Plane, srcRow: int, c: Cross, x: int,
                    yLimitMin: int, yLimitMax: int, xLimitMax: int, k: PlaneParams)
    requires k.Valid() && RowFits(src, srcRow, yLimitMin, yLimitMax, xLimitMax, k)
    requires Gradient(c.left, c.right, k.depthH) == 0 && Gradient(c.up, c.down, k.depthV) == 0
    requires yLimitMin <= -1 == yLimitMax && 0 <= Shl(x, k.smagl) <= xLimitMax
    ensures 1 <= srcRow < |src| && Shl(x, k.smagl) < Width(src)
    ensures WarpPoint(src, srcRow, c, x, yLimitMin, yLimitMax, xLimitMax, k) ==
            Clamp(Blend(src[srcRow - 1][Shl(x, k.smagl)], src[srcRow][Shl(x, k.smagl)], 128 - k.Smag()), 0, k.peak)
  {
    Pow2Values();
    DisplaceBounds(c, x, yLimitMin, yLimitMax, xLimitMax, k);
    var d := Displace(c, x, yLimitMin, yLimitMax, xLimitMax, k);
    assert VerticalShift(c, yLimitMin, yLimitMax, k) == -1;
    if k.smagl == 0 {
      assert Asr(-1, 7) == -1 && Low7(Shl(-1, 0)) == 127;
    } else {
      assert Asr(-1, 5) == -1 && Low7(Shl(-1, 2)) == 124;
    }
    assert d.row == -1 && d.remV == 128 - k.Smag();
    assert UnclampedColumn(c, x, k) == Shl(x, k.smagl);
    assert d.col == Shl(x, k.smagl) && d.remH == 0;
    var t := Taps(src, srcRow, c, x, yLimitMin, yLimitMax, xLimitMax, k);
    BlendBounds(t[0], t[1], 0);
    BlendBounds(t[2], t[3], 0);
  }

  /** No overshoot: when the four samples a pixel reads lie in [lo, hi] within
      [0, peak], so does the pixel, since each blend stays between its two inputs. */
  lemma WithinSourceRange(src: Plane, srcRow: int, c: Cross, x: int,
                          yLimitMin: int, yLimitMax: int, xLimitMax: int, k: PlaneParams, lo: int, hi: int)
    requires k.Valid() && RowFits(src, srcRow, yLimitMin, yLimitMax, xLimitMax, k)
    requires 0 <= lo <= hi <= k.peak
    requires forall i :: 0 <= i < 4 ==> lo <= Taps(src, srcRow, c, x, yLimitMin, yLimitMax, xLimitMax, k)[i] <= hi
    ensures lo <= WarpPoint(src, srcRow, c, x, yLimitMin, yLimitMax, xLimitMax, k) <= hi
  {
    DisplaceBounds(c, x, yLimitMin, yLimitMax, xLimitMax, k);
    var d := Displace(c, x, yLimitMin, yLimitMax, xLimitMax, k);
    var t := Taps(src, srcRow, c, x, yLimitMin, yLimitMax, xLimitMax, k);
    assert lo <= t[0] <= hi && lo <= t[1] <= hi && lo <= t[2] <= hi && lo <= t[3] <= hi;
    BlendBounds(t[0], t[1], d.remH);
    BlendBounds(t[2], t[3], d.remH);
    BlendBounds(Blend(t[0], t[1], d.remH), Blend(t[2], t[3], d.remH), d.remV);
  }
}
