/** The integer kernel `filter<uint8_t>` / `filter<uint16_t>`: for every processed plane,
    every output pixel is the warp of the source at the mask's mirrored cross of
    neighbours. The source and mask planes are read-only values, the output plane an
    `array2<int>` (rows by columns) written pixel by pixel; the source pointer `srcp`
    becomes the row index `srcRow`, advanced by SMAG rows per mask row. The output plane
    has the mask's size, the source plane SMAG times that. */
module Kernel {
  import opened FixedPoint
  import opened Formats
  import opened Warp

  /** The index of a neighbour one step outside [0, n), reflected about the edge pixel:
      -1 becomes 1 and n becomes n - 2. */
  function Mirror(i: int, n: int): (j: int)
    requires 2 <= n && -1 <= i <= n
    ensures 0 <= j < n
  {
    if i < 0 then -i else if i >= n then 2 * (n - 1) - i else i
  }

  /** The mask's cross of neighbours around (x, y) under the mirrored boundary. */
  function Neighbours(mask: Plane, x: int, y: int): Cross
    requires Rectangular(mask) && 2 <= |mask| && 2 <= Width(mask)
    requires 0 <= x < Width(mask) && 0 <= y < |mask|
  {
    Cross(
      mask[Mirror(y - 1, |mask|)][x],
      mask[Mirror(y + 1, |mask|)][x],
      mask[y][Mirror(x - 1, Width(mask))],
      mask[y][Mirror(x + 1, Width(mask))])
  }

  /** Sizes the kernel relies on: the output plane is the mask plane's size, at least 2 by
      2, and the source plane is SMAG times as large in both axes. */
  predicate PlaneShapes(src: Plane, mask: Plane, k: PlaneParams)
    requires k.Valid()
  {
    Rectangular(src) && Rectangular(mask) && 2 <= |mask| && 2 <= Width(mask) &&
    |src| == |mask| * k.Smag() && Width(src) == Width(mask) * k.Smag()
  }

  /** The output plane has the mask plane's size. */
  predicate OutputShape(mask: Plane, dst: array2<int>)
  {
    dst.Length0 == |mask| && dst.Length1 == Width(mask)
  }

  /** The vertical clamp of row y keeps both source rows read by any pixel of the row,
      `(y << SMAGL) + (v >> (7 - SMAGL))` and the row below it, inside the source plane. */
  lemma {:induction false} RowLimits(y: int, height: int, k: PlaneParams)
    requires k.Valid() && 2 <= height && 0 <= y < height
    ensures 0 <= Shl(y, k.smagl) + Asr(-128 * y, 7 - k.smagl)
    ensures Shl(y, k.smagl) + Asr(128 * (height - y) - 129, 7 - k.smagl) + 1 <= height * k.Smag() - 1
  {
    Pow2Values();
    var n := height - y;
    if k.smagl == 0 {
      assert 128 * n - 129 == 128 * (n - 2) + 127;
      assert (128 * n - 129) / 128 == n - 2;
      assert (-128 * y) / 128 == -y;
    } else {
      assert 128 * n - 129 == 32 * (4 * n - 5) + 31;
      assert (128 * n - 129) / 32 == 4 * n - 5;
      assert (-128 * y) / 32 == -4 * y;
    }
  }

  /** Every pixel of row y satisfies what the warp lambda needs of its row: the limits the
      kernel passes keep both source rows it reads, and the column limit, inside the
      source plane. */
  lemma PixelFits(src: Plane, mask: Plane, k: PlaneParams, y: int)
    requires k.Valid() && PlaneShapes(src, mask, k) && 0 <= y < |mask|
    ensures RowFits(src, Shl(y, k.smagl), -128 * y, 128 * (|mask| - y) - 129, (Width(mask) - 1) * k.Smag(), k)
  {
    RowLimits(y, |mask|, k);
    MulMonotone(k.Smag(), 0, Width(mask) - 1);
    assert (Width(mask) - 1) * k.Smag() == Width(mask) * k.Smag() - k.Smag();
  }

  /** The output value at (x, y): the warp lambda with the row's limits
      `yLimitMin = -128 * y`, `yLimitMax = 128 * (height - y) - 129`, the column limit
      `xLimitMax = (width - 1) * SMAG` and the source row `y << SMAGL`. */
  function WarpPixel(src: Plane, mask: Plane, k: PlaneParams, x: int, y: int): (r: int)
    requires k.Valid() && PlaneShapes(src, mask, k)
    requires 0 <= x < Width(mask) && 0 <= y < |mask|
    ensures 0 <= r <= k.peak
  {
    var width, height := Width(mask), |mask|;
    PixelFits(src, mask, k, y);
    WarpPoint(src, Shl(y, k.smagl), Neighbours(mask, x, y), x,
              -128 * y, 128 * (height - y) - 129, (width - 1) * k.Smag(), k)
  }

  /** Every pixel of dst is the warp of its position. */
  ghost predicate PlaneWarped(src: Plane, mask: Plane, dst: array2<int>, k: PlaneParams)
    reads dst
    requires k.Valid() && PlaneShapes(src, mask, k) && OutputShape(mask, dst)
  {
    forall y, x :: 0 <= y < dst.Length0 && 0 <= x < dst.Length1 ==>
      dst[y, x] == WarpPixel(src, mask, k, x, y)
  }

  /** The pixel the kernel computes from the neighbours it picks is the warp of that
      position, once those neighbours are the mirrored cross. */
  lemma PixelIsWarp(src: Plane, mask: Plane, k: PlaneParams, x: int, y: int, c: Cross)
    requires k.Valid() && PlaneShapes(src, mask, k)
    requires 0 <= x < Width(mask) && 0 <= y < |mask| && c == Neighbours(mask, x, y)
    ensures RowFits(src, Shl(y, k.smagl), -128 * y, 128 * (|mask| - y) - 129, (Width(mask) - 1) * k.Smag(), k)
    ensures WarpPixel(src, mask, k, x, y) ==
            WarpPoint(src, Shl(y, k.smagl), c, x, -128 * y, 128 * (|mask| - y) - 129, (Width(mask) - 1) * k.Smag(), k)
  {
    PixelFits(src, mask, k, y);
  }

  /** `dstp[x] = warp(x)` with the neighbours the row loop picked for column x. */
  method WritePixel(src: Plane, mask: Plane, dst: array2<int>, k: PlaneParams,
                    x: int, y: int, srcRow: int, c: Cross)
    requires k.Valid() && PlaneShapes(src, mask, k) && OutputShape(mask, dst)
    requires 0 <= x < dst.Length1 && 0 <= y < dst.Length0 && srcRow == Shl(y, k.smagl)
    requires c == Neighbours(mask, x, y)
    modifies dst
    ensures dst[y, x] == WarpPixel(src, mask, k, x, y)
    ensures forall yy, xx :: 0 <= yy < dst.Length0 && 0 <= xx < dst.Length1 && (yy != y || xx != x) ==>
              dst[yy, xx] == old(dst[yy, xx])
  {
    var xLimitMax := (Width(mask) - 1) * k.Smag();
    var yLimitMin := -128 * y;
    var yLimitMax := 128 * (|mask| - y) - 129;
    PixelIsWarp(src, mask, k, x, y, c);
    dst[y, x] := WarpPoint(src, srcRow, c, x, yLimitMin, yLimitMax, xLimitMax, k);
  }

  /** The rows the kernel reads as `above` and `below` of row y are its mirrored
      neighbours: the first row reads the second as the row above it and the last row
      reads the one before it as the row below it. */
  lemma RowsAround(y: int, height: int, above: int, below: int)
    requires 2 <= height && 0 <= y < height
    requires above == (if y == 0 then y + 1 else y - 1)
    requires below == (if y == height - 1 then y - 1 else y + 1)
    ensures above == Mirror(y - 1, height) && below == Mirror(y + 1, height)
    ensures 0 <= above < height && 0 <= below < height && above != y && below != y
  {
  }

  /** In the first row both vertical neighbours are row 1, in the last row both are row
      height - 2, so the vertical gradient of a pixel there is always 0. */
  lemma RowsMirrored(mask: Plane, x: int, y: int)
    requires Rectangular(mask) && 2 <= |mask| && 2 <= Width(mask)
    requires 0 <= x < Width(mask) && 0 <= y < |mask|
    ensures y == 0 ==> Neighbours(mask, x, y).up == Neighbours(mask, x, y).down == mask[1][x]
    ensures y == |mask| - 1 ==>
              Neighbours(mask, x, y).up == Neighbours(mask, x, y).down == mask[|mask| - 2][x]
  {
  }

  /** At the left edge both horizontal neighbours are column 1, at the right edge both are
      column width - 2, so the horizontal gradient of an edge pixel is always 0; inside
      the row they are the columns on either side. */
  lemma ColumnsAround(mask: Plane, x: int, y: int)
    requires Rectangular(mask) && 2 <= |mask| && 2 <= Width(mask)
    requires 0 <= x < Width(mask) && 0 <= y < |mask|
    ensures x == 0 ==> Neighbours(mask, x, y).left == Neighbours(mask, x, y).right == mask[y][1]
    ensures x == Width(mask) - 1 ==>
              Neighbours(mask, x, y).left == Neighbours(mask, x, y).right == mask[y][Width(mask) - 2]
    ensures 0 < x < Width(mask) - 1 ==>
              Neighbours(mask, x, y).left == mask[y][x - 1] && Neighbours(mask, x, y).right == mask[y][x + 1]
  {
  }

  /** The inner loop of a row: every interior pixel, with left and right taken from the
      columns on either side. */
  method FilterInterior(src: Plane, mask: Plane, dst: array2<int>, k: PlaneParams,
                        y: int, srcRow: int, above: int, below: int)
    requires k.Valid() && PlaneShapes(src, mask, k) && OutputShape(mask, dst)
    requires 0 <= y < dst.Length0 && srcRow == Shl(y, k.smagl)
    requires above == Mirror(y - 1, |mask|) && below == Mirror(y + 1, |mask|)
    modifies dst
    ensures forall x :: 1 <= x < dst.Length1 - 1 ==> dst[y, x] == WarpPixel(src, mask, k, x, y)
    ensures forall yy, x :: 0 <= yy < dst.Length0 && 0 <= x < dst.Length1 && (yy != y || x == 0 || x == dst.Length1 - 1) ==>
              dst[yy, x] == old(dst[yy, x])
  {
    var width := dst.Length1;
    var x := 1;
    while x < width - 1
      invariant 1 <= x <= Max(1, width - 1)
      invariant forall xx :: 1 <= xx < x ==> dst[y, xx] == WarpPixel(src, mask, k, xx, y)
      invariant forall yy, xx :: 0 <= yy < dst.Length0 && 0 <= xx < width && (yy != y || xx == 0 || xx >= x) ==>
                  dst[yy, xx] == old(dst[yy, xx])
    {
      var up, down, left, right := mask[above][x], mask[below][x], mask[y][x - 1], mask[y][x + 1];
      ColumnsAround(mask, x, y);
      WritePixel(src, mask, dst, k, x, y, srcRow, Cross(up, down, left, right));
      x := x + 1;
    }
  }

  /** One row of the kernel: its left edge pixel, the interior pixels and its right edge
      pixel, with the neighbours the source picks (mirrored at the edges). */
  method FilterRow(src: Plane, mask: Plane, dst: array2<int>, k: PlaneParams, y: int, srcRow: int)
    requires k.Valid() && PlaneShapes(src, mask, k) && OutputShape(mask, dst)
    requires 0 <= y < dst.Length0 && srcRow == Shl(y, k.smagl)
    modifies dst
    ensures forall x :: 0 <= x < dst.Length1 ==> dst[y, x] == WarpPixel(src, mask, k, x, y)
    ensures forall yy, x :: 0 <= yy < dst.Length0 && yy != y && 0 <= x < dst.Length1 ==> dst[yy, x] == old(dst[yy, x])
  {
    var width, height := dst.Length1, dst.Length0;
    var above := if y == 0 then y + 1 else y - 1;
    var below := if y == height - 1 then y - 1 else y + 1;
    RowsAround(y, height, above, below);

    var x := 0;
    var up, down, left, right := mask[above][x], mask[below][x], mask[y][x + 1], mask[y][x + 1];
    ColumnsAround(mask, x, y);
    WritePixel(src, mask, dst, k, x, y, srcRow, Cross(up, down, left, right));

    FilterInterior(src, mask, dst, k, y, srcRow, above, below);

    x := width - 1;
    up, down, left, right := mask[above][x], mask[below][x], mask[y][x - 1], mask[y][x - 1];
    ColumnsAround(mask, x, y);
    WritePixel(src, mask, dst, k, x, y, srcRow, Cross(up, down, left, right));
  }

  /** The kernel's work on one plane: the rows top to bottom, the source row advancing by
      SMAG rows per mask row. */
  method FilterPlane(src: Plane, mask: Plane, dst: array2<int>, k: PlaneParams)
    requires k.Valid() && PlaneShapes(src, mask, k) && OutputShape(mask, dst)
    modifies dst
    ensures forall y, x :: 0 <= y < dst.Length0 && 0 <= x < dst.Length1 ==> dst[y, x] == WarpPixel(src, mask, k, x, y)
  {
    var smag := Pow2(k.smagl);
    var srcRow := 0;
    for y := 0 to dst.Length0
      invariant srcRow == Shl(y, k.smagl)
      invariant forall yy, x :: 0 <= yy < y && 0 <= x < dst.Length1 ==> dst[yy, x] == WarpPixel(src, mask, k, x, yy)
    {
      FilterRow(src, mask, dst, k, y, srcRow);
      srcRow := srcRow + smag;
    }
  }

  /** The per-plane constants of plane p of a filter instance. */
  function PlaneOf(d: Config, p: nat): PlaneParams
    requires p < |d.depthH| && p < |d.depthV|
  {
    PlaneParams(d.depthH[p], d.depthV[p], d.smagl, d.peak)
  }

  /** What the integer kernel needs of a filter instance: an instance dispatched to
      `filter<uint8_t>` or `filter<uint16_t>`, one coefficient per plane, three process
      flags, SMAGL 0 or 2 and a nonnegative peak. */
  predicate KernelReady(d: Config)
  {
    var n := d.vi.format.numPlanes;
    d.kind != Single && n <= 3 && |d.depthH| == n && |d.depthV| == n && |d.process| == 3 &&
    (d.smagl == 0 || d.smagl == 2) && 0 <= d.peak
  }

  /** The output planes and their per-plane inputs fit the instance: every processed
      plane has the shapes the kernel relies on, and the output planes are distinct. */
  predicate FrameFits(src: seq<Plane>, mask: seq<Plane>, dst: seq<array2<int>>, d: Config)
    requires KernelReady(d)
  {
    |src| == |mask| == |dst| == d.vi.format.numPlanes &&
    (forall p :: 0 <= p < |dst| && d.process[p] ==>
       PlaneShapes(src[p], mask[p], PlaneOf(d, p)) && OutputShape(mask[p], dst[p])) &&
    (forall p, q :: 0 <= p < q < |dst| ==> dst[p] != dst[q])
  }

  /** The kernel on one frame: every processed plane is warped, every other plane of the
      output is left as it was. */
  method Filter(src: seq<Plane>, mask: seq<Plane>, dst: seq<array2<int>>, d: Config)
    requires KernelReady(d) && FrameFits(src, mask, dst, d)
    modifies set p | 0 <= p < |dst| :: dst[p]
    ensures forall p :: 0 <= p < |dst| && d.process[p] ==> PlaneWarped(src[p], mask[p], dst[p], PlaneOf(d, p))
    ensures forall p :: 0 <= p < |dst| && !d.process[p] ==> unchanged(dst[p])
  {
    for plane := 0 to d.vi.format.numPlanes
      invariant forall p, y, x :: 0 <= p < plane && d.process[p] && 0 <= y < dst[p].Length0 && 0 <= x < dst[p].Length1 ==>
                  dst[p][y, x] == WarpPixel(src[p], mask[p], PlaneOf(d, p), x, y)
      invariant forall p :: 0 <= p < |dst| && (plane <= p || !d.process[p]) ==> unchanged(dst[p])
    {
      FilterSlot(src, mask, dst, d, plane);
    }
  }

  /** One pass of the plane loop: a processed plane is warped, any other is not touched. */
  method FilterSlot(src: seq<Plane>, mask: seq<Plane>, dst: seq<array2<int>>, d: Config, plane: int)
    requires KernelReady(d) && FrameFits(src, mask, dst, d) && 0 <= plane < |dst|
    modifies dst[plane]
    ensures d.process[plane] ==> forall y, x :: 0 <= y < dst[plane].Length0 && 0 <= x < dst[plane].Length1 ==>
              dst[plane][y, x] == WarpPixel(src[plane], mask[plane], PlaneOf(d, plane), x, y)
    ensures !d.process[plane] ==> unchanged(dst[plane])
  {
    if d.process[plane] {
      FilterPlane(src[plane], mask[plane], dst[plane], PlaneOf(d, plane));
    }
  }

  /** Every mask value is v. */
  predicate Flat(mask: Plane, v: int)
  {
    forall i, j :: 0 <= i < |mask| && 0 <= j < |mask[i]| ==> mask[i][j] == v
  }

  /** The two edge columns are never displaced horizontally: both neighbours the kernel
      reads there are the same column, so the pixel samples its own source column with
      weight 0 on the right tap. */
  lemma EdgeColumnsStay(mask: Plane, k: PlaneParams, x: int, y: int)
    requires k.Valid() && Rectangular(mask) && 2 <= |mask| && 2 <= Width(mask) && 0 <= y < |mask|
    requires x == 0 || x == Width(mask) - 1
    ensures var d := Displace(Neighbours(mask, x, y), x, -128 * y, 128 * (|mask| - y) - 129,
                              (Width(mask) - 1) * k.Smag(), k);
            d.col == Shl(x, k.smagl) && d.remH == 0
  {
    ColumnsAround(mask, x, y);
    Pow2Values();
    MulMonotone(k.Smag(), 1, Width(mask) - 1);
  }

  /** With zero depths, or a mask without any gradient, every pixel above the last row
      reproduces its own source sample `src[y << SMAGL][x << SMAGL]` (when that sample is a
      valid output value). */
  lemma StillPixel(src: Plane, mask: Plane, k: PlaneParams, x: int, y: int)
    requires k.Valid() && PlaneShapes(src, mask, k)
    requires 0 <= x < Width(mask) && 0 <= y < |mask| - 1
    requires (k.depthH == 0 && k.depthV == 0) || Flat(mask, mask[0][0])
    ensures Shl(y, k.smagl) < |src| && Shl(x, k.smagl) < |src[Shl(y, k.smagl)]|
    ensures 0 <= src[Shl(y, k.smagl)][Shl(x, k.smagl)] <= k.peak ==>
              WarpPixel(src, mask, k, x, y) == src[Shl(y, k.smagl)][Shl(x, k.smagl)]
  {
    PixelFits(src, mask, k, y);
    var c := Neighbours(mask, x, y);
    assert Gradient(c.left, c.right, k.depthH) == 0 && Gradient(c.up, c.down, k.depthV) == 0;
    Pow2Values();
    MulMonotone(k.Smag(), x, Width(mask) - 1);
    StillPoint(src, Shl(y, k.smagl), c, x, -128 * y, 128 * (|mask| - y) - 129, (Width(mask) - 1) * k.Smag(), k);
  }

  /** On the last row the same conditions do not give the source back: the row's limits
      force the vertical offset to -1, so the pixel is its own sample blended with the one
      the source row above, with weight (128 - SMAG) / 128 on its own. */
  lemma LastRowBlends(src: Plane, mask: Plane, k: PlaneParams, x: int)
    requires k.Valid() && PlaneShapes(src, mask, k) && 0 <= x < Width(mask)
    requires (k.depthH == 0 && k.depthV == 0) || Flat(mask, mask[0][0])
    ensures var row, col := Shl(|mask| - 1, k.smagl), Shl(x, k.smagl);
            1 <= row < |src| && col < Width(src) &&
            WarpPixel(src, mask, k, x, |mask| - 1) ==
              Clamp(Blend(src[row - 1][col], src[row][col], 128 - k.Smag()), 0, k.peak)
  {
    var y := |mask| - 1;
    PixelFits(src, mask, k, y);
    var c := Neighbours(mask, x, y);
    assert Gradient(c.left, c.right, k.depthH) == 0 && Gradient(c.up, c.down, k.depthV) == 0;
    Pow2Values();
    MulMonotone(k.Smag(), x, Width(mask) - 1);
    PinnedPoint(src, Shl(y, k.smagl), c, x, -128 * y, 128 * (|mask| - y) - 129, (Width(mask) - 1) * k.Smag(), k);
  }

  /** No overshoot at the plane level: when every source sample lies in [lo, hi] within
      [0, peak], so does every output pixel. */
  lemma PixelWithinSource(src: Plane, mask: Plane, k: PlaneParams, x: int, y: int, lo: int, hi: int)
    requires k.Valid() && PlaneShapes(src, mask, k)
    requires 0 <= x < Width(mask) && 0 <= y < |mask|
    requires 0 <= lo <= hi <= k.peak
    requires forall i, j :: 0 <= i < |src| && 0 <= j < |src[i]| ==> lo <= src[i][j] <= hi
    ensures lo <= WarpPixel(src, mask, k, x, y) <= hi
  {
    PixelFits(src, mask, k, y);
    var c := Neighbours(mask, x, y);
    var srcRow, yLimitMin, yLimitMax, xLimitMax := Shl(y, k.smagl), -128 * y, 128 * (|mask| - y) - 129, (Width(mask) - 1) * k.Smag();
    DisplaceBounds(c, x, yLimitMin, yLimitMax, xLimitMax, k);
    WithinSourceRange(src, srcRow, c, x, yLimitMin, yLimitMax, xLimitMax, k, lo, hi);
  }
}

/** The link between the constructor and the kernel. */
module Instance {
  import opened FixedPoint
  import opened Formats
  import opened Normalizer
  import opened Kernel

  /** An accepted configuration dispatched to the integer kernel is one that kernel can
      run: the constructor's output meets everything Filter asks of its instance, its
      input is integer and its peak is the largest sample value. */
  lemma AcceptedIsReady(clip: VideoInfo, mask: VideoInfo, args: Arguments)
    requires mask.format.numPlanes <= 3 && Normalize(clip, mask, args).Ok?
    requires Normalize(clip, mask, args).value.kind != Single
    ensures mask.format.sampleType == Integer
    ensures Normalize(clip, mask, args).value.peak == Pow2(mask.format.bitsPerSample) - 1
    ensures KernelReady(Normalize(clip, mask, args).value)
    ensures forall p :: 0 <= p < mask.format.numPlanes ==> PlaneOf(Normalize(clip, mask, args).value, p).Valid()
  {
    AcceptedConfig(clip, mask, args);
  }
}
