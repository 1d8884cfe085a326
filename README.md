# AWarp: the integer warp kernel and the constructor's parameter normalizer

AWarp is the VapourSynth port of AWarpSharp2's warping stage. It moves every pixel of a
clip along the gradient of an edge mask. For every processed plane and every output
pixel, the kernel does four things:

- it reads the cross of mask neighbours around the pixel, mirrored at the plane edges;
- it turns the horizontal and vertical mask differences into fixed-point displacements,
  scaled by per-plane depth coefficients;
- it bilinearly blends the four source samples at the displaced position;
- it clamps the result to the output range.

The source clip is either the mask's size or four times it in both axes (SMAGL = 0 or
2, SMAG = 1 << SMAGL). The output has the mask's size. The filter's constructor checks
the two clips and the arguments, and derives the state the kernel uses:
- the fixed-point depth coefficients;
- the process flags;
- SMAGL, SMAG and the peak;
- whether the mask needs its first plane re-extracted.

The project has five files:

- `fixed_point.dfy` (module `FixedPoint`): the C++ integer operators as functions.
  - `x << k` is `Shl`, a multiplication by 2^k.
  - `x >> k` on a signed int is `Asr`, floor division by 2^k.
  - `x & 127` is `Low7`, the residue mod 128.
  - `std::clamp` is `Clamp`.
  - One rounding blend stage `(a * (128 - w) + b * w + 64) >> 7` is `Blend`.
- `formats.dfy` (module `Formats`): the host's video info, the user's arguments, the
  derived `Config` (the fields of `AWarpData`) and one error per `throw`.
- `normalizer.dfy` (module `Normalizer`): the constructor.
  - `Normalize` is its specification: a function to `Result<Config, ConfigError>`.
  - `Create` is the constructor's own sequence of checks, loops over three-slot arrays
    and in-place shifts, proved equal to `Normalize`.
  - Lemmas state when a configuration is rejected and what an accepted one guarantees.
- `warp.dfy` (module `Warp`): the per-pixel `warp` lambda as pure functions of the
  neighbour cross, the column and the row limits, with its position, bound and
  boundary lemmas.
- `kernel.dfy`, in two modules:
  - `Kernel` holds `filter<uint8_t>` / `filter<uint16_t>` as methods. They loop over
    planes, rows and columns and write an `array2<int>` output plane pixel by pixel.
    They are proved to produce the pixel-wise specification `WarpPixel` and to touch
    nothing else.
  - `Instance` links an accepted configuration to what the kernel needs.

The source and mask planes are only read by the kernel, so they are values here
(`seq<seq<int>>`). The source pointer `srcp`, advanced by `srcStride * SMAG` per output
row, is the source row index `y << SMAGL`.

One deliberate reading of the code: the kernel reads column `h + 1` even when `h` is
the last source column, where that read has weight 0. `RightTap` models it by reading
the edge column again. The result is unchanged, because `DisplaceBounds` shows that a
nonzero right weight implies `h + 1` is inside the row, and `BlendBounds` shows that
weight 0 ignores the second input.

With all depths 0 (or a mask without any gradient), output pixel (x, y) equals the
source sample `src[y << SMAGL][x << SMAGL]`, when that sample is in [0, peak], on every
row but the last. There the vertical clamp `[-128 * y, 128 * (height - y) - 129]`
(awarp.cpp:155-156) is `[-128 * y, -1]`, so even a zero gradient becomes an offset of -1.
The last row is therefore its own source row blended with the row above it, with weight
(128 - SMAG) / 128 on its own. `StillPixel` proves the exact copy for every row above the
last, and `LastRowBlends` states what the last row computes.

## Model

| member | source | states |
|---|---|---|
| FixedPoint.Low7 | AWarp/awarp.cpp:78-79 | `x & 127` is in [0, 128) and congruent to x modulo 128 |
| FixedPoint.Blend | AWarp/awarp.cpp:91-103 | one rounding blend stage `(a * (128 - w) + b * w + 64) >> 7`; its range and end weights are stated by BlendBounds |
| FixedPoint.BlendBounds | AWarp/awarp.cpp:91-103 | a rounding blend stage stays within [min(a, b), max(a, b)]; weight 0 returns a exactly and weight 128 returns b exactly |
| FixedPoint.AsrMonotone | AWarp/awarp.cpp:81-82 | the arithmetic right shift is monotone |
| Warp.Gradient | AWarp/awarp.cpp:65-66 | the fixed-point gradient is 0 when the two mask values are equal or the depth is 0 |
| Warp.Displace | AWarp/awarp.cpp:65-89 | the whole-pixel column and row offset and the two 7-bit weights of one pixel; DisplaceBounds, VerticalPosition and HorizontalPosition state their ranges and what they add up to |
| Warp.DisplaceBounds | AWarp/awarp.cpp:70-89 | both remainders are in [0, 127]; the clamped column is in [0, xLimitMax]; a nonzero horizontal remainder implies column < xLimitMax; the row offset lies between the row limits shifted by 7 - SMAGL |
| Warp.VerticalPosition | AWarp/awarp.cpp:68-82 | the row offset and its remainder together are the clamped vertical gradient at source resolution: 128 * row + remV = SMAG * v |
| Warp.HorizontalPosition | AWarp/awarp.cpp:70-89 | away from the edges, the column and its remainder are the pixel's own position plus the horizontal gradient: 128 * col + remH = SMAG * (128 x + h) |
| Warp.SplitFixedPoint | AWarp/awarp.cpp:70-82 | `v << SMAGL` splits into 128 * (v >> (7 - SMAGL)) plus its low 7 bits |
| Warp.Taps | AWarp/awarp.cpp:91-95 | the lambda reads four source samples: the left and right taps of rows v and v + 1. Whenever the row fits, every index is inside the plane, because the function is well-defined under that precondition |
| Warp.WarpPoint | AWarp/awarp.cpp:63-105 | the lambda's integer result is in [0, peak] |
| Warp.WithinSourceRange | AWarp/awarp.cpp:91-105 | when the four samples read lie in [lo, hi] within [0, peak], the result does too (no overshoot) |
| Warp.StillPoint | AWarp/awarp.cpp:65-105 | with both gradients 0 and row limits that admit offset 0, the pixel returns its own source sample `src[srcRow][x << SMAGL]` |
| Warp.PinnedPoint | AWarp/awarp.cpp:65-105 | with both gradients 0 and the last row's limit -1, the pixel blends source rows srcRow - 1 and srcRow at its own column, with weight 128 - SMAG on its own row |
| Kernel.Mirror | AWarp/awarp.cpp:158-159 | a neighbour one step outside the plane reflects to an index inside it |
| Kernel.Neighbours | AWarp/awarp.cpp:158-181 | the mirrored cross of mask values around (x, y); RowsMirrored and ColumnsAround state it at the edges, and the loops pick exactly this cross |
| Kernel.RowLimits | AWarp/awarp.cpp:155-156 | the row clamp `[-128 y, 128 (height - y) - 129]` keeps both source rows read, `(y << SMAGL) + (v >> (7 - SMAGL))` and the next one, inside `[0, height * SMAG - 1]` |
| Kernel.PixelFits | AWarp/awarp.cpp:59 | every pixel of row y, with `xLimitMax = (width - 1) * SMAG` and the row's limits, meets everything the lambda needs of its row |
| Kernel.WarpPixel | AWarp/awarp.cpp:154-156 | the specification of one output pixel: the lambda at the mirrored cross and the row's limits, in [0, peak] |
| Kernel.WritePixel | AWarp/awarp.cpp:173 | `dstp[x] = warp(x)` sets pixel (x, y) to WarpPixel and leaves every other pixel unchanged |
| Kernel.RowsAround | AWarp/awarp.cpp:158-159 | `above` and `below` are the mirrored neighbour rows, both inside the plane and different from y |
| Kernel.RowsMirrored | AWarp/awarp.cpp:158-163 | in the first row both vertical neighbours are row 1 and in the last row both are row height - 2, so the vertical gradient is 0 there |
| Kernel.ColumnsAround | AWarp/awarp.cpp:161-181 | at x = 0 both horizontal neighbours are column 1, at x = width - 1 both are column width - 2, and inside the row they are x - 1 and x + 1 |
| Kernel.EdgeColumnsStay | AWarp/awarp.cpp:176-181 | an edge column is never displaced horizontally: its column is `x << SMAGL` and its horizontal remainder is 0 |
| Kernel.FilterInterior | AWarp/awarp.cpp:168-174 | the inner column loop writes WarpPixel at every interior pixel of row y and leaves the row's two edge pixels and every other row unchanged |
| Kernel.FilterRow | AWarp/awarp.cpp:155-185 | one row pass writes WarpPixel at every pixel of row y and leaves every other row unchanged |
| Kernel.FilterPlane | AWarp/awarp.cpp:154-186 | the row loop, with the source row advancing by SMAG per row, leaves every output pixel equal to WarpPixel |
| Kernel.FilterSlot | AWarp/awarp.cpp:49-187 | a processed plane is warped pixel by pixel and any other plane is not modified |
| Kernel.Filter | AWarp/awarp.cpp:48-188 | every processed plane of the frame is warped and every unprocessed output plane is unchanged; only the output planes are modified |
| Kernel.StillPixel | AWarp/awarp.cpp:65-105 | with zero depths or a flat mask, every pixel above the last row equals its source sample `src[y << SMAGL][x << SMAGL]` when that sample is in [0, peak] |
| Kernel.LastRowBlends | AWarp/awarp.cpp:155-156 | with zero depths or a flat mask, a last-row pixel is the clamped blend of source rows `(y << SMAGL) - 1` and `y << SMAGL` at column `x << SMAGL`, with weight 128 - SMAG on its own row |
| Kernel.PixelWithinSource | AWarp/awarp.cpp:91-105 | when every source sample lies in [lo, hi] within [0, peak], so does every output pixel |
| Normalizer.ResolveDepths | AWarp/awarp.cpp:261-287 | the depth loop returns the first range error that the per-plane resolution `DepthH`/`DepthV` produces; on success it fills every slot with the resolved value |
| Normalizer.DepthH | AWarp/awarp.cpp:261-269 | the horizontal depth of a plane: the user's value, else 3, `depth_h[0] >> subSamplingW` or `depth_h[1]`; DefaultDepthsAgree and ResolveDepths relate it to the defaults and the loop |
| Normalizer.DepthV | AWarp/awarp.cpp:271-280 | the vertical depth of a plane: the user's value, else that plane's user depth_h, else 3, `depth_v[0] >> subSamplingH` or `depth_v[1]` |
| Normalizer.FirstDepthError | AWarp/awarp.cpp:261-287 | the range error for the first out-of-range resolved depth, horizontal before vertical; FirstDepthErrorMeaning states when there is none |
| Normalizer.SelectPrefix | AWarp/awarp.cpp:293-308 | the process flags after the first k plane entries, or the first out-of-range or repeated entry's error; the flags are always three. SelectPrefixMeaning states what they mean |
| Normalizer.Derive | AWarp/awarp.cpp:310-382 | the derived state of an accepted instance; AcceptedConfig and AcceptedDepths state its properties |
| Normalizer.Normalize | AWarp/awarp.cpp:238-382 | the constructor as a function: the first error raised, or Derive of the selected planes; RejectsExactly states when it fails, AcceptedConfig what it returns, and Create is proved equal to it |
| Normalizer.ParsePlanes | AWarp/awarp.cpp:293-308 | the plane loop returns the error `SelectPlanes` produces, or fills the flags with its selection |
| Normalizer.ScaleDepths | AWarp/awarp.cpp:317-320 | every coefficient of the first numPlanes slots is shifted left by the fixed-point shift, and the other slots are unchanged |
| Normalizer.Create | AWarp/awarp.cpp:238-324 | the constructor's checks, loops and in-place shifts produce exactly `Normalize`: the first error raised, or the derived configuration |
| Normalizer.Finish | AWarp/awarp.cpp:378-382 | after the checks, the kernel choice, the shifted coefficients, the preprocessing flag, SMAGL, SMAG and the peak are those of `Derive` |
| Normalizer.ErrorSticks | AWarp/awarp.cpp:298-305 | once the plane list fails, later entries do not change the error |
| Normalizer.SelectPrefixMeaning | AWarp/awarp.cpp:293-308 | after k entries, the flags are defined iff those entries are in range and distinct; flag i is then set iff no list was given or i is among them |
| Normalizer.SelectPlanesMeaning | AWarp/awarp.cpp:293-308 | the plane list is accepted iff every entry is in [0, numPlanes) and none repeats; an empty list selects every slot, otherwise exactly the listed planes |
| Normalizer.FirstDepthErrorMeaning | AWarp/awarp.cpp:282-286 | no depth error is raised iff every resolved horizontal and vertical depth is in [-128, 127] |
| Normalizer.RejectsExactly | AWarp/awarp.cpp:238-308 | the constructor's own checks fail iff one of them is violated (failures of the external preprocessing filters are not modelled): supported constant format, same format, equal or 4x dimensions, equal frame counts, no more depths than planes, depths in range, valid plane list |
| Normalizer.AcceptedConfig | AWarp/awarp.cpp:289-382 | an accepted configuration has SMAGL = 0 iff the widths are equal (else 2) and SMAG = 1 << SMAGL matching both dimensions. It has one bounded coefficient per plane and exactly the selected planes. Integer input gives peak = 2^bits - 1; the kernel is chosen by sample size. Preprocessing happens iff mask_first_plane, a chroma plane is processed and the format is subsampled |
| Normalizer.AcceptedDepths | AWarp/awarp.cpp:317-320 | each accepted coefficient is this plane's resolved depth, which is in [-128, 127], shifted left by the fixed-point shift, so it lies in [-128 * 2^shift, 127 * 2^shift]; for integer input the shift is 16 - bits and the peak 2^bits - 1 |
| Normalizer.DefaultDepthsAgree | AWarp/awarp.cpp:261-280 | omitting depth_h and depth_v gives the same result as passing 3 for plane 0 and `3 >> subsampling` for the chroma planes |
| Normalizer.GradientFitsInt32 | AWarp/awarp.cpp:65-66 | for integer input, `((a - b) << 7) * depth` of two samples in [0, peak] and an accepted coefficient fits in a signed 32-bit int |
| Normalizer.ProductFitsInt32 | AWarp/awarp.cpp:65-66 | the bound behind GradientFitsInt32: a sample difference below P times a coefficient in [-128 K, 127 K] with P * K = 2^16 stays inside 32 bits after the shift by 7 |
| Instance.AcceptedIsReady | AWarp/awarp.cpp:310-313 | an accepted configuration that the constructor dispatches to `filter<uint8_t>` or `filter<uint16_t>` (kind not Single) has integer input, peak 2^bits - 1, and everything the integer kernel's Filter asks of its instance: that dispatch, one coefficient per plane, three flags, SMAGL 0 or 2 and a nonnegative peak |

## Left out

- The float kernel `filter<float>` (AWarp/awarp.cpp:106-151) is not modelled: its float arithmetic and float-to-int conversion are not part of this model. The normalizer's float branch, which only shifts integer coefficients by 8, is modelled.
- `aWarpGetFrame` is left out: frame requests and frame allocation belong to the host. When the clip and the mask have the same width, the output frame is allocated with unprocessed planes copied through from the source. When the clip is four times the mask, the frame is allocated without copying anything. `Filter` only promises that it does not touch unprocessed output planes.
- The mask preprocessing through the external `ShufflePlanes` and `Bilinear` filters is left out, because those are foreign calls. Only the decision to run it (`Config.preprocessMask`) is modelled. Their failures, which also abort construction, are not modelled either, so Normalizer.RejectsExactly's if-and-only-if covers only the constructor's own checks.
- `aWarpFree`, plugin registration and argument parsing through `VSMap` are left out. Arguments are modelled as integer sequences, with an absent array as the empty sequence.
- `mapGetIntSaturated` saturation is left out. A saturated value is outside [-128, 127] or outside the plane range exactly when the original value is, so no error decision depends on it.
- The host's parallel scheduling (`fmParallel`) is concurrency owned by the host and is not modelled.
- `VSHelper4.h` is not part of this model. `IsConstantFormat` assumes `isConstantVideoFormat` means positive width and height and a known colour family. `SameFormat` assumes `isSameVideoFormat` compares colour family, sample type, bit depth and both subsamplings.
- Strides and pointers are replaced by row indices into planes of rows. Row padding, and reads through a stride, are not modelled.
- `RightTap`: the read of column `h + 1` past the plane's last column, which has weight 0, reads the edge column again instead of memory beyond the row.
- Kernel.Filter requires every processed plane to be at least 2 by 2 and the source plane to be exactly SMAG times the mask plane in both axes. The source dereferences `maskp[1]` and the neighbour rows without checking these, and the constructor does not check them either.
- Kernel.Filter has its source and mask planes as immutable values, so aliasing between the output and the inputs is not modelled.
- Warp.WarpPoint and the rest of the integer model use unbounded integers. `Normalizer.GradientFitsInt32` shows that the one product that could overflow stays inside 32 bits for accepted configurations and in-range samples.
- Normalizer.Create, Warp.Gradient and Warp.Displace model a left shift of a negative int (`depth_h[plane] <<= shift`, `(left - right) << 7`, `remainderH <<= SMAGL`) as multiplication by 2^k, which is its meaning in C++20; the float kernel, which Kernel.KernelReady excludes, is not part of this model.
