/** The validation and derivation half of the filter's constructor (`aWarpCreate`):
    format, dimension and frame-count checks, per-plane depth resolution, plane
    selection, and the derived SMAGL/SMAG/peak and mask-preprocessing decision.
    `Normalize` is the specification; `Create` is the constructor's own step-by-step
    computation over the three-slot arrays of `AWarpData`, proved equal to it. */
module Normalizer {
  import opened FixedPoint
  import opened Formats

  /** `vsh::isConstantVideoFormat`: a known size and a known colour family. */
  predicate IsConstantFormat(vi: VideoInfo)
  {
    vi.height > 0 && vi.width > 0 && vi.format.colorFamily != Undefined
  }

  /** `vsh::isSameVideoFormat`: equal colour family, sample type, depth and subsampling. */
  predicate SameFormat(a: VideoFormat, b: VideoFormat)
  {
    a.colorFamily == b.colorFamily && a.sampleType == b.sampleType &&
    a.bitsPerSample == b.bitsPerSample &&
    a.subSamplingW == b.subSamplingW && a.subSamplingH == b.subSamplingH
  }

  /** Constant format, integer of at most 16 bits or 32-bit float. */
  predicate SupportedFormat(vi: VideoInfo)
  {
    IsConstantFormat(vi) &&
    !(vi.format.sampleType == Integer && vi.format.bitsPerSample > 16) &&
    !(vi.format.sampleType == Float && vi.format.bitsPerSample != 32)
  }

  /** The clip is the mask's size, or four times it in both axes. */
  predicate DimensionsMatch(mask: VideoInfo, clip: VideoInfo)
  {
    (mask.width == clip.width && mask.height == clip.height) ||
    (mask.width * 4 == clip.width && mask.height * 4 == clip.height)
  }

  predicate InDepthRange(d: int)
  {
    -128 <= d <= 127
  }

  /** The horizontal depth of plane p before scaling: the user's value when given,
      otherwise 3 for plane 0, plane 0's value shifted right by the horizontal
      subsampling for plane 1, and plane 1's value for plane 2. */
  function DepthH(user: seq<int>, ssW: nat, p: nat): int
    decreases p
  {
    if p < |user| then user[p]
    else if p == 0 then 3
    else if p == 1 then Asr(DepthH(user, ssW, 0), ssW)
    else DepthH(user, ssW, 1)
  }

  /** The vertical depth of plane p before scaling: the user's value when given, else the
      user's horizontal value for that plane when that was given, otherwise 3 for plane 0,
      plane 0's value shifted right by the vertical subsampling for plane 1, and plane 1's
      value for plane 2. */
  function DepthV(user: seq<int>, userH: seq<int>, ssH: nat, p: nat): int
    decreases p
  {
    if p < |user| then user[p]
    else if p < |userH| then userH[p]
    else if p == 0 then 3
    else if p == 1 then Asr(DepthV(user, userH, ssH, 0), ssH)
    else DepthV(user, userH, ssH, 1)
  }

  function ResolvedH(args: Arguments, f: VideoFormat, p: nat): int
  {
    DepthH(args.depthH, f.subSamplingW, p)
  }

  function ResolvedV(args: Arguments, f: VideoFormat, p: nat): int
  {
    DepthV(args.depthV, args.depthH, f.subSamplingH, p)
  }

  /** The range error raised for the first plane from p on whose resolved depth is out
      of range; the horizontal value of a plane is checked before its vertical one. */
  function FirstDepthError(args: Arguments, f: VideoFormat, p: nat): Option<ConfigError>
    decreases f.numPlanes - p
  {
    if p >= f.numPlanes then None
    else if !InDepthRange(ResolvedH(args, f, p)) then Some(DepthHOutOfRange)
    else if !InDepthRange(ResolvedV(args, f, p)) then Some(DepthVOutOfRange)
    else FirstDepthError(args, f, p + 1)
  }

  /** The three process flags after the first k entries of the plane list: all set when
      the list is empty, otherwise each listed plane set, failing at the first entry that
      is out of range or already set. */
  function SelectPrefix(planes: seq<int>, numPlanes: nat, k: nat): (r: Result<seq<bool>, ConfigError>)
    requires k <= |planes| && numPlanes <= 3
    ensures r.Ok? ==> |r.value| == 3
  {
    if k == 0 then Ok(seq(3, _ => |planes| <= 0))
    else match SelectPrefix(planes, numPlanes, k - 1)
      case Err(e) => Err(e)
      case Ok(process) =>
        var n := planes[k - 1];
        if n < 0 || n >= numPlanes then Err(PlaneOutOfRange)
        else if process[n] then Err(PlaneSpecifiedTwice)
        else Ok(process[n := true])
  }

  function SelectPlanes(planes: seq<int>, numPlanes: nat): Result<seq<bool>, ConfigError>
    requires numPlanes <= 3
  {
    SelectPrefix(planes, numPlanes, |planes|)
  }

  /** Every listed plane is in range and none is listed twice. */
  predicate ValidSelection(planes: seq<int>, numPlanes: nat)
  {
    (forall i :: 0 <= i < |planes| ==> 0 <= planes[i] < numPlanes) &&
    (forall i, j :: 0 <= i < j < |planes| ==> planes[i] != planes[j])
  }

  /** The left shift into the fixed-point domain: 16 - bits for integer input, 8 for float. */
  function DepthShift(f: VideoFormat): nat
    requires f.sampleType == Integer ==> f.bitsPerSample <= 16
  {
    if f.sampleType == Integer then 16 - f.bitsPerSample else 8
  }

  function MaskFirstPlane(args: Arguments, f: VideoFormat): bool
  {
    match args.maskFirstPlane
    case Some(v) => v != 0
    case None => f.colorFamily == YUV
  }

  function Kind(f: VideoFormat): KernelKind
  {
    if f.BytesPerSample() == 1 then Byte
    else if f.BytesPerSample() == 2 then Word
    else Single
  }

  /** The horizontal coefficients of the first numPlanes planes, shifted into the
      fixed-point domain. */
  function ScaledH(args: Arguments, f: VideoFormat, shift: nat): (r: seq<int>)
    ensures |r| == f.numPlanes
  {
    seq(f.numPlanes, p requires 0 <= p => Shl(ResolvedH(args, f, p), shift))
  }

  /** The vertical coefficients of the first numPlanes planes, shifted into the
      fixed-point domain. */
  function ScaledV(args: Arguments, f: VideoFormat, shift: nat): (r: seq<int>)
    ensures |r| == f.numPlanes
  {
    seq(f.numPlanes, p requires 0 <= p => Shl(ResolvedV(args, f, p), shift))
  }

  /** The derived state of an accepted instance, from the two clips, the arguments and
      the selected planes. */
  function Derive(clip: VideoInfo, mask: VideoInfo, args: Arguments, process: seq<bool>): Config
    requires SupportedFormat(mask) && |process| == 3
  {
    var f := mask.format;
    var shift := DepthShift(f);
    var smagl := if mask.width == clip.width then 0 else 2;
    Config(
      vi := mask,
      depthH := ScaledH(args, f, shift),
      depthV := ScaledV(args, f, shift),
      process := process,
      kind := Kind(f),
      smagl := smagl,
      smag := Pow2(smagl),
      peak := if f.sampleType == Integer then Pow2(f.bitsPerSample) - 1 else 0,
      preprocessMask := MaskFirstPlane(args, f) && (process[1] || process[2]) &&
                        (f.subSamplingW > 0 || f.subSamplingH > 0))
  }

  /** The filter's constructor, as a function from the two clips' video info and the
      arguments to the derived configuration or the first error raised. */
  function Normalize(clip: VideoInfo, mask: VideoInfo, args: Arguments): Result<Config, ConfigError>
    requires mask.format.numPlanes <= 3
  {
    var f := mask.format;
    if !SupportedFormat(mask) then Err(UnsupportedFormat)
    else if !SameFormat(f, clip.format) then Err(FormatMismatch)
    else if !DimensionsMatch(mask, clip) then Err(DimensionMismatch)
    else if mask.numFrames != clip.numFrames then Err(FrameCountMismatch)
    else if |args.depthH| > f.numPlanes then Err(TooManyDepthH)
    else if |args.depthV| > f.numPlanes then Err(TooManyDepthV)
    else if FirstDepthError(args, f, 0).Some? then Err(FirstDepthError(args, f, 0).value)
    else match SelectPlanes(args.planes, f.numPlanes)
      case Err(e) => Err(e)
      case Ok(process) => Ok(Derive(clip, mask, args, process))
  }

  /** The depth loop of the constructor: fills the first numPlanes slots of the two
      arrays plane by plane, each plane's horizontal value before its vertical one, and
      stops at the first value out of [-128, 127]. */
  method ResolveDepths(args: Arguments, f: VideoFormat, depthH: array<int>, depthV: array<int>)
    returns (err: Option<ConfigError>)
    requires f.numPlanes <= 3 && depthH.Length == 3 && depthV.Length == 3 && depthH != depthV
    requires |args.depthH| <= f.numPlanes && |args.depthV| <= f.numPlanes
    modifies depthH, depthV
    ensures err == FirstDepthError(args, f, 0)
    ensures err.None? ==> forall q :: 0 <= q < f.numPlanes ==>
              depthH[q] == ResolvedH(args, f, q) && depthV[q] == ResolvedV(args, f, q)
  {
    var numDepthH, numDepthV := |args.depthH|, |args.depthV|;
    var plane := 0;
    while plane < f.numPlanes
      invariant 0 <= plane <= f.numPlanes
      invariant forall q :: 0 <= q < plane ==> depthH[q] == ResolvedH(args, f, q)
      invariant forall q :: 0 <= q < plane ==> depthV[q] == ResolvedV(args, f, q)
      invariant FirstDepthError(args, f, 0) == FirstDepthError(args, f, plane)
    {
      if plane < numDepthH {
        depthH[plane] := args.depthH[plane];
      } else if plane == 0 {
        depthH[0] := 3;
      } else if plane == 1 {
        depthH[1] := Asr(depthH[0], f.subSamplingW);
      } else {
        depthH[2] := depthH[1];
      }

      if plane < numDepthV {
        depthV[plane] := args.depthV[plane];
      } else if plane < numDepthH {
        depthV[plane] := depthH[plane];
      } else if plane == 0 {
        depthV[0] := 3;
      } else if plane == 1 {
        depthV[1] := Asr(depthV[0], f.subSamplingH);
      } else {
        depthV[2] := depthV[1];
      }

      if depthH[plane] < -128 || depthH[plane] > 127 {
        return Some(DepthHOutOfRange);
      }
      if depthV[plane] < -128 || depthV[plane] > 127 {
        return Some(DepthVOutOfRange);
      }
      plane := plane + 1;
    }
    return None;
  }

  /** The plane-selection loop of the constructor: every flag starts as "no list given",
      then each listed plane is range-checked, checked for repetition and set. */
  method ParsePlanes(planes: seq<int>, numPlanes: nat, process: array<bool>)
    returns (err: Option<ConfigError>)
    requires numPlanes <= 3 && process.Length == 3
    modifies process
    ensures SelectPlanes(planes, numPlanes) == if err.Some? then Err(err.value) else Ok(process[..])
  {
    var m := |planes|;
    for i := 0 to 3
      invariant forall j :: 0 <= j < i ==> process[j] == (m <= 0)
    {
      process[i] := m <= 0;
    }
    assert process[..] == seq(3, _ => m <= 0);
    for i := 0 to m
      invariant SelectPrefix(planes, numPlanes, i) == Ok(process[..])
    {
      var n := planes[i];
      if n < 0 || n >= numPlanes {
        ErrorSticks(planes, numPlanes, i + 1, m);
        return Some(PlaneOutOfRange);
      }
      if process[n] {
        ErrorSticks(planes, numPlanes, i + 1, m);
        return Some(PlaneSpecifiedTwice);
      }
      process[n] := true;
    }
    return None;
  }

  /** `depth[plane] <<= shift` for every plane. */
  method ScaleDepths(depth: array<int>, numPlanes: nat, shift: nat)
    requires numPlanes <= depth.Length
    modifies depth
    ensures forall q :: 0 <= q < numPlanes ==> depth[q] == Shl(old(depth[q]), shift)
    ensures forall q :: numPlanes <= q < depth.Length ==> depth[q] == old(depth[q])
  {
    for p := 0 to numPlanes
      invariant forall q :: 0 <= q < p ==> depth[q] == Shl(old(depth[q]), shift)
      invariant forall q :: p <= q < depth.Length ==> depth[q] == old(depth[q])
    {
      depth[p] := Shl(depth[p], shift);
    }
  }

  /** The constructor as the source runs it: the checks in order, an exception (here an
      Err) at the first one violated, then the three-slot arrays of the instance filled
      by the loops above, and the derived values. */
  method Create(clip: VideoInfo, mask: VideoInfo, args: Arguments) returns (r: Result<Config, ConfigError>)
    requires mask.format.numPlanes <= 3
    ensures r == Normalize(clip, mask, args)
  {
    var f := mask.format;
    if !IsConstantFormat(mask) ||
       (f.sampleType == Integer && f.bitsPerSample > 16) ||
       (f.sampleType == Float && f.bitsPerSample != 32) {
      return Err(UnsupportedFormat);
    }
    if !SameFormat(f, clip.format) {
      return Err(FormatMismatch);
    }
    if (mask.width != clip.width || mask.height != clip.height) &&
       (mask.width * 4 != clip.width || mask.height * 4 != clip.height) {
      return Err(DimensionMismatch);
    }
    if mask.numFrames != clip.numFrames {
      return Err(FrameCountMismatch);
    }
    if |args.depthH| > f.numPlanes {
      return Err(TooManyDepthH);
    }
    if |args.depthV| > f.numPlanes {
      return Err(TooManyDepthV);
    }

    var depthH := new int[3];
    var depthV := new int[3];
    var err := ResolveDepths(args, f, depthH, depthV);
    if err.Some? {
      return Err(err.value);
    }

    var maskFirstPlane := match args.maskFirstPlane
      case Some(v) => v != 0
      case None => f.colorFamily == YUV;

    var process := new bool[3];
    err := ParsePlanes(args.planes, f.numPlanes, process);
    if err.Some? {
      return Err(err.value);
    }

    var c := Finish(clip, mask, args, depthH, depthV, process, maskFirstPlane);
    return Ok(c);
  }

  /** The rest of the constructor once every check has passed: the kernel choice, the
      depths shifted into the fixed-point domain in place, the preprocessing decision,
      SMAGL, SMAG and the peak. */
  method Finish(clip: VideoInfo, mask: VideoInfo, args: Arguments, depthH: array<int>, depthV: array<int>,
                process: array<bool>, maskFirstPlane: bool) returns (c: Config)
    requires SupportedFormat(mask) && mask.format.numPlanes <= 3
    requires depthH.Length == 3 && depthV.Length == 3 && process.Length == 3 && depthH != depthV
    requires forall q :: 0 <= q < mask.format.numPlanes ==>
               depthH[q] == ResolvedH(args, mask.format, q) && depthV[q] == ResolvedV(args, mask.format, q)
    requires maskFirstPlane == MaskFirstPlane(args, mask.format)
    modifies depthH, depthV
    ensures c == Derive(clip, mask, args, process[..])
  {
    var f := mask.format;
    var kind := if f.BytesPerSample() == 1 then Byte else if f.BytesPerSample() == 2 then Word else Single;

    var shift := if f.sampleType == Integer then 16 - f.bitsPerSample else 8;
    ScaleDepths(depthH, f.numPlanes, shift);
    ScaleDepths(depthV, f.numPlanes, shift);

    var preprocess := maskFirstPlane && (process[1] || process[2]) &&
                      (f.subSamplingW > 0 || f.subSamplingH > 0);

    var smagl := if mask.width == clip.width then 0 else 2;
    var smag := Pow2(smagl);
    var peak := 0;
    if f.sampleType == Integer {
      peak := Pow2(f.bitsPerSample) - 1;
    }

    assert depthH[..f.numPlanes] == ScaledH(args, f, shift);
    assert depthV[..f.numPlanes] == ScaledV(args, f, shift);
    c := Config(mask, depthH[..f.numPlanes], depthV[..f.numPlanes], process[..],
                kind, smagl, smag, peak, preprocess);
  }

  /** Once the plane list has failed, later entries do not change the error. */
  lemma {:induction false} ErrorSticks(planes: seq<int>, numPlanes: nat, k: nat, k': nat)
    requires k <= k' <= |planes| && numPlanes <= 3
    requires SelectPrefix(planes, numPlanes, k).Err?
    ensures SelectPrefix(planes, numPlanes, k') == SelectPrefix(planes, numPlanes, k)
    decreases k' - k
  {
    if k < k' {
      ErrorSticks(planes, numPlanes, k, k' - 1);
    }
  }

  /** After k entries the flags are defined exactly when those entries are in range and
      distinct; a plane's flag is then set iff no list was given or the plane is listed. */
  lemma {:induction false} SelectPrefixMeaning(planes: seq<int>, numPlanes: nat, k: nat)
    requires k <= |planes| && numPlanes <= 3
    ensures SelectPrefix(planes, numPlanes, k).Ok? <==> ValidSelection(planes[..k], numPlanes)
    ensures SelectPrefix(planes, numPlanes, k).Ok? ==>
              forall i :: 0 <= i < 3 ==>
                SelectPrefix(planes, numPlanes, k).value[i] == (|planes| == 0 || i in planes[..k])
  {
    if k > 0 {
      SelectPrefixMeaning(planes, numPlanes, k - 1);
      var prev, n := planes[..k - 1], planes[k - 1];
      assert planes[..k] == prev + [n];
      if ValidSelection(prev, numPlanes) && 0 <= n < numPlanes && n !in prev {
        assert ValidSelection(planes[..k], numPlanes) by {
          forall i, j | 0 <= i < j < k ensures planes[..k][i] != planes[..k][j] {
            if j == k - 1 {
              assert planes[..k][i] == prev[i];
            } else {
              assert planes[..k][i] == prev[i] && planes[..k][j] == prev[j];
            }
          }
        }
      } else if ValidSelection(prev, numPlanes) && 0 <= n < numPlanes {
        var i :| 0 <= i < |prev| && prev[i] == n;
        assert planes[..k][i] == planes[..k][k - 1];
      } else if ValidSelection(prev, numPlanes) {
        assert !(0 <= planes[..k][k - 1] < numPlanes);
      } else {
        assert !ValidSelection(planes[..k], numPlanes) by {
          if ValidSelection(planes[..k], numPlanes) {
            assert forall i :: 0 <= i < |prev| ==> prev[i] == planes[..k][i];
            assert false;
          }
        }
      }
    }
  }

  /** The plane list is accepted exactly when every entry is in range and none repeats;
      with no list every plane is processed, otherwise exactly the listed ones. */
  lemma SelectPlanesMeaning(planes: seq<int>, numPlanes: nat)
    requires numPlanes <= 3
    ensures SelectPlanes(planes, numPlanes).Ok? <==> ValidSelection(planes, numPlanes)
    ensures SelectPlanes(planes, numPlanes).Ok? ==>
              forall i :: 0 <= i < 3 ==>
                SelectPlanes(planes, numPlanes).value[i] == (|planes| == 0 || i in planes)
  {
    SelectPrefixMeaning(planes, numPlanes, |planes|);
    assert planes[..|planes|] == planes;
  }

  /** Every plane's resolved horizontal and vertical depth lies in [-128, 127]. */
  predicate DepthsInRange(args: Arguments, f: VideoFormat)
  {
    forall q :: 0 <= q < f.numPlanes ==> InDepthRange(ResolvedH(args, f, q)) && InDepthRange(ResolvedV(args, f, q))
  }

  lemma {:induction false} FirstDepthErrorMeaning(args: Arguments, f: VideoFormat, p: nat)
    ensures FirstDepthError(args, f, p).None? <==>
              forall q :: p <= q < f.numPlanes ==>
                InDepthRange(ResolvedH(args, f, q)) && InDepthRange(ResolvedV(args, f, q))
    decreases f.numPlanes - p
  {
    if p < f.numPlanes {
      FirstDepthErrorMeaning(args, f, p + 1);
    }
  }

  /** The constructor fails exactly when one of the documented checks is violated. */
  lemma RejectsExactly(clip: VideoInfo, mask: VideoInfo, args: Arguments)
    requires mask.format.numPlanes <= 3
    ensures Normalize(clip, mask, args).Err? <==>
              !SupportedFormat(mask) || !SameFormat(mask.format, clip.format) ||
              !DimensionsMatch(mask, clip) || mask.numFrames != clip.numFrames ||
              |args.depthH| > mask.format.numPlanes || |args.depthV| > mask.format.numPlanes ||
              !DepthsInRange(args, mask.format) || !ValidSelection(args.planes, mask.format.numPlanes)
  {
    FirstDepthErrorMeaning(args, mask.format, 0);
    SelectPlanesMeaning(args.planes, mask.format.numPlanes);
  }

  /** What an accepted configuration guarantees: the supersampling factor agrees with
      both dimensions, one bounded fixed-point coefficient per plane, the selected planes,
      the output range, the kernel instantiation and the preprocessing decision. */
  lemma AcceptedConfig(clip: VideoInfo, mask: VideoInfo, args: Arguments)
    requires mask.format.numPlanes <= 3
    requires Normalize(clip, mask, args).Ok?
    ensures var c, f := Normalize(clip, mask, args).value, mask.format;
      && (c.smagl == 0 <==> clip.width == mask.width) && (c.smagl == 0 || c.smagl == 2) && c.smag == Pow2(c.smagl)
      && clip.width == mask.width * c.smag && clip.height == mask.height * c.smag
      && c.vi == mask
      && |c.depthH| == f.numPlanes && |c.depthV| == f.numPlanes && |c.process| == 3
      && (forall p :: 0 <= p < f.numPlanes ==>
            -128 * Pow2(DepthShift(f)) <= c.depthH[p] <= 127 * Pow2(DepthShift(f)) &&
            -128 * Pow2(DepthShift(f)) <= c.depthV[p] <= 127 * Pow2(DepthShift(f)))
      && (forall i :: 0 <= i < 3 ==> c.process[i] == (|args.planes| == 0 || i in args.planes))
      && (f.sampleType == Integer ==> c.peak == Pow2(f.bitsPerSample) - 1 && DepthShift(f) == 16 - f.bitsPerSample)
      && (f.sampleType == Integer && 8 <= f.bitsPerSample ==> c.kind == if f.bitsPerSample == 8 then Byte else Word)
      && (f.sampleType == Float ==> c.kind == Single && DepthShift(f) == 8)
      && (c.preprocessMask <==> MaskFirstPlane(args, f) && (c.process[1] || c.process[2]) &&
                                (f.subSamplingW > 0 || f.subSamplingH > 0))
  {
    var c := Normalize(clip, mask, args).value;
    AcceptedDepths(clip, mask, args);
    SelectPlanesMeaning(args.planes, mask.format.numPlanes);
    Pow2Values();
    if mask.width == clip.width {
      assert c.smag == 1;
    } else {
      assert c.smag == 4;
    }
  }

  /** The coefficients of an accepted configuration: one per plane, each the resolved
      depth in [-128, 127] scaled by 2^shift; for integer input the shift is 16 - bits and
      the peak 2^bits - 1. */
  lemma AcceptedDepths(clip: VideoInfo, mask: VideoInfo, args: Arguments)
    requires mask.format.numPlanes <= 3
    requires Normalize(clip, mask, args).Ok?
    ensures var c, f := Normalize(clip, mask, args).value, mask.format;
      && |c.depthH| == f.numPlanes && |c.depthV| == f.numPlanes
      && (forall p :: 0 <= p < f.numPlanes ==>
            InDepthRange(ResolvedH(args, f, p)) && InDepthRange(ResolvedV(args, f, p)) &&
            c.depthH[p] == Shl(ResolvedH(args, f, p), DepthShift(f)) &&
            c.depthV[p] == Shl(ResolvedV(args, f, p), DepthShift(f)))
      && (forall p :: 0 <= p < f.numPlanes ==>
            -128 * Pow2(DepthShift(f)) <= c.depthH[p] <= 127 * Pow2(DepthShift(f)) &&
            -128 * Pow2(DepthShift(f)) <= c.depthV[p] <= 127 * Pow2(DepthShift(f)))
      && (f.sampleType == Integer ==> c.peak == Pow2(f.bitsPerSample) - 1 && DepthShift(f) == 16 - f.bitsPerSample)
  {
    var c, f := Normalize(clip, mask, args).value, mask.format;
    var k := Pow2(DepthShift(f));
    FirstDepthErrorMeaning(args, f, 0);
    forall p | 0 <= p < f.numPlanes
      ensures -128 * k <= c.depthH[p] <= 127 * k && -128 * k <= c.depthV[p] <= 127 * k
    {
      var h, v := ResolvedH(args, f, p), ResolvedV(args, f, p);
      assert c.depthH[p] == k * h && c.depthV[p] == k * v;
      MulMonotone(k, -128, h);
      MulMonotone(k, h, 127);
      MulMonotone(k, -128, v);
      MulMonotone(k, v, 127);
    }
  }

  /** Explicit depth values of 3 for plane 0 and 3 shifted by the subsampling for the
      chroma planes */
  function ExplicitDefaults(ss: nat, numPlanes: nat): seq<int>
    requires numPlanes <= 3
  {
    [3, Asr(3, ss), Asr(3, ss)][..numPlanes]
  }

  /** Leaving depth_h and depth_v out is the same as giving the defaults explicitly. */
  lemma DefaultDepthsAgree(clip: VideoInfo, mask: VideoInfo, args: Arguments)
    requires mask.format.numPlanes <= 3
    requires args.depthH == [] && args.depthV == []
    ensures var f := mask.format;
            Normalize(clip, mask, args) ==
            Normalize(clip, mask, args.(depthH := ExplicitDefaults(f.subSamplingW, f.numPlanes),
                                        depthV := ExplicitDefaults(f.subSamplingH, f.numPlanes)))
  {
    var f := mask.format;
    var args' := args.(depthH := ExplicitDefaults(f.subSamplingW, f.numPlanes),
                       depthV := ExplicitDefaults(f.subSamplingH, f.numPlanes));
    forall p | 0 <= p < f.numPlanes
      ensures ResolvedH(args, f, p) == ResolvedH(args', f, p)
      ensures ResolvedV(args, f, p) == ResolvedV(args', f, p)
      ensures InDepthRange(ResolvedH(args, f, p)) && InDepthRange(ResolvedV(args, f, p))
    {
      var sw, sh := f.subSamplingW, f.subSamplingH;
      assert DepthH([], sw, 0) == 3 && DepthH([], sw, 1) == Asr(3, sw);
      assert DepthV([], [], sh, 0) == 3 && DepthV([], [], sh, 1) == Asr(3, sh);
      AsrMonotone(0, 3, sw);
      AsrMonotone(0, 3, sh);
    }
    FirstDepthErrorMeaning(args, f, 0);
    FirstDepthErrorMeaning(args', f, 0);
    if Normalize(clip, mask, args).Ok? {
      var shift := DepthShift(f);
      assert ScaledH(args, f, shift) == ScaledH(args', f, shift);
      assert ScaledV(args, f, shift) == ScaledV(args', f, shift);
    }
  }

  /** For integer input, the kernel's fixed-point product `((a - b) << 7) * depth` of two
      in-range pixel values and an accepted coefficient fits in a 32-bit int, so the
      unbounded arithmetic of the model is the arithmetic of the source. */
  lemma GradientFitsInt32(clip: VideoInfo, mask: VideoInfo, args: Arguments, p: nat, a: int, b: int)
    requires mask.format.numPlanes <= 3
    requires Normalize(clip, mask, args).Ok? && mask.format.sampleType == Integer
    requires p < mask.format.numPlanes
    requires 0 <= a <= Normalize(clip, mask, args).value.peak
    requires 0 <= b <= Normalize(clip, mask, args).value.peak
    ensures var c := Normalize(clip, mask, args).value;
            -0x8000_0000 <= Shl(a - b, 7) * c.depthH[p] < 0x8000_0000 &&
            -0x8000_0000 <= Shl(a - b, 7) * c.depthV[p] < 0x8000_0000
  {
    var c, f := Normalize(clip, mask, args).value, mask.format;
    AcceptedDepths(clip, mask, args);
    var bits := f.bitsPerSample;
    Pow2Add(bits, 16 - bits);
    Pow2Values();
    ProductFitsInt32(a - b, c.depthH[p], Pow2(bits), Pow2(16 - bits));
    ProductFitsInt32(a - b, c.depthV[p], Pow2(bits), Pow2(16 - bits));
  }

  /** A difference of two samples below P times a coefficient in [-128 K, 127 K], with
      P * K = 2^16, stays within 2^30 in magnitude after the shift by 7. */
  lemma ProductFitsInt32(diff: int, depth: int, P: int, K: int)
    requires 1 <= P && 1 <= K && P * K == 0x1_0000
    requires -P < diff < P && -128 * K <= depth <= 127 * K
    ensures -0x8000_0000 <= Shl(diff, 7) * depth < 0x8000_0000
  {
    Pow2Values();
    MulAbsBound(128 * diff, depth, 128 * P, 128 * K);
    assert (128 * P) * (128 * K) == 0x4000 * (P * K);
  }
}
