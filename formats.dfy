/** The values exchanged between the host, the parameter normalizer and the warp kernel:
    the host's description of a clip, the user's arguments, the filter instance's
    derived configuration (the fields of `AWarpData`), and the configuration errors. */
module Formats {

  datatype SampleType = Integer | Float

  datatype ColorFamily = Undefined | Gray | RGB | YUV

  /** The host's pixel format of a clip. `subSamplingW`/`subSamplingH` are the log2 of the
      chroma subsampling factors; `numPlanes` is 1 for gray and 3 otherwise. */
  datatype VideoFormat = VideoFormat(
    colorFamily: ColorFamily,
    sampleType: SampleType,
    bitsPerSample: nat,
    subSamplingW: nat,
    subSamplingH: nat,
    numPlanes: nat)
  {
    /** The host's storage size of one sample, in bytes. */
    function BytesPerSample(): nat
    {
      (bitsPerSample + 7) / 8
    }
  }

  /** The host's description of a clip; a width or height of 0 marks a variable size. */
  datatype VideoInfo = VideoInfo(format: VideoFormat, width: int, height: int, numFrames: int)

  /** The filter's optional arguments. An absent array argument is the empty sequence;
      an absent `mask_first_plane` is None. */
  datatype Arguments = Arguments(
    depthH: seq<int>,
    depthV: seq<int>,
    maskFirstPlane: Option<int>,
    planes: seq<int>)

  datatype Option<+T> = None | Some(value: T)

  datatype Result<+T, +E> = Ok(value: T) | Err(error: E)

  /** One error per `throw` of the filter's constructor. */
  datatype ConfigError =
    | UnsupportedFormat      // only constant format 8-16 bit integer and 32 bit float input
    | FormatMismatch         // both clips must have the same format
    | DimensionMismatch      // clip must have the mask's dimensions or four times them
    | FrameCountMismatch     // both clips must have the same number of frames
    | TooManyDepthH          // depth_h has more values than there are planes
    | TooManyDepthV          // depth_v has more values than there are planes
    | DepthHOutOfRange       // depth_h must be between -128 and 127
    | DepthVOutOfRange       // depth_v must be between -128 and 127
    | PlaneOutOfRange        // plane index out of range
    | PlaneSpecifiedTwice    // plane specified twice

  /** The pixel type the kernel is instantiated for. */
  datatype KernelKind = Byte | Word | Single

  /** The derived state of one filter instance. `vi` is the mask's (and the output's)
      video info; `depthH`/`depthV` hold one fixed-point coefficient per plane; `process`
      has one flag for each of the three plane slots; `peak` is 0 for float input,
      where it is never set. */
  datatype Config = Config(
    vi: VideoInfo,
    depthH: seq<int>,
    depthV: seq<int>,
    process: seq<bool>,
    kind: KernelKind,
    smagl: nat,
    smag: nat,
    peak: int,
    preprocessMask: bool)
}
