/** The lookup tables of video.c that pick hardware codecs, the hardware
    device type and the output pixel format from configuration strings. */
module Codecs {
  /** The codec names that have hardware variants, and the GPU vendors. */
  const HwCodecs: set<seq<char>> := {"h264", "h265", "hevc", "av1"}
  const GpuVendors: set<seq<char>> := {"nvidia", "amd", "intel"}

  /** The FFmpeg family prefix of a codec name: h265 and hevc share one. */
  function Family(codec: seq<char>): seq<char>
  {
    if codec == "h265" then "hevc" else codec
  }

  /** `get_hw_codec_name`: the vendor's encoder (or decoder) for a known
      codec and GPU vendor, and the codec name itself otherwise. */
  function HwCodecName(codec: seq<char>, gpuType: seq<char>, encoding: bool): (name: seq<char>)
    ensures !(codec in HwCodecs && gpuType in GpuVendors) ==> name == codec
    ensures codec in HwCodecs && gpuType in GpuVendors && encoding ==>
      name == Family(codec) + "_" + (if gpuType == "nvidia" then "nvenc" else if gpuType == "amd" then "amf" else "qsv")
    ensures codec in HwCodecs && gpuType in GpuVendors && !encoding ==>
      name == if codec == "av1" || gpuType == "amd" then Family(codec)
              else Family(codec) + (if gpuType == "nvidia" then "_cuvid" else "_qsv")
  {
    if codec == "h264" then
      if gpuType == "nvidia" then (if encoding then "h264_nvenc" else "h264_cuvid")
      else if gpuType == "amd" then (if encoding then "h264_amf" else "h264")
      else if gpuType == "intel" then (if encoding then "h264_qsv" else "h264_qsv")
      else codec
    else if codec == "h265" || codec == "hevc" then
      if gpuType == "nvidia" then (if encoding then "hevc_nvenc" else "hevc_cuvid")
      else if gpuType == "amd" then (if encoding then "hevc_amf" else "hevc")
      else if gpuType == "intel" then (if encoding then "hevc_qsv" else "hevc_qsv")
      else codec
    else if codec == "av1" then
      if gpuType == "nvidia" then (if encoding then "av1_nvenc" else "av1")
      else if gpuType == "amd" then (if encoding then "av1_amf" else "av1")
      else if gpuType == "intel" then (if encoding then "av1_qsv" else "av1")
      else codec
    else codec
  }

  /** The hardware device types `get_hw_device_type` chooses among. */
  datatype HwDevice = Cuda | D3d11va | Vaapi | Qsv | NoDevice

  /** `get_hw_device_type`; AMD uses D3D11VA on Windows builds and VA-API
      elsewhere. */
  function HwDeviceType(gpuType: seq<char>, windows: bool): (d: HwDevice)
    ensures d == NoDevice <==> gpuType !in GpuVendors
    ensures d == Cuda <==> gpuType == "nvidia"
    ensures d == Qsv <==> gpuType == "intel"
    ensures gpuType == "amd" ==> d == (if windows then D3d11va else Vaapi)
  {
    if gpuType == "nvidia" then Cuda
    else if gpuType == "amd" then (if windows then D3d11va else Vaapi)
    else if gpuType == "intel" then Qsv
    else NoDevice
  }

  /** A codec name is only ever replaced when there is a hardware device to
      run the replacement on. */
  lemma RenamedOnlyWithDevice(codec: seq<char>, gpuType: seq<char>, encoding: bool, windows: bool)
    requires HwCodecName(codec, gpuType, encoding) != codec
    ensures HwDeviceType(gpuType, windows) != NoDevice
    ensures codec in HwCodecs
  {
  }

  /** The pixel formats `get_pixel_format` returns. */
  datatype PixelFormat = Yuv420p | Yuv422p | Yuv444p | Yuv420p10le | Yuv422p10le | Yuv444p10le

  const PixelFormatNames: set<seq<char>> :=
    {"yuv420p", "yuv422p", "yuv444p", "yuv420p10le", "yuv422p10le", "yuv444p10le"}

  /** `get_pixel_format`: an unknown name falls back to yuv420p. */
  function PixelFormatFor(name: seq<char>): (p: PixelFormat)
    ensures name !in PixelFormatNames ==> p == Yuv420p
  {
    if name == "yuv420p" then Yuv420p
    else if name == "yuv422p" then Yuv422p
    else if name == "yuv444p" then Yuv444p
    else if name == "yuv420p10le" then Yuv420p10le
    else if name == "yuv422p10le" then Yuv422p10le
    else if name == "yuv444p10le" then Yuv444p10le
    else Yuv420p
  }

  /** The configuration name of each format; looking it up gives the
      format back, so every format is reachable and no two names clash. */
  function FormatName(p: PixelFormat): (name: seq<char>)
    ensures name in PixelFormatNames && PixelFormatFor(name) == p
  {
    match p
    case Yuv420p => "yuv420p"
    case Yuv422p => "yuv422p"
    case Yuv444p => "yuv444p"
    case Yuv420p10le => "yuv420p10le"
    case Yuv422p10le => "yuv422p10le"
    case Yuv444p10le => "yuv444p10le"
  }
}
