/** `BlurConfig` (config.c): the defaults `config_create` installs, the
    presets `apply_preset` writes over them, and `config_validate`. String
    fields hold the C string in the field's buffer; float fields are exact
    reals; `custom_weights` with its count is one sequence (empty for NULL). */
module Config {
  import opened Support

  /** The reasons `config_validate` rejects a configuration, one per check
      it makes (the message it prints is left out). */
  datatype ConfigError =
    | InputFileMissing
    | InputFileNotFound
    | OutputFileMissing
    | BlurAmountOutOfRange
    | QualityOutOfRange
    | BadBlockSize
    | MaskAreaOutOfRange
    | BrightnessOutOfRange
    | SaturationOutOfRange
    | ContrastOutOfRange
    | GammaOutOfRange
    | TimescaleOutOfRange
    | ThreadsOutOfRange
    | UnknownWeighting
    | NoCustomWeights
    | UnknownInterpolationMethod
    | UnknownContainer
    | UnknownCodec
    | UnknownGpuType

  /** The number of checks `config_validate` makes. */
  const CheckCount: nat := 19

  /** The r-th check `config_validate` makes. */
  function Check(r: nat): (e: ConfigError)
    requires r < CheckCount
  {
    if r == 0 then InputFileMissing
    else if r == 1 then InputFileNotFound
    else if r == 2 then OutputFileMissing
    else if r == 3 then BlurAmountOutOfRange
    else if r == 4 then QualityOutOfRange
    else if r == 5 then BadBlockSize
    else if r == 6 then MaskAreaOutOfRange
    else if r == 7 then BrightnessOutOfRange
    else if r == 8 then SaturationOutOfRange
    else if r == 9 then ContrastOutOfRange
    else if r == 10 then GammaOutOfRange
    else if r == 11 then TimescaleOutOfRange
    else if r == 12 then ThreadsOutOfRange
    else if r == 13 then UnknownWeighting
    else if r == 14 then NoCustomWeights
    else if r == 15 then UnknownInterpolationMethod
    else if r == 16 then UnknownContainer
    else if r == 17 then UnknownCodec
    else UnknownGpuType
  }

  /** `valid_weightings`. */
  const WeightingNames: seq<seq<char>> := [
    "equal", "gaussian_sym", "gaussian", "vegas", "pyramid",
    "ascending", "descending", "gaussian_reverse", "custom"]

  class BlurConfig {
    var blur: bool
    var blurAmount: real
    var blurOutputFps: seq<char>
    var blurWeighting: seq<char>
    var customWeights: seq<real>
    var interpolate: bool
    var interpolatedFps: seq<char>
    var interpolationMethod: seq<char>
    var interpolationBlockSize: int
    var interpolationMaskArea: real
    var preInterpolation: bool
    var preInterpolatedFps: seq<char>
    var quality: int
    var deduplicate: bool
    var deduplicateRange: int
    var deduplicateThreshold: real
    var gpuDecoding: bool
    var gpuInterpolation: bool
    var gpuEncoding: bool
    var gpuType: seq<char>
    var inputFile: seq<char>
    var outputFile: seq<char>
    var manualSvp: bool
    var svpSuperString: seq<char>
    var svpVectorsString: seq<char>
    var svpSmoothString: seq<char>
    var svpPreset: seq<char>
    var svpAlgorithm: int
    var brightness: real
    var saturation: real
    var contrast: real
    var gamma: real
    var container: seq<char>
    var codec: seq<char>
    var bitrate: int
    var pixelFormat: seq<char>
    var threads: int
    var verbose: bool
    var debug: bool
    var timescale: real
    var pitchCorrection: bool
    var ffmpegFilters: seq<char>

    /** Whether check e rejects this configuration; `inputExists` is what
        `access(input_file, 0)` reports. */
    predicate Fails(e: ConfigError, inputExists: bool)
      reads this
    {
      match e
      case InputFileMissing => |inputFile| == 0
      case InputFileNotFound => !inputExists
      case OutputFileMissing => |outputFile| == 0
      case BlurAmountOutOfRange => blurAmount < 0.0 || blurAmount > 10.0
      case QualityOutOfRange => quality < 0 || quality > 51
      case BadBlockSize =>
        interpolationBlockSize != 4 && interpolationBlockSize != 8 &&
        interpolationBlockSize != 16 && interpolationBlockSize != 32
      case MaskAreaOutOfRange => interpolationMaskArea < 0.0 || interpolationMaskArea > 1.0
      case BrightnessOutOfRange => brightness < -1.0 || brightness > 1.0
      case SaturationOutOfRange => saturation < -1.0 || saturation > 1.0
      case ContrastOutOfRange => contrast < -1.0 || contrast > 1.0
      case GammaOutOfRange => gamma < 0.1 || gamma > 10.0
      case TimescaleOutOfRange => timescale <= 0.0 || timescale > 100.0
      case ThreadsOutOfRange => threads < 0 || threads > 256
      case UnknownWeighting => blurWeighting !in WeightingNames
      case NoCustomWeights => blurWeighting == "custom" && |customWeights| == 0
      case UnknownInterpolationMethod => interpolationMethod != "rife" && interpolationMethod != "svp"
      case UnknownContainer => container != "mp4" && container != "mkv" && container != "avi" && container != "mov"
      case UnknownCodec =>
        codec != "h264" && codec != "h265" && codec != "hevc" && codec != "av1" && codec != "vp9"
      case UnknownGpuType => gpuType != "nvidia" && gpuType != "amd" && gpuType != "intel"
    }

    /** The field values `config_create` sets (the `calloc` leaves the file
        names empty). */
    ghost predicate HasDefaults()
      reads this
    {
      blur && blurAmount == 1.0 && blurOutputFps == "60" && blurWeighting == "gaussian_sym" &&
      customWeights == [] &&
      interpolate && interpolatedFps == "5x" && interpolationMethod == "rife" &&
      interpolationBlockSize == 16 && interpolationMaskArea == 0.0 &&
      !preInterpolation && preInterpolatedFps == "2x" &&
      quality == 20 && !deduplicate && deduplicateRange == 5 && deduplicateThreshold == 0.2 &&
      !gpuDecoding && !gpuInterpolation && !gpuEncoding && gpuType == "nvidia" &&
      inputFile == [] && outputFile == [] &&
      !manualSvp && svpSuperString == "{pel:2,gpu:1}" &&
      svpVectorsString == "{block:{w:32,h:32},main:{search:{coarse:{distance:-8}}}}" &&
      svpSmoothString == "{rate:{num:5,den:1},algo:13,mask:{area:100}}" &&
      svpPreset == "default" && svpAlgorithm == 13 &&
      brightness == 0.0 && saturation == 0.0 && contrast == 0.0 && gamma == 1.0 &&
      container == "mp4" && codec == "h264" && bitrate == 0 && pixelFormat == "yuv420p" &&
      threads == 0 && !verbose && !debug && timescale == 1.0 && pitchCorrection &&
      ffmpegFilters == []
    }

    /** `config_create`. */
    constructor ()
      ensures HasDefaults()
    {
      blur := true;
      blurAmount := 1.0;
      blurOutputFps := "60";
      blurWeighting := "gaussian_sym";
      customWeights := [];
      interpolate := true;
      interpolatedFps := "5x";
      interpolationMethod := "rife";
      interpolationBlockSize := 16;
      interpolationMaskArea := 0.0;
      preInterpolation := false;
      preInterpolatedFps := "2x";
      quality := 20;
      deduplicate := false;
      deduplicateRange := 5;
      deduplicateThreshold := 0.2;
      gpuDecoding := false;
      gpuInterpolation := false;
      gpuEncoding := false;
      gpuType := "nvidia";
      inputFile := [];
      outputFile := [];
      manualSvp := false;
      svpSuperString := "{pel:2,gpu:1}";
      svpVectorsString := "{block:{w:32,h:32},main:{search:{coarse:{distance:-8}}}}";
      svpSmoothString := "{rate:{num:5,den:1},algo:13,mask:{area:100}}";
      svpPreset := "default";
      svpAlgorithm := 13;
      brightness := 0.0;
      saturation := 0.0;
      contrast := 0.0;
      gamma := 1.0;
      container := "mp4";
      codec := "h264";
      bitrate := 0;
      pixelFormat := "yuv420p";
      threads := 0;
      verbose := false;
      debug := false;
      timescale := 1.0;
      pitchCorrection := true;
      ffmpegFilters := [];
    }

    /** `config_validate`: the first failing check in source order, or
        success when none fails. `fileExists` stands for `access`. */
    method Validate(fileExists: seq<char> -> bool) returns (ok: bool, err: Option<ConfigError>)
      ensures ok <==> err.None?
      ensures err == FirstFailure(0, fileExists(inputFile))
    {
      var inputExists := fileExists(inputFile);
      err := ValidateFiles(inputExists);
      if err.None? {
        err := ValidateRanges(inputExists);
        if err.None? {
          err := ValidateMethods(inputExists);
          if err.None? {
            err := ValidateOutput(inputExists);
          }
        }
      }
      ok := err.None?;
    }

    /** The checks of the input and output file names. */
    method ValidateFiles(inputExists: bool) returns (err: Option<ConfigError>)
      ensures err.Some? ==> err == FirstFailure(0, inputExists)
      ensures err.None? ==> FirstFailure(0, inputExists) == FirstFailure(3, inputExists)
    {
      if |inputFile| == 0 {
        return Some(InputFileMissing);
      }
      assert FirstFailure(0, inputExists) == FirstFailure(1, inputExists);
      if !inputExists {
        return Some(InputFileNotFound);
      }
      assert FirstFailure(1, inputExists) == FirstFailure(2, inputExists);
      if |outputFile| == 0 {
        return Some(OutputFileMissing);
      }
      assert FirstFailure(2, inputExists) == FirstFailure(3, inputExists);
      return None;
    }

    /** The numeric range checks. */
    method ValidateRanges(ghost inputExists: bool) returns (err: Option<ConfigError>)
      ensures err.Some? ==> err == FirstFailure(3, inputExists)
      ensures err.None? ==> FirstFailure(3, inputExists) == FirstFailure(13, inputExists)
    {
      if blurAmount < 0.0 || blurAmount > 10.0 {
        return Some(BlurAmountOutOfRange);
      }
      assert FirstFailure(3, inputExists) == FirstFailure(4, inputExists);
      if quality < 0 || quality > 51 {
        return Some(QualityOutOfRange);
      }
      assert FirstFailure(4, inputExists) == FirstFailure(5, inputExists);
      if interpolationBlockSize != 4 && interpolationBlockSize != 8 &&
         interpolationBlockSize != 16 && interpolationBlockSize != 32 {
        return Some(BadBlockSize);
      }
      assert FirstFailure(5, inputExists) == FirstFailure(6, inputExists);
      if interpolationMaskArea < 0.0 || interpolationMaskArea > 1.0 {
        return Some(MaskAreaOutOfRange);
      }
      assert FirstFailure(6, inputExists) == FirstFailure(7, inputExists);
      if brightness < -1.0 || brightness > 1.0 {
        return Some(BrightnessOutOfRange);
      }
      assert FirstFailure(7, inputExists) == FirstFailure(8, inputExists);
      if saturation < -1.0 || saturation > 1.0 {
        return Some(SaturationOutOfRange);
      }
      assert FirstFailure(8, inputExists) == FirstFailure(9, inputExists);
      if contrast < -1.0 || contrast > 1.0 {
        return Some(ContrastOutOfRange);
      }
      assert FirstFailure(9, inputExists) == FirstFailure(10, inputExists);
      if gamma < 0.1 || gamma > 10.0 {
        return Some(GammaOutOfRange);
      }
      assert FirstFailure(10, inputExists) == FirstFailure(11, inputExists);
      if timescale <= 0.0 || timescale > 100.0 {
        return Some(TimescaleOutOfRange);
      }
      assert FirstFailure(11, inputExists) == FirstFailure(12, inputExists);
      if threads < 0 || threads > 256 {
        return Some(ThreadsOutOfRange);
      }
      assert FirstFailure(12, inputExists) == FirstFailure(13, inputExists);
      return None;
    }

    /** The checks of the blur weighting and the interpolation method. */
    method ValidateMethods(ghost inputExists: bool) returns (err: Option<ConfigError>)
      ensures err.Some? ==> err == FirstFailure(13, inputExists)
      ensures err.None? ==> FirstFailure(13, inputExists) == FirstFailure(16, inputExists)
    {
      var validWeighting := KnownWeighting(blurWeighting);
      if !validWeighting {
        return Some(UnknownWeighting);
      }
      assert FirstFailure(13, inputExists) == FirstFailure(14, inputExists);
      if blurWeighting == "custom" && |customWeights| == 0 {
        return Some(NoCustomWeights);
      }
      assert FirstFailure(14, inputExists) == FirstFailure(15, inputExists);
      if interpolationMethod != "rife" && interpolationMethod != "svp" {
        return Some(UnknownInterpolationMethod);
      }
      assert FirstFailure(15, inputExists) == FirstFailure(16, inputExists);
      return None;
    }

    /** The checks of the output container, codec and GPU vendor names. */
    method ValidateOutput(ghost inputExists: bool) returns (err: Option<ConfigError>)
      ensures err.Some? ==> err == FirstFailure(16, inputExists)
      ensures err.None? ==> FirstFailure(16, inputExists) == FirstFailure(19, inputExists)
    {
      if container != "mp4" && container != "mkv" && container != "avi" && container != "mov" {
        return Some(UnknownContainer);
      }
      assert FirstFailure(16, inputExists) == FirstFailure(17, inputExists);
      if codec != "h264" && codec != "h265" && codec != "hevc" && codec != "av1" && codec != "vp9" {
        return Some(UnknownCodec);
      }
      assert FirstFailure(17, inputExists) == FirstFailure(18, inputExists);
      if gpuType != "nvidia" && gpuType != "amd" && gpuType != "intel" {
        return Some(UnknownGpuType);
      }
      assert FirstFailure(18, inputExists) == FirstFailure(19, inputExists);
      return None;
    }

    /** The search of `valid_weightings` in `config_validate`. */
    static method KnownWeighting(name: seq<char>) returns (valid: bool)
      ensures valid <==> name in WeightingNames
    {
      valid := false;
      var i := 0;
      while i < |WeightingNames|
        invariant 0 <= i <= |WeightingNames|
        invariant !valid
        invariant forall j | 0 <= j < i :: name != WeightingNames[j]
      {
        if name == WeightingNames[i] {
          valid := true;
          break;
        }
        i := i + 1;
      }
    }

    /** The first check from the r-th on that rejects this configuration. */
    ghost function FirstFailure(r: nat, inputExists: bool): Option<ConfigError>
      reads this
      decreases CheckCount - r
    {
      if r >= CheckCount then None
      else if Fails(Check(r), inputExists) then Some(Check(r))
      else FirstFailure(r + 1, inputExists)
    }

    /** The reference verdict is the first failing check, and success
        exactly when no check fails. */
    lemma {:induction false} FirstFailureIsFirst(r: nat, inputExists: bool)
      ensures FirstFailure(r, inputExists).None? <==>
        forall q | r <= q < CheckCount :: !Fails(Check(q), inputExists)
      ensures FirstFailure(r, inputExists).Some? ==> exists q | r <= q < CheckCount ::
        FirstFailure(r, inputExists) == Some(Check(q)) && Fails(Check(q), inputExists) &&
        forall p | r <= p < q :: !Fails(Check(p), inputExists)
      decreases CheckCount - r
    {
      if r < CheckCount && !Fails(Check(r), inputExists) {
        FirstFailureIsFirst(r + 1, inputExists);
      }
    }

    /** `apply_preset`: each known preset overwrites its own handful of
        fields and leaves the others alone; an unknown name changes
        nothing. */
    method ApplyPreset(preset: seq<char>)
      modifies this`blurAmount, this`blurWeighting, this`interpolate, this`interpolatedFps,
               this`interpolationBlockSize, this`deduplicate, this`deduplicateThreshold,
               this`threads, this`preInterpolation, this`quality
      ensures preset == "gaming" ==>
        blurAmount == 0.3 && blurWeighting == "gaussian_sym" && interpolate && interpolatedFps == "5x" &&
        interpolationBlockSize == 16 && deduplicate && deduplicateThreshold == 0.1 &&
        threads == old(threads) && preInterpolation == old(preInterpolation) && quality == old(quality)
      ensures preset == "cinematic" ==>
        blurAmount == 1.0 && blurWeighting == "gaussian" && interpolate && interpolatedFps == "3x" &&
        interpolationBlockSize == 32 && !deduplicate && deduplicateThreshold == old(deduplicateThreshold) &&
        threads == old(threads) && preInterpolation == old(preInterpolation) && quality == old(quality)
      ensures preset == "smooth" ==>
        blurAmount == 1.5 && blurWeighting == "gaussian_sym" && interpolate && interpolatedFps == "10x" &&
        interpolationBlockSize == 8 && deduplicate && deduplicateThreshold == 0.05 &&
        threads == old(threads) && preInterpolation == old(preInterpolation) && quality == old(quality)
      ensures preset == "fast" ==>
        blurAmount == 0.5 && blurWeighting == "equal" && !interpolate && interpolatedFps == old(interpolatedFps) &&
        interpolationBlockSize == old(interpolationBlockSize) && deduplicate &&
        deduplicateThreshold == old(deduplicateThreshold) &&
        threads == 0 && preInterpolation == old(preInterpolation) && quality == old(quality)
      ensures preset == "quality" ==>
        blurAmount == 1.2 && blurWeighting == "gaussian_sym" && interpolate && interpolatedFps == "8x" &&
        interpolationBlockSize == old(interpolationBlockSize) && deduplicate == old(deduplicate) &&
        deduplicateThreshold == old(deduplicateThreshold) &&
        threads == old(threads) && preInterpolation && quality == 18
      ensures preset !in {"gaming", "cinematic", "smooth", "fast", "quality"} ==>
        blurAmount == old(blurAmount) && blurWeighting == old(blurWeighting) && interpolate == old(interpolate) &&
        interpolatedFps == old(interpolatedFps) && interpolationBlockSize == old(interpolationBlockSize) &&
        deduplicate == old(deduplicate) && deduplicateThreshold == old(deduplicateThreshold) &&
        threads == old(threads) && preInterpolation == old(preInterpolation) && quality == old(quality)
      ensures preset in {"gaming", "cinematic", "smooth", "fast", "quality"} ==>
        0.0 <= blurAmount <= 10.0 && blurWeighting in WeightingNames && blurWeighting != "custom"
    {
      if preset == "gaming" {
        blurAmount := 0.3;
        blurWeighting := "gaussian_sym";
        interpolate := true;
        interpolatedFps := "5x";
        interpolationBlockSize := 16;
        deduplicate := true;
        deduplicateThreshold := 0.1;
      } else if preset == "cinematic" {
        blurAmount := 1.0;
        blurWeighting := "gaussian";
        interpolate := true;
        interpolatedFps := "3x";
        interpolationBlockSize := 32;
        deduplicate := false;
      } else if preset == "smooth" {
        blurAmount := 1.5;
        blurWeighting := "gaussian_sym";
        interpolate := true;
        interpolatedFps := "10x";
        interpolationBlockSize := 8;
        deduplicate := true;
        deduplicateThreshold := 0.05;
      } else if preset == "fast" {
        blurAmount := 0.5;
        blurWeighting := "equal";
        interpolate := false;
        deduplicate := true;
        threads := 0;
      } else if preset == "quality" {
        blurAmount := 1.2;
        blurWeighting := "gaussian_sym";
        interpolate := true;
        interpolatedFps := "8x";
        preInterpolation := true;
        quality := 18;
      }
    }
  }

  /** The defaults satisfy every range and name check: a fresh
      configuration is rejected only for its missing file names. */
  lemma DefaultsFailOnlyOnFiles(c: BlurConfig, inputExists: bool)
    requires c.HasDefaults()
    ensures forall e :: c.Fails(e, inputExists) ==> e in {InputFileMissing, InputFileNotFound, OutputFileMissing}
    ensures c.Fails(InputFileMissing, inputExists)
    ensures c.FirstFailure(3, inputExists).None?
  {
    assert "gaussian_sym" == WeightingNames[1];
    c.FirstFailureIsFirst(3, inputExists);
  }
}
