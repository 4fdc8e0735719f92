# SwuabBlur core, modelled in Dafny

SwuabBlur renders motion blur. Decoded frames go through a bounded queue to
a processing thread. That thread drops duplicate frames, keeps the last K
frames in a ring and blends them with K weights into one output frame per
input frame. The blur settings come from a JSON config file, command-line
options and presets, and are validated before use.

This project models that core in two parts:

- **The frame pipeline of `video.c`:**
  - the frame queue (`FrameQueue.Queue`, a class over an array of slots);
  - the blur window ring (`BlendWindow.Window`);
  - the 4:2:0 weighted blend (`MotionBlur`, specified by `Frames.Blend`);
  - the duplicate detector and the deduplication gate (`Dedup`);
  - the loop of `processing_thread` (`Processing`), which emits exactly one
    blend of the K most recent kept frames per kept frame from the K-th on,
    and reports progress at every 30th frame;
  - the codec and pixel-format lookup tables (`Codecs`).
- **The configuration logic of `config.c`:**
  - the small JSON parser, as a specification over the text (`Json`), with
    imperative loops proved equal to it (`JsonParser`) and laws about it
    (`JsonLaws`);
  - UTF-8 encoding of `\u` escapes and surrogate pairs (`Utf8`);
  - the tree lookups and typed loaders (`JsonLookup`);
  - the Windows `getopt_long` (`Getopt`);
  - `config_create`, `apply_preset` and `config_validate` (`Config.BlurConfig`);
  - the weight generators and `config_get_weights` (`Weights`).

`Support` holds C-string helpers: a read at the terminator gives NUL,
`strncpy` and truncation toward zero.

Modelling choices:

- Pixels are bytes 0..255, held as planes of rows. Weights and sums are
  exact reals.
- `CLAMP` followed by the cast to `uint8_t` is `Frames.ClampByte`.
- `is_interrupted()` is an argument of the queue operations. In
  `Processing.ProcessingThread` it is `interruptAt`, the number of loop
  iterations whose `is_interrupted()` checks all answer false. Each
  iteration asks twice, in the loop condition (video.c:970) and in
  `frame_queue_pop` (video.c:362).
- The blocking waits of push and pop become preconditions: push needs room
  or an interruption; pop needs a frame, the finished flag or an
  interruption.
- The deduplication gate is modelled as written. Its history is consulted
  and extended only when it is already non-empty (video.c:977), and it
  starts empty (video.c:960). So `Dedup.GateNeverFires` proves that no frame
  is ever dropped and the history stays empty. Inside the gate, comparisons
  start at the oldest entry and nothing is evicted at 16.
- `processing_thread` keeps the previous output buffer when a blend is not
  produced. The model passes it along as `previous`.
- The JSON parser is specified by total functions on the text, with `At`
  returning NUL past the end. The C routines build linked `cJSON` nodes; here
  those become `Json.Value`, whose `child`/`next` lists are sequences in input
  order.
- The string decoder takes a flag `strict`. `strict` false is the second
  loop of `parse_string` as written, except for the whitespace, sign and
  `0x` forms `%4x` also accepts after `\u` (see `Json.ScanHex4` under
  "Left out"); `strict` true is the corrected decoder
  of the Findings table. Every parsing function from `Json.PValue` up passes
  the flag on, so `Json.Parse(t, false)` is `cJSON_Parse` as written except
  for those forms, and
  the shape laws in `JsonLaws` hold for both. The loops in `JsonParser`
  compute the corrected one. `JsonLaws.ParseDecodersAgree` proves the two
  give the same value on every text whose escapes are complete: each `\u` has
  four hex digits and no backslash stands before the terminator.
- `config_validate` reports which check failed first, as a `ConfigError`.
  The `access()` test is a function parameter `fileExists`.

## Model

| member | source | states |
|---|---|---|
| FrameQueue.Queue.constructor | SwuabBlur/video.c:206-216 | a fresh queue of the given capacity: count, read and write positions 0, not finished, no contents, every slot unallocated |
| FrameQueue.Queue.SignalFinished | SwuabBlur/video.c:239-244 | sets `finished` and changes nothing else: counters, positions and contents are kept, so a second call changes nothing |
| FrameQueue.Queue.Push | SwuabBlur/video.c:291-336 | an interrupted push fails and changes nothing. A successful push writes only the slot at the old write position, advances it modulo the capacity, increments count and appends the frame; 0 <= count <= capacity is kept |
| FrameQueue.Queue.Pop | SwuabBlur/video.c:338-383 | fails with no change exactly when the queue is empty and finished, or interrupted. Otherwise returns the slot at the read position, which is the oldest frame, advances the read position modulo the capacity and decrements count |
| FrameQueue.NextIsModulo | SwuabBlur/video.c:324 | advancing a position with `% capacity` is one step around the ring |
| FrameQueue.PushAllThenPopAll | SwuabBlur/video.c:291-383 | with a queue of capacity 200, pushing up to 200 frames, signalling the end and popping until the queue is empty returns the frames in the order they were pushed |
| BlendWindow.WindowSize | SwuabBlur/video.c:926-928 | K is the scaled value rounded half up and clamped to [1, 64] |
| BlendWindow.OrderedIndex | SwuabBlur/video.c:1019-1022 | the index `(current_pos - K + i + K) % K` is the slot written K - i accepts ago, so i = 0..K-1 goes from oldest to newest |
| BlendWindow.Window.constructor | SwuabBlur/video.c:940-943 | an empty window of K slots: count 0, position 0, nothing accepted |
| BlendWindow.Window.Accept | SwuabBlur/video.c:1008-1014 | copies the frame into the slot at the current position only, advances it modulo K, increments count up to K and no further, and appends the frame to the accepted history |
| BlendWindow.Window.Ordered | SwuabBlur/video.c:1016-1022 | once count reaches K, the reordered slots are exactly the last K accepted frames, oldest first |
| Frames.ClampByte | SwuabBlur/video.c:873-877 | a value at or below 0 gives 0, at or above 255 gives 255, and in between is truncated |
| Frames.BlendSample | SwuabBlur/video.c:855-880 | each blended Y, U or V sample is the clamped weighted sum of that sample over the frames, so it lies in [0, 255] |
| Frames.WSumOfIdentical | SwuabBlur/video.c:859-871 | over n copies of one frame, the weighted sum is the sample times the sum of the first n weights |
| Frames.BlendOfIdenticalFrames | SwuabBlur/video.c:855-880 | blending copies of one frame with weights that sum to 1 gives that frame's samples back |
| Frames.MissingLumaContributesNothing | SwuabBlur/video.c:860 | a frame without a luma plane is skipped: its weight does not affect any sum |
| MotionBlur.AccumulatePixel | SwuabBlur/video.c:857-871 | the inner loop's Y accumulator is the weighted luma sum; at even x and y the U and V accumulators are the weighted chroma sums at (x/2, y/2) |
| MotionBlur.BlendRowAt | SwuabBlur/video.c:855-880 | one row of the x loop writes the blended luma row, and on even rows the blended chroma rows at y/2 |
| MotionBlur.ApplyMotionBlur | SwuabBlur/video.c:839-884 | fails and leaves the output alone exactly when there are no frames. Otherwise the output is the blend, with the size of the first frame and the pts of the middle frame `frames[count/2]` |
| Dedup.DetectDuplicateFrames | SwuabBlur/video.c:886-907 | false when a luma plane is missing, the sizes differ or the area is 0. Otherwise true iff the sum of absolute luma differences, divided by w*h, is below threshold*255 |
| Dedup.RowDiffSymmetric | SwuabBlur/video.c:897-903 | the absolute difference of one row does not depend on the order of the frames |
| Dedup.FrameDiffSymmetric | SwuabBlur/video.c:894-903 | the frame difference sum is symmetric |
| Dedup.DuplicateIsSymmetric | SwuabBlur/video.c:886-907 | the duplicate test is symmetric in its two frames |
| Dedup.FrameDiffOfSelf | SwuabBlur/video.c:894-903 | a frame differs from itself by 0 |
| Dedup.IdenticalFramesAreDuplicatesIffPositiveThreshold | SwuabBlur/video.c:905-906 | a non-empty frame is a duplicate of itself exactly when the threshold is positive |
| Dedup.FindDuplicate | SwuabBlur/video.c:981-986 | true iff some history entry with index below both the history size and the range is a duplicate; the scan starts at index 0, the oldest entry |
| Dedup.DedupGate | SwuabBlur/video.c:975-1006 | drops nothing and keeps the history unless deduplication is on and the history is non-empty. In that case it drops exactly the duplicates and appends a non-duplicate only while fewer than 16 entries are held; the history never exceeds 16; one call is one step of `Dedup.GateRun`, the sequence form that `Dedup.GateNeverFires` is about |
| Dedup.GateNeverFires | SwuabBlur/video.c:959-1006 | from the empty history the thread starts with, the gate drops no frame of any sequence and the history stays empty |
| Processing.Blends | SwuabBlur/video.c:1016-1024 | N frames through a window of K slots give max(0, N - K + 1) blends |
| Processing.BlendsGrow | SwuabBlur/video.c:1016-1024 | one more kept frame leaves the earlier blends as they were and adds one blend of the K frames ending with it, exactly once K frames have been kept |
| Processing.ProgressEveryThirtyFrames | SwuabBlur/video.c:1065-1068 | after n processed frames progress has been reported n / 30 times, the j-th time with 30 * (j + 1) |
| Processing.BlurStep | SwuabBlur/video.c:1008-1024 | accepting frame n blends exactly when n + 1 >= K, and then blends frames n + 1 - K to n; otherwise the previous output is kept |
| Processing.Advance | SwuabBlur/video.c:1008-1068 | a kept frame advances the processed count by one, extends the emitted blends as the sliding-window specification says and reports progress at multiples of 30 |
| Processing.ConsumeFrames | SwuabBlur/video.c:970-1071 | the loop processes min(polls allowed, frames queued) frames, leaves the rest queued, emits the sliding-window blends of the processed frames and reports progress every 30 frames |
| Processing.ProcessingThread | SwuabBlur/video.c:917-1071 | with K from the fps ratio and blur amount and the weights of `config_get_weights` for K, the thread emits the sliding-window blends of the processed frames and reports progress every 30 frames |
| Codecs.HwCodecName | SwuabBlur/video.c:385-420 | for h264/h265/hevc/av1 on nvidia/amd/intel, the vendor's encoder (`nvenc`, `amf`, `qsv`) or decoder name. AMD and av1 decoding keep the family name. Anything else returns the codec unchanged |
| Codecs.HwDeviceType | SwuabBlur/video.c:422-437 | there is no device exactly when the GPU is not one of the three vendors; CUDA for nvidia, QSV for intel, and D3D11VA on Windows or VAAPI elsewhere for amd |
| Codecs.RenamedOnlyWithDevice | SwuabBlur/video.c:385-437 | a codec name is replaced only for a known codec on a GPU that has a device type |
| Codecs.PixelFormatFor | SwuabBlur/video.c:439-447 | an unknown pixel format name falls back to yuv420p |
| Codecs.FormatName | SwuabBlur/video.c:439-447 | every format's name is accepted and looks up to that format, so the six names are distinct |
| Weights.NormalizedSumsToOne | SwuabBlur/config.c:1241-1245 | with a positive raw sum, the normalised weights sum to 1 and each is its raw weight divided by the sum |
| Weights.NormalizeInPlace | SwuabBlur/config.c:1241-1245 | the normalising loop divides every weight by the sum when the sum is positive and leaves them alone otherwise |
| Weights.EqualWeights | SwuabBlur/config.c:1214-1224 | equal weights come in the requested number |
| Weights.EqualWeightsSumToOne | SwuabBlur/config.c:1214-1224 | equal weights are 1/count each, which is the normalisation of all-ones, and sum to 1 |
| Weights.GenerateEqualWeights | SwuabBlur/config.c:1214-1224 | the loop produces the equal weights |
| Weights.LinearRawSum | SwuabBlur/config.c:1296-1313 | the ascending raw weights 1..count sum to count(count+1)/2 |
| Weights.LinearDescendingIsReversed | SwuabBlur/config.c:1296-1313 | descending raw weights count - i are the ascending ones reversed |
| Weights.LinearWeightsSumToOne | SwuabBlur/config.c:1296-1313 | linear weights normalise to a sum of 1 |
| Weights.LinearIsMonotone | SwuabBlur/config.c:1296-1313 | normalised ascending weights strictly increase and descending ones strictly decrease |
| Weights.GenerateLinearWeights | SwuabBlur/config.c:1296-1313 | the loop produces the normalised linear weights |
| Weights.PyramidWeightsSumToOne | SwuabBlur/config.c:1270-1294 | pyramid weights normalise to a sum of 1 |
| Weights.PyramidOddIsSymmetric | SwuabBlur/config.c:1270-1294 | for an odd count the pyramid (i + 1 up to count/2, count - i after) is a mirror image |
| Weights.PyramidEvenLeansRight | SwuabBlur/config.c:1270-1294 | for an even count the peak is at count/2 and the pyramid is not symmetric; for 4 frames it is 1, 2, 3, 1 |
| Weights.GeneratePyramidWeights | SwuabBlur/config.c:1270-1294 | the loop produces the normalised pyramid weights |
| Weights.VegasShape | SwuabBlur/config.c:1250-1268 | vegas raw weights lie in [0, 1] and are a mirror image |
| Weights.VegasWeightsSumToOne | SwuabBlur/config.c:1250-1268 | from 3 frames on, vegas weights normalise to a sum of 1 |
| Weights.VegasTwoFramesAreAllZero | SwuabBlur/config.c:1250-1268 | for 2 frames every vegas weight is 0, so the sum is not positive and normalisation leaves them 0 |
| Weights.GenerateVegasWeights | SwuabBlur/config.c:1250-1268 | the loop produces the normalised vegas weights |
| Weights.BellIsEven | SwuabBlur/config.c:1226-1248 | the Gaussian bell has the same value at x and -x |
| Weights.GaussianSymmetric | SwuabBlur/config.c:1226-1248 | centred Gaussian weights, plain or reversed, are mirror images before and after normalising |
| Weights.GaussianWeightsSumToOne | SwuabBlur/config.c:1226-1248 | with a positive exp, plain and centred Gaussian weights normalise to a sum of 1 |
| Weights.GaussianReverseDropsCentre | SwuabBlur/config.c:1226-1248 | with exp(0) = 1 the reversed Gaussian gives the middle frame of an odd window weight 0 |
| Weights.GenerateGaussianWeights | SwuabBlur/config.c:1226-1248 | the loop produces the normalised Gaussian weights for the centre, sigma and reversal it is given |
| Weights.WeightsFor | SwuabBlur/config.c:1315-1366 | `*weight_count` is the frame count: the weights come in that number |
| Weights.WeightsSumToOne | SwuabBlur/config.c:1315-1366 | every named weighting that always normalises, vegas from 3 frames on, and the plain Gaussians with positive exp sum to 1; an unknown name gives equal weights |
| Weights.CustomWeightsUsedOnlyOnExactLength | SwuabBlur/config.c:1322-1339 | custom weights are used, normalised, only when there are exactly frame_count of them; otherwise the named weighting decides |
| Weights.GetWeights | SwuabBlur/config.c:1315-1366 | nothing for a frame count <= 0; otherwise the weights selected by the custom list and the weighting name |
| Config.BlurConfig.constructor | SwuabBlur/config.c:396-450 | every field gets the default of `config_create` |
| Config.DefaultsFailOnlyOnFiles | SwuabBlur/config.c:396-450 | a default configuration fails validation only on the input and output file checks, and first on the missing input file |
| Config.BlurConfig.Validate | SwuabBlur/config.c:1090-1212 | succeeds iff no check fails; otherwise reports the first failing check in the source's order |
| Config.BlurConfig.ValidateFiles | SwuabBlur/config.c:1091-1104 | the input-name, input-exists and output-name checks, in order |
| Config.BlurConfig.ValidateRanges | SwuabBlur/config.c:1106-1155 | the blur amount, quality, block size {4, 8, 16, 32}, mask area, brightness, saturation, contrast, gamma, timescale and thread range checks, in order |
| Config.BlurConfig.ValidateMethods | SwuabBlur/config.c:1157-1184 | the weighting must be one of the nine names, "custom" needs a non-empty weight list, and the interpolation method must be rife or svp |
| Config.BlurConfig.ValidateOutput | SwuabBlur/config.c:1186-1209 | the container, codec and GPU type must be in their fixed sets |
| Config.BlurConfig.KnownWeighting | SwuabBlur/config.c:1157-1167 | the scan over the nine weighting names finds the name iff it is one of them |
| Config.BlurConfig.FirstFailureIsFirst | SwuabBlur/config.c:1090-1212 | validation passes from a check on iff no later check fails; a reported failure is a failing check with no failing check before it |
| Config.BlurConfig.ApplyPreset | SwuabBlur/config.c:655-697 | each of the five presets sets exactly its listed fields and keeps the others; an unknown preset changes nothing; every preset leaves a valid blur amount and a named, non-custom weighting |
| Utf8.Encode | SwuabBlur/config.c:174-189 | a code point becomes 1, 2, 3 or 4 bytes by the thresholds 0x80, 0x800 and 0x10000, each below 256 |
| Utf8.DecodeEncode | SwuabBlur/config.c:174-189 | the bytes written decode back to the code point (RFC 3629, section 3) |
| Utf8.LeadByteGivesLength | SwuabBlur/config.c:174-189 | the lead byte 0xxxxxxx, 110xxxxx, 1110xxxx or 11110xxx tells the sequence length |
| Utf8.CombineSurrogates | SwuabBlur/config.c:171 | a combined surrogate pair is a supplementary code point, in [0x10000, 0x110000) |
| Utf8.CombineInvertsPair | SwuabBlur/config.c:168-172 | every supplementary code point splits into a high and a low surrogate that combine back to it (RFC 2781, section 2.2) |
| Utf8.CombineDecodesPair | SwuabBlur/config.c:171 | a high and a low surrogate combine to 0x10000 + (hi - 0xD800) * 1024 + (lo - 0xDC00), and split back into the same pair |
| Json.SkipWs | SwuabBlur/config.c:128-131 | skipping whitespace stops at the first non-space character |
| Json.ScanHex4 | SwuabBlur/config.c:166 | `%4x` succeeds iff a hex digit follows (the whitespace, sign and `0x` forms are left out), with exactly four in the corrected decoder; the value is below 0x10000 |
| Json.DecodeFrom | SwuabBlur/config.c:155-196 | the decoding loop stops at the closing quote or the terminator |
| Json.PString | SwuabBlur/config.c:135-202 | a string parses iff it starts with a quote; the cursor ends just past the closing quote, or at the terminator when there is none |
| Json.PNumber | SwuabBlur/config.c:204-246 | a parsed number is a Number node and consumes at least one character |
| Json.PValue | SwuabBlur/config.c:317-338 | a parsed value consumes at least one character, with either decoder |
| Json.PArray | SwuabBlur/config.c:248-274 | a parsed array is an Array node, with either decoder |
| Json.PObject | SwuabBlur/config.c:276-315 | a parsed object is an Object node, with either decoder |
| Json.PMember | SwuabBlur/config.c:287-294 | a parsed member has a key, with either decoder |
| JsonParser.SkipWhitespace | SwuabBlur/config.c:128-131 | the loop stops where the whitespace specification does |
| JsonParser.WriteUtf8 | SwuabBlur/config.c:174-189 | the bytes written are the UTF-8 encoding, appended after the bytes already in the buffer |
| JsonParser.DecodeEscape | SwuabBlur/config.c:158-194 | one escape writes the bytes the specification gives and moves the cursor to the same place |
| JsonParser.DecodeUnicode | SwuabBlur/config.c:165-191 | a `\u` escape writes the UTF-8 of its code point, and nothing without hex digits |
| JsonParser.CodePoint | SwuabBlur/config.c:166-173 | a high surrogate followed by a second `\u` escape combines with it; the code point is valid for UTF-8 |
| JsonParser.CountLength | SwuabBlur/config.c:144-148 | the first loop computes the byte count of the specification, where a backslash and the character after it count as one |
| JsonParser.DecodeInto | SwuabBlur/config.c:153-196 | the second loop writes the decoded bytes, which fit the count of the first loop plus the terminator |
| JsonParser.ParseString | SwuabBlur/config.c:135-202 | `parse_string` returns the decoded string and the cursor just past the closing quote, as specified |
| JsonParser.ScanDigits | SwuabBlur/config.c:213-216 | the digit loop accumulates n * 10 + digit up to the first non-digit |
| JsonParser.ScanFraction | SwuabBlur/config.c:220-226 | the fraction is read only when a digit follows the point, and each digit lowers the scale |
| JsonParser.ScanExponent | SwuabBlur/config.c:228-238 | the exponent takes an optional sign and any digits |
| JsonParser.ParseNumber | SwuabBlur/config.c:204-246 | `parse_number` matches its specification |
| JsonParser.ParseValue | SwuabBlur/config.c:317-338 | `parse_value` matches its specification |
| JsonParser.ParseArray | SwuabBlur/config.c:248-274 | `parse_array` matches its specification |
| JsonParser.ParseElements | SwuabBlur/config.c:259-273 | the element loop matches its specification |
| JsonParser.ParseMember | SwuabBlur/config.c:287-294 | a key, a colon and a value, as specified |
| JsonParser.ParseObject | SwuabBlur/config.c:276-315 | `parse_object` matches its specification |
| JsonParser.ParseMembers | SwuabBlur/config.c:296-314 | the member loop matches its specification |
| JsonParser.CJsonParse | SwuabBlur/config.c:340-349 | `cJSON_Parse` skips leading whitespace and returns the parsed value, or nothing |
| JsonLaws.SimpleEscapeStep | SwuabBlur/config.c:158-194 | a backslash and a character other than `u` and NUL write `EscapedChar` of it (`\b \f \n \r \t` the control characters, anything else itself) and decoding goes on after the pair |
| JsonLaws.PlainRunCopied | SwuabBlur/config.c:155-196 | characters other than a quote, a backslash and NUL are copied in order |
| JsonLaws.PlainStringParses | SwuabBlur/config.c:135-202 | a quoted run of plain characters s parses as s, with the cursor just past the closing quote, at the length of s plus 2 |
| JsonLaws.EscapedStringParses | SwuabBlur/config.c:135-202 | `"\c"` for c other than `u` and NUL parses as the one character `EscapedChar(c)` |
| JsonLaws.ShortUnicodeEscapeDiffers | SwuabBlur/config.c:165-173 | for `"\u41zz"` the decoder as written stores "A" and the corrected one "41zz" |
| JsonLaws.EscapeAgrees | SwuabBlur/config.c:158-194 | at a backslash that starts a complete escape, both decoders read the same escape |
| JsonLaws.UnicodeEscapeAgrees | SwuabBlur/config.c:165-191 | a `\u` escape with four hex digits, and a second one after a high surrogate, scans the same in both decoders |
| JsonLaws.DecodersAgreeFrom | SwuabBlur/config.c:155-196 | on a text whose escapes are complete, both decoding loops write the same bytes and stop at the same place |
| JsonLaws.StringDecodersAgree | SwuabBlur/config.c:135-202 | on such a text, `parse_string` gives the same result with either decoder |
| JsonLaws.ValueDecodersAgree | SwuabBlur/config.c:317-338 | on such a text, `parse_value` gives the same result with either decoder |
| JsonLaws.ArrayDecodersAgree | SwuabBlur/config.c:248-274 | on such a text, `parse_array` gives the same result with either decoder |
| JsonLaws.ElementsDecodersAgree | SwuabBlur/config.c:259-273 | on such a text, the element loop gives the same result with either decoder |
| JsonLaws.MemberDecodersAgree | SwuabBlur/config.c:287-294 | on such a text, a member parses the same with either decoder |
| JsonLaws.ObjectDecodersAgree | SwuabBlur/config.c:276-315 | on such a text, `parse_object` gives the same result with either decoder |
| JsonLaws.MembersDecodersAgree | SwuabBlur/config.c:296-314 | on such a text, the member loop gives the same result with either decoder |
| JsonLaws.ParseDecodersAgree | SwuabBlur/config.c:340-349 | on such a text, `cJSON_Parse` gives the same value with either decoder |
| JsonLaws.ShortUnicodeEscapeOverruns | SwuabBlur/config.c:144-190 | as written, for `"\u1"xyzw"` the first loop counts 2 bytes, so the buffer has 3, but the decoder writes 3 bytes and then the terminator |
| JsonLaws.EscapedTerminatorOverruns | SwuabBlur/config.c:144-196 | as written, for a backslash followed by a NUL byte and `ab"`, the first loop counts 1 byte, so the buffer has 2, but the decoder writes NUL, `a`, `b` and then the terminator |
| JsonLaws.EscapeFits | SwuabBlur/config.c:144-194 | in the corrected decoder, one escape writes no more bytes than the first loop counted for what it consumes |
| JsonLaws.UnicodeEscapeFits | SwuabBlur/config.c:165-190 | a `\u` escape with four hex digits writes no more than the first loop counted for it |
| JsonLaws.SurrogatePairFits | SwuabBlur/config.c:168-189 | a surrogate pair writes 4 bytes for the 12 characters the first loop counted as 10 |
| JsonLaws.DecodedFitsCount | SwuabBlur/config.c:144-197 | the corrected decoder never writes more than the first loop's count, so the buffer of len + 1 holds the output and its terminator |
| JsonLaws.LiteralsConsume | SwuabBlur/config.c:319-331 | `null`, `false` and `true` consume exactly 4, 5 and 4 characters |
| JsonLaws.ValueNeedsKnownStart | SwuabBlur/config.c:317-338 | a value parses only when it starts with n, f, t, a quote, a minus, a digit, `[` or `{` |
| JsonLaws.NumberNeedsDigit | SwuabBlur/config.c:208-218 | a minus without a digit after it is not a number |
| JsonLaws.EmptyContainers | SwuabBlur/config.c:248-282 | `[]` and `{}`, with any whitespace inside, have no children |
| JsonLaws.MemberNeedsColon | SwuabBlur/config.c:287-293 | an object member needs a string key followed by a colon |
| JsonLaws.ElementsHaveNoKey | SwuabBlur/config.c:259-270 | array elements are kept in input order after the ones already parsed, and none has a key |
| JsonLaws.MembersHaveKeys | SwuabBlur/config.c:287-311 | object members are kept in input order after the ones already parsed, and each has a key |
| JsonLaws.ParsedKeys | SwuabBlur/config.c:248-315 | in any parsed array no child has a key; in any parsed object every child has one |
| JsonLaws.TrailingTextIgnored | SwuabBlur/config.c:340-349 | text after the first value is ignored: "0123" parses as the number 0 |
| JsonLookup.Children | SwuabBlur/config.c:352 | an array or object node's child list is its items, in order |
| JsonLookup.FirstStopIsFirstMatch | SwuabBlur/config.c:351-355 | the lookup finds nothing iff no child stops it; otherwise it finds the first child that stops it |
| JsonLookup.GetObjectItem | SwuabBlur/config.c:351-355 | the loop returns the first child without a key or with the key asked for, or nothing |
| JsonLookup.LookupInParsed | SwuabBlur/config.c:351-355 | in a parsed object the lookup finds a member with that key; in a parsed non-empty array it finds the first element |
| JsonLookup.GetArraySize | SwuabBlur/config.c:357-365 | the size is the number of children |
| JsonLookup.GetArrayItem | SwuabBlur/config.c:367-374 | the i-th child, the first for a negative i, and nothing when i >= size |
| JsonLookup.LoadString | SwuabBlur/config.c:462-470 | writes dest only when the key names a string. The copy is at most size - 1 bytes and is always terminated. Otherwise dest is unchanged |
| JsonLookup.LoadBool | SwuabBlur/config.c:472-479 | writes dest only when the key names a boolean |
| JsonLookup.LoadFloat | SwuabBlur/config.c:481-488 | writes dest only when the key names a number |
| JsonLookup.LoadInt | SwuabBlur/config.c:490-497 | writes the number truncated toward zero only when the key names a number |
| Support.StrNCopy | SwuabBlur/config.c:465-466 | the copy is the C string cut to n characters and contains no NUL |
| Support.TruncToInt | SwuabBlur/config.c:243 | the C cast to int truncates toward zero |
| Getopt.LongMatch | SwuabBlur/config.c:621-622 | the index of the first long option with that name, or none when no option has it |
| Getopt.ShortIndex | SwuabBlur/config.c:639 | `strchr`: the first occurrence of c in the option string, the terminator for NUL, none otherwise |
| Getopt.MatchIsFirst | SwuabBlur/config.c:621-634 | a name matching at i and at no earlier entry is the first match |
| Getopt.GetoptLong | SwuabBlur/config.c:610-652 | -1 without change when the arguments are used up or the next does not start with '-'. Otherwise optind grows by 1, or by 2 when an argument is taken. A long option returns its `val` and index; an unknown option or a missing argument gives '?' |

## Left out

- Threads, the mutex and condition variables, the one-second timed waits and thread creation and joining (video.c:1183-1195, 1333-1338). The queue is sequential, and its blocking waits are preconditions.
- Processing.ProcessingThread: a run where the producer is still filling the queue is not modelled. The queue is finished and holds every decoded frame before consumption starts.
- Processing.ProcessingThread: the encoder calls, packet writing, the flush after the loop and audio handling are FFmpeg I/O. The model returns the blended frames in the order they are sent to the encoder.
- Processing.ProcessingThread: the failure paths of `config_get_weights` and `calloc` are left out. The frame count is always in [1, 64], so the weights are always produced. Memory allocation is not modelled.
- Processing.ProcessingThread: `parse_fps_string`, `atof` and `av_q2d` are left out because they are floating-point conversions. The ratio of output to input frame rate is a parameter.
- Processing.ProcessingThread: every queued frame must have the size (w, h) of the first. The C code sizes its output and window buffers from the first frame, so a size change in mid-stream makes it blend with frames[0]'s size into those buffers. That case is not modelled.
- Processing.ConsumeFrames: requires that every queued frame has one size (w, h), for the same reason. A mid-stream size change is not modelled.
- Processing.ProcessingThread: the verbose printing and `update_progress`'s display are output. The model records the values progress is reported with.
- BlendWindow.WindowSize: rounds an exact real. The double arithmetic before the `(int)` cast is not modelled.
- Frames.Blend: the weighted sums are exact reals, not `float`. Accumulated rounding is not modelled, and neither is the difference between `CLAMP` on a float and on its exact value.
- Frames.Blend: planes are sequences of rows. `linesize` padding and the memset of the output are not modelled.
- Dedup.DetectDuplicateFrames: the average difference is compared exactly. The float division and `threshold * 255.0f` rounding are not modelled, and neither is the int64 overflow, which cannot happen for frame sizes up to 2^31 pixels.
- Weights.GenerateGaussianWeights: `expf` is a function parameter, so it is not the C library's float `expf`; its accuracy and that of `fabsf` are not modelled. Properties of the Gaussian weights are proved for an `exp` that is positive or has exp(0) = 1.
- Weights.VegasRaw: for one frame the C code computes t = 0.0f / 0, a NaN. The weight is then NaN, the sum is NaN, `sum > 0` is false, and the single weight stays NaN. The model gives weight 0 instead, so Weights.VegasShape and Weights.GenerateVegasWeights do not describe the C result for count 1.
- Weights.GetWeights: weights are exact reals, so a float sum is modelled exactly. The C malloc failure (NULL) is not modelled.
- Weights.WeightsFor: a custom list only reaches `config_get_weights` through `config_parse_args` and `config_load_file`, which are not modelled. It is a parameter.
- Json.PNumber: the value is the exact decimal sign * mantissa * 10^(scale + exponent). `pow` and the rounding to double are not modelled, and neither is the overflow of the int `subscale` for exponents with more than nine digits.
- Json.PString: the text is a NUL-terminated buffer. Reads past the terminator, which the C code can make on malformed input, are cut off at the terminator (see Findings).
- Getopt.GetoptLong: for an argument that is "-" alone, the C code finds `strchr(optstring, '\0')` and then reads `pos[1]` past the terminator of the option string. The model reads NUL there and returns 0.
- Json.ScanHex4: `sscanf`'s `%4x` also skips leading whitespace and accepts a sign and a `0x` prefix, which count toward the width of 4; ScanHex4 takes only 1 to 4 hex digits. In the C, `"\u 41"`, `"\u+041"` and `"\u0x41"` store "A", and `"\u-001"` scans 0xFFFFFFFF and writes the four bytes FF BF BF BF. ScanHex4 returns None for all four, so on such escapes `Json.Parse(t, false)` writes nothing for the `\u` and reads what follows as text.
- JsonParser.DecodeEscape: computes the corrected decoder (the `strict` specification), because only it keeps every write inside the buffer of len + 1 bytes. It differs from config.c as written on a `\u` with fewer than four hex digits that stays inside the text (`"\u41zz"` gives "41zz" where the C gives "A", JsonLaws.ShortUnicodeEscapeDiffers) and on a backslash before the terminator. On every text whose escapes are complete, the two agree (JsonLaws.ParseDecodersAgree).
- JsonParser.DecodeUnicode: computes the corrected decoder too, with the same difference from config.c as written as JsonParser.DecodeEscape.
- JsonParser.CodePoint: computes the corrected decoder too, with the same difference from config.c as written as JsonParser.DecodeEscape.
- JsonParser.DecodeInto: computes the corrected decoder too, with the same difference from config.c as written as JsonParser.DecodeEscape.
- JsonParser.ParseString: computes the corrected decoder too, with the same difference from config.c as written as JsonParser.DecodeEscape.
- JsonParser.ParseValue: computes the corrected decoder too, with the same difference from config.c as written as JsonParser.DecodeEscape.
- JsonParser.ParseArray: computes the corrected decoder too, with the same difference from config.c as written as JsonParser.DecodeEscape.
- JsonParser.ParseElements: computes the corrected decoder too, with the same difference from config.c as written as JsonParser.DecodeEscape.
- JsonParser.ParseMember: computes the corrected decoder too, with the same difference from config.c as written as JsonParser.DecodeEscape.
- JsonParser.ParseObject: computes the corrected decoder too, with the same difference from config.c as written as JsonParser.DecodeEscape.
- JsonParser.ParseMembers: computes the corrected decoder too, with the same difference from config.c as written as JsonParser.DecodeEscape.
- JsonParser.CJsonParse: computes the corrected decoder too, with the same difference from config.c as written as JsonParser.DecodeEscape.
- JsonLookup.LoadInt: `valueint = (int)n` (config.c:243) is undefined in C for a number outside the int range. The model truncates every number toward zero and does not model that case.
- JsonLookup.LoadFloat: the conversion from double to `float` is exact here.
- `cJSON_Delete`, `cJSON_malloc`, `cJSON_free` and the `!out`/`!child` allocation failures, because they are memory management.
- `config_load_file`, `config_print` and `config_parse_args` (with `strtok`, `strdup`, `atof` and the 64-token cap on custom weights): file I/O, printing and libc conversions.
- `validate_output_path`, signal handling and ETA printing in main.c: filesystem, signals and clocks.
- `open_input_video`, `create_output_video`, `create_filter_graph`, `video_get_info`, `av_image_alloc` and `av_image_copy`: FFmpeg calls. A frame copy is a value copy.
- VapourSynth loading (video.c:704-741): dynamic library I/O.
- Config.BlurConfig.Validate: `access()` is a parameter `fileExists`. `strlen` on a fixed `char[]` field is the length of the Dafny string, which holds no NUL.
- Config.BlurConfig.ApplyPreset: the presets' `float` constants (0.3f, 0.1f, ...) are exact reals.
- getopt.h holds declarations only.

## Findings

| source | as written | input that shows it | evidently intended | confidence | as-written member | corrected member |
|---|---|---|---|---|---|---|
| SwuabBlur/config.c:144-190 | the first loop counts `\u` plus the following characters one by one. `sscanf("%4x")` then accepts a single hex digit, and `ptr += 4` steps over the closing quote. So the decoder writes past the `len + 1` byte buffer | the string `"\u1"xyzw"`: the first loop counts 2 bytes and allocates 3; the decoder writes `\x01`, `z`, `w` and the terminator (4 bytes) | a `\u` escape with exactly four hex digits, as section 7 of RFC 8259 defines it; otherwise the escape writes nothing and the text after it is kept | not executed | JsonLaws.ShortUnicodeEscapeOverruns | JsonLaws.DecodedFitsCount |
| SwuabBlur/config.c:155-196 | a backslash right before the terminator: the first loop stops there, but the decoder writes the NUL, steps past the terminator and keeps reading and writing | the text `"\` followed by NUL and `ab"`: the first loop counts 1 byte and allocates 2; the decoder writes NUL, `a`, `b` and the terminator (4 bytes) | the decoder stops at the terminator, as the first loop does | not executed | JsonLaws.EscapedTerminatorOverruns | JsonLaws.DecodedFitsCount |
