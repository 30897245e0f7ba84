/**
 * The capture-session logic of FfmpegCamera: opening a source (transport
 * option, stream scan, decoder and hardware-acceleration set-up, optional
 * secondary audio input), reading packets from whichever input is behind,
 * tracking presentation timestamps, and closing.
 *
 * FFmpeg itself is not modelled.  Every library call the session makes is
 * replaced by its result, given as an input: `Library` bundles the answers
 * for one open, `ReadResult` the answer of one `av_read_frame`, and
 * `av_rescale_q` is a function parameter.  Pixel formats and device types
 * are opaque values with names for the ones the code mentions.
 */
module FfmpegCamera {

  // ---------------------------------------------------------------------
  // Opaque FFmpeg enumerations
  // ---------------------------------------------------------------------

  /** AVPixelFormat; `PixFmtNone` is AV_PIX_FMT_NONE (-1, also the end marker of format lists). */
  datatype PixFmt =
    | PixFmtNone | PixVaapi | PixDxva2Vld | PixD3d11 | PixVdpau | PixCuda | PixMmal | PixVideoToolbox
    | PixOther(code: int)

  /** AVHWDeviceType; `HwNone` is AV_HWDEVICE_TYPE_NONE. */
  datatype HwDeviceType =
    | HwNone | HwVaapi | HwDxva2 | HwD3d11va | HwVdpau | HwCuda | HwMmal | HwVideoToolbox
    | HwOther(code: int)

  /** The kind of a stream, as `is_video_stream` and `is_audio_stream` see it. */
  datatype MediaKind = Video | Audio | OtherMedia

  /** AVRational time base of a stream. */
  datatype TimeBase = TimeBase(num: int, den: int)

  /** AV_NOPTS_VALUE, INT64_MIN. */
  const NoPts: int := -0x8000_0000_0000_0000

  /** Ten seconds, in the nanoseconds of the steady clock. */
  const ReadTimeout: int := 10_000_000_000

  // ---------------------------------------------------------------------
  // get_hw_format and find_fmt_by_hw_type
  // ---------------------------------------------------------------------

  /** The formats of an AV_PIX_FMT_NONE-terminated list, up to the terminator. */
  function Offered(pixFmts: seq<PixFmt>): seq<PixFmt>
  {
    if |pixFmts| == 0 || pixFmts[0] == PixFmtNone then [] else [pixFmts[0]] + Offered(pixFmts[1..])
  }

  /** The terminator is never among the offered formats. */
  lemma {:induction false} OfferedExcludesNone(pixFmts: seq<PixFmt>)
    ensures PixFmtNone !in Offered(pixFmts)
  {
    if |pixFmts| > 0 && pixFmts[0] != PixFmtNone {
      OfferedExcludesNone(pixFmts[1..]);
    }
  }

  /**
   * get_hw_format, lines 37-55: the codec's get_format callback.  Walks
   * the offered list up to its terminator and answers the selected hardware
   * format if it is offered, AV_PIX_FMT_NONE otherwise.
   */
  method GetHwFormat(pixFmts: seq<PixFmt>, hwPixFmt: PixFmt) returns (r: PixFmt)
    requires PixFmtNone in pixFmts
    ensures hwPixFmt in Offered(pixFmts) ==> r == hwPixFmt
    ensures hwPixFmt !in Offered(pixFmts) ==> r == PixFmtNone
  {
    var i := 0;
    while pixFmts[i] != PixFmtNone
      invariant 0 <= i < |pixFmts|
      invariant PixFmtNone in pixFmts[i..]
      invariant forall j :: 0 <= j < i ==> pixFmts[j] != PixFmtNone && pixFmts[j] != hwPixFmt
      decreases |pixFmts| - i
    {
      if pixFmts[i] == hwPixFmt {
        OfferedHas(pixFmts, i);
        return pixFmts[i];
      }
      assert pixFmts[i..] == [pixFmts[i]] + pixFmts[i + 1..];
      i := i + 1;
    }
    OfferedUpTo(pixFmts, i);
    return PixFmtNone;
  }

  /** The offered formats of a list whose first terminator is at `i` are the `i` entries before it. */
  lemma {:induction false} OfferedUpTo(pixFmts: seq<PixFmt>, i: int)
    requires 0 <= i < |pixFmts| && pixFmts[i] == PixFmtNone
    requires forall j :: 0 <= j < i ==> pixFmts[j] != PixFmtNone
    ensures Offered(pixFmts) == pixFmts[..i]
  {
    if i > 0 {
      OfferedUpTo(pixFmts[1..], i - 1);
      assert pixFmts[..i] == [pixFmts[0]] + pixFmts[1..][..i - 1];
    }
  }

  /** An entry with no terminator before it (or at it) is offered. */
  lemma {:induction false} OfferedHas(pixFmts: seq<PixFmt>, i: int)
    requires 0 <= i < |pixFmts|
    requires forall j :: 0 <= j <= i ==> pixFmts[j] != PixFmtNone
    ensures pixFmts[i] in Offered(pixFmts)
  {
    if i > 0 {
      OfferedHas(pixFmts[1..], i - 1);
    }
  }

  /**
   * find_fmt_by_hw_type, lines 57-78: the pixel format of each device type
   * known to older libavutil; any other type has none.  The MMAL case sits
   * under `#ifdef AV_HWDEVICE_TYPE_MMAL` (lines 69-72), but FFmpeg declares
   * the device types as enumerators, not macros, so that test fails and
   * MMAL falls through to the default case with the unknown types.
   */
  function FindFmtByHwType(t: HwDeviceType): (f: PixFmt)
    ensures f == PixFmtNone <==> (t.HwNone? || t.HwMmal? || t.HwOther?)
  {
    match t
    case HwVaapi => PixVaapi
    case HwDxva2 => PixDxva2Vld
    case HwD3d11va => PixD3d11
    case HwVdpau => PixVdpau
    case HwCuda => PixCuda
    case HwVideoToolbox => PixVideoToolbox
    case _ => PixFmtNone
  }

  /** The device type a hardware pixel format belongs to. */
  function HwTypeOfFmt(f: PixFmt): HwDeviceType
  {
    match f
    case PixVaapi => HwVaapi
    case PixDxva2Vld => HwDxva2
    case PixD3d11 => HwD3d11va
    case PixVdpau => HwVdpau
    case PixCuda => HwCuda
    case PixMmal => HwMmal
    case PixVideoToolbox => HwVideoToolbox
    case _ => HwNone
  }

  /** Each supported device type has its own format, from which the type can be read back. */
  lemma FindFmtByHwTypeInverse(t: HwDeviceType)
    requires FindFmtByHwType(t) != PixFmtNone
    ensures HwTypeOfFmt(FindFmtByHwType(t)) == t
  {
  }

  // ---------------------------------------------------------------------
  // The interrupt callback
  // ---------------------------------------------------------------------

  /**
   * FfmpegInterruptCallback, lines 556-570: interrupts a blocking read when
   * the process is terminating, or when more than ten seconds have passed
   * since the read started.  Times are steady-clock nanoseconds.
   */
  function InterruptCallback(terminate: bool, now: int, startReadTime: int): (r: int)
    ensures r == 0 || r == 1
    ensures terminate ==> r == 1
    ensures !terminate ==> (r == 1 <==> now - startReadTime > ReadTimeout)
  {
    if terminate then 1
    else if now - startReadTime > ReadTimeout then 1
    else 0
  }

  /** Once a read has timed out it stays timed out. */
  lemma InterruptStaysRaised(terminate: bool, now: int, later: int, startReadTime: int)
    requires now <= later && InterruptCallback(terminate, now, startReadTime) == 1
    ensures InterruptCallback(terminate, later, startReadTime) == 1
  {
  }

  // ---------------------------------------------------------------------
  // The RTSP transport option
  // ---------------------------------------------------------------------

  /** `toupper` in the C locale. */
  function ToUpperChar(c: char): char
  {
    if 'a' <= c <= 'z' then (c as int - 32) as char else c
  }

  /** StringToUpper. */
  function ToUpper(s: string): (u: string)
    ensures |u| == |s|
    ensures forall i :: 0 <= i < |s| ==> u[i] == ToUpperChar(s[i])
  {
    if |s| == 0 then [] else [ToUpperChar(s[0])] + ToUpper(s[1..])
  }

  /** Lines 265-267: the path names an RTSP source when its first four characters, uppercased, are "RTSP". */
  predicate IsRtspPath(path: string): (b: bool)
    ensures b ==> |path| >= 4
  {
    ToUpper(path[..if |path| < 4 then |path| else 4]) == "RTSP"
  }

  /** The RTSP test ignores case and looks at the first four characters only. */
  lemma RtspPathCharacters(path: string)
    ensures IsRtspPath(path) <==>
              |path| >= 4 && ToUpperChar(path[0]) == 'R' && ToUpperChar(path[1]) == 'T' &&
              ToUpperChar(path[2]) == 'S' && ToUpperChar(path[3]) == 'P'
  {
    var p := path[..if |path| < 4 then |path| else 4];
    if |path| >= 4 {
      assert ToUpper(p) == [ToUpperChar(path[0]), ToUpperChar(path[1]), ToUpperChar(path[2]), ToUpperChar(path[3])];
    } else {
      assert |ToUpper(p)| < 4;
    }
  }

  /** What the open does about `rtsp_transport`. */
  datatype TransportChoice = NotRtsp | SetTransport(value: string) | UnknownMethod

  /** Lines 265-283: the `rtsp_transport` option chosen from the path and the capture method. */
  function RtspTransport(path: string, captureMethod: string): (t: TransportChoice)
    ensures t == NotRtsp <==> !IsRtspPath(path)
    ensures t == UnknownMethod <==>
              IsRtspPath(path) && captureMethod != "rtpMulti" && captureMethod != "rtpRtsp" && captureMethod != "rtpRtspHttp" && captureMethod != "rtpUni"
  {
    if !IsRtspPath(path) then NotRtsp
    else if captureMethod == "rtpMulti" then SetTransport("udp_multicast")
    else if captureMethod == "rtpRtsp" then SetTransport("tcp")
    else if captureMethod == "rtpRtspHttp" then SetTransport("http")
    else if captureMethod == "rtpUni" then SetTransport("udp")
    else UnknownMethod
  }

  /** The capture method a transport value comes from. */
  function MethodOfTransport(value: string): string
  {
    if value == "udp_multicast" then "rtpMulti"
    else if value == "tcp" then "rtpRtsp"
    else if value == "http" then "rtpRtspHttp"
    else "rtpUni"
  }

  /** Distinct methods set distinct transports: the method can be read back from the option. */
  lemma RtspTransportInverse(path: string, captureMethod: string)
    requires RtspTransport(path, captureMethod).SetTransport?
    ensures MethodOfTransport(RtspTransport(path, captureMethod).value) == captureMethod
  {
  }

  // ---------------------------------------------------------------------
  // The stream scan
  // ---------------------------------------------------------------------

  /** One stream of the opened input: its kind and time base. */
  datatype StreamInfo = StreamInfo(kind: MediaKind, timeBase: TimeBase)

  /**
   * Lines 324-346: the index of the first video stream and of the first
   * audio stream, -1 where there is none; later streams of the same kind are
   * ignored.
   */
  method ScanStreams(streams: seq<StreamInfo>) returns (video: int, audio: int)
    ensures video == FirstOfKind(streams, Video) && audio == FirstOfKind(streams, Audio)
  {
    video, audio := -1, -1;
    var i := 0;
    while i < |streams|
      invariant 0 <= i <= |streams|
      invariant video == FirstOfKind(streams[..i], Video) && audio == FirstOfKind(streams[..i], Audio)
    {
      assert streams[..i + 1][..i] == streams[..i];
      if streams[i].kind == Video {
        if video == -1 {
          video := i;
        }
      } else if streams[i].kind == Audio {
        if audio == -1 {
          audio := i;
        }
      }
      i := i + 1;
    }
    assert streams[..i] == streams;
  }

  /**
   * The index of the first stream of a kind, -1 when there is none: what
   * the scan of lines 324-346 computes for each kind.
   */
  function FirstOfKind(streams: seq<StreamInfo>, kind: MediaKind): (i: int)
    ensures -1 <= i < |streams|
  {
    if |streams| == 0 then -1
    else if streams[|streams| - 1].kind != kind then FirstOfKind(streams[..|streams| - 1], kind)
    else
      var k := FirstOfKind(streams[..|streams| - 1], kind);
      if k == -1 then |streams| - 1 else k
  }

  /** The scan's index is -1 exactly when no stream has the kind, and otherwise the first one that has it. */
  lemma {:induction false} FirstOfKindIsFirst(streams: seq<StreamInfo>, kind: MediaKind)
    ensures var i := FirstOfKind(streams, kind);
            && (i == -1 <==> forall j :: 0 <= j < |streams| ==> streams[j].kind != kind)
            && (i >= 0 ==> streams[i].kind == kind && forall j :: 0 <= j < i ==> streams[j].kind != kind)
  {
    if |streams| > 0 {
      var init := streams[..|streams| - 1];
      FirstOfKindIsFirst(init, kind);
      assert forall j :: 0 <= j < |init| ==> init[j] == streams[j];
    }
  }

  // ---------------------------------------------------------------------
  // Hardware acceleration set-up
  // ---------------------------------------------------------------------

  /** One AVCodecHWConfig: whether it supports a device context, its device type and its pixel format. */
  datatype HwConfig = HwConfig(deviceCtx: bool, deviceType: HwDeviceType, pixFmt: PixFmt)

  /** Whether a hardware configuration can serve device type `t`. */
  predicate Matches(c: HwConfig, t: HwDeviceType)
  {
    c.deviceCtx && c.deviceType == t
  }

  /**
   * Lines 403-425: walks every configuration of the decoder.  The scan has
   * no `break`, so the last configuration matching the device type decides
   * the hardware pixel format; with no match it is left as it was.
   */
  method SelectHwPixFmt(configs: seq<HwConfig>, t: HwDeviceType, current: PixFmt) returns (f: PixFmt)
    ensures f == SelectedHwPixFmt(configs, t, current)
  {
    f := current;
    var i := 0;
    while i < |configs|
      invariant 0 <= i <= |configs|
      invariant f == SelectedHwPixFmt(configs[..i], t, current)
    {
      assert configs[..i + 1][..i] == configs[..i];
      if configs[i].deviceCtx && configs[i].deviceType == t {
        f := configs[i].pixFmt;
      }
      i := i + 1;
    }
    assert configs[..i] == configs;
  }

  /** The device argument of one `av_hwdevice_ctx_create` call. */
  datatype DeviceArg = DefaultDevice | NamedDevice(name: string)

  /**
   * Lines 437-441: the device is created on the configured device path, or
   * the default device when none is configured; a failure on a configured
   * path is retried once on the default device.  `firstOk` and `retryOk` are
   * the library's answers.  The result lists the calls made and whether the
   * device exists at the end.
   */
  function CreateHwDevice(device: string, firstOk: bool, retryOk: bool): (r: (seq<DeviceArg>, bool))
    ensures |r.0| == (if device != "" && !firstOk then 2 else 1)
    ensures r.0[0] == (if device != "" then NamedDevice(device) else DefaultDevice)
    ensures |r.0| == 2 ==> r.0[1] == DefaultDevice
    ensures r.1 <==> firstOk || (device != "" && retryOk)
  {
    var first := if device != "" then NamedDevice(device) else DefaultDevice;
    if !firstOk && device != "" then ([first, DefaultDevice], retryOk) else ([first], firstOk)
  }

  /** The default device is never tried twice. */
  lemma DefaultTriedOnce(device: string, firstOk: bool, retryOk: bool)
    ensures multiset(CreateHwDevice(device, firstOk, retryOk).0)[DefaultDevice] <= 1
  {
  }

  /** The format the configuration scan settles on: the last matching configuration's, else `current`. */
  function SelectedHwPixFmt(configs: seq<HwConfig>, t: HwDeviceType, current: PixFmt): (f: PixFmt)
    ensures f == current || exists i :: 0 <= i < |configs| && Matches(configs[i], t) && f == configs[i].pixFmt
  {
    if |configs| == 0 then current
    else if Matches(configs[|configs| - 1], t) then configs[|configs| - 1].pixFmt
    else SelectedHwPixFmt(configs[..|configs| - 1], t, current)
  }

  /** The declarative statement of the scan agrees with the last-match function. */
  lemma {:induction false} SelectedIsLastMatch(configs: seq<HwConfig>, t: HwDeviceType, current: PixFmt, i: int)
    requires 0 <= i < |configs| && Matches(configs[i], t)
    requires forall j :: i < j < |configs| ==> !Matches(configs[j], t)
    ensures SelectedHwPixFmt(configs, t, current) == configs[i].pixFmt
    decreases |configs|
  {
    if i < |configs| - 1 {
      SelectedIsLastMatch(configs[..|configs| - 1], t, current, i);
    }
  }

  /** With no matching configuration the scan keeps the current format. */
  lemma {:induction false} SelectedWithoutMatch(configs: seq<HwConfig>, t: HwDeviceType, current: PixFmt)
    requires forall j :: 0 <= j < |configs| ==> !Matches(configs[j], t)
    ensures SelectedHwPixFmt(configs, t, current) == current
  {
    if |configs| > 0 {
      SelectedWithoutMatch(configs[..|configs| - 1], t, current);
    }
  }

  /** The decoder threading chosen from the codec capabilities. */
  datatype Threading = FrameThreads | SliceThreads | SingleThread

  /** AV_CODEC_CAP_FRAME_THREADS and AV_CODEC_CAP_SLICE_THREADS. */
  const CapFrameThreads: bv32 := 0x1000
  const CapSliceThreads: bv32 := 0x2000

  /**
   * Lines 461-470 as written: the tests use `|`, so the first one is never
   * zero and frame threading is always chosen.
   */
  function ChooseThreading(capabilities: bv32): (th: Threading)
    ensures capabilities & CapFrameThreads != 0 ==> th == FrameThreads
  {
    if capabilities | CapFrameThreads != 0 then FrameThreads
    else if capabilities | CapSliceThreads != 0 then SliceThreads
    else SingleThread
  }

  /** Whatever the decoder's capabilities, frame threading is selected. */
  lemma ThreadingAlwaysFrame(capabilities: bv32)
    ensures ChooseThreading(capabilities) == FrameThreads
  {
    assert (capabilities | CapFrameThreads) & CapFrameThreads == CapFrameThreads;
  }

  // ---------------------------------------------------------------------
  // Packet reading
  // ---------------------------------------------------------------------

  /** The answer of one `av_read_frame`: a negative error code, or a packet. */
  datatype ReadResult =
    | ReadFailed(code: int)
    | ReadPacket(streamIndex: int, pts: int, size: int, timeBase: TimeBase)

  /**
   * Lines 184-202: the secondary input is read exactly when it is open and
   * the last audio timestamp, rescaled, is strictly behind the last video
   * timestamp, rescaled.
   */
  function ReadsSecondary(rescale: (int, TimeBase) -> int, secondOpen: bool,
                          lastAudioPts: int, audioTimeBase: TimeBase,
                          lastVideoPts: int, videoTimeBase: TimeBase): (b: bool)
    ensures b ==> secondOpen
    ensures secondOpen ==> (b <==> rescale(lastAudioPts, audioTimeBase) < rescale(lastVideoPts, videoTimeBase))
  {
    secondOpen && rescale(lastAudioPts, audioTimeBase) < rescale(lastVideoPts, videoTimeBase)
  }

  /**
   * Lines 228-240 for one tracker: a packet without timestamp changes
   * nothing; otherwise the first timestamp is taken when none is set yet,
   * and the last becomes the packet's timestamp relative to the first.
   */
  function TrackPts(first: int, last: int, pts: int): (r: (int, int))
    ensures pts == NoPts ==> r == (first, last)
    ensures pts != NoPts && first != NoPts ==> r.0 == first
    ensures pts != NoPts && first == NoPts ==> r.0 == pts
    ensures pts != NoPts ==> r.1 == pts - r.0
  {
    if pts == NoPts then (first, last)
    else
      var f := if first == NoPts then pts else first;
      (f, pts - f)
  }

  /** The first timestamp is taken once: tracking two timestamped packets keeps the first one's. */
  lemma FirstPtsTakenOnce(first: int, last: int, p1: int, p2: int)
    requires p1 != NoPts
    ensures var a := TrackPts(first, last, p1);
            TrackPts(a.0, a.1, p2).0 == a.0
  {
  }

  /** A tracker that started unset measures from the first timestamped packet: the first one reads 0. */
  lemma FirstPacketAtZero(last: int, p: int)
    requires p != NoPts
    ensures TrackPts(NoPts, last, p) == (p, 0)
  {
  }

  // ---------------------------------------------------------------------
  // Opening a source
  // ---------------------------------------------------------------------

  /** The library's answers during one OpenFfmpeg. */
  datatype Library = Library(
    openInput: int,                // avformat_open_input: 0 on success
    findStreamInfo: int,           // avformat_find_stream_info: negative on failure
    streams: seq<StreamInfo>,      // the streams of the input
    isH264: bool,                  // the video codec is H.264
    mmalDecoder: bool,             // avcodec_find_decoder_by_name("h264_mmal") found one
    decoder: bool,                 // avcodec_find_decoder found one
    hwType: HwDeviceType,          // av_hwdevice_find_type_by_name
    hwConfigs: seq<HwConfig>,      // avcodec_get_hw_config, in order
    deviceFirstOk: bool,           // the first av_hwdevice_ctx_create succeeded
    deviceRetryOk: bool,           // the retry on the default device succeeded
    capabilities: bv32,            // the decoder's capabilities
    videoOpen: int,                // avcodec_open2 for video: negative on failure
    secondOpen: int,               // FFmpeg_Input::Open of the secondary path: positive on success
    secondAudioStreamId: int,      // its audio stream id
    secondAudioTimeBase: TimeBase, // and that stream's time base
    audioDecoder: bool,            // avcodec_find_decoder for audio found one
    audioOpen: int)                // avcodec_open2 for audio: negative on failure

  /** Where OpenFfmpeg stopped. */
  datatype OpenOutcome =
    | InputFailed | StreamInfoFailed | NoVideoStream | NoVideoDecoder | VideoOpenFailed | AudioOpenFailed | Opened

  /** Whether the open reaches the decoder set-up (lines 353 onwards). */
  predicate ReachesDecoder(o: OpenOutcome)
  {
    o.NoVideoDecoder? || o.VideoOpenFailed? || o.AudioOpenFailed? || o.Opened?
  }

  /** Whether the open reaches the audio set-up (lines 483 onwards). */
  predicate ReachesAudio(o: OpenOutcome)
  {
    o.AudioOpenFailed? || o.Opened?
  }

  /** Lines 484-500: the secondary input supplies the audio stream when the primary has none. */
  predicate UsesSecondary(lib: Library, secondPath: string)
  {
    FirstOfKind(lib.streams, Audio) == -1 && secondPath != "" && lib.secondOpen > 0
  }

  /** The audio stream id once the secondary input was considered. */
  function AudioStreamAfter(lib: Library, secondPath: string): int
  {
    if UsesSecondary(lib, secondPath) then lib.secondAudioStreamId else FirstOfKind(lib.streams, Audio)
  }

  /**
   * The time base of the first stream of a kind (its `AVStream`, lines
   * 339-345, whose time base Capture reads at lines 184-189), or `current`
   * when the input has no stream of that kind.
   */
  function ScannedTimeBase(streams: seq<StreamInfo>, kind: MediaKind, current: TimeBase): TimeBase
  {
    var i := FirstOfKind(streams, kind);
    if i >= 0 then streams[i].timeBase else current
  }

  /** The audio time base once the secondary input was considered (line 490). */
  function AudioTimeBaseAfter(lib: Library, secondPath: string, current: TimeBase): TimeBase
  {
    if UsesSecondary(lib, secondPath) then lib.secondAudioTimeBase else ScannedTimeBase(lib.streams, Audio, current)
  }

  /**
   * Lines 252-526: how an open ends for the given library answers and
   * secondary path.  An audio stream whose decoder is found but fails to
   * open fails the whole open; one without a decoder is skipped.
   */
  function OpenOutcomeOf(lib: Library, secondPath: string): (o: OpenOutcome)
    ensures o != InputFailed ==> lib.openInput == 0
    ensures o != InputFailed && o != StreamInfoFailed ==> lib.findStreamInfo >= 0
    ensures ReachesDecoder(o) ==> 0 <= FirstOfKind(lib.streams, Video) < |lib.streams|
    ensures o.Opened? ==> lib.videoOpen >= 0 && (AudioStreamAfter(lib, secondPath) >= 0 && lib.audioDecoder ==> lib.audioOpen >= 0)
  {
    if lib.openInput != 0 then InputFailed
    else if lib.findStreamInfo < 0 then StreamInfoFailed
    else if FirstOfKind(lib.streams, Video) == -1 then NoVideoStream
    else if !((lib.isH264 && lib.mmalDecoder) || lib.decoder) then NoVideoDecoder
    else if lib.videoOpen < 0 then VideoOpenFailed
    else if AudioStreamAfter(lib, secondPath) >= 0 && lib.audioDecoder && lib.audioOpen < 0 then AudioOpenFailed
    else Opened
  }

  /** Without a video stream the open fails, and it fails at the scan exactly then. */
  lemma NoVideoFailsOpen(lib: Library, secondPath: string)
    requires lib.openInput == 0 && lib.findStreamInfo >= 0
    ensures OpenOutcomeOf(lib, secondPath) == NoVideoStream <==>
              forall i :: 0 <= i < |lib.streams| ==> lib.streams[i].kind != Video
  {
    FirstOfKindIsFirst(lib.streams, Video);
  }

  /** Audio never stops an open whose audio decoder is missing, or that has no audio stream at all. */
  lemma AudioOptional(lib: Library, secondPath: string)
    requires !lib.audioDecoder || AudioStreamAfter(lib, secondPath) < 0
    ensures OpenOutcomeOf(lib, secondPath) != AudioOpenFailed
  {
  }

  /** The secondary input is consulted only when the primary input has no audio stream. */
  lemma SecondaryOnlyWithoutAudio(lib: Library, secondPath: string)
    requires exists i :: 0 <= i < |lib.streams| && lib.streams[i].kind == Audio
    ensures !UsesSecondary(lib, secondPath)
    ensures AudioStreamAfter(lib, secondPath) == FirstOfKind(lib.streams, Audio)
  {
    FirstOfKindIsFirst(lib.streams, Audio);
  }

  /**
   * Lines 396-449 as a whole: without a hardware accelerator nothing
   * changes; otherwise the configuration scan selects a format and, when it
   * selected one, the device is created.  The result is the new `hw_pix_fmt`
   * and whether a device was created.
   */
  function HwSetUp(lib: Library, hwaccelName: string, device: string, current: PixFmt): (r: (PixFmt, bool))
    ensures r.1 ==> hwaccelName != "" && r.0 != PixFmtNone && r.0 == SelectedHwPixFmt(lib.hwConfigs, lib.hwType, current)
    ensures !r.1 ==> r.0 == (if hwaccelName == "" then current else PixFmtNone)
  {
    if hwaccelName == "" then (current, false)
    else
      var selected := SelectedHwPixFmt(lib.hwConfigs, lib.hwType, current);
      var created := selected != PixFmtNone && CreateHwDevice(device, lib.deviceFirstOk, lib.deviceRetryOk).1;
      (if created then selected else PixFmtNone, created)
  }

  /**
   * Whether the set-up calls `av_hwdevice_ctx_create` at all (lines
   * 429-441): with an accelerator and a selected format.  Each call writes
   * the device handle, which FFmpeg sets to null when the call fails.
   */
  predicate HwAttempted(lib: Library, hwaccelName: string, current: PixFmt)
  {
    hwaccelName != "" && SelectedHwPixFmt(lib.hwConfigs, lib.hwType, current) != PixFmtNone
  }

  /**
   * Without an accelerator nothing changes; a created device comes with the
   * selected format, and when no device results the format is none.
   */
  lemma HwSetUpOutcome(lib: Library, hwaccelName: string, device: string, current: PixFmt)
    ensures var r := HwSetUp(lib, hwaccelName, device, current);
            && (hwaccelName == "" ==> r == (current, false))
            && (r.1 ==> r.0 != PixFmtNone && r.0 == SelectedHwPixFmt(lib.hwConfigs, lib.hwType, current))
            && (hwaccelName != "" && !r.1 ==> r.0 == PixFmtNone)
            && (r.1 ==> HwAttempted(lib, hwaccelName, current))
  {
  }

  /** With a device path given, a failed first attempt still yields a device when the retry succeeds. */
  lemma HwRetryRescues(lib: Library, hwaccelName: string, device: string, current: PixFmt)
    requires hwaccelName != "" && device != ""
    requires SelectedHwPixFmt(lib.hwConfigs, lib.hwType, current) != PixFmtNone
    requires !lib.deviceFirstOk && lib.deviceRetryOk
    ensures HwSetUp(lib, hwaccelName, device, current).1
  {
  }

  /**
   * Lines 396-449: the hardware set-up with its configuration loop.  The
   * get_format callback is installed exactly when a device was created.
   */
  method SetUpHwDevice(lib: Library, hwaccelName: string, device: string, current: PixFmt) returns (f: PixFmt, created: bool)
    ensures (f, created) == HwSetUp(lib, hwaccelName, device, current)
  {
    f, created := current, false;
    if hwaccelName != "" {
      f := SelectHwPixFmt(lib.hwConfigs, lib.hwType, current);
      if f != PixFmtNone {
        var attempt := CreateHwDevice(device, lib.deviceFirstOk, lib.deviceRetryOk);
        if !attempt.1 {
          f := PixFmtNone;
        } else {
          created := true;
        }
      }
    }
  }

  // ---------------------------------------------------------------------
  // The camera
  // ---------------------------------------------------------------------

  /** The library handles a session holds, each present or absent. */
  datatype Handles = Handles(format: bool, second: bool, videoCodec: bool, audioCodec: bool, hwDevice: bool)

  /** The timestamp trackers: first and last timestamp of the video stream and of audio. */
  datatype Trackers = Trackers(firstVideo: int, lastVideo: int, firstAudio: int, lastAudio: int)

  /**
   * Lines 228-240: a timestamped packet of the video stream updates the
   * video tracker, any other packet the audio tracker.
   */
  function Track(t: Trackers, isVideo: bool, pts: int): (t': Trackers)
    ensures isVideo ==> t'.firstAudio == t.firstAudio && t'.lastAudio == t.lastAudio
    ensures !isVideo ==> t'.firstVideo == t.firstVideo && t'.lastVideo == t.lastVideo
    ensures isVideo ==> (t'.firstVideo, t'.lastVideo) == TrackPts(t.firstVideo, t.lastVideo, pts)
    ensures !isVideo ==> (t'.firstAudio, t'.lastAudio) == TrackPts(t.firstAudio, t.lastAudio, pts)
  {
    if isVideo then
      var p := TrackPts(t.firstVideo, t.lastVideo, pts);
      t.(firstVideo := p.0, lastVideo := p.1)
    else
      var p := TrackPts(t.firstAudio, t.lastAudio, pts);
      t.(firstAudio := p.0, lastAudio := p.1)
  }

  /** A packet without timestamp leaves both trackers as they were. */
  lemma UntimedPacketIgnored(t: Trackers, isVideo: bool)
    ensures Track(t, isVideo, NoPts) == t
  {
  }

  /**
   * The session state of one FFmpeg camera.  Library handles are reduced
   * to whether they are held; `hwPixFmt` is the file-level static the
   * get_format callback reads, and `startReadTime` the global the interrupt
   * callback reads.  Both are shared by every camera of the process; keeping
   * them in the object assumes one camera per process.
   */
  class Camera {
    const path: string
    const secondPath: string
    const captureMethod: string
    const hwaccelName: string
    const hwaccelDevice: string

    var canCapture: bool
    var errorCount: int
    var videoStreamId: int
    var audioStreamId: int
    var videoTimeBase: TimeBase
    var audioTimeBase: TimeBase
    var handles: Handles
    var hwPixFmt: PixFmt
    var threading: Threading
    var transport: TransportChoice
    var trackers: Trackers
    var bytes: int
    var startReadTime: int

    /** A camera that can capture holds its input, its video decoder and a video stream. */
    predicate Valid()
      reads this
    {
      canCapture ==> handles.format && handles.videoCodec && videoStreamId >= 0
    }

    /** Everything Close releases is released. */
    predicate Closed()
      reads this
    {
      !canCapture && !handles.format && !handles.videoCodec && !handles.audioCodec && !handles.hwDevice
    }

    /**
     * Lines 83-152, the session part: nothing is open and no capture is
     * possible.  The timestamp trackers start unset (first) and at zero
     * (last); `bytes` starts at zero.
     */
    constructor (path: string, secondPath: string, captureMethod: string, hwaccelName: string, hwaccelDevice: string)
      ensures Valid() && Closed() && !handles.second
      ensures this.path == path && this.secondPath == secondPath && this.captureMethod == captureMethod
      ensures this.hwaccelName == hwaccelName && this.hwaccelDevice == hwaccelDevice
      ensures errorCount == 0 && hwPixFmt == PixFmtNone
      ensures trackers == Trackers(NoPts, 0, NoPts, 0) && bytes == 0
    {
      this.path := path;
      this.secondPath := secondPath;
      this.captureMethod := captureMethod;
      this.hwaccelName := hwaccelName;
      this.hwaccelDevice := hwaccelDevice;
      canCapture := false;
      errorCount := 0;
      videoStreamId, audioStreamId := -1, -1;
      videoTimeBase, audioTimeBase := TimeBase(1, 1), TimeBase(1, 1);
      handles := Handles(false, false, false, false, false);
      hwPixFmt := PixFmtNone;
      threading := SingleThread;
      transport := NotRtsp;
      trackers := Trackers(NoPts, 0, NoPts, 0);
      bytes := 0;
      startReadTime := 0;
    }

    /**
     * Capture, lines 177-245.  `now` is the steady clock, `primary` and
     * `secondary` what reading each input would give, and `rescale` is
     * `av_rescale_q` into the common time base.  Returns -1 when capture is
     * not possible or the read fails, 1 with the packet's rescaled timestamp
     * when a packet was read.
     */
    method Capture(rescale: (int, TimeBase) -> int, now: int, primary: ReadResult, secondary: ReadResult)
      returns (r: int, pts: int)
      modifies this
      ensures !old(canCapture) ==> r == -1 && unchanged(this)
      ensures old(canCapture) ==>
                var second := ReadsSecondary(rescale, old(handles.second), old(trackers.lastAudio), old(audioTimeBase),
                                             old(trackers.lastVideo), old(videoTimeBase));
                var read := if second then secondary else primary;
                && startReadTime == now
                && (read.ReadFailed? ==> r == -1 && bytes == old(bytes) && trackers == old(trackers))
                && (read.ReadPacket? ==>
                      && r == 1
                      && bytes == old(bytes) + read.size
                      && pts == rescale(read.pts, read.timeBase)
                      && trackers == Track(old(trackers), !second && read.streamIndex == old(videoStreamId), read.pts))
      ensures canCapture == old(canCapture) && videoStreamId == old(videoStreamId) && audioStreamId == old(audioStreamId)
      ensures handles == old(handles) && hwPixFmt == old(hwPixFmt) && errorCount == old(errorCount)
      ensures videoTimeBase == old(videoTimeBase) && audioTimeBase == old(audioTimeBase)
      ensures threading == old(threading) && transport == old(transport)
    {
      pts := 0;
      if !canCapture {
        return -1, pts;
      }
      startReadTime := now;
      var second := handles.second && rescale(trackers.lastAudio, audioTimeBase) < rescale(trackers.lastVideo, videoTimeBase);
      var read := if second then secondary else primary;
      if read.ReadFailed? {
        // end of file, a connection timeout (-110) and any other error all end the same way
        return -1, pts;
      }
      bytes := bytes + read.size;
      pts := rescale(read.pts, read.timeBase);
      if read.pts != NoPts {
        if !second && read.streamIndex == videoStreamId {
          var first := if trackers.firstVideo == NoPts then read.pts else trackers.firstVideo;
          trackers := trackers.(firstVideo := first, lastVideo := read.pts - first);
        } else {
          var first := if trackers.firstAudio == NoPts then read.pts else trackers.firstAudio;
          trackers := trackers.(firstAudio := first, lastAudio := read.pts - first);
        }
      }
      return 1, pts;
    }

    /**
     * OpenFfmpeg, lines 252-526, with the library's answers in `lib`.
     * Returns 1 and enables capture when every step succeeds, -1 otherwise,
     * with the step it stopped at; a failure leaves behind what was acquired
     * before it.
     */
    method OpenFfmpeg(lib: Library) returns (r: int, outcome: OpenOutcome)
      requires !canCapture
      modifies this
      ensures Valid()
      ensures outcome == OpenOutcomeOf(lib, secondPath)
      ensures r == (if outcome == Opened then 1 else -1) && canCapture == (outcome == Opened)
      ensures errorCount == 0 && transport == RtspTransport(path, captureMethod)
      ensures handles.format == (lib.openInput == 0)
      ensures outcome.InputFailed? || outcome.StreamInfoFailed? ==>
                videoStreamId == old(videoStreamId) && audioStreamId == old(audioStreamId)
      ensures !(outcome.InputFailed? || outcome.StreamInfoFailed?) ==> videoStreamId == FirstOfKind(lib.streams, Video)
      ensures outcome.InputFailed? || outcome.StreamInfoFailed? ==>
                videoTimeBase == old(videoTimeBase) && audioTimeBase == old(audioTimeBase)
      ensures !(outcome.InputFailed? || outcome.StreamInfoFailed? || ReachesAudio(outcome)) ==>
                audioStreamId == FirstOfKind(lib.streams, Audio)
      ensures !ReachesAudio(outcome) ==> handles.second == old(handles.second) && handles.audioCodec == old(handles.audioCodec)
      ensures !(outcome.InputFailed? || outcome.StreamInfoFailed?) ==>
                && videoTimeBase == ScannedTimeBase(lib.streams, Video, old(videoTimeBase))
                && audioTimeBase == if ReachesAudio(outcome) then AudioTimeBaseAfter(lib, secondPath, old(audioTimeBase))
                                    else ScannedTimeBase(lib.streams, Audio, old(audioTimeBase))
      ensures !ReachesDecoder(outcome) || outcome.NoVideoDecoder? ==>
                handles == old(handles).(format := lib.openInput == 0) && hwPixFmt == old(hwPixFmt) &&
                threading == old(threading)
      ensures ReachesDecoder(outcome) && !outcome.NoVideoDecoder? ==>
                var hw := HwSetUp(lib, hwaccelName, hwaccelDevice, old(hwPixFmt));
                && handles.videoCodec && threading == FrameThreads
                && hwPixFmt == hw.0 && handles.hwDevice == (if HwAttempted(lib, hwaccelName, old(hwPixFmt)) then hw.1 else old(handles.hwDevice))
      ensures ReachesAudio(outcome) ==>
                && audioStreamId == AudioStreamAfter(lib, secondPath)
                && handles.second == (old(handles.second) || UsesSecondary(lib, secondPath))
                && handles.audioCodec == (old(handles.audioCodec) || (audioStreamId >= 0 && lib.audioDecoder))
      ensures startReadTime == old(startReadTime) && trackers == old(trackers) && bytes == old(bytes)
    {
      errorCount := 0;
      transport := RtspTransport(path, captureMethod);

      handles := handles.(format := true);
      if lib.openInput != 0 {
        handles := handles.(format := false);
        return -1, InputFailed;
      }
      if lib.findStreamInfo < 0 {
        return -1, StreamInfoFailed;
      }

      r, outcome := OpenStreams(lib);
    }

    /**
     * Lines 324-526, OpenFfmpeg once the input is open: the stream scan
     * (no video stream fails the open), then the decoders.
     */
    method OpenStreams(lib: Library) returns (r: int, outcome: OpenOutcome)
      requires !canCapture && handles.format
      requires lib.openInput == 0 && lib.findStreamInfo >= 0
      modifies this
      ensures Valid()
      ensures outcome == OpenOutcomeOf(lib, secondPath)
      ensures r == (if outcome == Opened then 1 else -1) && canCapture == (outcome == Opened)
      ensures videoStreamId == FirstOfKind(lib.streams, Video) && handles.format
      ensures !ReachesDecoder(outcome) || outcome.NoVideoDecoder? ==>
                handles == old(handles) && hwPixFmt == old(hwPixFmt) && threading == old(threading)
      ensures ReachesDecoder(outcome) && !outcome.NoVideoDecoder? ==>
                var hw := HwSetUp(lib, hwaccelName, hwaccelDevice, old(hwPixFmt));
                && handles.videoCodec && threading == FrameThreads
                && hwPixFmt == hw.0 && handles.hwDevice == (if HwAttempted(lib, hwaccelName, old(hwPixFmt)) then hw.1 else old(handles.hwDevice))
      ensures ReachesAudio(outcome) ==>
                && audioStreamId == AudioStreamAfter(lib, secondPath)
                && handles.second == (old(handles.second) || UsesSecondary(lib, secondPath))
                && handles.audioCodec == (old(handles.audioCodec) || (audioStreamId >= 0 && lib.audioDecoder))
      ensures !ReachesAudio(outcome) ==> audioStreamId == FirstOfKind(lib.streams, Audio)
      ensures !ReachesAudio(outcome) ==> handles.second == old(handles.second) && handles.audioCodec == old(handles.audioCodec)
      ensures videoTimeBase == ScannedTimeBase(lib.streams, Video, old(videoTimeBase))
      ensures audioTimeBase == if ReachesAudio(outcome) then AudioTimeBaseAfter(lib, secondPath, old(audioTimeBase))
                               else ScannedTimeBase(lib.streams, Audio, old(audioTimeBase))
      ensures errorCount == old(errorCount) && transport == old(transport)
      ensures startReadTime == old(startReadTime) && trackers == old(trackers) && bytes == old(bytes)
    {
      // the scan itself records each stream it picks (lines 339-345)
      var video, audio := ScanStreams(lib.streams);
      videoStreamId, audioStreamId := video, audio;
      if videoStreamId >= 0 {
        videoTimeBase := lib.streams[videoStreamId].timeBase;
      }
      if audioStreamId >= 0 {
        audioTimeBase := lib.streams[audioStreamId].timeBase;
      }
      if videoStreamId == -1 {
        return -1, NoVideoStream;
      }
      r, outcome := OpenCodecs(lib);
    }

    /** Lines 353-526: the video decoder, then the audio stream, then capture is enabled. */
    method OpenCodecs(lib: Library) returns (r: int, outcome: OpenOutcome)
      requires !canCapture && handles.format
      requires lib.openInput == 0 && lib.findStreamInfo >= 0
      requires videoStreamId == FirstOfKind(lib.streams, Video) && videoStreamId >= 0
      requires audioStreamId == FirstOfKind(lib.streams, Audio)
      modifies this
      ensures Valid()
      ensures outcome == OpenOutcomeOf(lib, secondPath)
      ensures r == (if outcome == Opened then 1 else -1) && canCapture == (outcome == Opened)
      ensures videoStreamId == old(videoStreamId) && handles.format
      ensures outcome.NoVideoDecoder? ==> handles == old(handles) && hwPixFmt == old(hwPixFmt) && threading == old(threading)
      ensures !outcome.NoVideoDecoder? ==>
                var hw := HwSetUp(lib, hwaccelName, hwaccelDevice, old(hwPixFmt));
                && handles.videoCodec && threading == FrameThreads
                && hwPixFmt == hw.0 && handles.hwDevice == (if HwAttempted(lib, hwaccelName, old(hwPixFmt)) then hw.1 else old(handles.hwDevice))
      ensures ReachesAudio(outcome) ==>
                && audioStreamId == AudioStreamAfter(lib, secondPath)
                && handles.second == (old(handles.second) || UsesSecondary(lib, secondPath))
                && handles.audioCodec == (old(handles.audioCodec) || (audioStreamId >= 0 && lib.audioDecoder))
                && audioTimeBase == (if UsesSecondary(lib, secondPath) then lib.secondAudioTimeBase else old(audioTimeBase))
      ensures !ReachesAudio(outcome) ==> audioStreamId == old(audioStreamId) && audioTimeBase == old(audioTimeBase)
      ensures !ReachesAudio(outcome) ==> handles.second == old(handles.second) && handles.audioCodec == old(handles.audioCodec)
      ensures videoTimeBase == old(videoTimeBase)
      ensures errorCount == old(errorCount) && transport == old(transport)
      ensures startReadTime == old(startReadTime) && trackers == old(trackers) && bytes == old(bytes)
    {
      var found, started := OpenVideoDecoder(lib);
      if !found {
        return -1, NoVideoDecoder;
      }
      if !started {
        return -1, VideoOpenFailed;
      }

      var audioOk := OpenAudio(lib);
      if !audioOk {
        return -1, AudioOpenFailed;
      }

      canCapture := true;
      return 1, Opened;
    }

    /**
     * Lines 353-481: finds the video decoder (h264_mmal first for H.264,
     * then the codec's own), sets up hardware acceleration and threading,
     * and opens the decoder.  Reports whether a decoder was found and
     * whether it opened.
     */
    method OpenVideoDecoder(lib: Library) returns (found: bool, started: bool)
      modifies this
      ensures found == ((lib.isH264 && lib.mmalDecoder) || lib.decoder) && started == (found && lib.videoOpen >= 0)
      ensures !found ==> handles == old(handles) && hwPixFmt == old(hwPixFmt) && threading == old(threading)
      ensures found ==>
                var hw := HwSetUp(lib, hwaccelName, hwaccelDevice, old(hwPixFmt));
                && handles == old(handles).(videoCodec := true,
                                            hwDevice := if HwAttempted(lib, hwaccelName, old(hwPixFmt)) then hw.1
                                                        else old(handles.hwDevice))
                && hwPixFmt == hw.0 && threading == FrameThreads
      ensures canCapture == old(canCapture) && errorCount == old(errorCount) && transport == old(transport)
      ensures videoStreamId == old(videoStreamId) && audioStreamId == old(audioStreamId)
      ensures videoTimeBase == old(videoTimeBase) && audioTimeBase == old(audioTimeBase)
      ensures startReadTime == old(startReadTime) && trackers == old(trackers) && bytes == old(bytes)
    {
      found := (lib.isH264 && lib.mmalDecoder) || lib.decoder;
      if !found {
        return false, false;
      }
      handles := handles.(videoCodec := true);

      // each av_hwdevice_ctx_create writes the handle, null on failure
      var attempted := HwAttempted(lib, hwaccelName, hwPixFmt);
      var fmt, created := SetUpHwDevice(lib, hwaccelName, hwaccelDevice, hwPixFmt);
      hwPixFmt := fmt;
      if attempted {
        handles := handles.(hwDevice := created);
      }

      threading := ChooseThreading(lib.capabilities);
      ThreadingAlwaysFrame(lib.capabilities);

      started := lib.videoOpen >= 0;
    }

    /**
     * Lines 483-523: without an audio stream of its own the secondary input
     * may supply one; an audio stream whose decoder is missing is skipped,
     * and one whose decoder fails to open fails the open.
     */
    method OpenAudio(lib: Library) returns (ok: bool)
      requires audioStreamId == FirstOfKind(lib.streams, Audio)
      modifies this
      ensures audioStreamId == AudioStreamAfter(lib, secondPath)
      ensures handles == old(handles).(second := old(handles.second) || UsesSecondary(lib, secondPath),
                                       audioCodec := old(handles.audioCodec) || (audioStreamId >= 0 && lib.audioDecoder))
      ensures ok == !(audioStreamId >= 0 && lib.audioDecoder && lib.audioOpen < 0)
      ensures canCapture == old(canCapture) && errorCount == old(errorCount) && transport == old(transport)
      ensures videoStreamId == old(videoStreamId) && hwPixFmt == old(hwPixFmt) && threading == old(threading)
      ensures videoTimeBase == old(videoTimeBase)
      ensures audioTimeBase == (if UsesSecondary(lib, secondPath) then lib.secondAudioTimeBase else old(audioTimeBase))
      ensures startReadTime == old(startReadTime) && trackers == old(trackers) && bytes == old(bytes)
    {
      if audioStreamId == -1 && secondPath != "" && lib.secondOpen > 0 {
        handles := handles.(second := true);
        audioStreamId := lib.secondAudioStreamId;
        audioTimeBase := lib.secondAudioTimeBase;
      }
      ok := true;
      if audioStreamId >= 0 && lib.audioDecoder {
        handles := handles.(audioCodec := true);
        ok := lib.audioOpen >= 0;
      }
    }

    /**
     * Close, lines 528-554: capture stops and the decoders, the hardware
     * device and the primary input are released.  The secondary input is
     * neither released nor forgotten.  Returns 0.
     */
    method Close() returns (r: int)
      modifies this
      ensures r == 0 && Valid() && Closed()
      ensures handles == old(handles).(format := false, videoCodec := false, audioCodec := false, hwDevice := false)
      ensures old(Closed()) ==> unchanged(this)
      ensures videoStreamId == old(videoStreamId) && audioStreamId == old(audioStreamId)
      ensures trackers == old(trackers) && hwPixFmt == old(hwPixFmt) && bytes == old(bytes)
      ensures startReadTime == old(startReadTime) && errorCount == old(errorCount)
      ensures videoTimeBase == old(videoTimeBase) && audioTimeBase == old(audioTimeBase)
      ensures threading == old(threading) && transport == old(transport)
    {
      canCapture := false;
      if handles.videoCodec {
        handles := handles.(videoCodec := false);
      }
      if handles.audioCodec {
        handles := handles.(audioCodec := false);
      }
      if handles.hwDevice {
        handles := handles.(hwDevice := false);
      }
      if handles.format {
        handles := handles.(format := false);
      }
      return 0;
    }

    /**
     * PrimeCapture, lines 160-171: restarts the read clock, closes a session
     * that can capture, forgets the stream ids and opens again.  The new
     * state is what OpenFfmpeg makes of the closed session, or of the old
     * one when it could not capture (whatever a failed open left held stays
     * held).  The timestamp trackers are not reset.
     */
    method PrimeCapture(now: int, lib: Library) returns (r: int)
      requires Valid()
      modifies this
      ensures Valid()
      ensures var outcome := OpenOutcomeOf(lib, secondPath);
              var base := if old(canCapture)
                          then old(handles).(format := false, videoCodec := false, audioCodec := false, hwDevice := false)
                          else old(handles);
              && r == (if outcome == Opened then 1 else -1)
              && canCapture == (outcome == Opened)
              && errorCount == 0 && transport == RtspTransport(path, captureMethod)
              && handles.format == (lib.openInput == 0)
              && (outcome.InputFailed? || outcome.StreamInfoFailed? ==> videoStreamId == -1 && audioStreamId == -1)
              && (!(outcome.InputFailed? || outcome.StreamInfoFailed?) ==> videoStreamId == FirstOfKind(lib.streams, Video))
              && (!(outcome.InputFailed? || outcome.StreamInfoFailed? || ReachesAudio(outcome)) ==>
                    audioStreamId == FirstOfKind(lib.streams, Audio))
              && (!ReachesAudio(outcome) ==> handles.second == base.second && handles.audioCodec == base.audioCodec)
              && (outcome.InputFailed? || outcome.StreamInfoFailed? ==>
                    videoTimeBase == old(videoTimeBase) && audioTimeBase == old(audioTimeBase))
              && (!(outcome.InputFailed? || outcome.StreamInfoFailed?) ==>
                    && videoTimeBase == ScannedTimeBase(lib.streams, Video, old(videoTimeBase))
                    && audioTimeBase == if ReachesAudio(outcome) then AudioTimeBaseAfter(lib, secondPath, old(audioTimeBase))
                                        else ScannedTimeBase(lib.streams, Audio, old(audioTimeBase)))
              && (!ReachesDecoder(outcome) || outcome.NoVideoDecoder? ==>
                    handles == base.(format := lib.openInput == 0) && hwPixFmt == old(hwPixFmt) &&
                    threading == old(threading))
              && (ReachesDecoder(outcome) && !outcome.NoVideoDecoder? ==>
                    var hw := HwSetUp(lib, hwaccelName, hwaccelDevice, old(hwPixFmt));
                    && handles.videoCodec && threading == FrameThreads
                    && hwPixFmt == hw.0 && handles.hwDevice == (if HwAttempted(lib, hwaccelName, old(hwPixFmt)) then hw.1 else base.hwDevice))
              && (ReachesAudio(outcome) ==>
                    && audioStreamId == AudioStreamAfter(lib, secondPath)
                    && handles.second == (old(handles.second) || UsesSecondary(lib, secondPath))
                    && handles.audioCodec == (base.audioCodec || (audioStreamId >= 0 && lib.audioDecoder)))
      ensures startReadTime == now
      ensures trackers == old(trackers) && bytes == old(bytes)
    {
      startReadTime := now;
      if canCapture {
        var _ := Close();
      }
      videoStreamId := -1;
      audioStreamId := -1;
      var outcome;
      r, outcome := OpenFfmpeg(lib);
    }
  }
}
