# ZoneMinder streaming core, modelled in Dafny

This project models four sequential parts of ZoneMinder's capture and
replay code and proves properties about them:

- **The packet queue** (`PacketQueue`, packet_queue.dfy). A monitor's capture
  thread feeds this queue and its consumer threads read from it. It holds:
  - the queued packets;
  - a per-stream packet count;
  - a registry of iterators. Each iterator designates a queued packet or the end.

  The model keeps the main invariant in `Queue.Valid()`: the count of stream `s`
  is the number of queued packets of stream `s`. Every operation keeps it. This
  covers overflow eviction, the pre-event trim of clearPackets (with and without
  keep_keyframes), clear, both increments, and the iterator factories.
- **The event replay state machine** (`EventStream`, event_stream.dfy). It covers:
  - the command transitions of processCommand: the fast-forward, fast-reverse and
    zoom ladders, variable rate, single steps, previous/next event;
  - the storage-scheme parse;
  - the frame-table fill of loadEventData, which interpolates missing frames;
  - loadInitialEventData's frame clamp;
  - the frame-id decisions of checkEventLoaded;
  - the per-tick frame-step rule of runStream.
- **The FFmpeg capture session** (`FfmpegCamera`, ffmpeg_camera.dfy). It covers:
  - the interrupt callback;
  - the RTSP transport option;
  - the first-video/first-audio stream scan;
  - the hardware pixel-format negotiation and the device-creation fallback;
  - OpenFfmpeg's control flow;
  - the choice between the two inputs in Capture and the timestamp trackers;
  - Close and PrimeCapture.

  Every library call is replaced by its answer, given as an input.
- **The zoom and crop arithmetic** of StreamBase::prepareImage (`Stream`,
  stream.dfy). This covers the magnification, whether the image is rescaled or
  cropped, and the crop window clamped around the click. The window is
  remembered between calls.

`CArith` (c_arith.dfy) provides C++'s truncating `/` and `%`. Every division the
source makes on values that may be negative goes through it.

The source's integers are unbounded here, except in three places where
truncation matters:
- the `(unsigned int)` casts of the frame id, modelled by `EventStream.U32`;
- the reading of 16-bit command words;
- the `|` of the thread test, done on `bv32`.

Two things hold for the event-stream code as the source writes them.
1. loadInitialEventData refuses a frame id equal to the frame count, so the last
   frame cannot be chosen.
2. When checkEventLoaded finds no further event, it clamps to `frame_count`, not to
   `last_frame_id`.

The model keeps both exactly as written (`LoadInitialEventData`, `CheckEventLoaded`).

## Model

| member | source | states |
|---|---|---|
| PacketQueue.Queue.constructor | src/zm_packetqueue.cpp:28-37 | A new queue is empty, has no counts and no iterators, has no streams (-1), has unset maxima (-1), and is neither deleting nor keeping keyframes. |
| PacketQueue.Queue.AddStream | src/zm_packetqueue.cpp:42-56 | On a fresh or cleared queue, the result is 0 and stream 0 becomes the video stream. Otherwise the result is the previous max_stream_id + 1 and the video stream is unchanged. Every count is 0 and `deleting` is cleared. |
| PacketQueue.Queue.QueuePacket | src/zm_packetqueue.cpp:77-169 | The packet is queued iff an iterator is registered and (the video count is non-zero or the packet is a keyframe). If it is not queued, nothing changes. A queued packet goes to the back, and every iterator that was at end designates it. Without overflow, the other iterators are unchanged. With overflow, the queue and registry are `Evicted`/`EvictedIters` of the appended queue. The per-stream counts match the queue throughout (`Valid`). |
| PacketQueue.Queue.EvictOverflow | src/zm_packetqueue.cpp:106-162 | The eviction loop yields exactly `Evicted` and `EvictedIters`, and the counts stay matched. |
| PacketQueue.EvictErasePackets | src/zm_packetqueue.cpp:146 | Erasing the unlocked packet under the cursor removes exactly that packet, and the cursor then designates its successor. |
| PacketQueue.EvictEraseIters | src/zm_packetqueue.cpp:133-144 | Erasing the packet under the cursor moves every iterator behind it up one place, which is `BumpAt` of the registry. |
| PacketQueue.Queue.EraseAt | src/zm_packetqueue.cpp:132-147 | Erasing a packet first bumps, to its successor, every iterator that designates it. All positions after it shift down, and its stream's count drops by one. |
| PacketQueue.Evicted | src/zm_packetqueue.cpp:106-162 | The evicted queue keeps the front packet and the packet just added, and is at least two long. |
| PacketQueue.EvictStop | src/zm_packetqueue.cpp:117-161 | The scan stops at an unlocked video packet before the last one, or at the last packet. |
| PacketQueue.EvictStopIsFirst | src/zm_packetqueue.cpp:117-161 | Every packet the scan passes before its stop is locked or belongs to another stream. |
| PacketQueue.EvictedKeepsLocked | src/zm_packetqueue.cpp:124-131 | Eviction never removes a locked packet: the locked packets of the queue are the same before and after. |
| PacketQueue.EvictedVideoCount | src/zm_packetqueue.cpp:146-160 | The video count drops by exactly one when the pass found an unlocked video packet, and is unchanged otherwise. |
| PacketQueue.EvictedIterMovesToSuccessor | src/zm_packetqueue.cpp:133-144 | An iterator on a removed packet ends where an iterator on its successor ends, so no iterator is stranded. |
| PacketQueue.EvictedIterKeepsPacket | src/zm_packetqueue.cpp:133-147 | An iterator on a packet that survives eviction still designates that packet. |
| PacketQueue.KeptAfterStop | src/zm_packetqueue.cpp:117-161 | A packet after the range the pass looked at survives, moved down by the number of packets removed. |
| PacketQueue.KeptLockedBeforeStop | src/zm_packetqueue.cpp:124-131 | A locked packet the pass skipped survives, at its place among the kept locked packets. |
| PacketQueue.EvictedIterEndStaysEnd | src/zm_packetqueue.cpp:117-161 | An iterator at end stays at end. |
| PacketQueue.EvictedEndIters | src/zm_packetqueue.cpp:95-104 | An iterator on the packet just added still designates it after eviction. |
| PacketQueue.CountOf | src/zm_packetqueue.cpp:90 | A stream's packet count never exceeds the queue length. |
| PacketQueue.CountOfConcat | src/zm_packetqueue.cpp:90 | The count of a concatenation is the sum of the counts of its parts. |
| PacketQueue.LockedOfConcat | src/zm_packetqueue.cpp:124-131 | Selecting the locked packets distributes over concatenation. |
| PacketQueue.LockedOfLocked | src/zm_packetqueue.cpp:124-131 | Selecting the locked packets of a queue whose packets are all locked gives the queue itself. |
| PacketQueue.LockedOfKeepsVideo | src/zm_packetqueue.cpp:124-160 | Dropping the unlocked packets of a range with no unlocked video packet keeps its video count. |
| PacketQueue.Queue.IsThereAnIteratorPointingTo | src/zm_packetqueue.cpp:633-650 | True iff some registered iterator designates the packet at the position. End designates no packet. |
| PacketQueue.Queue.ClearPackets | src/zm_packetqueue.cpp:171-321 | Nothing is removed while deleting or when empty. Only a front prefix of unlocked packets that no iterator designates is removed, never reaching add_packet, and the remaining iterators keep their packets (`DroppedFront`). Without keep_keyframes, trimming stops only at add_packet, when the video count reaches pre-event + tail count, at a locked front, or at a front an iterator designates. It stops at the first such point: every packet popped was popped while the video count still exceeded pre-event + tail count. With keep_keyframes, nothing happens unless add_packet is a video keyframe that is not at the front and the video count exceeds the pre-event count. After any removal the front is a video keyframe. On both paths, a trim that removes anything leaves at least the pre-event number of video packets. |
| PacketQueue.Queue.TrimFront | src/zm_packetqueue.cpp:214-240 | Pops front packets, as in the non-keep branch of ClearPackets, and keeps the counts and iterators consistent. It stops at add_packet, at a video count no larger than the keep count, at a locked front or at a front an iterator designates. It stops at the first of these: every pop happened while the video count exceeded the keep count. After any pop, at least the keep count of video packets remain. |
| PacketQueue.Queue.KeyframeTrim | src/zm_packetqueue.cpp:242-316 | Removes an unlocked prefix that ends just before a video keyframe, or removes nothing. After a removal, either at least the keep count of video packets remain, or at most one fewer than before (the front one, when the window after the front held none). |
| PacketQueue.Queue.DropPrefix | src/zm_packetqueue.cpp:296-316 | Popping `m` unlocked, un-designated front packets leaves the queue's suffix with every iterator moved down by `m`. |
| PacketQueue.Queue.PopFront | src/zm_packetqueue.cpp:228-229 | Popping the front removes exactly the first packet, decrements its stream's count, and moves every iterator down by one. |
| PacketQueue.FindNextFront | src/zm_packetqueue.cpp:242-294 | The new front is 0 or a video keyframe before add_packet, and no packet before it is locked. For a non-zero front, let W be the window between the old front and the new one (both excluded). If W holds any video packet, the video count minus W's count exceeds the keep count, and dropping the whole prefix, old front included, leaves at least the keep count. If W holds no video packet, nothing more is promised: the drop may then leave fewer than the keep count. |
| PacketQueue.TailCount | src/zm_packetqueue.cpp:203-212 | The tail count is the number of video packets queued after add_packet. |
| PacketQueue.DroppedFrontStep | src/zm_packetqueue.cpp:214-240 | Popping one more unlocked, un-designated front packet keeps the trim's invariant. |
| PacketQueue.Queue.Clear | src/zm_packetqueue.cpp:323-365 | Sets `deleting`. When the counts exist, it empties the queue, points every registered iterator at begin (which is end), drops the counts, and sets max_stream_id to -1. |
| PacketQueue.Queue.PacketCount | src/zm_packetqueue.cpp:371-377 | -1 for a stream outside [0, max_stream_id], otherwise the number of queued packets of that stream. |
| PacketQueue.Queue.IncrementIt | src/zm_packetqueue.cpp:477-491 | An iterator at end, or any iterator while deleting, stays put and the result is false. Otherwise it advances by one, and the result says whether it now designates a packet. |
| PacketQueue.NextOfStream | src/zm_packetqueue.cpp:494-509 | The first position after the iterator holding a packet of the stream, or end. |
| PacketQueue.Queue.IncrementItStream | src/zm_packetqueue.cpp:494-509 | The iterator moves to the next packet of the stream, or to end. Only that iterator changes. |
| PacketQueue.PreEventWalk | src/zm_packetqueue.cpp:526-540 | The back walk never passes the snapshot. It reaches the front whenever it ran out of packets before finding enough video packets. |
| PacketQueue.KeyframeWalk | src/zm_packetqueue.cpp:553-559 | The keyframe walk stops at a video keyframe or at the front. |
| PacketQueue.EventStart | src/zm_packetqueue.cpp:511-568 | The event start is at or before the snapshot. With keep_keyframes it is a video keyframe or the front. |
| PacketQueue.PreEventWindow | src/zm_packetqueue.cpp:526-552 | The packets from where the back walk stopped up to the snapshot hold exactly the video packets it counted. When it fell short, the window starts after the front. |
| PacketQueue.EventStartCoversPreEvent | src/zm_packetqueue.cpp:511-568 | If the pre-event count is reached, the window from the event start to the snapshot holds at least that many video packets. Otherwise the start is the front, and the packets after the front up to the snapshot hold fewer. |
| PacketQueue.EventStartPosition | src/zm_packetqueue.cpp:511-568 | The walks compute `EventStart`. |
| PacketQueue.Queue.GetEventStartPacketIt | src/zm_packetqueue.cpp:511-568 | Registers a fresh iterator at `EventStart`. The queue is unchanged. |
| PacketQueue.FirstVideoKeyframe | src/zm_packetqueue.cpp:581-618 | The first video keyframe's position, or end when there is none. |
| PacketQueue.Queue.GetVideoIt | src/zm_packetqueue.cpp:581-618 | Registers a fresh iterator at the first video keyframe, or at end. |
| PacketQueue.Queue.FreeIt | src/zm_packetqueue.cpp:620-631 | Unregisters the iterator and changes nothing else. |
| PacketQueue.Queue.SetMaxVideoPackets | src/zm_packetqueue.cpp:652-657 | A negative maximum becomes 0. |
| PacketQueue.Queue.SetPreEventVideoPackets | src/zm_packetqueue.cpp:658-664 | A pre-event count below 1 becomes 1. |
| EventStream.ParseScheme | src/zm_eventstream.cpp:149-156 | Deep iff the name is exactly "Deep", Medium iff it is exactly "Medium", Shallow otherwise. |
| EventStream.ParseSchemeName | src/zm_eventstream.cpp:149-156 | Parsing a scheme's own name gives the scheme back. |
| EventStream.FastForwardRate | src/zm_eventstream.cpp:377-402 | The result is on the ladder {2,5,10,25,50}×RATE_BASE. A rate on the ladder moves up, except 50x, which stays at 50x. Any other rate becomes 2x. |
| EventStream.FastForwardPressesStay | src/zm_eventstream.cpp:377-402 | Any number of presses keeps a ladder rate on the ladder and never lowers it. |
| EventStream.FastForwardReachesTop | src/zm_eventstream.cpp:377-402 | Five or more presses from any rate reach 50x. |
| EventStream.PressesSplit | src/zm_eventstream.cpp:377-402 | a + b presses are a presses followed by b presses. |
| EventStream.TopStaysTop | src/zm_eventstream.cpp:393-396 | 50x stays at 50x. |
| EventStream.FastReverseRate | src/zm_eventstream.cpp:419-444 | The result is on the ladder {-1,-2,-5,-10,-25,-50}×RATE_BASE. A rate on the ladder moves down, except -50x, which stays. Any other rate becomes -1x. |
| EventStream.FastReverseReachesBottom | src/zm_eventstream.cpp:419-444 | Six presses from any rate reach -50x. |
| EventStream.ZoomInLevel | src/zm_eventstream.cpp:445-468 | The result is a zoom level. A level below 500 strictly increases. |
| EventStream.ZoomOutLevel | src/zm_eventstream.cpp:469-490 | The result is a zoom level. A level above 100 strictly decreases. |
| EventStream.ZoomRoundTrip | src/zm_eventstream.cpp:445-490 | ZOOMOUT after ZOOMIN restores any level below 500. ZOOMIN after ZOOMOUT restores any level above 100. |
| EventStream.DecodeRate | src/zm_eventstream.cpp:364 | The decoded rate lies in the 16-bit signed range. |
| EventStream.RateRoundTrip | src/zm_eventstream.cpp:364 | Every 16-bit rate a client encodes decodes back to itself. |
| EventStream.EncodeRate | src/zm_eventstream.cpp:364 | The two bytes a client sends spell the rate plus 32768 as a 16-bit word, high byte first. |
| EventStream.ClampRate | src/zm_eventstream.cpp:365-371 | The rate is clamped into [-50x, 50x] and is unchanged inside it. |
| EventStream.RateAfter | src/zm_eventstream.cpp:327-444 | Only PAUSE, PLAY, VARPLAY, FASTFWD, SLOWFWD, SLOWREV and FASTREV change the replay rate, and a VARPLAY rate lies in [-50x, 50x]. |
| EventStream.PausedAfter | src/zm_eventstream.cpp:327-517 | PAUSE, SLOWFWD and SLOWREV pause playback, and no other command pauses a playing stream. |
| EventStream.FrameAfter | src/zm_eventstream.cpp:338-418 | SLOWFWD moves at most one frame forward, SLOWREV stays at frame 1 or later and moves back from any later frame, PREV and NEXT go to 0 or last_frame_id + 1, and commands other than PLAY and these four keep the frame id. |
| EventStream.RateAfterBounded | src/zm_eventstream.cpp:323-562 | No command takes the replay rate out of [-50x, 50x]. |
| EventStream.PausedAfterRateChange | src/zm_eventstream.cpp:327-517 | After a command, playback is paused iff the command is PAUSE, SLOWFWD or SLOWREV, or it is a view, query, quit or unknown command and playback was already paused. |
| EventStream.SlowStepStaysInEvent | src/zm_eventstream.cpp:403-418 | SLOWFWD and SLOWREV keep a frame id in [1, last_frame_id] inside it, moving one frame unless already at the edge. |
| EventStream.PrevNextLeaveEvent | src/zm_eventstream.cpp:500-517 | PREV and NEXT always leave the event's frame range. The id is past the last frame exactly when NEXT is combined with a non-negative rate, or PREV with a negative one. |
| EventStream.U32 | src/zm_eventstream.cpp:345 | The unsigned view of a frame id lies in [0, 2^32) and equals the id when it is already in range. |
| EventStream.Word16 | src/zm_eventstream.cpp:446-447 | A 16-bit word built from two bytes lies in [0, 65536). |
| EventStream.FillGap | src/zm_eventstream.cpp:244-258 | Every frame strictly between the previous and the current id gets the interpolated entry: spaced by frame_delta after the last timestamp and not in the database. No other entry changes. |
| EventStream.FillFrames | src/zm_eventstream.cpp:237-281 | The result is the last id read. Each row's frame holds its database values (timestamp start+delta, offset delta, the per-frame delta, in_db), keeping the last row for a repeated id. Each frame between two rows is interpolated. Entries past the last id are untouched. |
| EventStream.FillRow | src/zm_eventstream.cpp:241-270 | One row: afterwards the frames of the rows read so far and the gaps before them are filled, the new last id, delta and timestamp are the row's, and no entry from the row's id on changes. |
| EventStream.FramesCovered | src/zm_eventstream.cpp:237-281 | With strictly increasing ids, every frame up to last_frame_id is named by a row or lies in the gap before one, so the fill writes all of them. |
| EventStream.RowKept | src/zm_eventstream.cpp:262-270 | A row that is the last to name its frame lies before the current row's gap. |
| EventStream.PositionOf | src/zm_eventstream.cpp:614-634 | A frame id is inside the event iff it is in [1, last_frame_id] once seen as unsigned. |
| EventStream.EventStreamState.constructor | src/zm_eventstream.cpp:91-111 | A new stream plays (not paused) at 1x from frame 1, at zoom and scale 100, with no step, no pending send, no forced change, the click point at the origin, nothing sent yet and the stream time at the event start. |
| EventStream.LoadedStreamTime | src/zm_eventstream.cpp:306-312 | A reloaded event's stream time is its first frame's timestamp when playing forward, and its frame last_frame_id's timestamp otherwise. |
| EventStream.EventStreamState.LoadEvent | src/zm_eventstream.cpp:306-312 | Installs the event. When a change is forced or the mode is ALL_GAPLESS, the stream time becomes `LoadedStreamTime` at the current rate; otherwise it stays. Nothing else changes. |
| EventStream.EventStreamState.LoadInitialEventData | src/zm_eventstream.cpp:91-111 | The event is loaded by `LoadEvent`; every branch below then sets the stream time again. Frame id 0 starts at the event start and keeps the frame. An id at or above the frame count starts at frame 1 and the event start. Any other id starts at that frame and its timestamp. |
| EventStream.EventStreamState.ProcessCommand | src/zm_eventstream.cpp:323-562 | Each field after a command is given by `PausedAfter`, `RateAfter`, `FrameAfter`, the step rule, the zoom ladders, the view words and the force flag, and `Valid` (rate in [-50x, 50x], zoom on its ladder) is kept. QUIT asks to exit. |
| EventStream.EventStreamState.ViewCommand | src/zm_eventstream.cpp:445-499 | ZOOMIN, ZOOMOUT, PAN and SCALE change only the zoom, the click point, the scale and send_frame. |
| EventStream.EventStreamState.PlaybackCommand | src/zm_eventstream.cpp:326-517 | The playback commands change only pause, rate, step, frame id, force flag and last-sent time, as the transition functions say. |
| EventStream.EventStreamState.RateCommand | src/zm_eventstream.cpp:327-444 | PAUSE, PLAY, VARPLAY, STOP, FASTFWD and FASTREV set pause and rate as `PausedAfter` and `RateAfter` say; PLAY rewinds a finished single event to frame 1; PAUSE records the time. |
| EventStream.EventStreamState.StepCommand | src/zm_eventstream.cpp:403-561 | Of the commands in these lines other than the view commands: SLOWFWD and SLOWREV pause and step one frame within the event; PREV and NEXT move past the event's start or end and force an event change; QUERY and QUIT change nothing. |
| EventStream.EventStreamState.CheckEventLoaded | src/zm_eventstream.cpp:611-688 | An id inside the event changes nothing. Past the end of an in-progress event, the event is reloaded and the id clamped to its last frame. Otherwise, when a change is wanted and an event is found, it is loaded at frame 1 (or at its last frame when rewinding). When a change is wanted and none is found, playback pauses at 1 or frame_count and the force flag is cleared. When no change is wanted, playback pauses at 1 or last_frame_id. A reload or a found event goes through `LoadEvent`, so the stream time is reset from the new event when a change was forced or the mode is ALL_GAPLESS; otherwise it stays. |
| EventStream.EventStreamState.StartIteration | src/zm_eventstream.cpp:863 | Each loop iteration starts with no frame to send; nothing else changes. |
| EventStream.EventStreamState.Tick | src/zm_eventstream.cpp:877-1055 | The stream time becomes the current frame's timestamp. When a frame is sent, last_frame_sent becomes `now` (line 831); otherwise it stays. Unpaused, the frame is sent on the frame_mod rule and the id advances by ±frame_mod (in SINGLE mode it wraps to 1 outside [1, frame_count)). Paused, a pending step is sent once and cleared, a keepalive is sent when due, and the id stays. |
| EventStream.EventStreamState.QuietIteration | src/zm_eventstream.cpp:858-1055 | One iteration without a command: a frame is sent exactly when playing on the frame_mod rule, or when paused with a pending step or a due keepalive; last_frame_sent becomes `now` exactly then. The stream time and the frame id move as in `Tick` (while playing, by ±frame_mod with the SINGLE wrap; while paused, not at all). The mode, pause, rate, event, zoom, click point, scale and force flag stay. |
| FfmpegCamera.GetHwFormat | src/zm_ffmpeg_camera.cpp:37-55 | The negotiated format is answered iff it is among the formats offered before the terminator, and NONE otherwise. |
| FfmpegCamera.OfferedExcludesNone | src/zm_ffmpeg_camera.cpp:37-55 | The terminator NONE is never an offered format, so a NONE answer means no match. |
| FfmpegCamera.OfferedUpTo | src/zm_ffmpeg_camera.cpp:43-46 | The offered formats are the entries before the first terminator. |
| FfmpegCamera.OfferedHas | src/zm_ffmpeg_camera.cpp:43-46 | An entry with no terminator at or before it is offered. |
| FfmpegCamera.FindFmtByHwType | src/zm_ffmpeg_camera.cpp:57-78 | The result is NONE exactly for the NONE device type, the unknown device types and MMAL. MMAL is NONE because its case is under `#ifdef AV_HWDEVICE_TYPE_MMAL`, which is false for an enumerator, so the case is compiled out. |
| FfmpegCamera.FindFmtByHwTypeInverse | src/zm_ffmpeg_camera.cpp:57-78 | Each supported device type has its own format, and the type can be read back from the format. |
| FfmpegCamera.InterruptCallback | src/zm_ffmpeg_camera.cpp:556-570 | The result is 1 whenever terminating. Otherwise it is 1 iff more than 10 s have passed since the read started, and 0 otherwise. |
| FfmpegCamera.InterruptStaysRaised | src/zm_ffmpeg_camera.cpp:556-570 | Once interrupted, a read stays interrupted at any later time. |
| FfmpegCamera.ToUpper | src/zm_ffmpeg_camera.cpp:265 | Uppercasing keeps the length and maps each character through `toupper`. |
| FfmpegCamera.RtspPathCharacters | src/zm_ffmpeg_camera.cpp:265-267 | A path is RTSP iff it has at least four characters whose uppercase forms spell RTSP. |
| FfmpegCamera.IsRtspPath | src/zm_ffmpeg_camera.cpp:265-267 | A path shorter than four characters is never RTSP. |
| FfmpegCamera.RtspTransport | src/zm_ffmpeg_camera.cpp:265-283 | No option is set iff the path is not RTSP. The method is unknown iff the path is RTSP and the method is none of the four; the known methods map to udp_multicast, tcp, http and udp. |
| FfmpegCamera.RtspTransportInverse | src/zm_ffmpeg_camera.cpp:265-283 | Distinct methods set distinct transports, so the method can be read back from the option. |
| FfmpegCamera.ScanStreams | src/zm_ffmpeg_camera.cpp:324-346 | The scan returns the first video and the first audio stream index, -1 where there is none. |
| FfmpegCamera.FirstOfKind | src/zm_ffmpeg_camera.cpp:324-346 | The index is -1 or a valid stream index. |
| FfmpegCamera.FirstOfKindIsFirst | src/zm_ffmpeg_camera.cpp:324-346 | The index is -1 iff no stream has the kind. Otherwise the stream there has it and no earlier stream does. |
| FfmpegCamera.SelectHwPixFmt | src/zm_ffmpeg_camera.cpp:403-425 | The config loop computes `SelectedHwPixFmt`. |
| FfmpegCamera.SelectedHwPixFmt | src/zm_ffmpeg_camera.cpp:403-425 | The format is the current one or the format of a configuration that matches the device type. |
| FfmpegCamera.SelectedIsLastMatch | src/zm_ffmpeg_camera.cpp:403-425 | The last matching configuration decides the format, because the loop has no break. |
| FfmpegCamera.SelectedWithoutMatch | src/zm_ffmpeg_camera.cpp:403-425 | With no matching configuration, the format stays as it was. |
| FfmpegCamera.CreateHwDevice | src/zm_ffmpeg_camera.cpp:437-441 | The first call uses the configured device, or the default device when none is configured. A failure on a configured device is retried once on the default device. The device exists iff one of the calls succeeded. |
| FfmpegCamera.DefaultTriedOnce | src/zm_ffmpeg_camera.cpp:437-441 | The default device is never tried twice. |
| FfmpegCamera.HwSetUp | src/zm_ffmpeg_camera.cpp:396-449 | A device is created only with an accelerator and then comes with the selected, non-NONE format. Without a device the format stays without an accelerator and is NONE with one. |
| FfmpegCamera.HwSetUpOutcome | src/zm_ffmpeg_camera.cpp:396-449 | Without an accelerator nothing changes. A created device comes with the selected format. A final failure resets hw_pix_fmt to NONE. A device is created only when `av_hwdevice_ctx_create` is called at all. |
| FfmpegCamera.HwRetryRescues | src/zm_ffmpeg_camera.cpp:437-441 | With a configured device, a failed first attempt still yields a device when the retry succeeds. |
| FfmpegCamera.SetUpHwDevice | src/zm_ffmpeg_camera.cpp:396-449 | The hardware set-up computes `HwSetUp`. |
| FfmpegCamera.ThreadingAlwaysFrame | src/zm_ffmpeg_camera.cpp:461-470 | The thread test uses `|`, so frame threading is chosen for every capability set. |
| FfmpegCamera.ChooseThreading | src/zm_ffmpeg_camera.cpp:461-470 | A decoder with frame-thread capability gets frame threading. |
| FfmpegCamera.ReadsSecondary | src/zm_ffmpeg_camera.cpp:184-202 | The secondary input is read iff it is open and the rescaled last audio timestamp is strictly behind the rescaled last video timestamp. |
| FfmpegCamera.TrackPts | src/zm_ffmpeg_camera.cpp:228-240 | An untimed packet changes nothing. Otherwise `first` is taken only while it is unset, and `last` is pts − first. |
| FfmpegCamera.FirstPtsTakenOnce | src/zm_ffmpeg_camera.cpp:228-240 | After one timestamped packet, later packets keep its `first`. |
| FfmpegCamera.FirstPacketAtZero | src/zm_ffmpeg_camera.cpp:228-240 | The first timestamped packet of an unset tracker reads 0. |
| FfmpegCamera.Track | src/zm_ffmpeg_camera.cpp:228-240 | A packet of the video stream updates only the video tracker. Any other packet updates only the audio tracker. |
| FfmpegCamera.UntimedPacketIgnored | src/zm_ffmpeg_camera.cpp:228-240 | A packet without a timestamp leaves both trackers unchanged. |
| FfmpegCamera.NoVideoFailsOpen | src/zm_ffmpeg_camera.cpp:341-352 | Once the input is open, the open fails at the stream scan iff no stream is video. |
| FfmpegCamera.OpenOutcomeOf | src/zm_ffmpeg_camera.cpp:252-526 | Each outcome past a step implies that step succeeded: the input opened, the stream info was found, a video stream exists once the decoder is reached, and an open that ends Opened had its video decoder open and, when an audio stream with a decoder was chosen, its audio decoder open. |
| FfmpegCamera.AudioOptional | src/zm_ffmpeg_camera.cpp:483-523 | A missing audio decoder or a missing audio stream never fails the open. |
| FfmpegCamera.SecondaryOnlyWithoutAudio | src/zm_ffmpeg_camera.cpp:484-500 | The secondary input is used only when the primary input has no audio stream. |
| FfmpegCamera.Camera.constructor | src/zm_ffmpeg_camera.cpp:83-152 | A new camera holds nothing and cannot capture. hw_pix_fmt is NONE, the trackers are unset, and `bytes` is 0. |
| FfmpegCamera.Camera.Capture | src/zm_ffmpeg_camera.cpp:177-245 | Without mCanCapture the result is -1 and nothing changes. Otherwise the read clock restarts and the input `ReadsSecondary` chooses is read. Any read failure gives -1. A packet gives 1, adds its size to `bytes`, and updates the trackers by `Track`. |
| FfmpegCamera.Camera.OpenFfmpeg | src/zm_ffmpeg_camera.cpp:252-526 | The outcome is `OpenOutcomeOf` the library answers. The result is 1 and capture is enabled exactly when it is Opened. The transport, stream ids, time bases, hardware format and held handles are as each step leaves them. A failed input or stream info keeps the ids and the time bases. An open that stops before the audio step keeps the secondary-input and audio-codec handles. Once the scan ran, the video time base is the first video stream's. The audio time base is the secondary input's when that supplies the audio, else the first audio stream's, else it stays. An open that stops before the audio step keeps the scanned audio id. |
| FfmpegCamera.Camera.OpenStreams | src/zm_ffmpeg_camera.cpp:324-526 | After the scan, the video and audio stream ids are the first video and audio streams', and each time base is its stream's (kept when there is no such stream). No video stream ends the open. An open that stops before the audio step keeps the scanned audio id and time base; one that reaches it takes the secondary input's audio id and time base when that is used. Handles, hw_pix_fmt and threading are as `OpenCodecs` leaves them; the secondary-input and audio-codec handles stay when the audio step is not reached. |
| FfmpegCamera.Camera.OpenCodecs | src/zm_ffmpeg_camera.cpp:353-526 | The decoder, audio and enable steps end as `OpenOutcomeOf` says. The video time base stays. Short of the audio step, the audio id, the audio time base and the secondary-input and audio-codec handles stay; once it is reached, both come from the secondary input when that is used. |
| FfmpegCamera.Camera.OpenVideoDecoder | src/zm_ffmpeg_camera.cpp:353-481 | A decoder is found iff h264_mmal is available for H.264 or the codec's own decoder is. Hardware set-up follows `HwSetUp`, threading is frame threading, and the decoder opens iff the library says so. The device handle is what the last `av_hwdevice_ctx_create` left, and it stays when no call is made. |
| FfmpegCamera.Camera.OpenAudio | src/zm_ffmpeg_camera.cpp:483-523 | Without its own audio stream, the secondary input supplies one, with its time base. A stream whose decoder fails to open fails the open (-1). |
| FfmpegCamera.Camera.Close | src/zm_ffmpeg_camera.cpp:528-554 | Clears mCanCapture and releases the decoders, the hardware device and the input. The time bases, threading and transport stay. The secondary input is neither released nor forgotten. A second call changes nothing. |
| FfmpegCamera.Camera.PrimeCapture | src/zm_ffmpeg_camera.cpp:160-171 | Restarts the read clock, closes a capturing session and resets both stream ids to -1, then opens again. The result and mCanCapture follow `OpenOutcomeOf`. The error count is 0, the transport is `RtspTransport`, and the input handle is held iff the input opened. A failed input or stream info leaves both ids -1 and both time bases unchanged. Otherwise the video id and time base are the first video stream's. An open that stops before the audio step leaves the first audio stream's id, and its time base when there is one. It also leaves the secondary-input and audio-codec handles as the close left them. Short of a decoder, the handles are those after the close and hw_pix_fmt and threading stay. With a decoder, the video codec is held, threading is frame threading, and hw_pix_fmt and the device follow `HwSetUp`. Once audio is reached, the audio id, its time base, the secondary input and the audio codec follow `AudioStreamAfter`. The trackers and `bytes` are not reset. |
| Stream.ClampSpan | src/zm_stream.cpp:219-234 | hi − lo = send − 1 and hi ≤ act − 1. lo ≥ 0 whenever send ≤ act. A window that already fits is centred on the click unchanged. |
| Stream.CropBox | src/zm_stream.cpp:207-235 | On both axes the window has the send size, ends inside the actual image, and starts at 0 or later when it fits. |
| Stream.CropWindowInsideImage | src/zm_stream.cpp:198-236 | With a zoom of at least 100 % and a non-negative scale, every recomputed window has the displayed size and lies inside the magnified image. |
| Stream.SendIsDisplay | src/zm_stream.cpp:159 | Because act_mag is mag, the send size is the display size. |
| Stream.MagnificationAtLeastScale | src/zm_stream.cpp:147 | A zoom of at least 100 % magnifies at least as much as the scale alone. |
| Stream.Magnification | src/zm_stream.cpp:147 | The magnification of a non-negative scale and zoom is non-negative, and a zoom of 100 % gives the scale itself. |
| Stream.IsCropped | src/zm_stream.cpp:198-204 | An image magnified no more than it is shown is never cropped. |
| Stream.CropFor | src/zm_stream.cpp:198-235 | The window ends inside the magnified image on both axes. For a non-negative size and scale and a positive magnification, it has the displayed size. |
| Stream.StreamBase.constructor | src/zm_stream.cpp:139-254 | A new stream remembers its current view as the last one and holds the empty window. |
| Stream.StreamBase.PrepareImage | src/zm_stream.cpp:139-254 | The image is rescaled iff mag ≠ SCALE_BASE, and cropped iff the display size is below the virtual size. The crop window is recomputed (from `CropFor`, reset when the previous image was not cropped) only when cropping and mag, x or y changed; otherwise the previous window is kept. On return last_scale, last_zoom, last_x and last_y equal the current values. |
| CArith.CDiv | src/zm_stream.cpp:147 | C++ truncating division: a non-negative quotient for non-negative operands and a non-positive one for a non-positive dividend. |
| CArith.CRem | src/zm_eventstream.cpp:888 | C++ remainder: it takes the sign of the dividend and is smaller in magnitude than the divisor. |
| CArith.CDivExact | src/zm_stream.cpp:159 | An exact multiple divides back to its factor. |

## Left out

- Threads: the queue's mutex and condition variable, and the blocking `get_packet`, `get_packet_and_increment_it`, `get_video_it(wait=true)` and `wait`. They only coordinate threads; the model is sequential.
- Packet identity: packets are designated by their position in the queue, and iterators are positions (end = the queue length). The model does not cover iterator aliasing or an `std::list` node's address.
- Packet contents other than stream index, keyframe flag and lock flag (pts, image index, the decoded image) play no role in the modelled logic and are left out.
- PacketQueue.Queue.AddStream: requires an empty queue, as the source's own comment at line 39 assumes. The source does not reallocate the list for a non-empty queue.
- PacketQueue.Queue.QueuePacket: requires that streams were added (the counts exist) and that the packet's stream is one of them. The source indexes `packet_counts` without checking either.
- PacketQueue.Queue.ClearPackets: requires, on the keep_keyframes path, that no iterator designates a packet before add_packet. The source's iterator check there is compiled out (lines 270-277), and its comment states the same assumption.
- PacketQueue.Queue.IncrementIt and IncrementItStream: require a registered iterator. The source dereferences the pointer it is given.
- PacketQueue.FindNextFront: weaker than the scan, because it does not say which video keyframe the count rule picks. It promises a video keyframe before add_packet with only unlocked packets before it. On the video count left after the drop, it promises only what its Model row says.
- PacketQueue.Queue.KeyframeTrim: the prefix it removes is the one FindNextFront picks, so it is as loose as FindNextFront: it does not say which video keyframe becomes the new front.
- PacketQueue.Queue.GetEventStartPacketIt: the snapshot iterator is given as a position and must designate a queued packet, because the source dereferences it (line 521). The warnings on an unsatisfied pre-event count are logging and are left out.
- The debug dump, `size` and `notify_all` do nothing the model needs.
- EventStream: the database queries, `Monitor::Load`, `Storage`, path formatting, CMD_SEEK, the status reply, fps computations, timing and sleeping, and all socket and image output. These are database, clock and I/O work. checkEventLoaded's queries become the `reloaded` and `found` inputs, and runStream's keepalive test and clock become the `keepaliveDue` and `now` inputs.
- EventStream.EventStreamState.Tick: requires the current frame id in [1, frame_count], because the source indexes `frames[curr_frame_id-1]` without checking. The wait before the next event in ALL mode, the image output and sleeps of `sendFrame`, and a failed send (which ends the loop at line 947) are left out.
- EventStream.EventStreamState.LoadEvent, LoadInitialEventData and CheckEventLoaded: when a change is forced or the mode is ALL_GAPLESS, they require the new event to have a frame 0 (when playing forward) or a frame last_frame_id - 1 (otherwise), because loadEventData indexes `frames` there without checking (lines 306-312).
- EventStream.EventStreamState.constructor: the initial field values come from the class declarations in the headers, which are not part of this model. The model starts as a stream does once loadInitialEventData has started it at frame 1 (lines 91-111).
- Stream.StreamBase.constructor: the stream base's constructor is in its header, which is not part of this model. The model starts with the last view equal to the current one, so the first call recomputes nothing.
- EventStream.EventStreamState.LoadInitialEventData: the event data is given as an input, built from the rows by `FillFrames`.
- EventStream.FillFrames: requires frame ids in [1, frame_count] in non-decreasing order, as the database query's ORDER BY gives them. The table is assumed allocated at frame_count entries.
- EventStream: the view fields (scale, zoom, x, y) of the stream base class are kept inside EventStreamState rather than in a shared base class.
- EventStream.DecodeRate: `ntohs` is modelled for a little-endian host.
- FfmpegCamera: every FFmpeg call (`avformat_open_input`, `avformat_find_stream_info`, decoder lookup, `avcodec_open2`, `av_read_frame`, `av_hwdevice_ctx_create`, dictionary parsing) is an input of the `Library` or `ReadResult` type, and `av_rescale_q` is a function parameter. Pixel formats and device types are opaque values. Logging and option parsing are left out, and the packet's data is not modelled, only its size, stream and timestamp.
- One camera and one stream per process: `hw_pix_fmt` (src/zm_ffmpeg_camera.cpp:36) and `start_read_time` (line 32) are file-level globals, and `last_crop` (src/zm_stream.cpp:199) is a function-level static. The model keeps each in its object, which matches the source only while a process has one camera (and one stream).
- FfmpegCamera build configuration: the model follows a build with HAVE_LIBAVUTIL_HWCONTEXT_H, libavcodec 57.89 or later for `get_hw_format` (lines 34-35) and 57.107 or later for the hardware set-up (lines 385-387), and libavutil 56.22 or later, so the hardware format comes from the configuration scan (lines 401-425). The older branch that calls `find_fmt_by_hw_type` (lines 426-428) is not taken; `FindFmtByHwType` is modelled on its own. The MMAL case of `find_fmt_by_hw_type` is compiled out (lines 69-72), and the model leaves it out too.
- FfmpegCamera: `FFmpeg_Input` (the secondary source) is not part of this model. Its open result, audio stream and reads are inputs.
- FfmpegCamera.Camera.OpenAudio: the secondary input is opened from the camera's `secondPath`. The source reads `monitor->GetSecondPath()` (lines 485-488), and the monitor is not part of this model, so the two are assumed equal.
- FfmpegCamera.Camera.OpenVideoDecoder: a failed `av_hwdevice_ctx_create` (lines 437-440) is taken to clear the device handle, as FFmpeg does. The library itself is not part of this model. A device left over from an earlier failed open is then dropped without release, as in the source.
- FfmpegCamera.Camera.OpenFfmpeg: requires that the camera is not capturing, as every caller ensures (PrimeCapture closes first). The 64-bit wrap-around of timestamps is not modelled.
- FfmpegCamera.Camera.constructor: the trackers' initial values (first unset, last 0) are taken from the camera base class, which is not part of this model.
- Stream.StreamBase.PrepareImage: requires non-zero magnifications, and non-zero previous sizes when the window is recomputed (the divisors at lines 159-160 and 208-211). The pixel scaling and cropping of the image class are not modelled, only whether each happens and which window is used. optimisedScaling is the constant false of line 143.
- `web/includes/Frame.php` is a wrapper over the database and is not modelled.
