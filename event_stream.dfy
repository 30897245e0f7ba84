/**
 * The replay state machine of EventStream: the commands a viewer sends
 * (pause, play, rate ladders, zoom ladder, single stepping, previous and
 * next event), the frame table built from the Frames rows of an event, the
 * choice of the first frame, the frame-id decisions taken when playback runs
 * off either end of an event, and the per-tick rule that decides whether a
 * frame is sent and which frame comes next.
 *
 * Database queries, files, sockets and clocks are not modelled: what they
 * return (the rows of an event, the next event found, the current time,
 * whether a keepalive is due) is passed in.
 */
module EventStream {
  import opened CArith

  /** ZM_RATE_BASE: a replay rate of 100 is normal speed. */
  const RateBase: int := 100

  /** The fastest rate VARPLAY accepts, either way: fifty times normal speed. */
  const MaxRate: int := 50 * RateBase

  /** One byte of a command message, as `unsigned char`. */
  type Byte = b: int | 0 <= b < 256

  /** `(hi << 8) | lo` for two unsigned bytes. */
  function Word16(hi: Byte, lo: Byte): (w: int)
    ensures 0 <= w < 0x1_0000
  {
    hi * 256 + lo
  }

  /** The frame id as the `(unsigned int)` casts at lines 345, 407, 618, 622 and 985 see it. */
  function U32(v: int): (u: int)
    ensures 0 <= u < 0x1_0000_0000
    ensures 0 <= v < 0x1_0000_0000 ==> u == v
  {
    v % 0x1_0000_0000
  }

  // ---------------------------------------------------------------------
  // Replay modes, storage schemes and commands
  // ---------------------------------------------------------------------

  /** StreamMode: what happens at the end of an event. */
  datatype StreamMode = ModeNone | ModeSingle | ModeAll | ModeAllGapless

  /** Storage::Schemes: how event directories are laid out. */
  datatype Scheme = Deep | Medium | Shallow

  /** The `Scheme` column as it is stored. */
  function SchemeName(s: Scheme): string
  {
    match s
    case Deep => "Deep"
    case Medium => "Medium"
    case Shallow => "Shallow"
  }

  /** Lines 149-156: only the exact names "Deep" and "Medium" are recognised; anything else is shallow. */
  function ParseScheme(name: string): (s: Scheme)
    ensures s == Deep <==> name == "Deep"
    ensures s == Medium <==> name == "Medium"
  {
    if name == "Deep" then Deep
    else if name == "Medium" then Medium
    else Shallow
  }

  /** Parsing a stored scheme name gives the scheme back. */
  lemma ParseSchemeName(s: Scheme)
    ensures ParseScheme(SchemeName(s)) == s
  {
  }

  /**
   * A command message, decoded from its first byte.  The payload bytes
   * `msg_data[1..4]` that a command reads are carried by its constructor.
   * `Other` is any command this model does not change state for;
   * CMD_SEEK is not part of this model.
   */
  datatype Command =
    | Pause
    | Play
    | VarPlay(b1: Byte, b2: Byte)
    | Stop
    | FastFwd
    | SlowFwd
    | SlowRev
    | FastRev
    | ZoomIn(zx1: Byte, zx2: Byte, zy1: Byte, zy2: Byte)
    | ZoomOut
    | Pan(px1: Byte, px2: Byte, py1: Byte, py2: Byte)
    | Scale(s1: Byte, s2: Byte)
    | Prev
    | Next
    | Query
    | Quit
    | Other

  // ---------------------------------------------------------------------
  // The rate and zoom ladders
  // ---------------------------------------------------------------------

  /** The rates fast forward can leave behind. */
  predicate IsFastForwardRate(r: int)
  {
    r == 2 * RateBase || r == 5 * RateBase || r == 10 * RateBase || r == 25 * RateBase || r == 50 * RateBase
  }

  /** The rates fast reverse can leave behind. */
  predicate IsFastReverseRate(r: int)
  {
    r == -1 * RateBase || r == -2 * RateBase || r == -5 * RateBase ||
    r == -10 * RateBase || r == -25 * RateBase || r == -50 * RateBase
  }

  /** The zoom levels of the zoom ladder. */
  predicate IsZoomLevel(z: int)
  {
    z == 100 || z == 150 || z == 200 || z == 300 || z == 400 || z == 500
  }

  /** CMD_FASTFWD: one step up the ladder 2x, 5x, 10x, 25x, 50x; any other rate restarts at 2x. */
  function FastForwardRate(rate: int): (r: int)
    ensures IsFastForwardRate(r)
    ensures IsFastForwardRate(rate) ==> r > rate || r == rate == 50 * RateBase
    ensures !IsFastForwardRate(rate) ==> r == 2 * RateBase
  {
    if rate == 2 * RateBase then 5 * RateBase
    else if rate == 5 * RateBase then 10 * RateBase
    else if rate == 10 * RateBase then 25 * RateBase
    else if rate == 25 * RateBase || rate == 50 * RateBase then 50 * RateBase
    else 2 * RateBase
  }

  /** CMD_FASTREV: one step down the ladder -1x, -2x, -5x, -10x, -25x, -50x; any other rate restarts at -1x. */
  function FastReverseRate(rate: int): (r: int)
    ensures IsFastReverseRate(r)
    ensures IsFastReverseRate(rate) ==> r < rate || r == rate == -50 * RateBase
    ensures !IsFastReverseRate(rate) ==> r == -1 * RateBase
  {
    if rate == -1 * RateBase then -2 * RateBase
    else if rate == -2 * RateBase then -5 * RateBase
    else if rate == -5 * RateBase then -10 * RateBase
    else if rate == -10 * RateBase then -25 * RateBase
    else if rate == -25 * RateBase || rate == -50 * RateBase then -50 * RateBase
    else -1 * RateBase
  }

  /** `n` presses of fast forward. */
  function FastForwardPresses(rate: int, n: nat): int
    decreases n
  {
    if n == 0 then rate else FastForwardPresses(FastForwardRate(rate), n - 1)
  }

  /** `n` presses of fast reverse. */
  function FastReversePresses(rate: int, n: nat): int
    decreases n
  {
    if n == 0 then rate else FastReversePresses(FastReverseRate(rate), n - 1)
  }

  /** A fast-forward rate stays a fast-forward rate under any number of presses. */
  lemma {:induction false} FastForwardPressesStay(rate: int, n: nat)
    requires IsFastForwardRate(rate)
    ensures IsFastForwardRate(FastForwardPresses(rate, n))
    ensures FastForwardPresses(rate, n) >= rate
    decreases n
  {
    if n > 0 {
      FastForwardPressesStay(FastForwardRate(rate), n - 1);
    }
  }

  /** From any rate, five presses of fast forward reach 50x, and further presses stay there. */
  lemma FastForwardReachesTop(rate: int, n: nat)
    requires n >= 5
    ensures FastForwardPresses(rate, n) == 50 * RateBase
  {
    var r1 := FastForwardRate(rate);
    var r2 := FastForwardRate(r1);
    var r3 := FastForwardRate(r2);
    var r4 := FastForwardRate(r3);
    var r5 := FastForwardRate(r4);
    assert r5 == 50 * RateBase;
    assert FastForwardPresses(rate, 5) == r5 by {
      assert FastForwardPresses(r4, 1) == FastForwardPresses(r5, 0);
      assert FastForwardPresses(r2, 3) == FastForwardPresses(r4, 1);
      assert FastForwardPresses(rate, 5) == FastForwardPresses(r2, 3);
    }
    TopStaysTop(n - 5);
    PressesSplit(rate, 5, n - 5);
  }

  /** Pressing fast forward `a` times and then `b` times is pressing it `a + b` times. */
  lemma {:induction false} PressesSplit(rate: int, a: nat, b: nat)
    ensures FastForwardPresses(rate, a + b) == FastForwardPresses(FastForwardPresses(rate, a), b)
    decreases a
  {
    if a > 0 {
      PressesSplit(FastForwardRate(rate), a - 1, b);
    }
  }

  /** Fast forward at 50x stays at 50x. */
  lemma {:induction false} TopStaysTop(n: nat)
    ensures FastForwardPresses(50 * RateBase, n) == 50 * RateBase
  {
    if n > 0 {
      TopStaysTop(n - 1);
    }
  }

  /** From any rate, six presses of fast reverse reach -50x. */
  lemma FastReverseReachesBottom(rate: int)
    ensures FastReversePresses(rate, 6) == -50 * RateBase
  {
    var r1 := FastReverseRate(rate);
    var r2 := FastReverseRate(r1);
    var r3 := FastReverseRate(r2);
    var r4 := FastReverseRate(r3);
    var r5 := FastReverseRate(r4);
    var r6 := FastReverseRate(r5);
    assert r6 == -50 * RateBase;
    assert FastReversePresses(r4, 2) == FastReversePresses(r6, 0);
    assert FastReversePresses(r2, 4) == FastReversePresses(r4, 2);
    assert FastReversePresses(rate, 6) == FastReversePresses(r2, 4);
  }

  /** CMD_ZOOMIN: 100, 150, 200, 300, 400, 500; 400 and any unknown zoom go to 500. */
  function ZoomInLevel(zoom: int): (z: int)
    ensures IsZoomLevel(z)
    ensures IsZoomLevel(zoom) && zoom < 500 ==> z > zoom
  {
    if zoom == 100 then 150
    else if zoom == 150 then 200
    else if zoom == 200 then 300
    else if zoom == 300 then 400
    else 500
  }

  /** CMD_ZOOMOUT: the ladder downwards; 150 and any unknown zoom go to 100. */
  function ZoomOutLevel(zoom: int): (z: int)
    ensures IsZoomLevel(z)
    ensures IsZoomLevel(zoom) && zoom > 100 ==> z < zoom
  {
    if zoom == 500 then 400
    else if zoom == 400 then 300
    else if zoom == 300 then 200
    else if zoom == 200 then 150
    else 100
  }

  /** Zooming out undoes zooming in below the top level, and zooming in undoes zooming out above the bottom one. */
  lemma ZoomRoundTrip(zoom: int)
    requires IsZoomLevel(zoom)
    ensures zoom < 500 ==> ZoomOutLevel(ZoomInLevel(zoom)) == zoom
    ensures zoom > 100 ==> ZoomInLevel(ZoomOutLevel(zoom)) == zoom
  {
  }

  // ---------------------------------------------------------------------
  // The variable rate of CMD_VARPLAY
  // ---------------------------------------------------------------------

  /**
   * Line 364: `ntohs((b2 << 8) | b1) - 32768`.  On a little-endian host,
   * `ntohs` swaps the two bytes back, so b1 is the high byte.
   */
  function DecodeRate(b1: Byte, b2: Byte): (r: int)
    ensures -32768 <= r < 32768
  {
    Word16(b1, b2) - 32768
  }

  /** The two bytes a client sends for a rate in the 16-bit range. */
  function EncodeRate(r: int): (bytes: (Byte, Byte))
    requires -32768 <= r < 32768
    ensures Word16(bytes.0, bytes.1) == r + 32768
  {
    ((r + 32768) / 256, (r + 32768) % 256)
  }

  /** Every rate in the 16-bit range survives encoding and decoding. */
  lemma RateRoundTrip(r: int)
    requires -32768 <= r < 32768
    ensures DecodeRate(EncodeRate(r).0, EncodeRate(r).1) == r
  {
  }

  /** Lines 365-371: a requested rate is clamped into [-50x, 50x]. */
  function ClampRate(r: int): (c: int)
    ensures -MaxRate <= c <= MaxRate
    ensures -MaxRate <= r <= MaxRate ==> c == r
    ensures r > MaxRate ==> c == MaxRate
    ensures r < -MaxRate ==> c == -MaxRate
  {
    if r > MaxRate then MaxRate else if r < -MaxRate then -MaxRate else r
  }

  // ---------------------------------------------------------------------
  // The per-field transitions of processCommand
  // ---------------------------------------------------------------------

  /** The replay rate after a command. */
  function RateAfter(cmd: Command, rate: int): (r: int)
    ensures !(cmd.Pause? || cmd.Play? || cmd.VarPlay? || cmd.FastFwd? || cmd.SlowFwd? || cmd.SlowRev? || cmd.FastRev?) ==>
              r == rate
    ensures cmd.VarPlay? ==> -MaxRate <= r <= MaxRate
  {
    match cmd
    case Pause => RateBase
    case Play => RateBase
    case VarPlay(b1, b2) => ClampRate(DecodeRate(b1, b2))
    case FastFwd => FastForwardRate(rate)
    case SlowFwd => RateBase
    case SlowRev => RateBase
    case FastRev => FastReverseRate(rate)
    case _ => rate
  }

  /** Whether playback is paused after a command. */
  function PausedAfter(cmd: Command, paused: bool): (p: bool)
    ensures cmd.Pause? || cmd.SlowFwd? || cmd.SlowRev? ==> p
    ensures p && !paused ==> cmd.Pause? || cmd.SlowFwd? || cmd.SlowRev?
  {
    match cmd
    case Pause => true
    case SlowFwd => true
    case SlowRev => true
    case Play => false
    case VarPlay(_, _) => false
    case Stop => false
    case FastFwd => false
    case FastRev => false
    case Prev => false
    case Next => false
    case _ => paused
  }

  /** The current frame id after a command, given the mode, the rate before the command and the event's last frame id. */
  function FrameAfter(cmd: Command, curr: int, mode: StreamMode, rate: int, lastFrameId: int): (f: int)
    ensures cmd.SlowFwd? ==> curr <= f <= curr + 1
    ensures cmd.SlowRev? ==> f >= 1 && (curr >= 2 ==> f < curr)
    ensures cmd.Prev? || cmd.Next? ==> f == 0 || f == lastFrameId + 1
    ensures !(cmd.Play? || cmd.SlowFwd? || cmd.SlowRev? || cmd.Prev? || cmd.Next?) ==> f == curr
  {
    match cmd
    case Play =>
      if (mode == ModeSingle || mode == ModeNone) && U32(curr) == lastFrameId then 1 else curr
    case SlowFwd => if U32(curr) < lastFrameId then curr + 1 else curr
    case SlowRev => if curr - 1 < 1 then 1 else curr - 1
    case Prev => if rate >= 0 then 0 else lastFrameId + 1
    case Next => if rate >= 0 then lastFrameId + 1 else 0
    case _ => curr
  }

  /** No command takes the replay rate out of [-50x, 50x]. */
  lemma RateAfterBounded(cmd: Command, rate: int)
    requires -MaxRate <= rate <= MaxRate
    ensures -MaxRate <= RateAfter(cmd, rate) <= MaxRate
  {
  }

  /** Only pause and the two slow steps pause playback; every rate change other than those resumes it. */
  lemma PausedAfterRateChange(cmd: Command, paused: bool)
    ensures PausedAfter(cmd, paused) <==>
              (cmd.Pause? || cmd.SlowFwd? || cmd.SlowRev? ||
               ((cmd.ZoomIn? || cmd.ZoomOut? || cmd.Pan? || cmd.Scale? || cmd.Query? || cmd.Quit? || cmd.Other?) && paused))
  {
  }

  /**
   * Single stepping keeps a frame id inside [1, last_frame_id]: forward
   * moves one frame unless already at the last one, backward moves one frame
   * unless already at the first one.
   */
  lemma SlowStepStaysInEvent(cmd: Command, curr: int, mode: StreamMode, rate: int, lastFrameId: int)
    requires cmd.SlowFwd? || cmd.SlowRev?
    requires 1 <= curr <= lastFrameId < 0x1_0000_0000
    ensures 1 <= FrameAfter(cmd, curr, mode, rate, lastFrameId) <= lastFrameId
    ensures cmd.SlowFwd? ==> FrameAfter(cmd, curr, mode, rate, lastFrameId) == (if curr < lastFrameId then curr + 1 else curr)
    ensures cmd.SlowRev? ==> FrameAfter(cmd, curr, mode, rate, lastFrameId) == (if curr > 1 then curr - 1 else 1)
  {
  }

  /** Previous and next always leave the frame range of the current event, which is what makes the next tick change event. */
  lemma PrevNextLeaveEvent(cmd: Command, curr: int, mode: StreamMode, rate: int, lastFrameId: int)
    requires cmd.Prev? || cmd.Next?
    requires 0 <= lastFrameId
    ensures var f := FrameAfter(cmd, curr, mode, rate, lastFrameId);
            f <= 0 || f > lastFrameId
    ensures var f := FrameAfter(cmd, curr, mode, rate, lastFrameId);
            (f > lastFrameId) <==> (cmd.Next? == (rate >= 0))
  {
  }

  // ---------------------------------------------------------------------
  // The frame table of an event
  // ---------------------------------------------------------------------

  /** One entry of the frame table; times are microseconds. */
  datatype FrameData = FrameData(timestamp: int, offset: int, delta: int, inDb: bool)

  /** One row of the Frames query: `FrameId` and `Delta` (microseconds since the event start). */
  datatype FrameRow = FrameRow(id: int, delta: int)

  /** The rows arrive ordered by `FrameId`, and each names an entry of the table. */
  predicate RowsFit(rows: seq<FrameRow>, frameCount: int)
  {
    (forall k :: 0 <= k < |rows| ==> 1 <= rows[k].id <= frameCount) &&
    (forall a, b :: 0 <= a < b < |rows| ==> rows[a].id <= rows[b].id)
  }

  /** `last_id` when row `k` is read. */
  function PrevId(rows: seq<FrameRow>, k: int): int
    requires 0 <= k <= |rows|
  {
    if k == 0 then 0 else rows[k - 1].id
  }

  /** `last_delta` when row `k` is read. */
  function PrevDelta(rows: seq<FrameRow>, k: int): int
    requires 0 <= k <= |rows|
  {
    if k == 0 then 0 else rows[k - 1].delta
  }

  /** The per-frame delta of row `k`: the time since the previous row spread over the frames in between (truncating). */
  function FrameDelta(rows: seq<FrameRow>, k: int): int
    requires 0 <= k < |rows|
  {
    var idDiff := rows[k].id - PrevId(rows, k);
    if idDiff != 0 then CDiv(rows[k].delta - PrevDelta(rows, k), idDiff) else rows[k].delta - PrevDelta(rows, k)
  }

  /** The entry row `k` writes for its own frame. */
  function RowFrame(rows: seq<FrameRow>, k: int, start: int): FrameData
    requires 0 <= k < |rows|
  {
    FrameData(start + rows[k].delta, rows[k].delta, FrameDelta(rows, k), true)
  }

  /** A frame `f` missing after frame `lastId`: `frameDelta` after each other from `lastTimestamp`, not in the database. */
  function Interpolated(lastTimestamp: int, lastId: int, frameDelta: int, start: int, f: int): FrameData
  {
    var ts := lastTimestamp + (f - lastId) * frameDelta;
    FrameData(ts, ts - start, frameDelta, false)
  }

  /** The entry row `k` writes for frame `i` missing between the previous row and itself. */
  function GapFrame(rows: seq<FrameRow>, k: int, start: int, i: int): FrameData
    requires 0 <= k < |rows|
  {
    Interpolated(start + PrevDelta(rows, k), PrevId(rows, k), FrameDelta(rows, k), start, i)
  }

  /**
   * Lines 244-258: the frames strictly between `lastId` and `id` get
   * `frameDelta` as their delta and are spaced `frameDelta` apart after
   * `lastTimestamp`; they are marked as not in the database.
   */
  method FillGap(frames: array<FrameData>, lastId: int, id: int, lastTimestamp: int, frameDelta: int, start: int)
    requires 0 <= lastId < id <= frames.Length + 1
    modifies frames
    ensures forall f :: lastId < f < id ==>
              frames[f - 1] == Interpolated(lastTimestamp, lastId, frameDelta, start, f)
    ensures forall j :: 0 <= j < frames.Length && !(lastId <= j < id - 1) ==> frames[j] == old(frames[j])
  {
    for i := lastId + 1 to id
      invariant forall j :: 0 <= j < frames.Length && !(lastId <= j < i - 1) ==> frames[j] == old(frames[j])
      invariant forall f :: lastId < f < i ==>
                  frames[f - 1] == Interpolated(lastTimestamp, lastId, frameDelta, start, f)
    {
      var ts := lastTimestamp + (i - lastId) * frameDelta;
      frames[i - 1] := FrameData(ts, ts - start, frameDelta, false);
    }
  }

  /** Row `k` is the last of the first `n` rows naming its frame, so its values are the ones kept. */
  predicate LastOfId(rows: seq<FrameRow>, k: int, n: int)
    requires 0 <= k < n <= |rows|
  {
    k == n - 1 || rows[k].id != rows[k + 1].id
  }

  /** The frames of the first `n` rows hold their database values. */
  ghost predicate RowsFilled(table: seq<FrameData>, rows: seq<FrameRow>, n: int, start: int)
    requires 0 <= n <= |rows| && RowsFit(rows, |table|)
  {
    forall k {:trigger RowFrame(rows, k, start)} ::
      0 <= k < n && LastOfId(rows, k, n) ==> table[rows[k].id - 1] == RowFrame(rows, k, start)
  }

  /** The frames missing before each of the first `n` rows are interpolated. */
  ghost predicate GapsFilled(table: seq<FrameData>, rows: seq<FrameRow>, n: int, start: int)
    requires 0 <= n <= |rows| && RowsFit(rows, |table|)
  {
    forall k, i {:trigger GapFrame(rows, k, start, i)} ::
      0 <= k < n && PrevId(rows, k) < i < rows[k].id ==> table[i - 1] == GapFrame(rows, k, start, i)
  }

  /**
   * Handling row `n` keeps the frames of the earlier rows: their frames lie
   * before the gap it fills, and only the previous row can name the frame
   * row `n` writes.
   */
  lemma RowStepRows(before: seq<FrameData>, after: seq<FrameData>, rows: seq<FrameRow>, n: int, start: int)
    requires |before| == |after| && 0 <= n < |rows| && RowsFit(rows, |before|)
    requires RowsFilled(before, rows, n, start)
    requires forall j :: 0 <= j < PrevId(rows, n) && j != rows[n].id - 1 ==> after[j] == before[j]
    requires after[rows[n].id - 1] == RowFrame(rows, n, start)
    ensures RowsFilled(after, rows, n + 1, start)
  {
    forall k | 0 <= k < n && LastOfId(rows, k, n + 1)
      ensures after[rows[k].id - 1] == RowFrame(rows, k, start)
    {
      RowKept(rows, n, k);
      assert LastOfId(rows, k, n);
      assert before[rows[k].id - 1] == RowFrame(rows, k, start);
    }
  }

  /** A row before row `n` that is the last to name its frame among the first `n + 1` rows names a frame before row `n`'s. */
  lemma RowKept(rows: seq<FrameRow>, n: int, k: int)
    requires forall a, b :: 0 <= a < b < |rows| ==> rows[a].id <= rows[b].id
    requires 0 <= k < n < |rows| && LastOfId(rows, k, n + 1)
    ensures rows[k].id <= PrevId(rows, n) && rows[k].id != rows[n].id
  {
    if k < n - 1 {
      assert rows[k].id < rows[k + 1].id <= rows[n].id;
    }
  }

  /** Handling row `n` keeps the gaps filled before the earlier rows, which all lie before its own gap. */
  lemma RowStepGaps(before: seq<FrameData>, after: seq<FrameData>, rows: seq<FrameRow>, n: int, start: int,
                    lastTimestamp: int, frameDelta: int)
    requires |before| == |after| && 0 <= n < |rows| && RowsFit(rows, |before|)
    requires GapsFilled(before, rows, n, start)
    requires lastTimestamp == start + PrevDelta(rows, n)
    requires frameDelta == (if rows[n].id - PrevId(rows, n) != 0
                            then CDiv(rows[n].delta - PrevDelta(rows, n), rows[n].id - PrevId(rows, n))
                            else rows[n].delta - PrevDelta(rows, n))
    requires forall j :: 0 <= j < PrevId(rows, n) && j != rows[n].id - 1 ==> after[j] == before[j]
    requires forall f :: PrevId(rows, n) < f < rows[n].id ==>
               after[f - 1] == Interpolated(lastTimestamp, PrevId(rows, n), frameDelta, start, f)
    ensures GapsFilled(after, rows, n + 1, start)
  {
    assert frameDelta == FrameDelta(rows, n);
    forall k, i | 0 <= k < n + 1 && PrevId(rows, k) < i < rows[k].id
      ensures after[i - 1] == GapFrame(rows, k, start, i)
    {
      if k < n {
        assert rows[k].id <= PrevId(rows, n);
        assert before[i - 1] == GapFrame(rows, k, start, i);
      } else {
        assert after[i - 1] == Interpolated(lastTimestamp, PrevId(rows, n), frameDelta, start, i);
      }
    }
  }

  /**
   * Lines 237-281: fills the frame table from the rows and returns
   * `last_frame_id`.  Each row's frame gets its database values (a frame
   * named by several rows keeps the last), each frame missing between two
   * rows is interpolated, and entries past the last row are not touched.
   */
  method FillFrames(frames: array<FrameData>, rows: seq<FrameRow>, start: int) returns (lastId: int)
    requires RowsFit(rows, frames.Length)
    modifies frames
    ensures lastId == PrevId(rows, |rows|)
    ensures RowsFilled(frames[..], rows, |rows|, start) && GapsFilled(frames[..], rows, |rows|, start)
    ensures forall j :: lastId <= j < frames.Length ==> frames[j] == old(frames[j])
  {
    lastId := 0;
    var lastTimestamp := start;
    var lastDelta := 0;
    var n := 0;
    while n < |rows|
      invariant 0 <= n <= |rows|
      invariant lastId == PrevId(rows, n) && lastDelta == PrevDelta(rows, n)
      invariant lastTimestamp == start + lastDelta
      invariant RowsFilled(frames[..], rows, n, start) && GapsFilled(frames[..], rows, n, start)
      invariant forall j :: lastId <= j < frames.Length ==> frames[j] == old(frames[j])
    {
      lastId, lastDelta, lastTimestamp := FillRow(frames, rows, n, start, lastId, lastDelta, lastTimestamp);
      n := n + 1;
    }
  }

  /**
   * One iteration of the fill loop, for row `n`: the frames missing since
   * the previous row are interpolated and the row's own frame gets its
   * database values.  Returns the new `last_id`, `last_delta` and
   * `last_timestamp`.
   */
  method FillRow(frames: array<FrameData>, rows: seq<FrameRow>, n: int, start: int,
                 lastId: int, lastDelta: int, lastTimestamp: int)
    returns (nextId: int, nextDelta: int, nextTimestamp: int)
    requires 0 <= n < |rows| && RowsFit(rows, frames.Length)
    requires lastId == PrevId(rows, n) && lastDelta == PrevDelta(rows, n)
    requires lastTimestamp == start + lastDelta
    requires RowsFilled(frames[..], rows, n, start) && GapsFilled(frames[..], rows, n, start)
    modifies frames
    ensures nextId == PrevId(rows, n + 1) && nextDelta == PrevDelta(rows, n + 1)
    ensures nextTimestamp == start + nextDelta && lastId <= nextId
    ensures RowsFilled(frames[..], rows, n + 1, start) && GapsFilled(frames[..], rows, n + 1, start)
    ensures forall j :: nextId <= j < frames.Length ==> frames[j] == old(frames[j])
  {
    var id := rows[n].id;
    var delta := rows[n].delta;
    var idDiff := id - lastId;
    var frameDelta := if idDiff != 0 then CDiv(delta - lastDelta, idDiff) else delta - lastDelta;
    ghost var before := frames[..];
    if idDiff > 1 {
      FillGap(frames, lastId, id, lastTimestamp, frameDelta, start);
    }
    assert forall j :: 0 <= j < frames.Length && !(lastId <= j < id - 1) ==> frames[j] == before[j];
    frames[id - 1] := FrameData(start + delta, delta, frameDelta, true);
    RowStepRows(before, frames[..], rows, n, start);
    RowStepGaps(before, frames[..], rows, n, start, lastTimestamp, frameDelta);
    nextId, nextDelta, nextTimestamp := id, delta, frames[id - 1].timestamp;
  }

  /**
   * With strictly increasing frame ids, every frame up to `last_frame_id`
   * is filled: it is either named by a row or lies in the gap before one.
   */
  lemma {:induction false} FramesCovered(rows: seq<FrameRow>, f: int)
    requires forall a, b :: 0 <= a < b < |rows| ==> rows[a].id < rows[b].id
    requires 1 <= f <= PrevId(rows, |rows|)
    ensures exists k :: 0 <= k < |rows| && PrevId(rows, k) < f <= rows[k].id
  {
    var n := |rows|;
    if f > PrevId(rows, n - 1) {
      assert PrevId(rows, n - 1) < f <= rows[n - 1].id;
    } else {
      FramesCovered(rows[..n - 1], f);
      var k :| 0 <= k < n - 1 && PrevId(rows[..n - 1], k) < f <= rows[..n - 1][k].id;
      assert PrevId(rows, k) < f <= rows[k].id;
    }
  }

  /** What the database says about one event: the frame count, the table built from its rows and whether it is still being recorded. */
  datatype EventData = EventData(
    eventId: nat,
    frameCount: int,
    lastFrameId: int,
    startTime: int,
    inProgress: bool,
    frames: seq<FrameData>)

  /** An event as loadEventData leaves it: one table entry per frame, and the last frame id no larger than an `int`. */
  predicate EventFits(e: EventData)
  {
    0 <= e.lastFrameId < 0x8000_0000 && 0 <= e.frameCount && |e.frames| == e.frameCount
  }

  /**
   * Whether the stream time loadEventData picks for `e` exists: the first
   * frame when playing forwards, the frame `last_frame_id` otherwise (lines
   * 307-312 index the table without a check).
   */
  predicate StreamTimeDefined(e: EventData, rate: int)
  {
    if rate > 0 then |e.frames| >= 1 else 1 <= e.lastFrameId <= |e.frames|
  }

  /** The stream time loadEventData sets when it resets it (lines 307-312). */
  function LoadedStreamTime(e: EventData, rate: int): (t: int)
    requires StreamTimeDefined(e, rate)
    ensures rate > 0 ==> t == e.frames[0].timestamp
    ensures rate <= 0 ==> t == e.frames[e.lastFrameId - 1].timestamp
  {
    if rate > 0 then e.frames[0].timestamp else e.frames[e.lastFrameId - 1].timestamp
  }

  // ---------------------------------------------------------------------
  // The stream
  // ---------------------------------------------------------------------

  /** Where a frame id lies relative to the loaded event (lines 614-634). */
  datatype Position = BeforeEvent | InEvent | AfterEvent

  function PositionOf(curr: int, lastFrameId: int): (p: Position)
    requires 0 <= lastFrameId < 0x1_0000_0000
    ensures p == InEvent <==> 1 <= curr <= lastFrameId || (curr >= 0x1_0000_0000 && U32(curr) <= lastFrameId)
  {
    if curr <= 0 then BeforeEvent
    else if U32(curr) > lastFrameId then AfterEvent
    else InEvent
  }

  /**
   * The replay state of one event stream.  The view fields `scale`, `zoom`,
   * `x` and `y` belong to the stream base in the source; here they are kept
   * with the rest.
   */
  class EventStreamState {
    var mode: StreamMode
    var paused: bool
    var replayRate: int
    var zoom: int
    var step: int
    var currFrameId: int
    var forceEventChange: bool
    var sendFrame: bool
    var x: int
    var y: int
    var scale: int
    var lastFrameSent: int
    var currStreamTime: int
    var event: EventData

    /** The rate stays within [-50x, 50x], the zoom on its ladder, and the event fits. */
    predicate Valid()
      reads this
    {
      -MaxRate <= replayRate <= MaxRate && IsZoomLevel(zoom) && EventFits(event)
    }

    /** A stream at normal speed, not paused, not zoomed, at the first frame of `event`. */
    constructor (mode: StreamMode, event: EventData)
      requires EventFits(event)
      ensures Valid()
      ensures this.mode == mode && this.event == event
      ensures !paused && replayRate == RateBase && zoom == 100 && step == 0 && currFrameId == 1
      ensures !forceEventChange && !sendFrame && scale == 100
      ensures x == 0 && y == 0 && lastFrameSent == 0 && currStreamTime == event.startTime
    {
      this.mode := mode;
      this.event := event;
      paused := false;
      replayRate := RateBase;
      zoom := 100;
      step := 0;
      currFrameId := 1;
      forceEventChange := false;
      sendFrame := false;
      x, y, scale := 0, 0, 100;
      lastFrameSent := 0;
      currStreamTime := event.startTime;
    }

    /**
     * loadInitialEventData(event_id, frame_id), lines 91-111: a frame id
     * of 0 starts at the event start without choosing a frame; a frame id of
     * at least the frame count is refused (as written, this includes the last
     * frame) and playback starts at frame 1; otherwise playback starts at the
     * frame asked for, at its timestamp.
     */
    method LoadInitialEventData(e: EventData, initFrameId: int)
      requires Valid() && EventFits(e)
      requires forceEventChange || mode == ModeAllGapless ==> StreamTimeDefined(e, replayRate)
      requires 0 <= initFrameId < 0x1_0000_0000
      modifies this
      ensures Valid()
      ensures event == e
      ensures initFrameId == 0 ==> currStreamTime == e.startTime && currFrameId == old(currFrameId)
      ensures initFrameId != 0 && initFrameId >= e.frameCount ==>
                currStreamTime == e.startTime && currFrameId == 1
      ensures 0 < initFrameId < e.frameCount ==>
                currStreamTime == e.frames[initFrameId - 1].timestamp && currFrameId == initFrameId
      ensures 1 <= currFrameId <= e.frameCount || (initFrameId == 0 && currFrameId == old(currFrameId)) || currFrameId == 1
      ensures mode == old(mode) && paused == old(paused) && replayRate == old(replayRate) && zoom == old(zoom)
      ensures step == old(step) && forceEventChange == old(forceEventChange) && sendFrame == old(sendFrame)
      ensures x == old(x) && y == old(y) && scale == old(scale) && lastFrameSent == old(lastFrameSent)
    {
      LoadEvent(e);
      if initFrameId != 0 {
        if initFrameId >= e.frameCount {
          currStreamTime := e.startTime;
          currFrameId := 1;
        } else {
          currStreamTime := e.frames[initFrameId - 1].timestamp;
          currFrameId := initFrameId;
        }
      } else {
        currStreamTime := e.startTime;
      }
    }

    /**
     * The state loadEventData, lines 113-321, leaves: the event is `e`, and
     * when an event change is forced or the mode is ALL_GAPLESS the stream
     * time moves to the end of `e` playback enters it from.
     */
    method LoadEvent(e: EventData)
      requires Valid() && EventFits(e)
      requires forceEventChange || mode == ModeAllGapless ==> StreamTimeDefined(e, replayRate)
      modifies this
      ensures Valid() && event == e
      ensures currStreamTime ==
                if old(forceEventChange) || old(mode) == ModeAllGapless then LoadedStreamTime(e, old(replayRate))
                else old(currStreamTime)
      ensures mode == old(mode) && paused == old(paused) && replayRate == old(replayRate) && zoom == old(zoom)
      ensures step == old(step) && currFrameId == old(currFrameId) && forceEventChange == old(forceEventChange)
      ensures sendFrame == old(sendFrame) && x == old(x) && y == old(y) && scale == old(scale)
      ensures lastFrameSent == old(lastFrameSent)
    {
      event := e;
      if forceEventChange || mode == ModeAllGapless {
        if replayRate > 0 {
          currStreamTime := e.frames[0].timestamp;
        } else {
          currStreamTime := e.frames[e.lastFrameId - 1].timestamp;
        }
      }
    }

    /**
     * processCommand, lines 323-562, without CMD_SEEK and the status reply.
     * `now` is the current time; the result says whether the command asks
     * the process to exit after replying.  The switch is split in two: the
     * commands that change the view and those that change playback.
     */
    method ProcessCommand(cmd: Command, now: int) returns (quit: bool)
      requires Valid()
      modifies this
      ensures Valid()
      ensures quit == cmd.Quit?
      ensures paused == PausedAfter(cmd, old(paused))
      ensures replayRate == RateAfter(cmd, old(replayRate))
      ensures currFrameId == FrameAfter(cmd, old(currFrameId), old(mode), old(replayRate), old(event.lastFrameId))
      ensures step == (if cmd.SlowFwd? then 1 else if cmd.SlowRev? then -1 else old(step))
      ensures zoom == (if cmd.ZoomIn? then ZoomInLevel(old(zoom)) else if cmd.ZoomOut? then ZoomOutLevel(old(zoom)) else old(zoom))
      ensures sendFrame == (cmd.ZoomIn? || cmd.ZoomOut? || old(sendFrame))
      ensures forceEventChange == (cmd.Prev? || cmd.Next? || old(forceEventChange))
      ensures cmd.ZoomIn? ==> x == Word16(cmd.zx1, cmd.zx2) && y == Word16(cmd.zy1, cmd.zy2)
      ensures cmd.Pan? ==> x == Word16(cmd.px1, cmd.px2) && y == Word16(cmd.py1, cmd.py2)
      ensures !cmd.ZoomIn? && !cmd.Pan? ==> x == old(x) && y == old(y)
      ensures scale == (if cmd.Scale? then Word16(cmd.s1, cmd.s2) else old(scale))
      ensures lastFrameSent == (if cmd.Pause? then now else old(lastFrameSent))
      ensures mode == old(mode) && event == old(event) && currStreamTime == old(currStreamTime)
    {
      if cmd.ZoomIn? || cmd.ZoomOut? || cmd.Pan? || cmd.Scale? {
        ViewCommand(cmd);
      } else {
        PlaybackCommand(cmd, now);
      }
      quit := cmd.Quit?;
    }

    /** The cases of processCommand that change the view: lines 445-499. */
    method ViewCommand(cmd: Command)
      requires Valid() && (cmd.ZoomIn? || cmd.ZoomOut? || cmd.Pan? || cmd.Scale?)
      modifies this
      ensures Valid()
      ensures zoom == (if cmd.ZoomIn? then ZoomInLevel(old(zoom)) else if cmd.ZoomOut? then ZoomOutLevel(old(zoom)) else old(zoom))
      ensures sendFrame == (cmd.ZoomIn? || cmd.ZoomOut? || old(sendFrame))
      ensures cmd.ZoomIn? ==> x == Word16(cmd.zx1, cmd.zx2) && y == Word16(cmd.zy1, cmd.zy2)
      ensures cmd.Pan? ==> x == Word16(cmd.px1, cmd.px2) && y == Word16(cmd.py1, cmd.py2)
      ensures !cmd.ZoomIn? && !cmd.Pan? ==> x == old(x) && y == old(y)
      ensures scale == (if cmd.Scale? then Word16(cmd.s1, cmd.s2) else old(scale))
      ensures paused == old(paused) && replayRate == old(replayRate) && currFrameId == old(currFrameId)
      ensures step == old(step) && forceEventChange == old(forceEventChange) && lastFrameSent == old(lastFrameSent)
      ensures mode == old(mode) && event == old(event) && currStreamTime == old(currStreamTime)
    {
      match cmd {
        case ZoomIn(zx1, zx2, zy1, zy2) =>
          x := Word16(zx1, zx2);
          y := Word16(zy1, zy2);
          zoom := ZoomInLevel(zoom);
          sendFrame := true;
        case ZoomOut =>
          zoom := ZoomOutLevel(zoom);
          sendFrame := true;
        case Pan(px1, px2, py1, py2) =>
          x := Word16(px1, px2);
          y := Word16(py1, py2);
        case Scale(s1, s2) =>
          scale := Word16(s1, s2);
      }
    }

    /** The cases of processCommand that change playback: lines 326-444 and 500-517. */
    method PlaybackCommand(cmd: Command, now: int)
      requires Valid() && !(cmd.ZoomIn? || cmd.ZoomOut? || cmd.Pan? || cmd.Scale?)
      modifies this
      ensures Valid()
      ensures paused == PausedAfter(cmd, old(paused))
      ensures replayRate == RateAfter(cmd, old(replayRate))
      ensures currFrameId == FrameAfter(cmd, old(currFrameId), old(mode), old(replayRate), old(event.lastFrameId))
      ensures step == (if cmd.SlowFwd? then 1 else if cmd.SlowRev? then -1 else old(step))
      ensures forceEventChange == (cmd.Prev? || cmd.Next? || old(forceEventChange))
      ensures lastFrameSent == (if cmd.Pause? then now else old(lastFrameSent))
      ensures zoom == old(zoom) && sendFrame == old(sendFrame) && x == old(x) && y == old(y) && scale == old(scale)
      ensures mode == old(mode) && event == old(event) && currStreamTime == old(currStreamTime)
    {
      if cmd.Pause? || cmd.Play? || cmd.VarPlay? || cmd.Stop? || cmd.FastFwd? || cmd.FastRev? {
        RateCommand(cmd, now);
      } else {
        StepCommand(cmd, now);
      }
    }

    /** The cases of processCommand that set the rate: lines 327-402 and 419-444 (FASTREV). */
    method RateCommand(cmd: Command, now: int)
      requires Valid() && (cmd.Pause? || cmd.Play? || cmd.VarPlay? || cmd.Stop? || cmd.FastFwd? || cmd.FastRev?)
      modifies this
      ensures Valid()
      ensures paused == PausedAfter(cmd, old(paused))
      ensures replayRate == RateAfter(cmd, old(replayRate))
      ensures currFrameId == FrameAfter(cmd, old(currFrameId), old(mode), old(replayRate), old(event.lastFrameId))
      ensures step == (if cmd.SlowFwd? then 1 else if cmd.SlowRev? then -1 else old(step))
      ensures forceEventChange == (cmd.Prev? || cmd.Next? || old(forceEventChange))
      ensures lastFrameSent == (if cmd.Pause? then now else old(lastFrameSent))
      ensures zoom == old(zoom) && sendFrame == old(sendFrame) && x == old(x) && y == old(y) && scale == old(scale)
      ensures mode == old(mode) && event == old(event) && currStreamTime == old(currStreamTime)
    {
      match cmd {
        case Pause =>
          paused := true;
          replayRate := RateBase;
          lastFrameSent := now;
        case Play =>
          if paused {
            paused := false;
          }
          if (mode == ModeSingle || mode == ModeNone) && U32(currFrameId) == event.lastFrameId {
            currFrameId := 1;
          }
          replayRate := RateBase;
        case VarPlay(b1, b2) =>
          if paused {
            paused := false;
          }
          replayRate := DecodeRate(b1, b2);
          if replayRate > 50 * RateBase {
            replayRate := 50 * RateBase;
          } else if replayRate < -50 * RateBase {
            replayRate := -50 * RateBase;
          }
        case Stop =>
          paused := false;
        case FastFwd =>
          if paused {
            paused := false;
          }
          replayRate := FastForwardRate(replayRate);
        case FastRev =>
          paused := false;
          replayRate := FastReverseRate(replayRate);
      }
    }

    /** The cases of processCommand that move the frame: lines 403-418, 500-517 and 553-561. */
    method StepCommand(cmd: Command, now: int)
      requires Valid() && (cmd.SlowFwd? || cmd.SlowRev? || cmd.Prev? || cmd.Next? || cmd.Query? || cmd.Quit? || cmd.Other?)
      modifies this
      ensures Valid()
      ensures paused == PausedAfter(cmd, old(paused))
      ensures replayRate == RateAfter(cmd, old(replayRate))
      ensures currFrameId == FrameAfter(cmd, old(currFrameId), old(mode), old(replayRate), old(event.lastFrameId))
      ensures step == (if cmd.SlowFwd? then 1 else if cmd.SlowRev? then -1 else old(step))
      ensures forceEventChange == (cmd.Prev? || cmd.Next? || old(forceEventChange))
      ensures lastFrameSent == (if cmd.Pause? then now else old(lastFrameSent))
      ensures zoom == old(zoom) && sendFrame == old(sendFrame) && x == old(x) && y == old(y) && scale == old(scale)
      ensures mode == old(mode) && event == old(event) && currStreamTime == old(currStreamTime)
    {
      match cmd {
        case SlowFwd =>
          paused := true;
          replayRate := RateBase;
          step := 1;
          if U32(currFrameId) < event.lastFrameId {
            currFrameId := currFrameId + 1;
          }
        case SlowRev =>
          paused := true;
          replayRate := RateBase;
          step := -1;
          currFrameId := currFrameId - 1;
          if currFrameId < 1 {
            currFrameId := 1;
          }
        case Prev =>
          if replayRate >= 0 {
            currFrameId := 0;
          } else {
            currFrameId := event.lastFrameId + 1;
          }
          paused := false;
          forceEventChange := true;
        case Next =>
          if replayRate >= 0 {
            currFrameId := event.lastFrameId + 1;
          } else {
            currFrameId := 0;
          }
          paused := false;
          forceEventChange := true;
        case Query =>
        case Quit =>
        case Other =>
      }
    }

    /**
     * The frame-id logic of checkEventLoaded, lines 611-688.  `reloaded` is
     * what reloading the current, still recorded event gives; `found` is the
     * previous or next event of the monitor, if the database has one.  The
     * result says whether a new event was loaded.
     */
    method CheckEventLoaded(reloaded: EventData, found: Option<EventData>) returns (changed: bool)
      requires Valid() && EventFits(reloaded)
      requires found.Some? ==> EventFits(found.value)
      requires var pos := PositionOf(currFrameId, event.lastFrameId);
               forceEventChange || mode == ModeAllGapless ==>
                 (pos == AfterEvent && event.inProgress ==> StreamTimeDefined(reloaded, replayRate)) &&
                 (pos != InEvent && !(pos == AfterEvent && event.inProgress) && found.Some? ==>
                    StreamTimeDefined(found.value, replayRate))
      modifies this
      ensures Valid()
      ensures var pos := PositionOf(old(currFrameId), old(event.lastFrameId));
              var wanted := old(forceEventChange) || (old(mode) != ModeSingle && old(mode) != ModeNone);
              var resets := old(forceEventChange) || old(mode) == ModeAllGapless;
              && (pos == InEvent ==>
                    !changed && currFrameId == old(currFrameId) && event == old(event) &&
                    paused == old(paused) && forceEventChange == old(forceEventChange) &&
                    currStreamTime == old(currStreamTime))
              && (pos == AfterEvent && old(event.inProgress) ==>
                    !changed && event == reloaded && paused == old(paused) &&
                    forceEventChange == old(forceEventChange) &&
                    currFrameId == (if U32(old(currFrameId)) > reloaded.lastFrameId then reloaded.lastFrameId else old(currFrameId)) &&
                    currStreamTime == (if resets then LoadedStreamTime(reloaded, old(replayRate)) else old(currStreamTime)))
              && (pos != InEvent && !(pos == AfterEvent && old(event.inProgress)) && wanted && found.Some? ==>
                    changed && event == found.value && paused == old(paused) &&
                    forceEventChange == old(forceEventChange) &&
                    currFrameId == (if old(replayRate) < 0 then found.value.lastFrameId else 1) &&
                    currStreamTime == (if resets then LoadedStreamTime(found.value, old(replayRate)) else old(currStreamTime)))
              && (pos != InEvent && !(pos == AfterEvent && old(event.inProgress)) && found.None? ==>
                    currStreamTime == old(currStreamTime))
              && (pos != InEvent && !(pos == AfterEvent && old(event.inProgress)) && !wanted ==>
                    currStreamTime == old(currStreamTime))
              && (pos != InEvent && !(pos == AfterEvent && old(event.inProgress)) && wanted && found.None? ==>
                    !changed && event == old(event) && paused && !forceEventChange &&
                    currFrameId == (if pos == BeforeEvent then 1 else old(event.frameCount)))
              && (pos != InEvent && !(pos == AfterEvent && old(event.inProgress)) && !wanted ==>
                    !changed && event == old(event) && paused && forceEventChange == old(forceEventChange) &&
                    currFrameId == (if pos == BeforeEvent then 1 else old(event.lastFrameId)))
      ensures mode == old(mode) && replayRate == old(replayRate) && zoom == old(zoom) && step == old(step)
      ensures sendFrame == old(sendFrame) && x == old(x) && y == old(y) && scale == old(scale)
      ensures lastFrameSent == old(lastFrameSent)
    {
      var pos := PositionOf(currFrameId, event.lastFrameId);
      if pos == InEvent {
        return false;
      }
      if pos == AfterEvent && event.inProgress {
        // a still recorded event is simply reloaded
        LoadEvent(reloaded);
        if U32(currFrameId) > event.lastFrameId {
          currFrameId := event.lastFrameId;
        }
        return false;
      }
      if forceEventChange || (mode != ModeSingle && mode != ModeNone) {
        if found.Some? {
          LoadEvent(found.value);
          if replayRate < 0 {
            currFrameId := event.lastFrameId;
          } else {
            currFrameId := 1;
          }
          return true;
        } else {
          if currFrameId <= 0 {
            currFrameId := 1;
          } else {
            currFrameId := event.frameCount;
          }
          paused := true;
        }
        forceEventChange := false;
      } else {
        if currFrameId <= 0 {
          currFrameId := 1;
        } else {
          currFrameId := event.lastFrameId;
        }
        paused := true;
      }
      return false;
    }

    /**
     * The start of a runStream iteration, line 863: no frame is due yet.
     * The queued commands are handled next (ProcessCommand), then Tick.
     */
    method StartIteration()
      modifies this
      ensures !sendFrame
      ensures mode == old(mode) && paused == old(paused) && replayRate == old(replayRate) && zoom == old(zoom)
      ensures step == old(step) && currFrameId == old(currFrameId) && forceEventChange == old(forceEventChange)
      ensures x == old(x) && y == old(y) && scale == old(scale) && lastFrameSent == old(lastFrameSent)
      ensures event == old(event) && currStreamTime == old(currStreamTime)
    {
      sendFrame := false;
    }

    /**
     * The frame-step rule of one runStream iteration, lines 879-903 and
     * 944-1055, after the queued commands have been handled: `sendFrame`
     * is what those commands left.  `frameMod` is the frame skip factor,
     * `keepaliveDue` whether the last frame was sent longer ago than the
     * maximum stream delay and `now` the iteration's time.  A frame that is
     * sent records `now` as the time of the last frame sent (sendFrame,
     * line 831).  The image output, sleeping and the wait before the next
     * event are not modelled.
     */
    method Tick(frameMod: int, keepaliveDue: bool, now: int)
      requires Valid() && frameMod >= 1
      requires 1 <= currFrameId <= event.frameCount
      modifies this
      ensures Valid()
      ensures lastFrameSent == (if sendFrame then now else old(lastFrameSent))
      ensures currStreamTime == old(event.frames[currFrameId - 1].timestamp)
      ensures !old(paused) ==>
                sendFrame == (old(sendFrame) || frameMod == 1 || CRem(old(currFrameId) - 1, frameMod) == 0)
      ensures old(paused) && old(step) != 0 ==> sendFrame
      ensures old(paused) && old(step) == 0 ==> sendFrame == (old(sendFrame) || keepaliveDue)
      ensures step == (if old(paused) then 0 else old(step))
      ensures var moved := old(currFrameId) + (if old(replayRate) > 0 then frameMod else -frameMod);
              !old(paused) ==>
                currFrameId == (if mode == ModeSingle && (moved < 1 || U32(moved) >= event.frameCount) then 1 else moved)
      ensures old(paused) ==> currFrameId == old(currFrameId)
      ensures mode == old(mode) && paused == old(paused) && replayRate == old(replayRate) && zoom == old(zoom)
      ensures event == old(event) && forceEventChange == old(forceEventChange)
      ensures x == old(x) && y == old(y) && scale == old(scale)
    {
      // the frame the stream is on is the one sent, and the stream time moves to it
      var frameData := event.frames[currFrameId - 1];
      var send, st, id := sendFrame, step, currFrameId;
      if !paused {
        if frameMod == 1 || CRem(id - 1, frameMod) == 0 {
          send := true;
        }
      } else if st != 0 {
        // a paused single step is sent once
        st := 0;
        send := true;
      } else if !send {
        if keepaliveDue {
          send := true;
        }
      }

      if !paused {
        id := id + (if replayRate > 0 then frameMod else -1 * frameMod);
        if mode == ModeSingle && (id < 1 || U32(id) >= event.frameCount) {
          id := 1;
        }
      } else {
        // step was cleared above, so a paused stream stays on its frame
        id := id + st;
      }
      sendFrame, step, currFrameId := send, st, id;
      if send {
        lastFrameSent := now;
      }
      currStreamTime := frameData.timestamp;
    }

    /**
     * One runStream iteration in which no command is queued: line 863
     * clears send_frame, so whether a frame is sent depends only on this
     * iteration's state, never on an earlier iteration's decision.
     */
    method QuietIteration(frameMod: int, keepaliveDue: bool, now: int)
      requires Valid() && frameMod >= 1
      requires 1 <= currFrameId <= event.frameCount
      modifies this
      ensures Valid()
      ensures sendFrame == (if !old(paused) then frameMod == 1 || CRem(old(currFrameId) - 1, frameMod) == 0
                            else old(step) != 0 || keepaliveDue)
      ensures lastFrameSent == (if sendFrame then now else old(lastFrameSent))
      ensures currStreamTime == old(event.frames[currFrameId - 1].timestamp)
      ensures step == (if old(paused) then 0 else old(step))
      ensures var moved := old(currFrameId) + (if old(replayRate) > 0 then frameMod else -frameMod);
              !old(paused) ==>
                currFrameId == (if mode == ModeSingle && (moved < 1 || U32(moved) >= event.frameCount) then 1 else moved)
      ensures old(paused) ==> currFrameId == old(currFrameId)
      ensures mode == old(mode) && paused == old(paused) && replayRate == old(replayRate) && event == old(event)
      ensures zoom == old(zoom) && x == old(x) && y == old(y) && scale == old(scale)
      ensures forceEventChange == old(forceEventChange)
    {
      StartIteration();
      Tick(frameMod, keepaliveDue, now);
    }
  }

  /** Some value or none, for the oracle answers. */
  datatype Option<T> = None | Some(value: T)
}
