/**
 * The packet queue shared by a monitor's capture, decoder and analysis
 * threads (PacketQueue).
 *
 * The queue is a list of packets; `packet_counts[s]` keeps, per stream, how
 * many queued packets belong to stream `s`; and a registry of iterators lets
 * each consumer thread remember where it is.  An iterator designates a queued
 * packet or the end of the list.
 *
 * The model keeps the list as a sequence and designates a packet by its
 * position in it (the source queues every packet object once, so a packet and
 * its position determine each other).  An iterator is a position, |packets|
 * standing for end.  Because a list iterator stays on its packet when other
 * packets are removed, an iterator's position drops by one for every removed
 * packet before it.  Whether a packet's trylock would fail is the packet's
 * `locked` flag.
 */
module PacketQueue {

  /** A queued packet: its stream, whether it is a keyframe, and whether another thread holds its lock. */
  datatype Packet = Packet(streamIndex: int, keyframe: bool, locked: bool)

  predicate IsVideoKeyframe(p: Packet, video: int)
  {
    p.streamIndex == video && p.keyframe
  }

  function Min(a: nat, b: nat): nat
  {
    if a <= b then a else b
  }

  // ---------------------------------------------------------------------
  // Counting

  /** The number of packets of stream `s` in `ps`. */
  function CountOf(ps: seq<Packet>, s: int): (n: nat)
    ensures n <= |ps|
  {
    if |ps| == 0 then 0
    else CountOf(ps[..|ps| - 1], s) + (if ps[|ps| - 1].streamIndex == s then 1 else 0)
  }

  lemma {:induction false} CountOfConcat(a: seq<Packet>, b: seq<Packet>, s: int)
    ensures CountOf(a + b, s) == CountOf(a, s) + CountOf(b, s)
    decreases |b|
  {
    if |b| == 0 {
      assert a + b == a;
    } else {
      assert (a + b)[..|a + b| - 1] == a + b[..|b| - 1];
      CountOfConcat(a, b[..|b| - 1], s);
    }
  }

  lemma CountOfSingle(p: Packet, s: int)
    ensures CountOf([p], s) == if p.streamIndex == s then 1 else 0
  {
    assert [p][..0] == [];
  }

  /** Appending a packet adds one to its own stream's count and nothing to the others. */
  lemma CountOfAppend(ps: seq<Packet>, p: Packet, s: int)
    ensures CountOf(ps + [p], s) == CountOf(ps, s) + (if p.streamIndex == s then 1 else 0)
  {
    CountOfConcat(ps, [p], s);
    CountOfSingle(p, s);
  }

  /** Removing the packet at `k` takes one from its own stream's count and nothing from the others. */
  lemma CountOfRemove(ps: seq<Packet>, k: nat, s: int)
    requires k < |ps|
    ensures CountOf(ps[..k] + ps[k + 1..], s) == CountOf(ps, s) - (if ps[k].streamIndex == s then 1 else 0)
  {
    assert ps == ps[..k] + [ps[k]] + ps[k + 1..];
    CountOfConcat(ps[..k] + [ps[k]], ps[k + 1..], s);
    CountOfConcat(ps[..k], [ps[k]], s);
    CountOfConcat(ps[..k], ps[k + 1..], s);
    CountOfSingle(ps[k], s);
  }

  /** Popping the front packet takes one from its own stream's count. */
  lemma CountOfPopFront(ps: seq<Packet>, s: int)
    requires |ps| > 0
    ensures CountOf(ps[1..], s) == CountOf(ps, s) - (if ps[0].streamIndex == s then 1 else 0)
  {
    CountOfRemove(ps, 0, s);
    assert ps[..0] + ps[1..] == ps[1..];
  }

  /** Dropping a front prefix of `m` packets takes the front packet's and the rest of the prefix's packets from a stream's count. */
  lemma CountOfDropPrefix(ps: seq<Packet>, m: nat, s: int)
    requires 0 < m <= |ps|
    ensures CountOf(ps[m..], s) == CountOf(ps, s) - CountOf(ps[1..m], s) - (if ps[0].streamIndex == s then 1 else 0)
    ensures CountOf(ps[..m], s) == CountOf(ps[1..m], s) + (if ps[0].streamIndex == s then 1 else 0)
  {
    assert ps == [ps[0]] + ps[1..m] + ps[m..];
    assert ps[..m] == [ps[0]] + ps[1..m];
    CountOfConcat([ps[0]] + ps[1..m], ps[m..], s);
    CountOfConcat([ps[0]], ps[1..m], s);
    CountOfSingle(ps[0], s);
  }

  /** One more packet at the back of a window of the queue. */
  lemma CountOfWindowGrow(ps: seq<Packet>, lo: nat, hi: nat, s: int)
    requires lo <= hi < |ps|
    ensures CountOf(ps[lo..hi + 1], s) == CountOf(ps[lo..hi], s) + (if ps[hi].streamIndex == s then 1 else 0)
  {
    assert ps[lo..hi + 1][..hi - lo] == ps[lo..hi];
  }

  /** A window that starts earlier holds at least as many packets of a stream. */
  lemma CountOfWindowWiden(ps: seq<Packet>, a: nat, c: nat, b: nat, s: int)
    requires a <= c <= b <= |ps|
    ensures CountOf(ps[a..b], s) >= CountOf(ps[c..b], s)
  {
    assert ps[a..b] == ps[a..c] + ps[c..b];
    CountOfConcat(ps[a..c], ps[c..b], s);
  }

  /** Every packet belongs to a stream the queue counts. */
  predicate StreamsIn(ps: seq<Packet>, maxStream: int)
  {
    forall i :: 0 <= i < |ps| ==> 0 <= ps[i].streamIndex <= maxStream
  }

  /** `cs[s]` is the number of queued packets of stream `s`, for every counted stream. */
  predicate CountsMatch(cs: seq<int>, ps: seq<Packet>)
  {
    forall s :: 0 <= s < |cs| ==> cs[s] == CountOf(ps, s)
  }

  /** Every registered iterator is at a packet or at end. */
  predicate ItersIn(its: map<nat, nat>, len: nat)
  {
    forall h :: h in its ==> its[h] <= len
  }

  // ---------------------------------------------------------------------
  // Overflow eviction (queuePacket)

  /** The locked packets of `ps`, in order: what an eviction pass over `ps` leaves. */
  function LockedOf(ps: seq<Packet>): (r: seq<Packet>)
    ensures |r| <= |ps|
    ensures forall i :: 0 <= i < |r| ==> r[i].locked
  {
    if |ps| == 0 then []
    else LockedOf(ps[..|ps| - 1]) + (if ps[|ps| - 1].locked then [ps[|ps| - 1]] else [])
  }

  /** How many packets of `ps` are not locked. */
  function UnlockedCount(ps: seq<Packet>): nat
  {
    |ps| - |LockedOf(ps)|
  }

  lemma {:induction false} LockedOfConcat(a: seq<Packet>, b: seq<Packet>)
    ensures LockedOf(a + b) == LockedOf(a) + LockedOf(b)
    decreases |b|
  {
    if |b| == 0 {
      assert a + b == a;
    } else {
      assert (a + b)[..|a + b| - 1] == a + b[..|b| - 1];
      LockedOfConcat(a, b[..|b| - 1]);
    }
  }

  lemma LockedOfSingle(p: Packet)
    ensures LockedOf([p]) == if p.locked then [p] else []
  {
    assert [p][..0] == [];
  }

  /** The window ps[lo..hi] grown by one packet at the back. */
  lemma LockedOfWindowGrow(ps: seq<Packet>, lo: nat, hi: nat)
    requires lo <= hi < |ps|
    ensures LockedOf(ps[lo..hi + 1]) == LockedOf(ps[lo..hi]) + (if ps[hi].locked then [ps[hi]] else [])
  {
    assert ps[lo..hi + 1][..hi - lo] == ps[lo..hi];
  }

  lemma {:induction false} LockedOfLocked(ps: seq<Packet>)
    requires forall i :: 0 <= i < |ps| ==> ps[i].locked
    ensures LockedOf(ps) == ps
    decreases |ps|
  {
    if |ps| > 0 {
      LockedOfLocked(ps[..|ps| - 1]);
    }
  }

  /**
   * The position of the packet the eviction pass stops at, scanning from `i`:
   * the first unlocked video packet before the last packet, or the last
   * packet (the one just added) when there is none.
   */
  function EvictStop(ps: seq<Packet>, video: int, i: nat): (k: nat)
    requires 1 <= i <= |ps| - 1
    ensures i <= k <= |ps| - 1
    ensures k < |ps| - 1 ==> !ps[k].locked && ps[k].streamIndex == video
    decreases |ps| - i
  {
    if i == |ps| - 1 then i
    else if !ps[i].locked && ps[i].streamIndex == video then i
    else EvictStop(ps, video, i + 1)
  }

  /** The packets between `i` and the stop are locked or of another stream. */
  lemma {:induction false} EvictStopIsFirst(ps: seq<Packet>, video: int, i: nat, j: nat)
    requires 1 <= i <= |ps| - 1 && i <= j < EvictStop(ps, video, i)
    ensures ps[j].locked || ps[j].streamIndex != video
    decreases |ps| - i
  {
    if i < j {
      EvictStopIsFirst(ps, video, i + 1, j);
    }
  }

  /** Whether the eviction pass found a video packet it could remove. */
  predicate EvictsVideo(ps: seq<Packet>, video: int)
    requires |ps| >= 2
  {
    EvictStop(ps, video, 1) < |ps| - 1
  }

  /** The end (exclusive) of the range the eviction pass has looked at. */
  function EvictEnd(ps: seq<Packet>, video: int): nat
    requires |ps| >= 2
  {
    var k := EvictStop(ps, video, 1);
    if k < |ps| - 1 then k + 1 else k
  }

  /**
   * The queue after overflow eviction: every unlocked packet between the
   * front and the stop is removed, and so is the stop when it is a video
   * packet the pass could remove.  The front and the packet just added stay.
   */
  function Evicted(ps: seq<Packet>, video: int): (r: seq<Packet>)
    requires |ps| >= 2
    ensures 2 <= |r| <= |ps|
    ensures r[0] == ps[0] && r[|r| - 1] == ps[|ps| - 1]
  {
    var k := EvictStop(ps, video, 1);
    [ps[0]] + LockedOf(ps[1..k]) + ps[EvictEnd(ps, video)..]
  }

  /**
   * Where an iterator that was at `pos` is once the pass has looked at the
   * positions before `r`: one place earlier for every packet removed before
   * it.  An iterator on a removed packet thereby lands on its successor.
   */
  function ShiftedPos(ps: seq<Packet>, r: nat, pos: nat): nat
    requires 1 <= r <= |ps| && pos <= |ps|
  {
    if pos == 0 then 0 else pos - UnlockedCount(ps[1..Min(pos, r)])
  }

  function ShiftedIters(ps: seq<Packet>, r: nat, its: map<nat, nat>): map<nat, nat>
    requires 1 <= r <= |ps| && ItersIn(its, |ps|)
  {
    map h | h in its :: ShiftedPos(ps, r, its[h])
  }

  /** The iterator registry after overflow eviction. */
  function EvictedIters(ps: seq<Packet>, video: int, its: map<nat, nat>): map<nat, nat>
    requires |ps| >= 2 && ItersIn(its, |ps|)
  {
    ShiftedIters(ps, EvictEnd(ps, video), its)
  }

  /** The queue once the eviction pass has looked at the positions before `r`. */
  function EvictPartial(ps: seq<Packet>, r: nat): seq<Packet>
    requires 1 <= r <= |ps|
  {
    [ps[0]] + LockedOf(ps[1..r]) + ps[r..]
  }

  /** Where the packet the pass looks at next sits in EvictPartial(ps, r). */
  function EvictCursor(ps: seq<Packet>, r: nat): nat
    requires 1 <= r <= |ps|
  {
    1 + |LockedOf(ps[1..r])|
  }

  /** The registry once the packet at `idx` is erased, each iterator on it having been bumped to its successor. */
  function BumpAt(its: map<nat, nat>, idx: nat): map<nat, nat>
  {
    map h | h in its :: if its[h] > idx then its[h] - 1 else its[h]
  }

  /** One step of the pass over a locked packet: nothing changes. */
  lemma EvictSkipStep(ps: seq<Packet>, r: nat, its: map<nat, nat>)
    requires 1 <= r < |ps| && ps[r].locked && ItersIn(its, |ps|)
    ensures EvictPartial(ps, r)[EvictCursor(ps, r)] == ps[r]
    ensures EvictPartial(ps, r + 1) == EvictPartial(ps, r)
    ensures EvictCursor(ps, r + 1) == EvictCursor(ps, r) + 1
    ensures ShiftedIters(ps, r + 1, its) == ShiftedIters(ps, r, its)
  {
    LockedOfWindowGrow(ps, 1, r);
    assert ps[r..][1..] == ps[r + 1..];
    assert ps[r..] == [ps[r]] + ps[r + 1..];
    forall h | h in its
      ensures ShiftedPos(ps, r, its[h]) == ShiftedPos(ps, r + 1, its[h])
    {
      ShiftSkip(ps, r, its[h]);
    }
  }

  /** One step of the pass over an unlocked packet: it is erased and the iterators behind it move up. */
  lemma EvictEraseStep(ps: seq<Packet>, r: nat, its: map<nat, nat>)
    requires 1 <= r < |ps| && !ps[r].locked && ItersIn(its, |ps|)
    ensures var cur, idx := EvictPartial(ps, r), EvictCursor(ps, r);
            && cur[idx] == ps[r]
            && EvictPartial(ps, r + 1) == cur[..idx] + cur[idx + 1..]
            && EvictCursor(ps, r + 1) == idx
            && ShiftedIters(ps, r + 1, its) == BumpAt(ShiftedIters(ps, r, its), idx)
  {
    EvictErasePackets(ps, r);
    EvictEraseIters(ps, r, its);
  }

  /** Erasing the unlocked packet at `r`: the cursor stays and the packet leaves the queue. */
  lemma EvictErasePackets(ps: seq<Packet>, r: nat)
    requires 1 <= r < |ps| && !ps[r].locked
    ensures var cur, idx := EvictPartial(ps, r), EvictCursor(ps, r);
            && cur[idx] == ps[r]
            && EvictPartial(ps, r + 1) == cur[..idx] + cur[idx + 1..]
            && EvictCursor(ps, r + 1) == idx
  {
    var cur, idx := EvictPartial(ps, r), EvictCursor(ps, r);
    LockedOfWindowGrow(ps, 1, r);
    assert cur[..idx] == [ps[0]] + LockedOf(ps[1..r]);
    assert cur[idx + 1..] == ps[r + 1..];
  }

  /** Erasing the unlocked packet at `r`: the iterators behind it move up one place. */
  lemma EvictEraseIters(ps: seq<Packet>, r: nat, its: map<nat, nat>)
    requires 1 <= r < |ps| && !ps[r].locked && ItersIn(its, |ps|)
    ensures ShiftedIters(ps, r + 1, its) == BumpAt(ShiftedIters(ps, r, its), EvictCursor(ps, r))
  {
    var idx := EvictCursor(ps, r);
    var before, after := ShiftedIters(ps, r, its), ShiftedIters(ps, r + 1, its);
    var bumped := BumpAt(before, idx);
    assert after.Keys == its.Keys && bumped.Keys == its.Keys;
    forall h | h in its
      ensures after[h] == bumped[h]
    {
      ShiftStep(ps, r, its[h]);
    }
  }

  /** Once the pass has looked at every position before the end of its range, the queue is the evicted one. */
  lemma EvictPartialDone(ps: seq<Packet>, video: int)
    requires |ps| >= 2
    ensures EvictPartial(ps, EvictEnd(ps, video)) == Evicted(ps, video)
  {
    var k := EvictStop(ps, video, 1);
    if EvictEnd(ps, video) > k {
      LockedOfWindowGrow(ps, 1, k);
    }
  }

  /** Every locked packet survives the eviction pass, in order. */
  lemma {:induction false} EvictedKeepsLocked(ps: seq<Packet>, video: int)
    requires |ps| >= 2
    ensures LockedOf(Evicted(ps, video)) == LockedOf(ps)
  {
    var k := EvictStop(ps, video, 1);
    var e := EvictEnd(ps, video);
    var front, a, b, c := [ps[0]], ps[1..k], ps[k..e], ps[e..];
    assert ps == front + a + b + c;
    if e > k {
      assert b == [ps[k]];
      LockedOfSingle(ps[k]);
    } else {
      assert b == [];
    }
    assert LockedOf(b) == [];
    calc {
      LockedOf(ps);
      LockedOf(front + a + b + c);
      { LockedOfConcat(front + a + b, c); }
      LockedOf(front + a + b) + LockedOf(c);
      { LockedOfConcat(front + a, b); }
      LockedOf(front + a) + LockedOf(b) + LockedOf(c);
      { LockedOfConcat(front, a); }
      LockedOf(front) + LockedOf(a) + LockedOf(c);
      { LockedOfLocked(LockedOf(a)); }
      LockedOf(front) + LockedOf(LockedOf(a)) + LockedOf(c);
      { LockedOfConcat(front, LockedOf(a)); }
      LockedOf(front + LockedOf(a)) + LockedOf(c);
      { LockedOfConcat(front + LockedOf(a), c); }
      LockedOf(front + LockedOf(a) + c);
    }
  }

  /** Dropping the unlocked packets of a range with no unlocked video packet keeps its video count. */
  lemma {:induction false} LockedOfKeepsVideo(ps: seq<Packet>, video: int)
    requires forall i :: 0 <= i < |ps| ==> ps[i].locked || ps[i].streamIndex != video
    ensures CountOf(LockedOf(ps), video) == CountOf(ps, video)
    decreases |ps|
  {
    if |ps| > 0 {
      var last := ps[|ps| - 1];
      LockedOfKeepsVideo(ps[..|ps| - 1], video);
      CountOfConcat(LockedOf(ps[..|ps| - 1]), if last.locked then [last] else [], video);
      if last.locked {
        CountOfSingle(last, video);
      } else {
        assert LockedOf(ps[..|ps| - 1]) + [] == LockedOf(ps[..|ps| - 1]);
      }
    }
  }

  /**
   * The eviction pass removes exactly one video packet when there is an
   * unlocked one between the front and the packet just added, and none
   * otherwise.
   */
  lemma {:induction false} EvictedVideoCount(ps: seq<Packet>, video: int)
    requires |ps| >= 2
    ensures CountOf(Evicted(ps, video), video) == CountOf(ps, video) - (if EvictsVideo(ps, video) then 1 else 0)
  {
    var k := EvictStop(ps, video, 1);
    var e := EvictEnd(ps, video);
    forall j | 0 <= j < |ps[1..k]|
      ensures ps[1..k][j].locked || ps[1..k][j].streamIndex != video
    {
      EvictStopIsFirst(ps, video, 1, j + 1);
    }
    var front, a, b, c := [ps[0]], ps[1..k], ps[k..e], ps[e..];
    LockedOfKeepsVideo(a, video);
    assert ps == front + a + b + c;
    if e > k {
      assert b == [ps[k]];
      CountOfSingle(ps[k], video);
    } else {
      assert b == [];
    }
    assert CountOf(b, video) == if EvictsVideo(ps, video) then 1 else 0;
    CountOfConcat(front + a + b, c, video);
    CountOfConcat(front + a, b, video);
    CountOfConcat(front, a, video);
    CountOfConcat(front + LockedOf(a), c, video);
    CountOfConcat(front, LockedOf(a), video);
    assert Evicted(ps, video) == front + LockedOf(a) + c;
  }

  /** The locked packets of ps[1..r] split at a position `pos` inside it. */
  lemma LockedOfSplit(ps: seq<Packet>, pos: nat, r: nat)
    requires 1 <= pos <= r <= |ps|
    ensures LockedOf(ps[1..r]) == LockedOf(ps[1..pos]) + LockedOf(ps[pos..r])
  {
    assert ps[1..r] == ps[1..pos] + ps[pos..r];
    LockedOfConcat(ps[1..pos], ps[pos..r]);
  }

  /** Removing the unlocked packet at `r` (now at `idx`) moves the iterators behind it one place. */
  lemma ShiftStep(ps: seq<Packet>, r: nat, pos: nat)
    requires 1 <= r < |ps| && pos <= |ps| && !ps[r].locked
    ensures var idx := 1 + |LockedOf(ps[1..r])|;
            var q := ShiftedPos(ps, r, pos);
            (if q > idx then q - 1 else q) == ShiftedPos(ps, r + 1, pos)
  {
    LockedOfWindowGrow(ps, 1, r);
    if 1 <= pos <= r {
      LockedOfSplit(ps, pos, r);
    }
  }

  /** Passing over the locked packet at `r` moves no iterator. */
  lemma ShiftSkip(ps: seq<Packet>, r: nat, pos: nat)
    requires 1 <= r < |ps| && pos <= |ps| && ps[r].locked
    ensures ShiftedPos(ps, r, pos) == ShiftedPos(ps, r + 1, pos)
  {
    LockedOfWindowGrow(ps, 1, r);
  }

  /** An iterator on a removed packet ends where an iterator on the next packet ends: on its successor. */
  lemma {:induction false} EvictedIterMovesToSuccessor(ps: seq<Packet>, video: int, pos: nat)
    requires |ps| >= 2 && 1 <= pos < EvictEnd(ps, video) && !ps[pos].locked
    ensures ShiftedPos(ps, EvictEnd(ps, video), pos) == ShiftedPos(ps, EvictEnd(ps, video), pos + 1)
  {
    LockedOfWindowGrow(ps, 1, pos);
  }

  /** An iterator at end stays at end. */
  lemma {:induction false} EvictedIterEndStaysEnd(ps: seq<Packet>, video: int)
    requires |ps| >= 2
    ensures ShiftedPos(ps, EvictEnd(ps, video), |ps|) == |Evicted(ps, video)|
  {
    var k := EvictStop(ps, video, 1);
    var e := EvictEnd(ps, video);
    var l := |LockedOf(ps[1..k])|;
    assert |Evicted(ps, video)| == 1 + l + (|ps| - e);
    if e > k {
      LockedOfWindowGrow(ps, 1, k);
      assert UnlockedCount(ps[1..e]) == k - l;
    } else {
      assert UnlockedCount(ps[1..e]) == k - 1 - l;
    }
  }

  /** An iterator on a packet the pass keeps still designates that packet. */
  lemma {:induction false} EvictedIterKeepsPacket(ps: seq<Packet>, video: int, pos: nat)
    requires |ps| >= 2 && pos < |ps|
    requires pos == 0 || pos >= EvictEnd(ps, video) || ps[pos].locked
    ensures var q := ShiftedPos(ps, EvictEnd(ps, video), pos);
            q < |Evicted(ps, video)| && Evicted(ps, video)[q] == ps[pos]
  {
    if pos == 0 {
    } else if pos >= EvictEnd(ps, video) {
      KeptAfterStop(ps, video, pos);
    } else {
      KeptLockedBeforeStop(ps, video, pos);
    }
  }

  /** A packet after the range the pass looked at moves down by the number of packets removed. */
  lemma KeptAfterStop(ps: seq<Packet>, video: int, pos: nat)
    requires |ps| >= 2 && EvictEnd(ps, video) <= pos < |ps|
    ensures var q := ShiftedPos(ps, EvictEnd(ps, video), pos);
            q < |Evicted(ps, video)| && Evicted(ps, video)[q] == ps[pos]
  {
    var k := EvictStop(ps, video, 1);
    var e := EvictEnd(ps, video);
    var l := |LockedOf(ps[1..k])|;
    if e > k {
      LockedOfWindowGrow(ps, 1, k);
      assert UnlockedCount(ps[1..e]) == k - l;
    } else {
      assert UnlockedCount(ps[1..e]) == k - 1 - l;
    }
    assert ShiftedPos(ps, e, pos) == 1 + l + (pos - e);
  }

  /** A locked packet before the stop lands among the kept locked packets, in order. */
  lemma KeptLockedBeforeStop(ps: seq<Packet>, video: int, pos: nat)
    requires |ps| >= 2 && 1 <= pos < EvictEnd(ps, video) && ps[pos].locked
    ensures var q := ShiftedPos(ps, EvictEnd(ps, video), pos);
            q < |Evicted(ps, video)| && Evicted(ps, video)[q] == ps[pos]
  {
    var k := EvictStop(ps, video, 1);
    // a kept packet before the stop is a locked one
    assert pos < k;
    var lp := |LockedOf(ps[1..pos])|;
    assert ShiftedPos(ps, EvictEnd(ps, video), pos) == 1 + lp;
    LockedOfSplit(ps, pos, k);
    assert ps[pos..k] == [ps[pos]] + ps[pos + 1..k];
    LockedOfConcat([ps[pos]], ps[pos + 1..k]);
    LockedOfSingle(ps[pos]);
    assert LockedOf(ps[1..k]) == LockedOf(ps[1..pos]) + [ps[pos]] + LockedOf(ps[pos + 1..k]);
    assert LockedOf(ps[1..k])[lp] == ps[pos];
  }

  /** Every iterator that was at end (`end0`) designates `p` in `ps`. */
  predicate EndItersMoveTo(its0: map<nat, nat>, end0: nat, ps: seq<Packet>, its: map<nat, nat>, p: Packet)
  {
    forall h :: h in its0 && its0[h] == end0 ==> h in its && its[h] < |ps| && ps[its[h]] == p
  }

  /** The eviction pass leaves an iterator on the packet just added on that packet. */
  lemma EvictedEndIters(ps: seq<Packet>, video: int, its: map<nat, nat>)
    requires |ps| >= 2 && ItersIn(its, |ps|)
    ensures EndItersMoveTo(its, |ps| - 1, Evicted(ps, video), EvictedIters(ps, video, its), ps[|ps| - 1])
  {
    EvictedIterKeepsPacket(ps, video, |ps| - 1);
  }

  // ---------------------------------------------------------------------
  // Searches over the queue

  /** The scan of increment_it(it, stream): the first position after `pos` holding a packet of `stream`, or end. */
  method NextOfStream(ps: seq<Packet>, pos: nat, stream: int) returns (q: nat)
    requires pos < |ps|
    ensures pos < q <= |ps|
    ensures q < |ps| ==> ps[q].streamIndex == stream
    ensures forall j :: pos < j < q ==> ps[j].streamIndex != stream
  {
    q := pos + 1;
    while q < |ps| && ps[q].streamIndex != stream
      invariant pos < q <= |ps|
      invariant forall j :: pos < j < q ==> ps[j].streamIndex != stream
    {
      q := q + 1;
    }
  }

  /** The scan of get_video_it: the position of the first video keyframe, or end. */
  method FirstVideoKeyframe(ps: seq<Packet>, video: int) returns (q: nat)
    ensures q <= |ps|
    ensures q < |ps| ==> IsVideoKeyframe(ps[q], video)
    ensures forall j :: 0 <= j < q ==> !IsVideoKeyframe(ps[j], video)
  {
    q := 0;
    while q < |ps| && !IsVideoKeyframe(ps[q], video)
      invariant q <= |ps|
      invariant forall j :: 0 <= j < q ==> !IsVideoKeyframe(ps[j], video)
    {
      q := q + 1;
    }
  }

  /** The tail count of clearPackets: the video packets queued after add_packet, counted from the back. */
  method TailCount(ps: seq<Packet>, addPos: nat, video: int) returns (tail: nat)
    requires addPos < |ps|
    ensures tail == CountOf(ps[addPos + 1..], video)
  {
    tail := 0;
    var i := |ps| - 1;
    while i != addPos
      invariant addPos <= i < |ps|
      invariant tail == CountOf(ps[i + 1..], video)
    {
      CountOfPopFront(ps[i..], video);
      assert ps[i..][1..] == ps[i + 1..];
      if ps[i].streamIndex == video {
        tail := tail + 1;
      }
      i := i - 1;
    }
    assert ps[|ps|..] == [];
  }

  /**
   * The first walk of get_event_start_packet_it: step back from `pos`,
   * counting video packets, until `n` of them have been seen or the front is
   * reached.  Returns where it stopped and how many it still needed.  The
   * packet at the front is never examined.
   */
  function PreEventWalk(ps: seq<Packet>, video: int, pos: nat, n: nat): (w: (nat, nat))
    requires pos < |ps| && n > 0
    ensures w.0 <= pos && w.1 <= n
    ensures w.1 > 0 ==> w.0 == 0
    decreases pos
  {
    if pos == 0 then (0, n)
    else if ps[pos].streamIndex == video then
      (if n == 1 then (pos, 0) else PreEventWalk(ps, video, pos - 1, n - 1))
    else PreEventWalk(ps, video, pos - 1, n)
  }

  /** The second walk: step back from `pos` to the nearest video keyframe, or to the front. */
  function KeyframeWalk(ps: seq<Packet>, video: int, pos: nat): (k: nat)
    requires pos < |ps|
    ensures k <= pos
    ensures k > 0 ==> IsVideoKeyframe(ps[k], video)
    decreases pos
  {
    if pos == 0 then 0
    else if IsVideoKeyframe(ps[pos], video) then pos
    else KeyframeWalk(ps, video, pos - 1)
  }

  /** Whether the first walk found `n` video packets before reaching the front. */
  predicate PreEventSatisfied(ps: seq<Packet>, video: int, snapshot: nat, n: nat)
    requires snapshot < |ps|
  {
    n == 0 || PreEventWalk(ps, video, snapshot, n).1 == 0
  }

  /**
   * Where get_event_start_packet_it leaves its new iterator: never after the
   * snapshot and, with keep_keyframes, at a video keyframe unless at the front.
   */
  function EventStart(ps: seq<Packet>, video: int, snapshot: nat, n: nat, keep: bool): (r: nat)
    requires snapshot < |ps|
    ensures r <= snapshot
    ensures keep && r > 0 ==> IsVideoKeyframe(ps[r], video)
  {
    var w := if n == 0 then (snapshot, 0) else PreEventWalk(ps, video, snapshot, n);
    if w.1 > 0 || !keep then w.0 else KeyframeWalk(ps, video, w.0)
  }

  /**
   * The packets from the point the first walk stopped up to `pos` hold the
   * video packets it counted; when it stopped short at the front, the
   * window starts after the front.
   */
  lemma {:induction false} PreEventWindow(ps: seq<Packet>, video: int, pos: nat, n: nat)
    requires pos < |ps| && n > 0
    ensures var w := PreEventWalk(ps, video, pos, n);
            var lo := if w.1 > 0 then 1 else w.0;
            lo <= pos + 1 && CountOf(ps[lo..pos + 1], video) == n - w.1
    decreases pos
  {
    var w := PreEventWalk(ps, video, pos, n);
    if pos == 0 {
      assert ps[1..1] == [];
    } else if ps[pos].streamIndex == video && n == 1 {
      CountOfWindowGrow(ps, pos, pos, video);
      assert ps[pos..pos] == [];
    } else {
      var n' := if ps[pos].streamIndex == video then n - 1 else n;
      PreEventWindow(ps, video, pos - 1, n');
      var lo := if w.1 > 0 then 1 else w.0;
      CountOfWindowGrow(ps, lo, pos, video);
    }
  }

  /**
   * When the pre-event count is satisfied, the event starts early enough to
   * include `n` video packets up to the snapshot; otherwise it starts at the
   * front, and the queue after the front holds fewer than `n`.
   */
  lemma {:induction false} EventStartCoversPreEvent(ps: seq<Packet>, video: int, snapshot: nat, n: nat, keep: bool)
    requires snapshot < |ps|
    ensures var r := EventStart(ps, video, snapshot, n, keep);
            r <= snapshot &&
            (PreEventSatisfied(ps, video, snapshot, n) ==> CountOf(ps[r..snapshot + 1], video) >= n) &&
            (!PreEventSatisfied(ps, video, snapshot, n) ==> r == 0 && CountOf(ps[1..snapshot + 1], video) < n)
  {
    var r := EventStart(ps, video, snapshot, n, keep);
    if n > 0 {
      var w := PreEventWalk(ps, video, snapshot, n);
      PreEventWindow(ps, video, snapshot, n);
      if w.1 == 0 {
        CountOfWindowWiden(ps, r, w.0, snapshot + 1, video);
      }
    }
  }

  /** The walks of get_event_start_packet_it. */
  method EventStartPosition(ps: seq<Packet>, video: int, snapshot: nat, n: nat, keep: bool) returns (pos: nat)
    requires snapshot < |ps|
    ensures pos == EventStart(ps, video, snapshot, n, keep)
  {
    pos := snapshot;
    var need := n;
    if need > 0 {
      while pos != 0
        invariant pos <= snapshot && 0 < need <= n
        invariant PreEventWalk(ps, video, pos, need) == PreEventWalk(ps, video, snapshot, n)
      {
        if ps[pos].streamIndex == video {
          need := need - 1;
          if need == 0 {
            break;
          }
        }
        pos := pos - 1;
      }
    }
    ghost var w := if n == 0 then (snapshot, 0) else PreEventWalk(ps, video, snapshot, n);
    assert pos == w.0 && need == w.1;
    if need > 0 || !keep {
      return;
    }
    while pos != 0
      invariant pos <= snapshot
      invariant KeyframeWalk(ps, video, pos) == KeyframeWalk(ps, video, w.0)
    {
      if IsVideoKeyframe(ps[pos], video) {
        return;
      }
      pos := pos - 1;
    }
  }

  /**
   * The keep-keyframes scan of clearPackets.  From the second packet up to
   * add_packet (at `addPos`, not the front) it stops at the first locked
   * packet, remembers the last video keyframe it passed as the new front and
   * counts the video packets, stopping once `videoCount` minus that count is
   * at most `keepCount`.  Returns the new front, 0 when nothing is removed
   * (also when the front itself is locked).
   */
  method FindNextFront(ps: seq<Packet>, addPos: nat, video: int, videoCount: int, keepCount: int) returns (nf: nat)
    requires 0 < addPos < |ps|
    ensures nf == 0 || (nf < addPos && IsVideoKeyframe(ps[nf], video))
    ensures forall i :: 0 <= i < nf ==> !ps[i].locked
    ensures nf > 0 ==> CountOf(ps[1..nf], video) == 0 || videoCount - CountOf(ps[1..nf], video) > keepCount
    ensures nf > 0 && CountOf(ps[1..nf], video) > 0 ==> videoCount - CountOf(ps[..nf], video) >= keepCount
  {
    nf := 0;
    if ps[0].locked {
      return;
    }
    var it := 1;
    var toDelete := 0;
    while it != addPos
      invariant 1 <= it <= addPos
      invariant nf == 0 || (nf < it && IsVideoKeyframe(ps[nf], video))
      invariant forall i :: 0 <= i < it ==> !ps[i].locked
      invariant toDelete == CountOf(ps[1..it], video)
      invariant toDelete == 0 || videoCount - toDelete > keepCount
      invariant nf > 0 ==> CountOf(ps[1..nf], video) == 0 || videoCount - CountOf(ps[1..nf], video) > keepCount
    {
      if ps[it].locked {
        break;
      }
      CountOfWindowGrow(ps, 1, it, video);
      if ps[it].streamIndex == video {
        if ps[it].keyframe {
          nf := it;
        }
        toDelete := toDelete + 1;
        if videoCount - toDelete <= keepCount {
          break;
        }
      }
      it := it + 1;
    }
    if nf > 0 {
      CountOfDropPrefix(ps, nf, video);
    }
  }

  /** Whether the keep-keyframes trim of clearPackets acts for the packet at `addPos`. */
  predicate KeyframeTrimApplies(ps: seq<Packet>, addPos: nat, video: int, preEvent: int)
    requires addPos < |ps|
  {
    IsVideoKeyframe(ps[addPos], video) && CountOf(ps, video) > preEvent && addPos != 0
  }

  function ShiftAll(its: map<nat, nat>, m: nat): map<nat, nat>
    requires forall h :: h in its ==> its[h] >= m
  {
    map h | h in its :: its[h] - m
  }

  /**
   * `ps` and `its` are `ps0` and `its0` after popping at most `bound` front
   * packets, each unlocked and designated by no iterator; the iterators keep
   * their packets.
   */
  predicate DroppedFront(ps0: seq<Packet>, its0: map<nat, nat>, ps: seq<Packet>, its: map<nat, nat>, bound: nat)
  {
    && |ps| <= |ps0|
    && var m := |ps0| - |ps|;
       && m <= bound && ps == ps0[m..]
       && (forall i :: 0 <= i < m ==> !ps0[i].locked)
       && (forall h :: h in its0 ==> its0[h] >= m)
       && its == ShiftAll(its0, m)
  }

  /** Popping one more unlocked front packet that no iterator designates. */
  lemma DroppedFrontStep(ps0: seq<Packet>, its0: map<nat, nat>, ps: seq<Packet>, its: map<nat, nat>, bound: nat)
    requires DroppedFront(ps0, its0, ps, its, bound) && |ps0| - |ps| < bound
    requires |ps| > 0 && !ps[0].locked && forall h :: h in its ==> its[h] > 0
    ensures forall h :: h in its ==> its[h] >= 1
    ensures DroppedFront(ps0, its0, ps[1..], ShiftAll(its, 1), bound)
  {
    var m := |ps0| - |ps|;
    assert ps0[m..][1..] == ps0[m + 1..];
    forall h | h in its0
      ensures its0[h] >= m + 1
    {
      assert its[h] == its0[h] - m;
    }
  }

  /** Each of the first `m` packets of `ps` was popped while more than `keep` video packets were queued. */
  predicate PoppedAbove(ps: seq<Packet>, m: nat, v: int, keep: int)
    requires m <= |ps|
  {
    forall j :: 0 <= j < m ==> CountOf(ps[j..], v) > keep
  }

  /**
   * The front trim so far: a drop as DroppedFront says, each pop made while
   * more than `keep` video packets were queued, so none of them took the
   * count below `keep`.
   */
  predicate TrimmedSoFar(ps0: seq<Packet>, its0: map<nat, nat>, ps: seq<Packet>, its: map<nat, nat>,
                         bound: nat, v: int, keep: int)
  {
    && DroppedFront(ps0, its0, ps, its, bound)
    && PoppedAbove(ps0, |ps0| - |ps|, v, keep)
    && (ps == ps0 || CountOf(ps, v) >= keep)
  }

  /** One more pop of an unlocked, undesignated front packet while the count exceeds `keep`. */
  lemma TrimmedSoFarStep(ps0: seq<Packet>, its0: map<nat, nat>, ps: seq<Packet>, its: map<nat, nat>,
                         bound: nat, v: int, keep: int)
    requires TrimmedSoFar(ps0, its0, ps, its, bound, v, keep) && |ps0| - |ps| < bound
    requires |ps| > 0 && !ps[0].locked && forall h :: h in its ==> its[h] > 0
    requires CountOf(ps, v) > keep
    ensures forall h :: h in its ==> its[h] >= 1
    ensures TrimmedSoFar(ps0, its0, ps[1..], ShiftAll(its, 1), bound, v, keep)
  {
    DroppedFrontStep(ps0, its0, ps, its, bound);
    CountOfPopFront(ps, v);
    PoppedAboveStep(ps0, |ps0| - |ps|, v, keep);
  }

  /** Extending PoppedAbove by the next pop. */
  lemma PoppedAboveStep(ps: seq<Packet>, m: nat, v: int, keep: int)
    requires m < |ps| && PoppedAbove(ps, m, v, keep) && CountOf(ps[m..], v) > keep
    ensures PoppedAbove(ps, m + 1, v, keep)
  {
    forall j | 0 <= j < m + 1
      ensures CountOf(ps[j..], v) > keep
    {
      if j < m {
        assert CountOf(ps[j..], v) > keep;
      }
    }
  }

  lemma DroppedNothing(ps: seq<Packet>, its: map<nat, nat>, bound: nat)
    ensures DroppedFront(ps, its, ps, its, bound)
  {
    assert ps[0..] == ps;
    assert ShiftAll(its, 0) == its;
  }

  // ---------------------------------------------------------------------
  // The queue

  class Queue {
    var packets: seq<Packet>
    /** packet_counts: null before the first addStream and after clear. */
    var counts: array?<int>
    /** The iterator registry: handle to position, |packets| being end. */
    var iterators: map<nat, nat>
    /** The handle the next registered iterator gets. */
    var nextHandle: nat
    var videoStreamId: int
    var maxStreamId: int
    var maxVideoPacketCount: int
    var preEventVideoPacketCount: int
    var deleting: bool
    var keepKeyframes: bool

    predicate Valid()
      reads this, counts
    {
      && (counts == null ==> maxStreamId == -1 && packets == [])
      && (counts != null ==>
            counts.Length == maxStreamId + 1 && 0 <= videoStreamId <= maxStreamId &&
            CountsMatch(counts[..], packets))
      && StreamsIn(packets, maxStreamId)
      && ItersIn(iterators, |packets|)
      && (forall h :: h in iterators ==> h < nextHandle)
    }

    /** The fields the queue operations other than the setters, addStream and clear leave alone. */
    function Settings(): (int, int, int, int, bool, bool)
      reads this
    {
      (videoStreamId, maxStreamId, maxVideoPacketCount, preEventVideoPacketCount, deleting, keepKeyframes)
    }

    constructor ()
      ensures Valid()
      ensures packets == [] && counts == null && iterators == map[]
      ensures videoStreamId == -1 && maxStreamId == -1
      ensures maxVideoPacketCount == -1 && preEventVideoPacketCount == -1
      ensures !deleting && !keepKeyframes
    {
      packets := [];
      counts := null;
      iterators := map[];
      nextHandle := 0;
      videoStreamId := -1;
      maxStreamId := -1;
      maxVideoPacketCount := -1;
      preEventVideoPacketCount := -1;
      deleting := false;
      keepKeyframes := false;
    }

    /**
     * Registers one more stream on an empty queue.  The first stream
     * registered on a fresh or cleared queue is stream 0 and becomes the
     * video stream; each later one gets the next index.  Every count starts
     * at 0.
     */
    method AddStream() returns (r: int)
      requires Valid() && packets == []
      modifies this
      ensures Valid() && fresh(counts) && !deleting
      ensures old(maxStreamId) == -1 ==> r == 0 && videoStreamId == 0
      ensures old(maxStreamId) != -1 ==> r == old(maxStreamId) + 1 && videoStreamId == old(videoStreamId)
      ensures r == maxStreamId && counts.Length == r + 1
      ensures forall s :: 0 <= s < counts.Length ==> counts[s] == 0
      ensures packets == old(packets) && iterators == old(iterators) && nextHandle == old(nextHandle)
      ensures maxVideoPacketCount == old(maxVideoPacketCount)
      ensures preEventVideoPacketCount == old(preEventVideoPacketCount)
      ensures keepKeyframes == old(keepKeyframes)
    {
      deleting := false;
      if maxStreamId == -1 {
        videoStreamId := 0;
        maxStreamId := 0;
      } else {
        maxStreamId := maxStreamId + 1;
      }
      var newCounts := new int[maxStreamId + 1];
      var i := 0;
      while i <= maxStreamId
        modifies newCounts
        invariant 0 <= i <= maxStreamId + 1
        invariant forall s :: 0 <= s < i ==> newCounts[s] == 0
      {
        newCounts[i] := 0;
        i := i + 1;
      }
      counts := newCounts;
      r := maxStreamId;
    }

    /**
     * Queues `p` at the back.  Nothing is queued while no iterator is
     * registered, nor while the queue holds no video packet and `p` is not a
     * keyframe.  Iterators at end now designate `p`.  When `p` takes the
     * video count past a positive maximum, the overflow pass evicts.
     */
    method QueuePacket(p: Packet) returns (queued: bool)
      requires Valid() && counts != null
      requires 0 <= p.streamIndex <= maxStreamId
      modifies this, counts
      ensures Valid() && counts == old(counts)
      ensures queued <==> |old(iterators)| != 0 && (old(counts[videoStreamId]) != 0 || p.keyframe)
      ensures !queued ==> packets == old(packets) && iterators == old(iterators)
      ensures var added := old(packets) + [p];
              var overflow := p.streamIndex == videoStreamId && maxVideoPacketCount > 0 &&
                              CountOf(added, videoStreamId) > maxVideoPacketCount;
              && (queued && !overflow ==> packets == added && iterators == old(iterators))
              && (queued ==> EndItersMoveTo(old(iterators), |old(packets)|, packets, iterators, p))
              && (queued && overflow ==>
                    |added| >= 2 &&
                    packets == Evicted(added, videoStreamId) &&
                    iterators == EvictedIters(added, videoStreamId, old(iterators)))
      ensures Settings() == old(Settings()) && nextHandle == old(nextHandle)
    {
      if |iterators| == 0 {
        return false;
      }
      if counts[videoStreamId] == 0 && !p.keyframe {
        return false;
      }
      PushBack(p);
      // an iterator at end now designates p, whose position end had
      queued := true;
      if p.streamIndex == videoStreamId && maxVideoPacketCount > 0 && counts[videoStreamId] > maxVideoPacketCount {
        ghost var added := packets;
        EvictOverflow();
        EvictedEndIters(added, videoStreamId, old(iterators));
      }
    }

    /** Appends `p` and counts it; the iterators keep their positions. */
    method PushBack(p: Packet)
      requires Valid() && counts != null
      requires 0 <= p.streamIndex <= maxStreamId
      modifies this, counts
      ensures Valid() && counts == old(counts)
      ensures packets == old(packets) + [p] && iterators == old(iterators)
      ensures counts[videoStreamId] == CountOf(packets, videoStreamId)
      ensures Settings() == old(Settings()) && nextHandle == old(nextHandle)
    {
      forall s | 0 <= s < counts.Length
        ensures CountOf(packets + [p], s) == CountOf(packets, s) + (if p.streamIndex == s then 1 else 0)
      {
        CountOfAppend(packets, p, s);
      }
      packets := packets + [p];
      counts[p.streamIndex] := counts[p.streamIndex] + 1;
    }

    /**
     * The overflow pass of queuePacket, over a queue whose last packet is
     * the one just added: from the second packet on, every unlocked packet
     * is removed, up to and including the first unlocked video packet;
     * locked packets are skipped; the last packet is never reached.  An
     * iterator on a removed packet is moved to its successor first.
     */
    method EvictOverflow()
      requires Valid() && counts != null && |packets| >= 2
      modifies this, counts
      ensures Valid() && counts == old(counts)
      ensures packets == Evicted(old(packets), videoStreamId)
      ensures iterators == EvictedIters(old(packets), videoStreamId, old(iterators))
      ensures Settings() == old(Settings()) && nextHandle == old(nextHandle)
    {
      ghost var ps0, its0 := packets, iterators;
      ghost var stop := EvictStop(ps0, videoStreamId, 1);
      var idx := 1;
      ghost var r: nat := 1;
      assert ps0[1..1] == [];
      assert packets == EvictPartial(ps0, 1);
      assert iterators == ShiftedIters(ps0, 1, its0);
      while idx < |packets| - 1
        invariant 1 <= r <= stop && EvictStop(ps0, videoStreamId, r) == stop
        invariant packets == EvictPartial(ps0, r) && idx == EvictCursor(ps0, r)
        invariant iterators == ShiftedIters(ps0, r, its0)
        invariant Valid() && counts == old(counts)
        invariant Settings() == old(Settings()) && nextHandle == old(nextHandle)
        decreases |ps0| - r
      {
        if packets[idx].locked {
          EvictSkipStep(ps0, r, its0);
          idx := idx + 1;
          r := r + 1;
        } else {
          EvictEraseStep(ps0, r, its0);
          var s := packets[idx].streamIndex;
          EraseAt(idx);
          r := r + 1;
          if s == videoStreamId {
            assert r == EvictEnd(ps0, videoStreamId);
            break;
          }
        }
      }
      EvictPartialDone(ps0, videoStreamId);
    }

    /** Erases the packet at `idx`, first bumping every iterator on it to its successor. */
    method EraseAt(idx: nat)
      requires Valid() && counts != null && idx < |packets|
      modifies this, counts
      ensures Valid() && counts == old(counts)
      ensures packets == old(packets)[..idx] + old(packets)[idx + 1..]
      ensures iterators == BumpAt(old(iterators), idx)
      ensures Settings() == old(Settings()) && nextHandle == old(nextHandle)
    {
      var s := packets[idx].streamIndex;
      iterators := BumpAt(iterators, idx);
      forall t | 0 <= t < counts.Length
        ensures CountOf(packets[..idx] + packets[idx + 1..], t) == CountOf(packets, t) - (if s == t then 1 else 0)
      {
        CountOfRemove(packets, idx, t);
      }
      packets := packets[..idx] + packets[idx + 1..];
      counts[s] := counts[s] - 1;
    }

    /**
     * Whether a registered iterator designates the packet at `pos`.
     * Iterators at end designate no packet.
     */
    method IsThereAnIteratorPointingTo(pos: nat) returns (b: bool)
      requires Valid()
      ensures b <==> pos < |packets| && exists h :: h in iterators && iterators[h] == pos
    {
      var keys := iterators.Keys;
      while keys != {}
        invariant keys <= iterators.Keys
        invariant forall h :: h in iterators && h !in keys ==> iterators[h] != pos || pos >= |packets|
        decreases |keys|
      {
        var h :| h in keys;
        if iterators[h] != |packets| && iterators[h] == pos {
          assert h in iterators;
          return true;
        }
        keys := keys - {h};
      }
      return false;
    }

    /**
     * The trim of clearPackets without keep_keyframes: pops front packets
     * while the front is not add_packet and the video count exceeds
     * `keepCount`, stopping early at a locked front packet or one an
     * iterator designates.
     */
    method TrimFront(addPos: nat, keepCount: int)
      requires Valid() && counts != null && addPos < |packets|
      modifies this, counts
      ensures Valid() && counts == old(counts)
      ensures DroppedFront(old(packets), old(iterators), packets, iterators, addPos)
      ensures |old(packets)| - |packets| == addPos || CountOf(packets, videoStreamId) <= keepCount ||
              packets[0].locked || exists h :: h in iterators && iterators[h] == 0
      ensures packets == old(packets) || CountOf(packets, videoStreamId) >= keepCount
      ensures PoppedAbove(old(packets), |old(packets)| - |packets|, videoStreamId, keepCount)
      ensures Settings() == old(Settings()) && nextHandle == old(nextHandle)
    {
      ghost var ps0, its0 := packets, iterators;
      var m: nat := 0;
      DroppedNothing(ps0, its0, addPos);
      while m < addPos && counts[videoStreamId] > keepCount
        invariant m == |ps0| - |packets|
        invariant TrimmedSoFar(ps0, its0, packets, iterators, addPos, videoStreamId, keepCount)
        invariant Valid() && counts == old(counts)
        invariant Settings() == old(Settings()) && nextHandle == old(nextHandle)
      {
        if packets[0].locked {
          break;
        }
        var pointed := IsThereAnIteratorPointingTo(0);
        if pointed {
          break;
        }
        TrimmedSoFarStep(ps0, its0, packets, iterators, addPos, videoStreamId, keepCount);
        PopFront();
        m := m + 1;
      }
    }

    /** Pops the front packet; no iterator designates it. */
    method PopFront()
      requires Valid() && counts != null && |packets| > 0
      requires forall h :: h in iterators ==> iterators[h] > 0
      modifies this, counts
      ensures Valid() && counts == old(counts)
      ensures packets == old(packets)[1..]
      ensures iterators == ShiftAll(old(iterators), 1)
      ensures Settings() == old(Settings()) && nextHandle == old(nextHandle)
    {
      var s := packets[0].streamIndex;
      forall t | 0 <= t < counts.Length
        ensures CountOf(packets[1..], t) == CountOf(packets, t) - (if s == t then 1 else 0)
      {
        CountOfPopFront(packets, t);
      }
      packets := packets[1..];
      counts[s] := counts[s] - 1;
      iterators := ShiftAll(iterators, 1);
    }

    /**
     * The removal of the keep-keyframes trim: pops the `m` front packets.
     * No iterator designates them; the others keep their packets.
     */
    method DropPrefix(m: nat)
      requires Valid() && counts != null && m <= |packets|
      requires forall i :: 0 <= i < m ==> !packets[i].locked
      requires forall h :: h in iterators ==> iterators[h] >= m
      modifies this, counts
      ensures Valid() && counts == old(counts)
      ensures DroppedFront(old(packets), old(iterators), packets, iterators, m)
      ensures packets == old(packets)[m..]
      ensures Settings() == old(Settings()) && nextHandle == old(nextHandle)
    {
      ghost var ps0, its0 := packets, iterators;
      var k: nat := 0;
      assert ps0[0..] == ps0 && ShiftAll(its0, 0) == its0;
      while k < m
        invariant k <= m && packets == ps0[k..]
        invariant iterators == ShiftAll(its0, k)
        invariant Valid() && counts == old(counts)
        invariant Settings() == old(Settings()) && nextHandle == old(nextHandle)
      {
        PopFront();
        k := k + 1;
        assert ps0[k - 1..][1..] == ps0[k..];
      }
    }

    /**
     * Trims the front of the queue after add_packet (at `addPos`) was
     * queued, keeping the pre-event video packets and those queued after
     * add_packet.  Without keep_keyframes it pops from the front as
     * TrimFront says.  With keep_keyframes it acts only for a video keyframe
     * that is not at the front while the video count exceeds the pre-event
     * count, and removes just a prefix that ends before a video keyframe.
     * Only unlocked packets no iterator designates are removed.
     */
    method ClearPackets(addPos: nat)
      requires Valid()
      requires |packets| > 0 ==> addPos < |packets|
      requires keepKeyframes ==> forall h :: h in iterators ==> iterators[h] >= addPos
      modifies this, counts
      ensures Valid() && counts == old(counts)
      ensures DroppedFront(old(packets), old(iterators), packets, iterators, addPos)
      ensures deleting || old(packets) == [] ==> packets == old(packets)
      ensures !deleting && old(packets) != [] && !keepKeyframes ==>
                |old(packets)| - |packets| == addPos ||
                CountOf(packets, videoStreamId) <= preEventVideoPacketCount + CountOf(old(packets)[addPos + 1..], videoStreamId) ||
                packets[0].locked || exists h :: h in iterators && iterators[h] == 0
      ensures !deleting && old(packets) != [] && !keepKeyframes ==>
                PoppedAbove(old(packets), |old(packets)| - |packets|, videoStreamId,
                            preEventVideoPacketCount + CountOf(old(packets)[addPos + 1..], videoStreamId))
      ensures keepKeyframes && old(packets) != [] &&
              !KeyframeTrimApplies(old(packets), addPos, videoStreamId, preEventVideoPacketCount) ==>
                packets == old(packets)
      ensures keepKeyframes && packets != old(packets) ==> IsVideoKeyframe(packets[0], videoStreamId)
      ensures packets == old(packets) || CountOf(packets, videoStreamId) >= preEventVideoPacketCount
      ensures Settings() == old(Settings()) && nextHandle == old(nextHandle)
    {
      DroppedNothing(packets, iterators, addPos);
      if deleting || |packets| == 0 {
        return;
      }
      var add := packets[addPos];
      if keepKeyframes &&
         !(add.streamIndex == videoStreamId && add.keyframe && counts[videoStreamId] > preEventVideoPacketCount && addPos != 0) {
        return;
      }
      var tail := TailCount(packets, addPos, videoStreamId);
      if !keepKeyframes {
        TrimFront(addPos, preEventVideoPacketCount + tail);
        return;
      }
      KeyframeTrim(addPos, preEventVideoPacketCount + tail);
    }

    /**
     * The trim of clearPackets with keep_keyframes, for add_packet at
     * `addPos` (not the front): removes the prefix before the new front
     * FindNextFront picks, so that a removal leaves a video keyframe at the
     * front.
     */
    method KeyframeTrim(addPos: nat, keepCount: int)
      requires Valid() && counts != null && 0 < addPos < |packets|
      requires forall h :: h in iterators ==> iterators[h] >= addPos
      modifies this, counts
      ensures Valid() && counts == old(counts)
      ensures DroppedFront(old(packets), old(iterators), packets, iterators, addPos)
      ensures packets != old(packets) ==> IsVideoKeyframe(packets[0], videoStreamId)
      ensures packets != old(packets) ==>
                CountOf(packets, videoStreamId) >= keepCount ||
                CountOf(packets, videoStreamId) >= CountOf(old(packets), videoStreamId) - 1
      ensures Settings() == old(Settings()) && nextHandle == old(nextHandle)
    {
      var nf := FindNextFront(packets, addPos, videoStreamId, counts[videoStreamId], keepCount);
      if nf != 0 {
        CountOfDropPrefix(packets, nf, videoStreamId);
        DropPrefix(nf);
      } else {
        DroppedNothing(packets, iterators, addPos);
      }
    }

    /**
     * Marks the queue as deleting.  When the counts exist, empties the queue,
     * moves every iterator to begin (which is end), drops the counts and
     * forgets the streams.
     */
    method Clear()
      requires Valid()
      modifies this
      ensures Valid() && deleting
      ensures old(counts) == null ==> packets == old(packets) && iterators == old(iterators) &&
                                      counts == null && maxStreamId == old(maxStreamId)
      ensures old(counts) != null ==> packets == [] && counts == null && maxStreamId == -1 &&
                                      iterators == map h | h in old(iterators) :: 0
      ensures videoStreamId == old(videoStreamId) && nextHandle == old(nextHandle)
      ensures maxVideoPacketCount == old(maxVideoPacketCount)
      ensures preEventVideoPacketCount == old(preEventVideoPacketCount)
      ensures keepKeyframes == old(keepKeyframes)
    {
      deleting := true;
      if counts == null {
        return;
      }
      while packets != []
        invariant iterators == old(iterators) && counts == old(counts) && maxStreamId == old(maxStreamId)
        invariant videoStreamId == old(videoStreamId) && nextHandle == old(nextHandle)
        invariant maxVideoPacketCount == old(maxVideoPacketCount)
        invariant preEventVideoPacketCount == old(preEventVideoPacketCount)
        invariant keepKeyframes == old(keepKeyframes) && deleting
        decreases |packets|
      {
        packets := packets[1..];
      }
      iterators := map h | h in iterators :: 0;
      counts := null;
      maxStreamId := -1;
    }

    /** packet_count: the number of queued packets of a stream, -1 for an unknown stream. */
    method PacketCount(streamId: int) returns (r: int)
      requires Valid()
      ensures streamId < 0 || streamId > maxStreamId ==> r == -1
      ensures 0 <= streamId <= maxStreamId ==> r == CountOf(packets, streamId)
    {
      if streamId < 0 || streamId > maxStreamId {
        return -1;
      }
      r := counts[streamId];
    }

    /**
     * Moves iterator `h` one packet on.  An iterator at end, or any iterator
     * while deleting, stays.  The result says whether it now designates a
     * packet.
     */
    method IncrementIt(h: nat) returns (r: bool)
      requires Valid() && h in iterators
      modifies this
      ensures Valid()
      ensures old(iterators[h]) == |packets| || deleting ==> !r && iterators == old(iterators)
      ensures old(iterators[h]) < |packets| && !deleting ==>
                iterators == old(iterators)[h := old(iterators[h]) + 1] && (r <==> iterators[h] < |packets|)
      ensures packets == old(packets) && counts == old(counts)
      ensures Settings() == old(Settings()) && nextHandle == old(nextHandle)
    {
      if iterators[h] == |packets| || deleting {
        return false;
      }
      iterators := iterators[h := iterators[h] + 1];
      r := iterators[h] != |packets|;
    }

    /**
     * Moves iterator `h` on to the next packet of `stream`, or to end.  An
     * iterator at end stays.  The result says whether it now designates a
     * packet.
     */
    method IncrementItStream(h: nat, stream: int) returns (r: bool)
      requires Valid() && h in iterators
      modifies this
      ensures Valid()
      ensures old(iterators[h]) == |packets| ==> !r && iterators == old(iterators)
      ensures h in iterators
      ensures old(iterators[h]) < |packets| ==>
                var q := iterators[h];
                && iterators == old(iterators)[h := q]
                && old(iterators[h]) < q <= |packets|
                && (r <==> q < |packets|)
                && (q < |packets| ==> packets[q].streamIndex == stream)
                && (forall j :: old(iterators[h]) < j < q ==> packets[j].streamIndex != stream)
      ensures packets == old(packets) && counts == old(counts)
      ensures Settings() == old(Settings()) && nextHandle == old(nextHandle)
    {
      if iterators[h] == |packets| {
        return false;
      }
      var q := NextOfStream(packets, iterators[h], stream);
      iterators := iterators[h := q];
      r := q != |packets|;
    }

    /**
     * Registers a new iterator for an event whose snapshot is at `snapshot`:
     * it walks back over `preEventCount` video packets and, with
     * keep_keyframes, on to a video keyframe.
     */
    method GetEventStartPacketIt(snapshot: nat, preEventCount: nat) returns (h: nat)
      requires Valid() && snapshot < |packets|
      modifies this
      ensures Valid() && h == old(nextHandle) && h !in old(iterators)
      ensures packets == old(packets) && counts == old(counts) && Settings() == old(Settings())
      ensures iterators == old(iterators)[h := EventStart(packets, videoStreamId, snapshot, preEventCount, keepKeyframes)]
    {
      var pos := EventStartPosition(packets, videoStreamId, snapshot, preEventCount, keepKeyframes);
      h := nextHandle;
      nextHandle := nextHandle + 1;
      iterators := iterators[h := pos];
    }

    /** Registers a new iterator at the first video keyframe, or at end when there is none. */
    method GetVideoIt() returns (h: nat)
      requires Valid()
      modifies this
      ensures Valid() && h == old(nextHandle) && h !in old(iterators)
      ensures h in iterators && iterators == old(iterators)[h := iterators[h]]
      ensures var q := iterators[h];
              && q <= |packets|
              && (q < |packets| ==> IsVideoKeyframe(packets[q], videoStreamId))
              && (forall j :: 0 <= j < q ==> !IsVideoKeyframe(packets[j], videoStreamId))
      ensures packets == old(packets) && counts == old(counts) && Settings() == old(Settings())
    {
      var pos := FirstVideoKeyframe(packets, videoStreamId);
      h := nextHandle;
      nextHandle := nextHandle + 1;
      iterators := iterators[h := pos];
    }

    /** Unregisters iterator `h`, if it is registered. */
    method FreeIt(h: nat)
      requires Valid()
      modifies this
      ensures Valid() && iterators == old(iterators) - {h}
      ensures packets == old(packets) && counts == old(counts)
      ensures Settings() == old(Settings()) && nextHandle == old(nextHandle)
    {
      iterators := iterators - {h};
    }

    /** A negative maximum is taken as 0, which turns overflow eviction off. */
    method SetMaxVideoPackets(p: int)
      requires Valid()
      modifies this
      ensures Valid() && maxVideoPacketCount == (if p < 0 then 0 else p)
      ensures maxVideoPacketCount >= 0
      ensures packets == old(packets) && counts == old(counts) && iterators == old(iterators)
      ensures videoStreamId == old(videoStreamId) && maxStreamId == old(maxStreamId)
      ensures preEventVideoPacketCount == old(preEventVideoPacketCount)
      ensures deleting == old(deleting) && keepKeyframes == old(keepKeyframes) && nextHandle == old(nextHandle)
    {
      maxVideoPacketCount := p;
      if maxVideoPacketCount < 0 {
        maxVideoPacketCount := 0;
      }
    }

    /** The pre-event count is at least 1. */
    method SetPreEventVideoPackets(p: int)
      requires Valid()
      modifies this
      ensures Valid() && preEventVideoPacketCount == (if p < 1 then 1 else p)
      ensures preEventVideoPacketCount >= 1
      ensures packets == old(packets) && counts == old(counts) && iterators == old(iterators)
      ensures videoStreamId == old(videoStreamId) && maxStreamId == old(maxStreamId)
      ensures maxVideoPacketCount == old(maxVideoPacketCount)
      ensures deleting == old(deleting) && keepKeyframes == old(keepKeyframes) && nextHandle == old(nextHandle)
    {
      preEventVideoPacketCount := p;
      if preEventVideoPacketCount < 1 {
        preEventVideoPacketCount := 1;
      }
    }
  }
}
