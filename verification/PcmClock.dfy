/** The frame clock of the PCM threads: baresip/shim/pcm_clock.h and the loops of
    baresip/shim/voxmail.c that it drives. Times are milliseconds. */
module PcmClock {
  const UINT32: int := 0x1_0000_0000
  const UINT64: int := 0x1_0000_0000_0000_0000

  /** A frame handed on at clock reading `at`, carrying the media time `stamp`. */
  datatype Frame = Frame(at: int, stamp: int)

  /** The media time of a frame sent at `now`, when `next` was due. */
  function Rebased(next: int, ptime: int, now: int): int {
    if now - next > 5 * ptime then now else next
  }

  /** The frames of a run of the loop, over unbounded numbers: one for each clock reading
      at which a frame is due. */
  function Frames(next: int, ptime: int, readings: seq<int>): seq<Frame>
    decreases |readings|
  {
    if readings == [] then []
    else if readings[0] < next then Frames(next, ptime, readings[1..])
    else
      var stamp := Rebased(next, ptime, readings[0]);
      [Frame(readings[0], stamp)] + Frames(stamp + ptime, ptime, readings[1..])
  }

  // ------------------------------------------------------------ the C structure

  class Clock {
    var nextMs: int
    var ptime: int

    predicate Valid()
      reads this
    {
      0 <= nextMs < UINT64 && 0 < ptime < UINT32
    }

    constructor Init(now: int, ptime: int)
      requires 0 <= now < UINT64 && 0 <= ptime < UINT32
      ensures Valid() && nextMs == now && this.ptime == if ptime != 0 then ptime else 20
    {
      nextMs := now;
      this.ptime := if ptime != 0 then ptime else 20;
    }

    /** The milliseconds still to wait, cut to 32 bits as the C cast does. */
    method Wait(now: int) returns (wait: int)
      requires Valid() && 0 <= now < UINT64
      modifies this`nextMs
      ensures Valid()
      ensures now < old(nextMs) ==> wait == (old(nextMs) - now) % UINT32 && nextMs == old(nextMs)
      ensures now >= old(nextMs) ==> wait == 0 && nextMs == Rebased(old(nextMs), ptime, now)
      ensures now >= old(nextMs) ==> nextMs == if now > old(nextMs) + 5 * ptime then now else old(nextMs)
    {
      if now < nextMs { return (nextMs - now) % UINT32; }
      if now - nextMs > ptime * 5 {
        nextMs := now;
      }
      return 0;
    }

    method Advance()
      requires Valid()
      modifies this`nextMs
      ensures Valid() && nextMs == (old(nextMs) + ptime) % UINT64
    {
      nextMs := (nextMs + ptime) % UINT64;
    }
  }

  predicate Nondecreasing(readings: seq<int>) {
    forall i, j :: 0 <= i <= j < |readings| ==> readings[i] <= readings[j]
  }

  /** The thread loop: the 32-bit cast and the 64-bit counter are exact as long as the
      clock stays one frame short of wrapping, so the frames are those of `Frames`. */
  method Run(clock: Clock, readings: seq<int>) returns (frames: seq<Frame>)
    requires clock.Valid() && Nondecreasing(readings)
    requires forall i :: 0 <= i < |readings| ==> clock.nextMs <= readings[i] < UINT64 - clock.ptime
    modifies clock`nextMs
    ensures frames == Frames(old(clock.nextMs), clock.ptime, readings)
  {
    hide Frames, Rebased;
    frames := [];
    for i := 0 to |readings|
      invariant clock.Valid()
      invariant i < |readings| ==> clock.nextMs <= readings[i] + clock.ptime
      invariant frames + Frames(clock.nextMs, clock.ptime, readings[i..]) ==
        Frames(old(clock.nextMs), clock.ptime, readings)
    {
      OneReading(frames, clock.nextMs, clock.ptime, readings[i..]);
      StampInRange(clock.nextMs, clock.ptime, readings[i]);
      assert readings[i..][1..] == readings[i + 1..];
      var wait := clock.Wait(readings[i]);
      if wait != 0 { continue; }
      frames := frames + [Frame(readings[i], clock.nextMs)];
      clock.Advance();
    }
    NoReadings(clock.nextMs, clock.ptime, readings[|readings|..]);
  }

  lemma OneReading(sent: seq<Frame>, next: int, ptime: int, readings: seq<int>)
    requires readings != []
    ensures var r, stamp := readings[0], Rebased(next, ptime, readings[0]);
      sent + Frames(next, ptime, readings) ==
        if r < next then sent + Frames(next, ptime, readings[1..])
        else sent + [Frame(r, stamp)] + Frames(stamp + ptime, ptime, readings[1..])
  {
  }

  lemma StampInRange(next: int, ptime: int, now: int)
    requires ptime > 0
    ensures now >= next ==> next <= Rebased(next, ptime, now) <= now
  {
  }

  lemma NoReadings(next: int, ptime: int, readings: seq<int>)
    requires readings == []
    ensures Frames(next, ptime, readings) == []
  {
  }

  // ----------------------------------------------------------------- the bounds

  /** What is due before frame i. */
  function Due(next: int, ptime: int, frames: seq<Frame>, i: nat): int
    requires i <= |frames|
  {
    if i == 0 then next else frames[i - 1].stamp + ptime
  }

  ghost predicate Steady(next: int, ptime: int, frames: seq<Frame>) {
    forall i :: 0 <= i < |frames| ==> FrameIsSteady(next, ptime, frames, i)
  }

  ghost predicate FrameIsSteady(next: int, ptime: int, frames: seq<Frame>, i: nat)
    requires i < |frames|
  {
    && Due(next, ptime, frames, i) <= frames[i].at
    && frames[i].stamp == Rebased(Due(next, ptime, frames, i), ptime, frames[i].at)
  }

  lemma {:induction false} FramesAreSteady(next: int, ptime: int, readings: seq<int>)
    ensures Steady(next, ptime, Frames(next, ptime, readings))
    decreases |readings|
  {
    var fs := Frames(next, ptime, readings);
    if readings != [] {
      if readings[0] < next {
        FramesAreSteady(next, ptime, readings[1..]);
      } else {
        var stamp := Rebased(next, ptime, readings[0]);
        FramesAreSteady(stamp + ptime, ptime, readings[1..]);
        forall i | 0 <= i < |fs| ensures FrameIsSteady(next, ptime, fs, i) {
          if i > 0 {
            assert FrameIsSteady(stamp + ptime, ptime, fs[1..], i - 1);
            assert Due(next, ptime, fs, i) == Due(stamp + ptime, ptime, fs[1..], i - 1);
          }
        }
      }
    }
  }

  lemma {:induction false} StampsAdvance(next: int, ptime: int, frames: seq<Frame>, i: nat, j: nat)
    requires ptime > 0 && Steady(next, ptime, frames) && i <= j < |frames|
    ensures frames[j].stamp - frames[i].stamp >= (j - i) * ptime
    decreases j
  {
    if i < j {
      StampsAdvance(next, ptime, frames, i, j - 1);
      assert FrameIsSteady(next, ptime, frames, j);
      assert (j - i) * ptime == (j - 1 - i) * ptime + ptime;
    }
  }

  /** No frame carries a media time ahead of the clock or more than five frames old; stamps
      grow by at least a frame; the i-th frame is never sent before i frames of time have
      passed; and between two frames at most the gap plus five frames is sent, whatever
      stalls and rebases lie between. */
  lemma FramesKeepTime(next: int, ptime: int, readings: seq<int>, i: nat, j: nat)
    requires ptime > 0 && i <= j < |Frames(next, ptime, readings)|
    ensures var f := Frames(next, ptime, readings);
      && 0 <= f[j].at - f[j].stamp <= 5 * ptime
      && j * ptime <= f[j].at - next
      && (i < j ==> f[j].stamp >= f[i].stamp + ptime)
      && (j - i) * ptime <= f[j].at - f[i].at + 5 * ptime
  {
    var f := Frames(next, ptime, readings);
    FramesAreSteady(next, ptime, readings);
    assert FrameIsSteady(next, ptime, f, j) && FrameIsSteady(next, ptime, f, i) && FrameIsSteady(next, ptime, f, 0);
    StampsAdvance(next, ptime, f, 0, j);
    StampsAdvance(next, ptime, f, i, j);
    if i < j {
      AtLeastOnce(j - i, ptime);
    }
  }

  lemma AtLeastOnce(n: int, ptime: int)
    requires n >= 1 && ptime > 0
    ensures n * ptime >= ptime
  {
    assert n * ptime == (n - 1) * ptime + ptime;
  }

  /** Without a stall of more than five frames no scheduling delay is ever lost: the media
      time of frame i is exactly i frames after the first. */
  lemma {:induction false} TimelineKept(next: int, ptime: int, readings: seq<int>, i: nat)
    requires i < |Frames(next, ptime, readings)|
    requires forall k :: 0 <= k <= i ==> Frames(next, ptime, readings)[k].at - (next + k * ptime) <= 5 * ptime
    ensures Frames(next, ptime, readings)[i].stamp == next + i * ptime
  {
    var f := Frames(next, ptime, readings);
    FramesAreSteady(next, ptime, readings);
    hide Frames;
    assert FrameIsSteady(next, ptime, f, i);
    assert f[i].at - (next + i * ptime) <= 5 * ptime;
    if i > 0 {
      TimelineKept(next, ptime, readings, i - 1);
      assert next + (i - 1) * ptime + ptime == next + i * ptime;
    }
  }

  /** Frame by frame: later than five frames behind what is due, the media time is the clock's
      own; otherwise it is what was due, one frame after the frame before. */
  lemma StallAlone(next: int, ptime: int, readings: seq<int>, i: nat)
    requires i < |Frames(next, ptime, readings)|
    ensures var f := Frames(next, ptime, readings);
      var due := if i == 0 then next else f[i - 1].stamp + ptime;
      f[i].stamp == if f[i].at > due + 5 * ptime then f[i].at else due
  {
    FramesAreSteady(next, ptime, readings);
    hide Frames;
    assert FrameIsSteady(next, ptime, Frames(next, ptime, readings), i);
  }

  /** Every reading at which a frame is due sends one, and no other does. */
  lemma {:induction false} OneMoreReading(next: int, ptime: int, readings: seq<int>, now: int)
    ensures var f := Frames(next, ptime, readings);
      var due := if f == [] then next else f[|f| - 1].stamp + ptime;
      Frames(next, ptime, readings + [now]) ==
        f + if now < due then [] else [Frame(now, if now > due + 5 * ptime then now else due)]
    decreases |readings|
  {
    var more := readings + [now];
    if readings == [] {
      assert more[1..] == [];
    } else {
      assert more[0] == readings[0] && more[1..] == readings[1..] + [now];
      var first := readings[0];
      OneMoreReading(if first < next then next else Rebased(next, ptime, first) + ptime, ptime, readings[1..], now);
    }
  }
}
