/** Writing PCM to a call no faster than it can be heard: pacedPCMWriter in
    internal/calls/pcm_playback.go. Times are nanoseconds. */
module PacedWriter {
  import opened Wrappers

  const BYTES_PER_SECOND: int := 16_000
  const SECOND: int := 1_000_000_000
  const MILLISECOND: int := 1_000_000
  const CREDIT: int := 250 * MILLISECOND
  const STALL: int := CREDIT + 100 * MILLISECOND
  const CHUNK: int := BYTES_PER_SECOND / 50
  const BYTE_TIME: int := 62_500
  const REOPENS: int := 3

  type Byte = b: int | 0 <= b < 256

  // ------------------------------------------------------------ the timeline

  /** The playing time of n bytes, in the source's own order of operations. */
  function Duration(n: nat): int { n * SECOND / BYTES_PER_SECOND }

  lemma DurationIsExact(n: nat)
    ensures Duration(n) == n * BYTE_TIME
  {
    assert n * SECOND == (n * BYTE_TIME) * BYTES_PER_SECOND;
  }

  /** One turn of the write loop: the clock when it started and when the FIFO had
      answered, and the bytes the FIFO took. */
  datatype Turn = Turn(start: int, end: int, accepted: nat)

  function After(next: int, t: Turn): int {
    (if t.start - next > STALL then t.start - CREDIT else next) + Duration(t.accepted)
  }

  /** When the next byte is due, after these turns. */
  function Next(origin: int, log: seq<Turn>): int {
    if log == [] then origin else After(Next(origin, log[..|log| - 1]), log[|log| - 1])
  }

  function Sent(log: seq<Turn>): nat {
    if log == [] then 0 else Sent(log[..|log| - 1]) + log[|log| - 1].accepted
  }

  /** A log the write loop can leave: the clock never goes back, no wait is short,
      and no turn takes more than one chunk. */
  ghost predicate Paced(origin: int, log: seq<Turn>) {
    && (forall i :: 0 <= i < |log| ==> Next(origin, log[..i]) <= log[i].start <= log[i].end && log[i].accepted <= CHUNK)
    && (forall i, j :: 0 <= i < j < |log| ==> log[i].end <= log[j].start)
  }

  /** Rebasing only ever moves the timeline forward. */
  lemma NextNeverBack(next: int, t: Turn)
    ensures After(next, t) >= next + t.accepted * BYTE_TIME
    ensures After(next, t) >= t.start - STALL + t.accepted * BYTE_TIME
  {
    DurationIsExact(t.accepted);
  }

  /** In plain numbers: only a turn more than 350 ms late gives up what is overdue, and then
      the timeline stands 250 ms behind the clock again; every byte moves it on by 62500 ns. */
  lemma StallRestoresCredit(next: int, t: Turn)
    ensures t.start > next + 350 * MILLISECOND ==>
      After(next, t) == t.start - 250 * MILLISECOND + t.accepted * 62_500
    ensures t.start <= next + 350 * MILLISECOND ==> After(next, t) == next + t.accepted * 62_500
  {
    DurationIsExact(t.accepted);
  }

  lemma {:induction false} NextFloor(origin: int, log: seq<Turn>)
    ensures Next(origin, log) >= origin + Sent(log) * BYTE_TIME
  {
    if log != [] {
      NextFloor(origin, log[..|log| - 1]);
      NextNeverBack(Next(origin, log[..|log| - 1]), log[|log| - 1]);
    }
  }

  lemma {:induction false} NextFloorSince(origin: int, log: seq<Turn>, i: nat)
    requires i < |log|
    ensures Next(origin, log) >= log[i].start - STALL + Sent(log[i..]) * BYTE_TIME
  {
    hide After, Duration;
    var front, t := log[..|log| - 1], log[|log| - 1];
    NextNeverBack(Next(origin, front), t);
    assert log[i..][..|log| - i - 1] == front[i..];
    assert Sent(log[i..]) == Sent(front[i..]) + t.accepted;
    if i < |front| {
      NextFloorSince(origin, front, i);
    } else {
      assert front[i..] == [];
    }
  }

  /** By the time of turn i the writer, which began at origin + CREDIT, has sent at most
      what plays in the time elapsed plus the credit; the turn itself adds one chunk. */
  lemma NeverFarAhead(origin: int, log: seq<Turn>, i: nat)
    requires Paced(origin, log) && i < |log|
    ensures Sent(log[..i]) * BYTE_TIME <= log[i].start - (origin + CREDIT) + CREDIT
    ensures Sent(log[..i + 1]) * BYTE_TIME <= log[i].start - (origin + CREDIT) + CREDIT + CHUNK * BYTE_TIME
  {
    NextFloor(origin, log[..i]);
    assert log[..i + 1][..i] == log[..i];
  }

  /** Between any two turns it sends at most what plays in the gap plus 350 ms, stalls
      and rebases included; the second turn adds one chunk. */
  lemma BurstIsBounded(origin: int, log: seq<Turn>, i: nat, j: nat)
    requires Paced(origin, log) && i < j < |log|
    ensures Sent(log[i + 1..j]) * BYTE_TIME <= log[j].start - log[i].end + STALL
    ensures Sent(log[i + 1..j + 1]) * BYTE_TIME <= log[j].start - log[i].end + STALL + CHUNK * BYTE_TIME
  {
    hide After, Duration;
    var front := log[..j];
    assert log[i + 1..j + 1][..j - i - 1] == log[i + 1..j];
    if i + 1 < j {
      NextFloorSince(origin, front, i + 1);
      assert front[i + 1..] == log[i + 1..j];
    } else {
      assert log[i + 1..j] == [];
    }
  }

  /** Without a stall the timeline is kept to the byte: lateness is never forgiven. */
  lemma {:induction false} TimelineKept(origin: int, log: seq<Turn>)
    requires forall i :: 0 <= i < |log| ==> log[i].start - Next(origin, log[..i]) <= STALL
    ensures Next(origin, log) == origin + Sent(log) * BYTE_TIME
  {
    if log != [] {
      var front, t := log[..|log| - 1], log[|log| - 1];
      forall i | 0 <= i < |front| ensures front[i].start - Next(origin, front[..i]) <= STALL {
        assert front[..i] == log[..i] && front[i] == log[i];
      }
      TimelineKept(origin, front);
      DurationIsExact(t.accepted);
      assert log[|log| - 1].start - Next(origin, log[..|log| - 1]) <= STALL;
    }
  }

  // ------------------------------------------------------------ the outside

  datatype Error = Cancelled | BrokenPipe | TryAgain | ShortWrite | Failure

  /** How the operating system answers one call, and how long it takes. */
  datatype Answer = Answer(delay: nat, accepted: nat, error: Option<Error>)

  function Flatten(fifos: seq<seq<Byte>>): seq<Byte> {
    if fifos == [] then [] else Flatten(fifos[..|fifos| - 1]) + fifos[|fifos| - 1]
  }

  function Later(answers: seq<Answer>): seq<Answer> { if answers == [] then [] else answers[1..] }

  /** A wait ran its time, or a reopened FIFO found its reader. */
  predicate Agreed(answers: seq<Answer>) { answers != [] && answers[0].error.None? }

  /** What a write of size bytes is told. */
  function Taken(answers: seq<Answer>, size: nat): (nat, Option<Error>) {
    if answers == [] then (0, Some(Failure))
    else (if answers[0].accepted <= size then answers[0].accepted else size, answers[0].error)
  }

  /** The clock and the FIFOs opened so far. The answers still to come are arbitrary but
      finite in number; when they run out everything fails. */
  class World {
    var now: int
    var answers: seq<Answer>
    var fifos: seq<seq<Byte>>

    /** waitPCM. */
    method Wait(duration: int) returns (err: Option<Error>)
      modifies this
      ensures fifos == old(fifos) && now >= old(now)
      ensures err.None? ==> now >= old(now) + duration
      ensures answers == Later(old(answers)) && err == if Agreed(old(answers)) then None else Some(Cancelled)
    {
      if answers == [] { return Some(Cancelled); }
      var a := answers[0];
      answers := answers[1..];
      now := now + (if duration > 0 && a.error.None? then duration else 0) + a.delay;
      return if a.error.None? then None else Some(Cancelled);
    }

    /** Write on the FIFO opened last: it takes some part of p from the front. */
    method Write(p: seq<Byte>) returns (n: nat, err: Option<Error>)
      requires fifos != []
      modifies this
      ensures n <= |p| && now >= old(now)
      ensures |fifos| == |old(fifos)| && Flatten(fifos) == Flatten(old(fifos)) + p[..n]
      ensures answers == Later(old(answers)) && (n, err) == Taken(old(answers), |p|)
    {
      if answers == [] { return 0, Some(Failure); }
      var a := answers[0];
      answers := answers[1..];
      now := now + a.delay;
      n := if a.accepted <= |p| then a.accepted else |p|;
      err := a.error;
      Appended(fifos, p[..n]);
      fifos := fifos[|fifos| - 1 := fifos[|fifos| - 1] + p[..n]];
    }

    method Reopen() returns (ok: bool)
      requires fifos != []
      modifies this
      ensures now >= old(now) && Flatten(fifos) == Flatten(old(fifos))
      ensures |fifos| == |old(fifos)| + (if ok then 1 else 0)
      ensures answers == Later(old(answers)) && ok == Agreed(old(answers))
    {
      if answers == [] { return false; }
      var a := answers[0];
      answers := answers[1..];
      now := now + a.delay;
      if a.error.None? {
        assert (fifos + [[]])[..|fifos|] == fifos;
        fifos := fifos + [[]];
        return true;
      }
      return false;
    }
  }

  lemma Appended(fifos: seq<seq<Byte>>, q: seq<Byte>)
    requires fifos != []
    ensures Flatten(fifos[|fifos| - 1 := fifos[|fifos| - 1] + q]) == Flatten(fifos) + q
  {
    var last := |fifos| - 1;
    var new_ := fifos[last := fifos[last] + q];
    assert new_[..last] == fifos[..last];
    assert Flatten(fifos[..last]) + (fifos[last] + q) == Flatten(fifos[..last]) + fifos[last] + q;
  }

  // ------------------------------------------------------------ interruptions

  /** What writeResilient reports for the answers it will get, after so many attempts. */
  function Resilient(answers: seq<Answer>, size: nat, canReopen: bool, attempts: nat): (nat, Option<Error>)
    decreases |answers|
  {
    var (n, err) := Taken(answers, size);
    var rest := Later(answers);
    if err.None? || n > 0 then (n, err)
    else if err == Some(BrokenPipe) && canReopen && attempts < REOPENS then
      if Agreed(rest) then Resilient(Later(rest), size, canReopen, attempts + 1) else (0, err)
    else if err == Some(TryAgain) then
      if Agreed(rest) then Resilient(Later(rest), size, canReopen, attempts + 1) else (0, Some(Cancelled))
    else (0, err)
  }

  /** A FIFO that is full for a while, or one whose reader goes and comes back. */
  datatype Interruption = Stall(delay: nat, wait: nat) | Break(delay: nat, wait: nat)

  function Interrupted(cuts: seq<Interruption>): seq<Answer> {
    if cuts == [] then []
    else AnswersOf(cuts[0]) + Interrupted(cuts[1..])
  }

  function AnswersOf(c: Interruption): seq<Answer> {
    [Answer(c.delay, 0, Some(if c.Stall? then TryAgain else BrokenPipe)), Answer(c.wait, 0, None)]
  }

  lemma OneInterruption(c: Interruption, later: seq<Answer>, size: nat, canReopen: bool, attempts: nat)
    ensures Resilient(AnswersOf(c) + later, size, canReopen, attempts) ==
      if c.Break? && !(canReopen && attempts < REOPENS) then (0, Some(BrokenPipe))
      else Resilient(later, size, canReopen, attempts + 1)
  {
    var answers := AnswersOf(c) + later;
    assert Agreed(Later(answers)) && Later(Later(answers)) == later;
  }

  /** A stall is always survived; a break only with a way to reopen and fewer than three
      interruptions of either kind before it. */
  predicate Survives(cuts: seq<Interruption>, canReopen: bool, attempts: nat) {
    forall i :: 0 <= i < |cuts| && cuts[i].Break? ==> canReopen && attempts + i < REOPENS
  }

  /** Exactly when interruptions are survived: then the writer reports what comes after
      them, and otherwise the broken pipe, with nothing taken. */
  lemma {:induction false} InterruptionsAreResumed(cuts: seq<Interruption>, later: seq<Answer>, size: nat,
                                                   canReopen: bool, attempts: nat)
    ensures Resilient(Interrupted(cuts) + later, size, canReopen, attempts) ==
      if Survives(cuts, canReopen, attempts) then Resilient(later, size, canReopen, attempts + |cuts|)
      else (0, Some(BrokenPipe))
    decreases |cuts|
  {
    hide Resilient, Survives, AnswersOf;
    if cuts == [] {
      assert Interrupted(cuts) + later == later;
      NothingToSurvive(canReopen, attempts);
    } else {
      var rest := Interrupted(cuts[1..]) + later;
      assert Interrupted(cuts) + later == AnswersOf(cuts[0]) + rest;
      OneInterruption(cuts[0], rest, size, canReopen, attempts);
      InterruptionsAreResumed(cuts[1..], later, size, canReopen, attempts + 1);
      FirstSurvives(cuts, canReopen, attempts);
    }
  }

  lemma NothingToSurvive(canReopen: bool, attempts: nat)
    ensures Survives([], canReopen, attempts)
  {
  }

  lemma FirstSurvives(cuts: seq<Interruption>, canReopen: bool, attempts: nat)
    requires cuts != []
    ensures Survives(cuts, canReopen, attempts) <==>
      (cuts[0].Break? ==> canReopen && attempts < REOPENS) && Survives(cuts[1..], canReopen, attempts + 1)
  {
    if Survives(cuts[1..], canReopen, attempts + 1) {
      assert forall i :: 1 <= i < |cuts| ==> cuts[i] == cuts[1..][i - 1];
    }
  }

  /** Whatever the answers, a full FIFO is never what the caller is told. */
  lemma {:induction false} FullFifoIsNotReported(answers: seq<Answer>, size: nat, canReopen: bool, attempts: nat)
    ensures var (n, err) := Resilient(answers, size, canReopen, attempts); n == 0 ==> err != Some(TryAgain)
    decreases |answers|
  {
    if Agreed(Later(answers)) {
      FullFifoIsNotReported(Later(Later(answers)), size, canReopen, attempts + 1);
    }
  }

  // ------------------------------------------------------------- the writer

  lemma Onward(before: seq<Byte>, p: seq<Byte>, sent: nat, n: nat)
    requires sent + n <= |p|
    ensures before + p[..sent] + p[sent..][..n] == before + p[..sent + n]
    ensures p[sent..][n..] == p[sent + n..]
  {
    assert p[..sent] + p[sent..][..n] == p[..sent + n];
  }

  lemma SinceGrows(was: seq<Turn>, now: seq<Turn>, from: nat, before: int, t: int)
    requires was <= now && from <= |was| && t <= before && Since(was, from, t) && Since(now, |was|, before)
    ensures Since(now, from, t)
  {
    forall i | from <= i < |now| ensures t <= now[i].start {
      if i < |was| {
        assert was[i] == now[i];
      }
    }
  }

  ghost predicate Since(log: seq<Turn>, from: nat, t: int) {
    forall i :: from <= i < |log| ==> t <= log[i].start
  }

  lemma EmptyLog(origin: int)
    ensures Next(origin, []) == origin && Paced(origin, [])
  {
  }

  lemma LogOneMore(origin: int, log: seq<Turn>, t: Turn)
    requires Paced(origin, log) && Next(origin, log) <= t.start <= t.end && t.accepted <= CHUNK
    requires forall i :: 0 <= i < |log| ==> log[i].end <= t.start
    ensures Paced(origin, log + [t])
    ensures Next(origin, log + [t]) == After(Next(origin, log), t) && Sent(log + [t]) == Sent(log) + t.accepted
  {
    var more := log + [t];
    assert more[..|log|] == log;
    forall i | 0 <= i < |more|
      ensures Next(origin, more[..i]) <= more[i].start <= more[i].end && more[i].accepted <= CHUNK
    {
      if i < |log| {
        assert more[..i] == log[..i];
      }
    }
  }

  class PacedPCMWriter {
    const world: World
    const canReopen: bool
    var started: bool
    var next: int
    ghost var origin: int
    ghost var log: seq<Turn>

    constructor (world: World, canReopen: bool)
      ensures Valid() && log == [] && !started && this.world == world && this.canReopen == canReopen
    {
      this.world, this.canReopen, started, next, origin, log := world, canReopen, false, 0, 0, [];
    }

    ghost predicate Valid()
      reads this, world
    {
      && (!started ==> log == [])
      && (started ==> next == Next(origin, log))
      && Paced(origin, log)
      && forall i :: 0 <= i < |log| ==> log[i].end <= world.now
    }

    /** Whatever the FIFO does, the bytes it took are the first n of p, in order, across
        at most three reopened FIFOs. */
    method WriteResilient(p: seq<Byte>) returns (n: nat, err: Option<Error>)
      requires world.fifos != []
      modifies world
      ensures n <= |p| && world.now >= old(world.now)
      ensures Flatten(world.fifos) == old(Flatten(world.fifos)) + p[..n]
      ensures |old(world.fifos)| <= |world.fifos| <= |old(world.fifos)| + (if canReopen then REOPENS else 0)
      ensures (n, err) == Resilient(old(world.answers), |p|, canReopen, 0)
    {
      hide Flatten;
      var attempts := 0;
      while true
        invariant world.fifos != [] && world.now >= old(world.now)
        invariant Flatten(world.fifos) == old(Flatten(world.fifos)) && 0 <= attempts
        invariant Resilient(old(world.answers), |p|, canReopen, 0) == Resilient(world.answers, |p|, canReopen, attempts)
        invariant |old(world.fifos)| <= |world.fifos|
        invariant |world.fifos| <= |old(world.fifos)| +
          (if !canReopen then 0 else if attempts < REOPENS then attempts else REOPENS)
        decreases |world.answers|
      {
        n, err := world.Write(p);
        if err.None? || n > 0 { return; }
        assert p[..n] == [] && Flatten(world.fifos) == old(Flatten(world.fifos)) + [];
        if err == Some(BrokenPipe) && canReopen && attempts < REOPENS {
          var ok := world.Reopen();
          if !ok { return 0, err; }
          attempts := attempts + 1;
          continue;
        }
        if err != Some(TryAgain) { return; }
        var waitErr := world.Wait(20 * MILLISECOND);
        if waitErr.Some? { return 0, waitErr; }
        attempts := attempts + 1;
      }
    }

    /** Moves the timeline on after a turn, rebasing it when a stall used up the credit. */
    method Settle(start: int, n: nat)
      requires Valid() && started && next <= start <= world.now && n <= CHUNK
      requires forall i :: 0 <= i < |log| ==> log[i].end <= start
      modifies this`next, this`log
      ensures Valid() && log == old(log) + [Turn(start, world.now, n)] && Sent(log) == Sent(old(log)) + n
    {
      hide Next, Sent, Paced;
      LogOneMore(origin, log, Turn(start, world.now, n));
      if start - next > CREDIT + 100 * MILLISECOND {
        next := start - CREDIT;
      }
      next := next + n * SECOND / BYTES_PER_SECOND;
      log := log + [Turn(start, world.now, n)];
    }

    /** The body of the write loop: wait until the next byte is due, offer one chunk, settle. */
    method OneTurn(rest: seq<Byte>) returns (n: nat, err: Option<Error>)
      requires Valid() && world.fifos != [] && started
      modifies this`next, this`log, world
      ensures Valid() && world.fifos != [] && n <= |rest| && world.now >= old(world.now)
      ensures Flatten(world.fifos) == old(Flatten(world.fifos)) + rest[..n]
      ensures old(log) <= log && Sent(log) == Sent(old(log)) + n
      // a wait that is not cut short is followed by one write, of a full chunk if there is one
      ensures !Agreed(old(world.answers)) ==> n == 0 && err == Some(Cancelled) && log == old(log)
      ensures Agreed(old(world.answers)) ==> |log| == |old(log)| + 1
      ensures Agreed(old(world.answers)) ==>
        (n, err) == Resilient(Later(old(world.answers)), if |rest| <= CHUNK then |rest| else CHUNK, canReopen, 0)
      ensures Since(log, |old(log)|, old(world.now))
    {
      hide Flatten, Next, Sent, Paced;
      assert rest[..0] == [] && Flatten(world.fifos) + [] == Flatten(world.fifos);
      var waitErr := world.Wait(next - world.now);
      if waitErr.Some? { return 0, waitErr; }
      var size := if |rest| <= CHUNK then |rest| else CHUNK;
      var start := world.now;
      n, err := WriteResilient(rest[..size]);
      assert rest[..size][..n] == rest[..n];
      Settle(start, n);
    }

    /** Sends p in paced chunks. The bytes taken are a prefix of p even across reopened
        FIFOs, all of p unless an error is returned, and the log stays paced. */
    method Write(p: seq<Byte>) returns (sent: nat, err: Option<Error>)
      requires Valid() && world.fifos != []
      modifies this, world
      ensures Valid() && world.fifos != []
      ensures sent <= |p| && (err.None? ==> sent == |p|)
      ensures Flatten(world.fifos) == old(Flatten(world.fifos)) + p[..sent]
      ensures started && origin == if old(started) then old(origin) else old(world.now) - CREDIT
      ensures old(log) <= log && Sent(log) == Sent(old(log)) + sent
      ensures Since(log, |old(log)|, old(world.now))
    {
      hide Flatten, Next, Sent, Paced;
      sent := 0;
      if !started {
        started, next, origin := true, world.now - CREDIT, world.now - CREDIT;
        EmptyLog(origin);
      }
      var rest := p;
      while rest != []
        invariant Valid() && world.fifos != [] && started
        invariant sent <= |p| && rest == p[sent..]
        invariant Flatten(world.fifos) == old(Flatten(world.fifos)) + p[..sent]
        invariant origin == if old(started) then old(origin) else old(world.now) - CREDIT
        invariant old(log) <= log && Sent(log) == Sent(old(log)) + sent
        invariant old(world.now) <= world.now
        invariant Since(log, |old(log)|, old(world.now))
        decreases |rest|
      {
        ghost var before, was := world.now, log;
        var n, writeErr := OneTurn(rest);
        Onward(old(Flatten(world.fifos)), p, sent, n);
        SinceGrows(was, log, |old(log)|, before, old(world.now));
        sent, rest := sent + n, rest[n..];
        if writeErr.Some? { return sent, writeErr; }
        if n == 0 { return sent, Some(ShortWrite); }
      }
      return sent, None;
    }
  }
}
