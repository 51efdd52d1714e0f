/** The command queue and its wakeup pipe in baresip/shim/voxmail.c: any number of
    threads push and wake, one event-loop handler drains the pipe and dispatches. */
module CommandWakeup {
  import opened CommandQueue

  const COMMAND_QUEUE_MAX: nat := 256
  const COMMANDS_PER_TURN: nat := 32
  /** One-byte writes a default pipe takes before it is full. */
  const PIPE_CAPACITY: nat := 65536

  /** Where the handler is: waiting in the event loop, emptying the pipe, about to
      pop after so many commands this turn, or about to re-arm the pipe. */
  datatype Handler = Idle | Draining | Popping(done: nat) | Rearming

  datatype WriteResult = Written | WouldBlock | WriteError

  datatype State<T> = State(
    queue: Fifo<T>,
    pipe: nat,
    waking: nat,       // pushers between their push and their wakeup
    handler: Handler,
    failed: bool,      // some wakeup write failed for good
    accepted: seq<T>,  // every command ever queued, in order
    run: seq<T>)       // every command handed to the handler, in order

  datatype Action<T> =
    | Push(command: T)
    | Wake(write: WriteResult)
    | Stop
    | StartTurn(bytes: nat)
    | ReadMore(bytes: nat)
    | ReadEmpty
    | Pop
    | EndTurn
    | CheckPending
    | Rearm(write: WriteResult)

  function Start<T>(): State<T> {
    State(Fifo([], COMMAND_QUEUE_MAX, true), 0, 0, Idle, false, [], [])
  }

  predicate CanWrite<T>(s: State<T>, w: WriteResult) {
    match w
    case Written => s.pipe < PIPE_CAPACITY
    case WouldBlock => s.pipe == PIPE_CAPACITY
    case WriteError => true
  }

  predicate Enabled<T>(s: State<T>, a: Action<T>) {
    match a
    case Push(_) => true
    case Wake(w) => s.waking > 0 && CanWrite(s, w)
    case Stop => true
    case StartTurn(n) => s.handler.Idle? && 0 < n <= s.pipe && n <= 256
    case ReadMore(n) => s.handler.Draining? && 0 < n <= s.pipe && n <= 256
    case ReadEmpty => s.handler.Draining? && s.pipe == 0
    case Pop => s.handler.Popping? && s.handler.done < COMMANDS_PER_TURN && s.queue.contents != []
    case EndTurn => s.handler.Popping? && s.handler.done < COMMANDS_PER_TURN && s.queue.contents == []
    case CheckPending => s.handler.Popping? && s.handler.done >= COMMANDS_PER_TURN
    case Rearm(w) => s.handler.Rearming? && CanWrite(s, w)
  }

  /** voxmail_command_wakeup and what its callers do about an error. */
  function AfterWrite<T>(s: State<T>, w: WriteResult): State<T> {
    match w
    case Written => s.(pipe := s.pipe + 1)
    case WouldBlock => s
    case WriteError => s.(queue := s.queue.(accepting := false), failed := true)
  }

  function Apply<T>(s: State<T>, a: Action<T>): State<T>
    requires Enabled(s, a)
  {
    match a
    case Push(c) =>
      if Admit(s.queue) == Queued
      then s.(queue := Pushed(s.queue, c), accepted := s.accepted + [c], waking := s.waking + 1)
      else s
    case Wake(w) => AfterWrite(s, w).(waking := s.waking - 1)
    case Stop => s.(queue := s.queue.(accepting := false))
    case StartTurn(n) => s.(pipe := s.pipe - n, handler := Draining)
    case ReadMore(n) => s.(pipe := s.pipe - n)
    case ReadEmpty => s.(handler := Popping(0))
    case Pop =>
      s.(queue := Popped(s.queue), run := s.run + [s.queue.contents[0]], handler := Popping(s.handler.done + 1))
    case EndTurn => s.(handler := Idle)
    case CheckPending => s.(handler := if s.queue.contents != [] then Rearming else Idle)
    case Rearm(w) => AfterWrite(s, w).(handler := Idle)
  }

  predicate Executable<T>(s: State<T>, acts: seq<Action<T>>)
    decreases |acts|
  {
    acts == [] || (Enabled(s, acts[0]) && Executable(Apply(s, acts[0]), acts[1..]))
  }

  function Exec<T>(s: State<T>, acts: seq<Action<T>>): State<T>
    requires Executable(s, acts)
    decreases |acts|
  {
    if acts == [] then s else Exec(Apply(s, acts[0]), acts[1..])
  }

  /** Somebody will still look at the queue. */
  predicate Attended<T>(s: State<T>) {
    s.pipe > 0 || s.waking > 0 || !s.handler.Idle?
  }

  ghost predicate Inv<T>(s: State<T>) {
    && s.queue.capacity == COMMAND_QUEUE_MAX && |s.queue.contents| <= COMMAND_QUEUE_MAX
    && s.accepted == s.run + s.queue.contents
    && s.pipe <= PIPE_CAPACITY
    && (s.handler.Popping? ==> s.handler.done <= COMMANDS_PER_TURN)
    && (s.failed ==> !s.queue.accepting)
    && (s.queue.contents != [] && !s.failed ==> Attended(s))
  }

  lemma StepKeepsInv<T>(s: State<T>, a: Action<T>)
    requires Inv(s) && Enabled(s, a)
    ensures Inv(Apply(s, a))
  {
    if a.Pop? {
      assert s.queue.contents == [s.queue.contents[0]] + s.queue.contents[1..];
    }
  }

  lemma {:induction false} RunKeepsInv<T>(s: State<T>, acts: seq<Action<T>>)
    requires Inv(s) && Executable(s, acts)
    ensures Inv(Exec(s, acts))
    decreases |acts|
  {
    if acts != [] {
      StepKeepsInv(s, acts[0]);
      RunKeepsInv(Apply(s, acts[0]), acts[1..]);
    }
  }

  /** No lost wakeup, in every interleaving of pushers and handler: unless a wakeup
      write itself failed, a queued command has somebody coming for it. What has
      run is the accepted commands in order, each once; the queue stays bounded. */
  lemma NoLostWakeup<T>(acts: seq<Action<T>>)
    requires Executable(Start<T>(), acts)
    ensures var s := Exec(Start<T>(), acts);
      && |s.queue.contents| <= COMMAND_QUEUE_MAX
      && s.accepted == s.run + s.queue.contents
      && (s.queue.contents != [] && !s.failed ==> Attended(s))
      && (s.failed ==> !s.queue.accepting)
  {
    RunKeepsInv(Start<T>(), acts);
  }

  /** The hypothesis is needed: one failed wakeup strands the command it was for. */
  lemma FailedWakeupStrands(c: int)
    ensures var acts := [Push(c), Wake(WriteError)];
      && Executable(Start<int>(), acts)
      && Exec(Start<int>(), acts).queue.contents == [c]
      && !Attended(Exec(Start<int>(), acts))
  {
    var s0 := Start<int>();
    var acts := [Push(c), Wake(WriteError)];
    var s1 := Apply(s0, Push(c));
    assert acts[1..] == [Wake(WriteError)] && acts[1..][1..] == [];
    assert Exec(s0, acts) == Exec(s1, acts[1..]) == Exec(Apply(s1, Wake(WriteError)), []);
  }

  /** Commands are queued and nobody is coming for them. */
  predicate Stranded<T>(s: State<T>) { s.queue.contents != [] && !Attended(s) }

  /** Exactly which steps strand the queue: a failed wakeup of the last pusher while the
      handler sleeps, or a failed re-arm after a full batch, both with the pipe empty
      and no other pusher about to write to it. */
  predicate Strands<T>(s: State<T>, a: Action<T>) {
    && s.queue.contents != [] && s.pipe == 0
    && ((a == Wake(WriteError) && s.waking == 1 && s.handler.Idle?) || (a == Rearm(WriteError) && s.waking == 0))
  }

  lemma StrandedIff<T>(s: State<T>, a: Action<T>)
    requires Inv(s) && Enabled(s, a) && !s.failed
    ensures Stranded(Apply(s, a)) <==> Strands(s, a)
  {
  }

  /** Stranded commands stay: nothing runs again, whatever happens. */
  lemma {:induction false} StrandedForGood<T>(s: State<T>, acts: seq<Action<T>>)
    requires Inv(s) && Stranded(s) && Executable(s, acts)
    ensures Stranded(Exec(s, acts)) && Exec(s, acts).run == s.run && Exec(s, acts).queue.contents == s.queue.contents
    decreases |acts|
  {
    if acts != [] {
      var a := acts[0];
      assert a.Push? || a.Stop?;
      StepKeepsInv(s, a);
      StrandedForGood(Apply(s, a), acts[1..]);
    }
  }

  /** A step of the shim itself: neither a new command nor a shutdown nor a failure. */
  predicate Working<T>(a: Action<T>) {
    match a
    case Push(_) => false
    case Stop => false
    case Wake(w) => w != WriteError
    case Rearm(w) => w != WriteError
    case _ => true
  }

  function Phase(h: Handler): nat {
    match h
    case Popping(n) => if n >= COMMANDS_PER_TURN then 4 else 0
    case Rearming => 3
    case Idle => 2
    case Draining => 1
  }

  /** While a command is queued, every working step brings its dispatch closer. */
  lemma WorkingStepProgresses<T>(s: State<T>, a: Action<T>)
    requires Inv(s) && Enabled(s, a) && Working(a) && s.queue.contents != []
    ensures var t := Apply(s, a);
      || |t.queue.contents| < |s.queue.contents|
      || (t.queue == s.queue && t.waking < s.waking)
      || (t.queue == s.queue && t.waking == s.waking && Phase(t.handler) < Phase(s.handler))
      || (t.queue == s.queue && t.waking == s.waking && Phase(t.handler) == Phase(s.handler) && t.pipe < s.pipe)
  {
  }

  /** While a command is queued and no wakeup failed, some working step is enabled. */
  lemma WorkIsEnabled<T>(s: State<T>) returns (a: Action<T>)
    requires Inv(s) && !s.failed && s.queue.contents != []
    ensures Enabled(s, a) && Working(a)
  {
    var w := if s.pipe < PIPE_CAPACITY then Written else WouldBlock;
    match s.handler {
      case Idle => a := if s.pipe > 0 then StartTurn(1) else Wake(w);
      case Draining => a := if s.pipe > 0 then ReadMore(1) else ReadEmpty;
      case Popping(n) => a := if n < COMMANDS_PER_TURN then Pop else CheckPending;
      case Rearming => a := Rearm(w);
    }
  }

  /** So from any state of any run without a failed wakeup, working steps alone
      finish every accepted command, in order. */
  lemma {:induction false} EveryCommandCanFinish<T>(s: State<T>) returns (acts: seq<Action<T>>)
    requires Inv(s) && !s.failed
    ensures Executable(s, acts) && forall i :: 0 <= i < |acts| ==> Working(acts[i])
    ensures Exec(s, acts).run == s.accepted && Exec(s, acts).queue.contents == []
    decreases |s.queue.contents|, s.waking, Phase(s.handler), s.pipe
  {
    acts := [];
    if s.queue.contents != [] {
      var a := WorkIsEnabled(s);
      StepKeepsInv(s, a);
      WorkingStepProgresses(s, a);
      var rest := EveryCommandCanFinish(Apply(s, a));
      acts := [a] + rest;
      assert acts[1..] == rest;
    }
  }

  // ------------------------------------------------------- what the steps do

  /** A command is accepted exactly while the queue is open and not full. */
  lemma AcceptedIffRoom<T>(acts: seq<Action<T>>, c: T)
    requires Executable(Start<T>(), acts)
    ensures var s := Exec(Start<T>(), acts);
      var t := Apply(s, Push(c));
      && t.accepted ==
         (if s.queue.accepting && |s.queue.contents| < COMMAND_QUEUE_MAX then s.accepted + [c] else s.accepted)
      && (t.accepted != s.accepted ==> t.waking == s.waking + 1) && t.run == s.run
  {
    RunKeepsInv(Start<T>(), acts);
  }

  /** After a stop nothing is accepted any more, but what was accepted may still run. */
  lemma {:induction false} ClosedAcceptsNothing<T>(s: State<T>, acts: seq<Action<T>>)
    requires !s.queue.accepting && Executable(s, acts)
    ensures Exec(s, acts).accepted == s.accepted && !Exec(s, acts).queue.accepting
    decreases |acts|
  {
    if acts != [] {
      ClosedAcceptsNothing(Apply(s, acts[0]), acts[1..]);
    }
  }

  lemma StoppedAcceptsNothing<T>(s: State<T>, acts: seq<Action<T>>)
    requires Executable(Apply(s, Stop), acts)
    ensures Exec(Apply(s, Stop), acts).accepted == s.accepted
    ensures Apply(s, Stop).queue.contents == s.queue.contents
  {
    ClosedAcceptsNothing(Apply(s, Stop), acts);
  }

  function BytesWritten<T>(acts: seq<Action<T>>): nat {
    if acts == [] then 0
    else (if acts[0] == Wake(Written) || acts[0] == Rearm(Written) then 1 else 0) + BytesWritten(acts[1..])
  }

  function BytesRead<T>(acts: seq<Action<T>>): nat {
    if acts == [] then 0
    else (if acts[0].StartTurn? || acts[0].ReadMore? then acts[0].bytes else 0) + BytesRead(acts[1..])
  }

  /** The pipe holds exactly the bytes written and not yet read. */
  lemma {:induction false} BytesConserved<T>(s: State<T>, acts: seq<Action<T>>)
    requires Executable(s, acts)
    ensures Exec(s, acts).pipe + BytesRead(acts) == s.pipe + BytesWritten(acts)
    decreases |acts|
  {
    if acts != [] {
      BytesConserved(Apply(s, acts[0]), acts[1..]);
    }
  }

  /** How many commands the turn under way has handled. */
  function Handled(h: Handler): nat {
    match h
    case Popping(n) => n
    case Rearming => COMMANDS_PER_TURN
    case _ => 0
  }

  /** Until the next turn starts, exactly as many commands run as the handler counts. */
  lemma TurnCounts<T>(s: State<T>, acts: seq<Action<T>>)
    requires Inv(s) && s.handler == Draining && Executable(s, acts)
    requires forall k :: 0 <= k < |acts| ==> !acts[k].StartTurn? && !acts[k].EndTurn? && !acts[k].CheckPending?
    ensures (Exec(s, acts).handler == Draining && Exec(s, acts).run == s.run) ||
            (Exec(s, acts).handler.Popping? && |Exec(s, acts).run| == |s.run| + Exec(s, acts).handler.done)
  {
    CountFrom(s, acts, |s.run|);
  }

  lemma {:induction false} CountFrom<T>(s: State<T>, acts: seq<Action<T>>, before: nat)
    requires Inv(s) && Executable(s, acts)
    requires forall k :: 0 <= k < |acts| ==> !acts[k].StartTurn? && !acts[k].EndTurn? && !acts[k].CheckPending?
    requires s.handler == Draining || s.handler.Popping?
    requires |s.run| == before + Handled(s.handler)
    ensures var t := Exec(s, acts);
      (t.handler == Draining || t.handler.Popping?) && |t.run| == before + Handled(t.handler)
    ensures s.handler == Draining && Exec(s, acts).handler == Draining ==> Exec(s, acts).run == s.run
    ensures s.handler.Popping? ==> Exec(s, acts).handler.Popping?
    decreases |acts|
  {
    if acts != [] {
      assert !acts[0].StartTurn? && !acts[0].EndTurn? && !acts[0].CheckPending?;
      StepKeepsInv(s, acts[0]);
      CountFrom(Apply(s, acts[0]), acts[1..], before);
    }
  }

  /** Between two starts of a turn at most 32 commands run. */
  lemma {:induction false} TurnIsBounded<T>(s: State<T>, acts: seq<Action<T>>)
    requires Inv(s) && Executable(s, acts) && forall k :: 0 <= k < |acts| ==> !acts[k].StartTurn?
    ensures |s.run| <= |Exec(s, acts).run| <= |s.run| + COMMANDS_PER_TURN
    ensures s.handler == Idle || s.handler == Rearming ==> Exec(s, acts).run == s.run
    ensures s.handler.Popping? ==> |Exec(s, acts).run| <= |s.run| + COMMANDS_PER_TURN - s.handler.done
    decreases |acts|
  {
    if acts != [] {
      assert !acts[0].StartTurn?;
      StepKeepsInv(s, acts[0]);
      TurnIsBounded(Apply(s, acts[0]), acts[1..]);
    }
  }

  function RestPhase(h: Handler): nat {
    match h
    case Draining => 2
    case Popping(_) => 1
    case _ => 0
  }

  /** With nothing queued the shim comes to rest: every working step lowers the wakeups under
      way, the re-arms to come, the bytes to read, or the rest of the handler's turn. */
  lemma IdleStepProgresses<T>(s: State<T>, a: Action<T>)
    requires Inv(s) && Enabled(s, a) && Working(a) && s.queue.contents == []
    ensures var t := Apply(s, a);
      && t.queue == s.queue
      && (|| t.waking < s.waking
          || (t.waking == s.waking && s.handler == Rearming && t.handler != Rearming)
          || (t.waking == s.waking && t.handler != Rearming && t.pipe < s.pipe)
          || (t.waking == s.waking && t.handler != Rearming && t.pipe == s.pipe &&
              RestPhase(t.handler) < RestPhase(s.handler)))
  {
  }

  /** A full batch that leaves commands behind re-arms the pipe, and only such a batch. */
  lemma FullBatchRearms<T>(s: State<T>)
    requires Inv(s) && Enabled(s, CheckPending)
    ensures s.handler.done == COMMANDS_PER_TURN
    ensures Apply(s, CheckPending).handler == if s.queue.contents != [] then Rearming else Idle
    ensures s.queue.contents != [] && s.pipe < PIPE_CAPACITY ==>
      var t := Apply(Apply(s, CheckPending), Rearm(Written)); t.pipe == s.pipe + 1 && t.handler == Idle
  {
  }
}
