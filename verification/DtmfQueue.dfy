/** One call's bounded event queue in internal/calls/events.go: the reader that dispatches
    into it and the worker that takes from it, as interleaved channel operations. */
module DtmfQueue {
  import opened Wrappers

  const CAPACITY: nat := 32

  /** A key press, another named event, or an event without a type. */
  datatype Kind = Press | Control | Blank

  /** An event, numbered in order of arrival. */
  datatype Job = Job(id: nat, kind: Kind)

  /** Where the reader is: between events, or at one of the three further channel
      operations with which it makes room for the press in hand. */
  datatype Phase =
    | Idle
    | Overflowing(press: Job)
    | Drained(press: Job, taken: Option<Job>)
    | Requeued(press: Job, control: bool)

  /** `accepted` are the jobs that have entered the queue, `lost` those given up. */
  datatype State = State(queue: seq<Job>, delivered: seq<Job>, phase: Phase, next: nat, accepted: seq<Job>,
                         lost: seq<Job>, hungUp: bool)

  datatype Action = Receive(kind: Kind) | Drain | Requeue | Insert | Take

  const INITIAL: State := State([], [], Idle, 0, [], [], false)

  predicate Enabled(s: State, a: Action) {
    match a
    case Receive(_) => s.phase.Idle?
    case Drain => s.phase.Overflowing?
    case Requeue => s.phase.Drained?
    case Insert => s.phase.Requeued?
    case Take => s.queue != []
  }

  predicate HasRoom(s: State) { |s.queue| < CAPACITY }

  function Apply(s: State, a: Action): State
    requires Enabled(s, a)
  {
    match a
    case Receive(kind) =>
      var job := Job(s.next, kind);
      var t := s.(next := s.next + 1);
      if HasRoom(s) then t.(queue := s.queue + [job], accepted := s.accepted + [job])
      else if kind == Press then t.(phase := Overflowing(job))
      else t.(lost := s.lost + [job], hungUp := true)
    case Drain =>
      if s.queue == [] then s.(phase := Drained(s.phase.press, None))
      else s.(phase := Drained(s.phase.press, Some(s.queue[0])), queue := s.queue[1..])
    case Requeue =>
      var t := s.(phase := Requeued(s.phase.press, s.phase.taken.Some? && s.phase.taken.value.kind == Control));
      if s.phase.taken.None? then t
      else if s.phase.taken.value.kind == Control && HasRoom(s) then t.(queue := s.queue + [s.phase.taken.value])
      else t.(lost := s.lost + [s.phase.taken.value])
    case Insert =>
      var t := s.(phase := Idle);
      if HasRoom(s) then t.(queue := s.queue + [s.phase.press], accepted := s.accepted + [s.phase.press])
      else t.(lost := s.lost + [s.phase.press])
    case Take => s.(delivered := s.delivered + [s.queue[0]], queue := s.queue[1..])
  }

  predicate Executable(s: State, actions: seq<Action>)
    decreases |actions|
  {
    actions != [] ==> Enabled(s, actions[0]) && Executable(Apply(s, actions[0]), actions[1..])
  }

  function Exec(s: State, actions: seq<Action>): State
    requires Executable(s, actions)
    decreases |actions|
  {
    if actions == [] then s else Exec(Apply(s, actions[0]), actions[1..])
  }

  // ------------------------------------------------------------------ the invariant

  /** The jobs that have passed or still wait, in that order. */
  function Line(s: State): seq<Job> { s.delivered + s.queue }

  /** The job the reader has drained and not yet put anywhere. */
  function InHand(s: State): Option<Job> {
    if s.phase.Drained? then s.phase.taken else None
  }

  function HandCount(s: State): multiset<Job> {
    if InHand(s).Some? && InHand(s).value.kind == Control then multiset{InHand(s).value} else multiset{}
  }

  function Only(jobs: seq<Job>, kind: Kind): seq<Job> {
    if jobs == [] then []
    else Only(jobs[..|jobs| - 1], kind) + (if jobs[|jobs| - 1].kind == kind then [jobs[|jobs| - 1]] else [])
  }

  predicate Rising(jobs: seq<Job>) { forall i, j :: 0 <= i < j < |jobs| ==> jobs[i].id < jobs[j].id }

  predicate AllBelow(jobs: seq<Job>, bound: nat) { forall i :: 0 <= i < |jobs| ==> jobs[i].id < bound }

  /** The channel never holds more than its capacity, and has room again while the reader
      holds a drained job or has put back nothing. */
  predicate Fits(s: State) {
    && |s.queue| <= CAPACITY
    && (s.phase.Drained? ==> |s.queue| < CAPACITY)
    && (s.phase.Requeued? && !s.phase.control ==> |s.queue| < CAPACITY)
  }

  /** Presses pass in order of arrival; the press in hand is the newest. */
  predicate PressesInOrder(s: State) {
    && Rising(Only(Line(s), Press))
    && AllBelow(Only(Line(s), Press), if s.phase.Idle? then s.next else s.phase.press.id)
    && (!s.phase.Idle? ==> s.phase.press.kind == Press && s.phase.press.id < s.next)
  }

  /** Every control event that entered the queue has been delivered, waits, or is in hand. */
  ghost predicate ControlsKept(s: State) {
    multiset(Only(s.accepted, Control)) == multiset(Only(Line(s), Control)) + HandCount(s)
  }

  ghost predicate Inv(s: State) { Fits(s) && PressesInOrder(s) && ControlsKept(s) }

  lemma {:induction false} OnlyConcat(a: seq<Job>, b: seq<Job>, kind: Kind)
    ensures Only(a + b, kind) == Only(a, kind) + Only(b, kind)
  {
    if b == [] {
      assert a + b == a;
    } else {
      assert (a + b)[..|a + b| - 1] == a + b[..|b| - 1];
      OnlyConcat(a, b[..|b| - 1], kind);
    }
  }

  lemma OnlyOne(j: Job, kind: Kind)
    ensures Only([j], kind) == if j.kind == kind then [j] else []
  {
    assert [j][..0] == [];
  }

  lemma OnlyMore(a: seq<Job>, j: Job, kind: Kind)
    ensures Only(a + [j], kind) == Only(a, kind) + (if j.kind == kind then [j] else [])
  {
    OnlyConcat(a, [j], kind);
    OnlyOne(j, kind);
  }

  /** Taking the first of the queue moves nothing in the line. */
  lemma TakeKeepsLine(delivered: seq<Job>, queue: seq<Job>)
    requires queue != []
    ensures delivered + [queue[0]] + queue[1..] == delivered + queue
  {
  }

  /** Draining it removes one job from the middle of the line. */
  lemma LineSplits(delivered: seq<Job>, queue: seq<Job>, kind: Kind)
    requires queue != []
    ensures var first := if queue[0].kind == kind then [queue[0]] else [];
      && Only(delivered + queue, kind) == Only(delivered, kind) + first + Only(queue[1..], kind)
      && Only(delivered + queue[1..], kind) == Only(delivered, kind) + Only(queue[1..], kind)
  {
    assert queue == [queue[0]] + queue[1..];
    OnlyConcat(delivered, queue, kind);
    OnlyConcat([queue[0]], queue[1..], kind);
    OnlyConcat(delivered, queue[1..], kind);
    OnlyOne(queue[0], kind);
  }

  lemma LineGrows(s: State, job: Job, kind: Kind)
    ensures Only(s.delivered + (s.queue + [job]), kind) ==
      Only(Line(s), kind) + (if job.kind == kind then [job] else [])
  {
    assert s.delivered + (s.queue + [job]) == Line(s) + [job];
    OnlyMore(Line(s), job, kind);
  }

  lemma RisingWithout(a: seq<Job>, x: seq<Job>, b: seq<Job>, bound: nat)
    requires Rising(a + x + b) && AllBelow(a + x + b, bound)
    ensures Rising(a + b) && AllBelow(a + b, bound)
  {
    var whole, part := a + x + b, a + b;
    assert forall i :: 0 <= i < |a| ==> part[i] == whole[i];
    assert forall i :: |a| <= i < |part| ==> part[i] == whole[i + |x|];
  }

  lemma RisingPrefix(a: seq<Job>, b: seq<Job>)
    requires Rising(a + b)
    ensures Rising(a)
  {
    assert forall i :: 0 <= i < |a| ==> a[i] == (a + b)[i];
  }

  lemma CountsWithout(a: seq<Job>, x: seq<Job>, b: seq<Job>)
    ensures multiset(a + x + b) == multiset(a + b) + multiset(x)
  {
  }

  lemma StepKeepsOrder(s: State, a: Action)
    requires PressesInOrder(s) && Enabled(s, a)
    ensures PressesInOrder(Apply(s, a))
  {
    hide Only;
    match a {
      case Receive(kind) => LineGrows(s, Job(s.next, kind), Press);
      case Drain =>
        if s.queue != [] {
          LineSplits(s.delivered, s.queue, Press);
          var first := if s.queue[0].kind == Press then [s.queue[0]] else [];
          RisingWithout(Only(s.delivered, Press), first, Only(s.queue[1..], Press), s.phase.press.id);
        }
      case Requeue => if s.phase.taken.Some? { LineGrows(s, s.phase.taken.value, Press); }
      case Insert => LineGrows(s, s.phase.press, Press);
      case Take => TakeKeepsLine(s.delivered, s.queue);
    }
  }

  lemma DrainKeepsControls(s: State)
    requires s.phase.Overflowing? && ControlsKept(s)
    ensures ControlsKept(Apply(s, Drain))
  {
    hide Only;
    if s.queue != [] {
      LineSplits(s.delivered, s.queue, Control);
      var first := if s.queue[0].kind == Control then [s.queue[0]] else [];
      CountsWithout(Only(s.delivered, Control), first, Only(s.queue[1..], Control));
    }
  }

  lemma RequeueKeepsControls(s: State)
    requires s.phase.Drained? && HasRoom(s) && ControlsKept(s)
    ensures ControlsKept(Apply(s, Requeue))
  {
    hide Only;
    if s.phase.taken.Some? {
      LineGrows(s, s.phase.taken.value, Control);
    }
  }

  lemma PushKeepsControls(s: State, job: Job, t: State)
    requires ControlsKept(s) && HandCount(s) == multiset{} == HandCount(t) && t.delivered == s.delivered
    requires t.queue == s.queue + [job] && t.accepted == s.accepted + [job]
    ensures ControlsKept(t)
  {
    hide Only, HandCount;
    LineGrows(s, job, Control);
    OnlyMore(s.accepted, job, Control);
  }

  lemma StepKeepsControls(s: State, a: Action)
    requires Fits(s) && ControlsKept(s) && Enabled(s, a)
    ensures ControlsKept(Apply(s, a))
  {
    hide Only, ControlsKept;
    match a {
      case Receive(kind) =>
        if HasRoom(s) {
          PushKeepsControls(s, Job(s.next, kind), Apply(s, a));
        } else {
          Unmoved(s, Apply(s, a));
        }
      case Drain => DrainKeepsControls(s);
      case Requeue => RequeueKeepsControls(s);
      case Insert =>
        if HasRoom(s) {
          PushKeepsControls(s, s.phase.press, Apply(s, a));
        } else {
          Unmoved(s, Apply(s, a));
        }
      case Take =>
        TakeKeepsLine(s.delivered, s.queue);
        Unmoved(s, Apply(s, a));
    }
  }

  lemma Unmoved(s: State, t: State)
    requires ControlsKept(s) && Line(t) == Line(s) && t.accepted == s.accepted && HandCount(t) == HandCount(s)
    ensures ControlsKept(t)
  {
  }

  lemma StepFits(s: State, a: Action)
    requires Fits(s) && Enabled(s, a)
    ensures Fits(Apply(s, a))
  {
  }

  lemma StepKeepsInv(s: State, a: Action)
    requires Inv(s) && Enabled(s, a)
    ensures Inv(Apply(s, a))
  {
    StepFits(s, a);
    StepKeepsOrder(s, a);
    StepKeepsControls(s, a);
    hide PressesInOrder, ControlsKept, Fits, Apply;
  }

  lemma {:induction false} RunKeepsInv(s: State, actions: seq<Action>)
    requires Inv(s) && Executable(s, actions)
    ensures Inv(Exec(s, actions))
    decreases |actions|
  {
    if actions != [] {
      hide Inv, Apply, Enabled;
      StepKeepsInv(s, actions[0]);
      RunKeepsInv(Apply(s, actions[0]), actions[1..]);
    }
  }

  lemma ReachableInv(actions: seq<Action>)
    requires Executable(INITIAL, actions)
    ensures Inv(Exec(INITIAL, actions))
  {
    InitialInv();
    hide Inv, Executable, Exec;
    RunKeepsInv(INITIAL, actions);
  }

  lemma InitialInv()
    ensures Inv(INITIAL)
  {
  }

  // ------------------------------------------------------------------- the theorems

  lemma {:induction false} OnlyMembers(jobs: seq<Job>, kind: Kind, j: Job)
    ensures j in Only(jobs, kind) <==> j in jobs && j.kind == kind
  {
    if jobs != [] {
      OnlyMembers(jobs[..|jobs| - 1], kind, j);
      assert jobs == jobs[..|jobs| - 1] + [jobs[|jobs| - 1]];
    }
  }

  /** In every interleaving with one reader, an event other than a press that has entered the
      queue is never discarded: it is delivered, waiting, or in the reader's hand. */
  lemma QueuedControlIsNeverLost(actions: seq<Action>, j: Job)
    requires Executable(INITIAL, actions)
    requires j in Exec(INITIAL, actions).accepted && j.kind == Control
    ensures var s := Exec(INITIAL, actions); j in s.delivered || j in s.queue || InHand(s) == Some(j)
  {
    ReachableInv(actions);
    var s := Exec(INITIAL, actions);
    OnlyMembers(s.accepted, Control, j);
    OnlyMembers(Line(s), Control, j);
    hide Only, Executable, Exec;
    assert j in multiset(Only(s.accepted, Control));
    assert j in Only(Line(s), Control) || j in HandCount(s);
  }

  /** The presses delivered come in the order in which they were made, each at most once,
      and the queue never exceeds its capacity. */
  lemma PressesAreDeliveredInOrder(actions: seq<Action>)
    requires Executable(INITIAL, actions)
    ensures Rising(Only(Exec(INITIAL, actions).delivered, Press))
    ensures |Exec(INITIAL, actions).queue| <= CAPACITY
  {
    ReachableInv(actions);
    var s := Exec(INITIAL, actions);
    hide Only, Executable, Exec, Rising;
    OnlyConcat(s.delivered, s.queue, Press);
    RisingPrefix(Only(s.delivered, Press), Only(s.queue, Press));
  }

  /** The newest press is given up only when what was drained for it was a control event
      that then took the place; the reader's other two sends never find the queue full. */
  lemma NewestPressYieldsOnlyToControl(actions: seq<Action>)
    requires Executable(INITIAL, actions)
    ensures var s := Exec(INITIAL, actions);
      && (s.phase.Drained? ==> HasRoom(s))
      && (s.phase.Requeued? && !HasRoom(s) ==> s.phase.control)
  {
    ReachableInv(actions);
    hide Executable, Exec, PressesInOrder, ControlsKept;
  }

  /** The jobs that have arrived, wherever they are now: the press in hand included. */
  function Everywhere(s: State): seq<Job> {
    s.delivered + s.queue + s.lost + (if InHand(s).Some? then [InHand(s).value] else []) +
    (if s.phase.Idle? then [] else [s.phase.press])
  }

  ghost predicate Present(s: State, id: nat) { exists j :: j in Everywhere(s) && j.id == id }

  /** What else every step keeps: no arrival vanishes or is duplicated; what waits or is in
      hand was accepted; and the call is hung up exactly when an event that is no press was
      refused. */
  ghost predicate Accounted(s: State) {
    && |Everywhere(s)| == s.next && (forall id :: 0 <= id < s.next ==> Present(s, id))
    && (forall j :: j in s.lost || j in s.accepted ==> j.id < s.next)
    && (forall j :: j in s.queue || InHand(s) == Some(j) ==> j in s.accepted)
    && (!s.phase.Idle? ==> s.phase.press.kind == Press && s.phase.press.id < s.next)
    && (s.hungUp <==> exists j :: j in s.lost && Refused(s, j))
  }

  predicate Refused(s: State, j: Job) { j.kind != Press && j !in s.accepted }

  lemma StillPresent(s: State, t: State)
    requires forall j :: j in Everywhere(s) ==> j in Everywhere(t)
    ensures forall id :: Present(s, id) ==> Present(t, id)
  {
  }

  lemma StepKeepsPresent(s: State, a: Action)
    requires Enabled(s, a) && Accounted(s)
    ensures var t := Apply(s, a);
      && |Everywhere(t)| == t.next && forall id :: 0 <= id < t.next ==> Present(t, id)
  {
    var t := Apply(s, a);
    StepKeepsJobs(s, a);
    StillPresent(s, t);
    if a.Receive? {
      assert Job(s.next, a.kind) in Everywhere(t);
    }
    hide Everywhere, Apply;
  }

  lemma StepKeepsJobs(s: State, a: Action)
    requires Enabled(s, a)
    ensures var t := Apply(s, a);
      && (forall j :: j in Everywhere(s) ==> j in Everywhere(t))
      && (a.Receive? ==> Job(s.next, a.kind) in Everywhere(t))
      && |Everywhere(t)| - |Everywhere(s)| == t.next - s.next == if a.Receive? then 1 else 0
  {
    if a.Drain? || a.Take? {
      HeadLeaves(s, a);
    }
  }

  lemma HeadLeaves(s: State, a: Action)
    requires Enabled(s, a) && (a.Drain? || a.Take?)
    ensures var t := Apply(s, a);
      (forall j :: j in Everywhere(s) ==> j in Everywhere(t)) && |Everywhere(t)| == |Everywhere(s)|
  {
    if s.queue != [] {
      assert s.queue == [s.queue[0]] + s.queue[1..];
    }
  }

  lemma StepKeepsHangUp(s: State, a: Action)
    requires Enabled(s, a) && Accounted(s)
    ensures var t := Apply(s, a); t.hungUp <==> exists j :: j in t.lost && Refused(t, j)
  {
    hide Everywhere, Present;
    var t := Apply(s, a);
    if s.hungUp {
      var j :| j in s.lost && Refused(s, j);
      assert j in t.lost && Refused(t, j);
    } else if t.hungUp {
      assert Job(s.next, a.kind) in t.lost && Refused(t, Job(s.next, a.kind));
    } else {
      forall j | j in t.lost ensures !Refused(t, j) {
        assert j in s.lost ==> !Refused(s, j);
      }
    }
  }

  lemma StepKeepsAccounted(s: State, a: Action)
    requires Enabled(s, a) && Accounted(s)
    ensures Accounted(Apply(s, a))
  {
    StepKeepsPresent(s, a);
    StepKeepsHangUp(s, a);
    hide Everywhere, Present, Refused;
  }

  lemma {:induction false} RunKeepsAccounted(s: State, actions: seq<Action>)
    requires Executable(s, actions) && Accounted(s)
    ensures Accounted(Exec(s, actions))
    decreases |actions|
  {
    hide Accounted, Apply, Enabled;
    if actions != [] {
      StepKeepsAccounted(s, actions[0]);
      RunKeepsAccounted(Apply(s, actions[0]), actions[1..]);
    }
  }

  /** Every event that arrived is in exactly one place: delivered, waiting, given up, or in the
      reader's hand. There are as many as arrived and every number is among them. */
  lemma NothingVanishes(actions: seq<Action>)
    requires Executable(INITIAL, actions)
    ensures |Everywhere(Exec(INITIAL, actions))| == Exec(INITIAL, actions).next
    ensures forall id :: 0 <= id < Exec(INITIAL, actions).next ==> Present(Exec(INITIAL, actions), id)
  {
    RunKeepsAccounted(INITIAL, actions);
  }

  /** The call is hung up exactly when an event other than a press found no room on arrival;
      so a control event is given up only together with its call. */
  lemma HungUpIffRefused(actions: seq<Action>, j: Job)
    requires Executable(INITIAL, actions)
    ensures var s := Exec(INITIAL, actions);
      && (s.hungUp <==> exists k :: k in s.lost && k.kind != Press && k !in s.accepted)
      && (j in s.lost && j.kind == Control && j !in s.accepted ==> s.hungUp)
  {
    RunKeepsAccounted(INITIAL, actions);
    var s := Exec(INITIAL, actions);
    hide Executable, Exec, Everywhere, Present;
    assert forall k :: Refused(s, k) <==> k.kind != Press && k !in s.accepted;
  }

  /** The worker takes the job that has waited longest, and a job that enters goes behind all
      others. */
  lemma OldestFirst(s: State, kind: Kind)
    requires s.queue != []
    ensures var t := Apply(s, Take);
      s.queue == [t.delivered[|s.delivered|]] + t.queue && t.delivered[..|s.delivered|] == s.delivered
    ensures s.phase.Idle? && |s.queue| < CAPACITY ==>
      Apply(s, Receive(kind)).queue == s.queue + [Job(s.next, kind)] && Apply(s, Receive(kind)).lost == s.lost
  {
  }

  /** When the worker takes nothing meanwhile, a press that finds the queue full replaces the
      oldest job, unless that is a control event: then the control event moves behind the
      burst and the press is the one lost. */
  lemma OverflowAlone(s: State)
    requires s.phase.Idle? && |s.queue| == CAPACITY
    ensures Executable(s, [Receive(Press), Drain, Requeue, Insert])
    ensures var t := Exec(s, [Receive(Press), Drain, Requeue, Insert]);
      && t.phase.Idle? && t.delivered == s.delivered
      && t.queue == s.queue[1..] + [if s.queue[0].kind == Control then s.queue[0] else Job(s.next, Press)]
      && t.lost == s.lost + [if s.queue[0].kind == Control then Job(s.next, Press) else s.queue[0]]
  {
    var a := Apply(s, Receive(Press));
    var b := Apply(a, Drain);
    var c := Apply(b, Requeue);
    var d := Apply(c, Insert);
    Unrolled(s, Receive(Press), [Drain, Requeue, Insert]);
    Unrolled(a, Drain, [Requeue, Insert]);
    Unrolled(b, Requeue, [Insert]);
    Unrolled(c, Insert, []);
  }

  lemma Unrolled(s: State, first: Action, rest: seq<Action>)
    requires Enabled(s, first)
    ensures Executable(s, [first] + rest) <==> Executable(Apply(s, first), rest)
    ensures Executable(Apply(s, first), rest) ==> Exec(s, [first] + rest) == Exec(Apply(s, first), rest)
  {
    assert ([first] + rest)[1..] == rest;
  }

  // ----------------------------------------------------------- the dispatcher's code

  lemma {:induction false} ExecMore(s: State, a: seq<Action>, b: seq<Action>)
    requires Executable(s, a) && Executable(Exec(s, a), b)
    ensures Executable(s, a + b) && Exec(s, a + b) == Exec(Exec(s, a), b)
    decreases |a|
  {
    hide Enabled, Apply;
    if a == [] {
      assert a + b == b;
    } else {
      assert (a + b)[1..] == a[1..] + b;
      ExecMore(Apply(s, a[0]), a[1..], b);
    }
  }

  lemma OneMore(s: State, a: seq<Action>, step: Action)
    requires Executable(s, a) && Enabled(Exec(s, a), step)
    ensures Executable(s, a + [step]) && Exec(s, a + [step]) == Apply(Exec(s, a), step)
  {
    hide Enabled, Apply;
    var t := Exec(s, a);
    assert [step][1..] == [];
    assert Executable(t, [step]) && Exec(t, [step]) == Apply(t, step);
    ExecMore(s, a, [step]);
  }

  /** The reader's own steps in a schedule. */
  function ReaderSteps(actions: seq<Action>): seq<Action> {
    if actions == [] then []
    else ReaderSteps(actions[..|actions| - 1]) + (if actions[|actions| - 1].Take? then [] else [actions[|actions| - 1]])
  }

  lemma ReaderMore(actions: seq<Action>, step: Action)
    ensures ReaderSteps(actions + [step]) == ReaderSteps(actions) + (if step.Take? then [] else [step])
  {
    assert (actions + [step])[..|actions|] == actions;
  }

  class CallQueue {
    var queue: seq<Job>
    var delivered: seq<Job>
    var next: nat
    var accepted: seq<Job>
    var lost: seq<Job>
    var hungUp: bool
    ghost var phase: Phase
    ghost var schedule: seq<Action>

    constructor ()
      ensures Contents() == INITIAL && schedule == []
    {
      queue, delivered, next, accepted, lost, hungUp, phase, schedule := [], [], 0, [], [], false, Idle, [];
    }

    ghost function Contents(): State
      reads this
    {
      State(queue, delivered, phase, next, accepted, lost, hungUp)
    }

    /** The schedule so far is a run from an empty queue that ends here. */
    ghost predicate Valid()
      reads this
    {
      Executable(INITIAL, schedule) && Exec(INITIAL, schedule) == Contents()
    }

    /** One atomic step taken, in ghost state. */
    ghost method Note(before: State, step: Action)
      requires Executable(INITIAL, schedule) && Exec(INITIAL, schedule) == before
      requires Enabled(before, step) && Contents() == Apply(before, step)
      modifies this`schedule
      ensures Valid() && schedule == old(schedule) + [step]
      ensures ReaderSteps(schedule) == ReaderSteps(old(schedule)) + (if step.Take? then [] else [step])
    {
      hide Executable, Exec, Enabled, Apply;
      OneMore(INITIAL, schedule, step);
      ReaderMore(schedule, step);
      schedule := schedule + [step];
    }

    /** The worker taking up to n jobs between two of the reader's operations. */
    method Worker(n: nat)
      requires Valid()
      modifies this
      ensures Valid() && phase == old(phase) && next == old(next) && ReaderSteps(schedule) == ReaderSteps(old(schedule))
    {
      hide Executable, Exec;
      var i := 0;
      while i < n && queue != []
        invariant Valid() && phase == old(phase) && next == old(next)
        invariant ReaderSteps(schedule) == ReaderSteps(old(schedule))
      {
        ghost var before := Contents();
        delivered, queue := delivered + [queue[0]], queue[1..];
        Note(before, Take);
        assert ReaderSteps(old(schedule)) + [] == ReaderSteps(old(schedule));
        i := i + 1;
      }
    }

    /** The first send: the event enters, or a press is left in hand, or the call is hung up. */
    method TrySend(kind: Kind) returns (job: Job, sent: bool)
      requires Valid() && phase.Idle?
      modifies this
      ensures Valid() && phase == if sent || kind != Press then Idle else Overflowing(job)
      ensures sent <==> |old(queue)| < CAPACITY
      ensures ReaderSteps(schedule) == ReaderSteps(old(schedule)) + [Receive(kind)]
    {
      hide Executable, Exec;
      ghost var before := Contents();
      job, sent := Job(next, kind), |queue| < CAPACITY;
      next := next + 1;
      if sent {
        queue, accepted := queue + [job], accepted + [job];
      } else if kind != Press {
        lost, hungUp := lost + [job], true;
      } else {
        phase := Overflowing(job);
      }
      Note(before, Receive(kind));
    }

    /** Takes the oldest job out, if the worker has left any. */
    method DrainOldest() returns (drained: Option<Job>)
      requires Valid() && phase.Overflowing?
      modifies this
      ensures Valid() && phase == Drained(old(phase).press, drained)
      ensures ReaderSteps(schedule) == ReaderSteps(old(schedule)) + [Drain]
    {
      hide Executable, Exec;
      ghost var before := Contents();
      drained := None;
      if queue != [] {
        drained, queue := Some(queue[0]), queue[1..];
      }
      phase := Drained(phase.press, drained);
      Note(before, Drain);
    }

    /** Puts a drained control event back behind the burst. */
    method RequeueDrained(drained: Option<Job>)
      requires Valid() && phase.Drained? && phase.taken == drained
      modifies this
      ensures Valid() && phase.Requeued? && phase.press == old(phase).press
      ensures ReaderSteps(schedule) == ReaderSteps(old(schedule)) + [Requeue]
    {
      hide Executable, Exec;
      ghost var before := Contents();
      phase := Requeued(phase.press, drained.Some? && drained.value.kind == Control);
      if drained.Some? {
        if drained.value.kind == Control && |queue| < CAPACITY {
          queue := queue + [drained.value];
        } else {
          lost := lost + [drained.value];
        }
      }
      Note(before, Requeue);
    }

    /** The last try for the newest press. */
    method InsertNewest(job: Job)
      requires Valid() && phase.Requeued? && phase.press == job
      modifies this
      ensures Valid() && phase.Idle?
      ensures ReaderSteps(schedule) == ReaderSteps(old(schedule)) + [Insert]
    {
      hide Executable, Exec;
      ghost var before := Contents();
      phase := Idle;
      if |queue| < CAPACITY {
        queue, accepted := queue + [job], accepted + [job];
      } else {
        lost := lost + [job];
      }
      Note(before, Insert);
    }

    /** dispatch's sends and receives for one event, with the worker active in between. */
    method Dispatch(kind: Kind, w0: nat, w1: nat, w2: nat)
      requires Valid() && phase.Idle?
      modifies this
      ensures Valid() && phase.Idle?
      ensures ReaderSteps(schedule) == ReaderSteps(old(schedule)) +
        if kind == Press && |old(queue)| >= CAPACITY then [Receive(Press), Drain, Requeue, Insert] else [Receive(kind)]
    {
      hide Valid, ReaderSteps;
      ghost var done := ReaderSteps(schedule);
      var job, sent := TrySend(kind);
      if sent || kind != Press { return; }
      Worker(w0);
      var drained := DrainOldest();
      Worker(w1);
      RequeueDrained(drained);
      Worker(w2);
      InsertNewest(job);
      assert done + [Receive(Press)] + [Drain] + [Requeue] + [Insert] ==
        done + [Receive(Press), Drain, Requeue, Insert];
    }
  }
}
