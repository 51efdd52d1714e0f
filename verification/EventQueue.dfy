/** The control-event queue of baresip/shim/voxmail.c and its one sending worker. */
module EventQueue {
  import opened Wrappers

  const EVENT_QUEUE_MAX: nat := 256

  // ------------------------------------------------ the lock-held sections

  function Enqueued<T>(q: seq<T>, running: bool, e: T): seq<T> {
    if running && |q| < EVENT_QUEUE_MAX then q + [e] else q
  }

  /** event_queue and event_count, under event_lock. */
  class Events<T> {
    var queue: seq<T>
    var count: nat
    var running: bool

    ghost predicate Valid()
      reads this
    {
      count == |queue|
    }

    constructor ()
      ensures Valid() && queue == [] && running
    {
      queue, count, running := [], 0, true;
    }

    /** The end of enqueue_event; an overflow asks for the connection to be dropped. */
    method Enqueue(e: T) returns (overflow: bool)
      requires Valid()
      modifies this
      ensures Valid() && running == old(running)
      ensures queue == Enqueued(old(queue), running, e)
      ensures overflow <==> running && |old(queue)| >= EVENT_QUEUE_MAX
      ensures queue == if running && !overflow then old(queue) + [e] else old(queue)
    {
      overflow := false;
      if !running {
        return;
      }
      if count >= EVENT_QUEUE_MAX {
        overflow := true;
        return;
      }
      queue := queue + [e];
      count := count + 1;
    }

    /** The worker's turn at the queue once it need not wait. */
    method Take() returns (item: Option<T>, stop: bool)
      requires Valid()
      modifies this
      ensures Valid() && running == old(running)
      ensures old(queue) != [] ==> item == Some(old(queue)[0]) && queue == old(queue)[1..] && !stop
      ensures old(queue) == [] ==> item == None && queue == [] && stop == !running
    {
      item, stop := None, false;
      if count > 0 {
        item := Some(queue[0]);
        queue := queue[1..];
        count := count - 1;
      } else if !running {
        stop := true;
      }
    }

    /** An item nobody was connected for goes back to the head. */
    method PutBack(e: T) returns (kept: bool)
      requires Valid()
      modifies this
      ensures Valid() && running == old(running) && kept == running
      ensures queue == if running then [e] + old(queue) else old(queue)
    {
      kept := false;
      if running {
        queue := [e] + queue;
        count := count + 1;
        kept := true;
      }
    }
  }

  // ---------------------------------------------- every interleaving of them

  datatype Worker<T> = Taking | Holding(item: T) | Unsent(item: T) | Exited

  /** What became of an event that left the queue for good. */
  datatype Fate = Delivered | SendFailed | StoppedFirst

  datatype Entry<T> = Entry(event: T, fate: Fate)

  datatype State<T> = State(
    queue: seq<T>,
    running: bool,
    worker: Worker<T>,
    accepted: seq<T>,        // every event ever queued, in order
    settled: seq<Entry<T>>)  // events gone for good, in order

  datatype Action<T> =
    | Enqueue(event: T)
    | Stop
    | TakeHead
    | NoClient       // the snapshot finds nobody connected
    | Requeue
    | Send(ok: bool) // the snapshot succeeds or dup fails; the frame is sent whole or not
    | Exit
    | Cleanup

  function Start<T>(): State<T> {
    State([], true, Taking, [], [])
  }

  predicate Enabled<T>(s: State<T>, a: Action<T>) {
    match a
    case Enqueue(_) => true
    case Stop => true
    case TakeHead => s.worker.Taking? && s.queue != []
    case NoClient => s.worker.Holding?
    case Requeue => s.worker.Unsent?
    case Send(_) => s.worker.Holding?
    case Exit => s.worker.Taking? && s.queue == [] && !s.running
    case Cleanup => s.worker.Exited?
  }

  function Abandoned<T>(q: seq<T>): seq<Entry<T>> {
    seq(|q|, i requires 0 <= i < |q| => Entry(q[i], StoppedFirst))
  }

  function Apply<T>(s: State<T>, a: Action<T>): State<T>
    requires Enabled(s, a)
  {
    match a
    case Enqueue(e) =>
      var q := Enqueued(s.queue, s.running, e);
      s.(queue := q, accepted := if |q| > |s.queue| then s.accepted + [e] else s.accepted)
    case Stop => s.(running := false)
    case TakeHead => s.(queue := s.queue[1..], worker := Holding(s.queue[0]))
    case NoClient => s.(worker := Unsent(s.worker.item))
    case Requeue =>
      if s.running then s.(queue := [s.worker.item] + s.queue, worker := Taking)
      else s.(settled := s.settled + [Entry(s.worker.item, StoppedFirst)], worker := Taking)
    case Send(ok) =>
      s.(settled := s.settled + [Entry(s.worker.item, if ok then Delivered else SendFailed)], worker := Taking)
    case Exit => s.(worker := Exited)
    case Cleanup => s.(settled := s.settled + Abandoned(s.queue), queue := [])
  }

  predicate Executable<T>(s: State<T>, acts: seq<Action<T>>)
    decreases |acts|
  {
    acts == [] || (Enabled(s, acts[0]) && Executable(Apply(s, acts[0]), acts[1..]))
  }

  function Exec<T>(s: State<T>, acts: seq<Action<T>>): State<T>
    requires Executable(s, acts)
    decreases |acts|
  {
    if acts == [] then s else Exec(Apply(s, acts[0]), acts[1..])
  }

  function EventsOf<T>(log: seq<Entry<T>>): seq<T> {
    seq(|log|, i requires 0 <= i < |log| => log[i].event)
  }

  function InHand<T>(w: Worker<T>): seq<T> {
    if w.Holding? || w.Unsent? then [w.item] else []
  }

  ghost predicate Inv<T>(s: State<T>) {
    && s.accepted == EventsOf(s.settled) + InHand(s.worker) + s.queue
    && |s.queue| + |InHand(s.worker)| <= EVENT_QUEUE_MAX + 1
    && (s.running ==> forall i :: 0 <= i < |s.settled| ==> s.settled[i].fate != StoppedFirst)
    && (s.worker.Exited? ==> !s.running && s.queue == [])
  }

  lemma StepKeepsInv<T>(s: State<T>, a: Action<T>)
    requires Inv(s) && Enabled(s, a)
    ensures Inv(Apply(s, a))
  {
    if Settles(s, a) {
      SettlingKeepsInv(s, a);
    } else {
      var t := Apply(s, a);
      hide EventsOf;
      match a {
        case TakeHead => assert s.queue == [s.queue[0]] + s.queue[1..];
        case Requeue => assert InHand(s.worker) + s.queue == t.queue;
        case _ =>
      }
    }
  }

  /** The step takes events out of the queue for good. */
  predicate Settles<T>(s: State<T>, a: Action<T>) { a.Send? || a.Cleanup? || (a.Requeue? && !s.running) }

  lemma SettlingKeepsInv<T>(s: State<T>, a: Action<T>)
    requires Inv(s) && Enabled(s, a) && Settles(s, a)
    ensures Inv(Apply(s, a))
  {
    var t := Apply(s, a);
    if a.Cleanup? {
      assert EventsOf(t.settled) == EventsOf(s.settled) + s.queue;
    } else {
      assert EventsOf(t.settled) == EventsOf(s.settled) + [s.worker.item];
    }
  }

  lemma {:induction false} RunKeepsInv<T>(s: State<T>, acts: seq<Action<T>>)
    requires Inv(s) && Executable(s, acts)
    ensures Inv(Exec(s, acts))
    decreases |acts|
  {
    if acts != [] {
      StepKeepsInv(s, acts[0]);
      RunKeepsInv(Apply(s, acts[0]), acts[1..]);
    }
  }

  function DeliveredEvents<T>(log: seq<Entry<T>>): seq<T> {
    if log == [] then []
    else (if log[0].fate == Delivered then [log[0].event] else []) + DeliveredEvents(log[1..])
  }

  /** a can be had from b by leaving elements out. */
  predicate Subsequence<T(==)>(a: seq<T>, b: seq<T>) {
    if a == [] then true
    else if b == [] then false
    else (a[0] == b[0] && Subsequence(a[1..], b[1..])) || Subsequence(a, b[1..])
  }

  /** That is: it stands in b at rising positions. */
  lemma {:induction false} SubsequenceEmbeds<T>(a: seq<T>, b: seq<T>) returns (at: seq<nat>)
    requires Subsequence(a, b)
    ensures |at| == |a|
    ensures forall i :: 0 <= i < |a| ==> at[i] < |b| && b[at[i]] == a[i]
    ensures forall i, j :: 0 <= i < j < |a| ==> at[i] < at[j]
  {
    if a == [] {
      at := [];
    } else if a[0] == b[0] && Subsequence(a[1..], b[1..]) {
      var rest := SubsequenceEmbeds(a[1..], b[1..]);
      at := [0] + Shifted(rest);
    } else {
      var rest := SubsequenceEmbeds(a, b[1..]);
      at := Shifted(rest);
    }
  }

  function Shifted(at: seq<nat>): seq<nat> { seq(|at|, i requires 0 <= i < |at| => at[i] + 1) }

  lemma {:induction false} DeliveredAreSubsequence<T>(log: seq<Entry<T>>, rest: seq<T>)
    ensures Subsequence(DeliveredEvents(log), EventsOf(log) + rest)
  {
    if log != [] {
      DeliveredAreSubsequence(log[1..], rest);
      var all := EventsOf(log) + rest;
      assert all[1..] == EventsOf(log[1..]) + rest;
      var d := DeliveredEvents(log);
      if log[0].fate == Delivered {
        assert d[1..] == DeliveredEvents(log[1..]);
      } else {
        assert d == DeliveredEvents(log[1..]);
      }
    }
  }

  /** In every interleaving the delivered events are accepted events in acceptance
      order; an event is passed over only after a failed send or once the shim is
      stopping; everything else is in hand or queued; and the queue, re-queued head
      included, never exceeds 257. */
  lemma DeliveryIsOrdered<T>(acts: seq<Action<T>>)
    requires Executable(Start<T>(), acts)
    ensures var s := Exec(Start<T>(), acts);
      && Subsequence(DeliveredEvents(s.settled), s.accepted)
      && s.accepted == EventsOf(s.settled) + InHand(s.worker) + s.queue
      && (s.running ==> forall i :: 0 <= i < |s.settled| ==> s.settled[i].fate != StoppedFirst)
      && |s.queue| <= EVENT_QUEUE_MAX + 1
  {
    RunKeepsInv(Start<T>(), acts);
    var s := Exec(Start<T>(), acts);
    hide Executable, Exec, Subsequence, DeliveredEvents, EventsOf, InHand;
    DeliveredAreSubsequence(s.settled, InHand(s.worker) + s.queue);
    assert EventsOf(s.settled) + (InHand(s.worker) + s.queue) == s.accepted;
  }

  /** Other threads only ever queue events or stop the queue. */
  predicate ByOthers<T>(acts: seq<Action<T>>) {
    forall i :: 0 <= i < |acts| ==> acts[i].Enqueue? || acts[i].Stop?
  }

  lemma {:induction false} OthersOnlyAppend<T>(s: State<T>, acts: seq<Action<T>>)
    requires ByOthers(acts)
    ensures Executable(s, acts)
    ensures var t := Exec(s, acts);
      && s.queue <= t.queue && t.accepted == s.accepted + t.queue[|s.queue|..]
      && t.settled == s.settled && t.worker == s.worker
    decreases |acts|
  {
    if acts != [] {
      assert acts[0].Enqueue? || acts[0].Stop?;
      var u := Apply(s, acts[0]);
      OthersOnlyAppend(u, acts[1..]);
      var t := Exec(s, acts);
      assert t.queue[|s.queue|..] == u.queue[|s.queue|..] + t.queue[|u.queue|..];
    }
  }

  /** Waiting for a client, whatever is queued meanwhile: the item is back ahead of all
      others and no event is lost, unless the shim was stopped; then that item alone is. */
  lemma WaitingKeepsEverything<T>(s: State<T>, acts: seq<Action<T>>)
    requires s.worker.Holding? && ByOthers(acts) && Executable(Apply(s, NoClient), acts)
    requires Enabled(Exec(Apply(s, NoClient), acts), Requeue)
    ensures var t := Exec(Apply(s, NoClient), acts);
      var u := Apply(t, Requeue);
      && s.queue <= t.queue && u.accepted == s.accepted + t.queue[|s.queue|..]
      && (t.running ==> u.queue == [s.worker.item] + t.queue && u.settled == s.settled)
      && (!t.running ==> u.queue == t.queue && u.settled == s.settled + [Entry(s.worker.item, StoppedFirst)])
  {
    OthersOnlyAppend(Apply(s, NoClient), acts);
  }

  lemma {:induction false} ExecAppend<T>(s: State<T>, acts: seq<Action<T>>, a: Action<T>)
    requires Executable(s, acts) && Enabled(Exec(s, acts), a)
    ensures Executable(s, acts + [a]) && Exec(s, acts + [a]) == Apply(Exec(s, acts), a)
    decreases |acts|
  {
    if acts == [] {
      assert [a][1..] == [];
    } else {
      assert (acts + [a])[1..] == acts[1..] + [a];
      ExecAppend(Apply(s, acts[0]), acts[1..], a);
    }
  }

  lemma {:induction false} FillBehindHead(e: int, n: nat) returns (acts: seq<Action<int>>)
    requires n <= EVENT_QUEUE_MAX
    ensures Executable(Start<int>(), acts)
    ensures var s := Exec(Start<int>(), acts);
      s.running && s.worker == Unsent(e) && |s.queue| == n
  {
    if n == 0 {
      acts := [];
      ExecAppend(Start<int>(), [], Enqueue(e));
      ExecAppend(Start<int>(), [] + [Enqueue(e)], TakeHead);
      ExecAppend(Start<int>(), [] + [Enqueue(e)] + [TakeHead], NoClient);
      acts := [] + [Enqueue(e)] + [TakeHead] + [NoClient];
    } else {
      acts := FillBehindHead(e, n - 1);
      ExecAppend(Start<int>(), acts, Enqueue(e));
      acts := acts + [Enqueue(e)];
    }
  }

  /** The bound is exact: the queue does reach 257, one above its nominal limit. */
  lemma QueueReaches257(e: int) returns (acts: seq<Action<int>>)
    ensures Executable(Start<int>(), acts) && |Exec(Start<int>(), acts).queue| == EVENT_QUEUE_MAX + 1
  {
    acts := FillBehindHead(e, EVENT_QUEUE_MAX);
    ExecAppend(Start<int>(), acts, Requeue);
    acts := acts + [Requeue];
  }

  function SendsOf<T>(acts: seq<Action<T>>, ok: bool): nat {
    if acts == [] then 0 else SendsOf(acts[..|acts| - 1], ok) + if acts[|acts| - 1] == Send(ok) then 1 else 0
  }

  function FatesOf<T>(log: seq<Entry<T>>, fate: Fate): nat {
    if log == [] then 0 else FatesOf(log[..|log| - 1], fate) + if log[|log| - 1].fate == fate then 1 else 0
  }

  lemma {:induction false} FatesConcat<T>(a: seq<Entry<T>>, b: seq<Entry<T>>, fate: Fate)
    ensures FatesOf(a + b, fate) == FatesOf(a, fate) + FatesOf(b, fate)
    decreases |b|
  {
    if b == [] {
      assert a + b == a;
    } else {
      var n := |b| - 1;
      assert (a + b)[..|a| + n] == a + b[..n];
      FatesConcat(a, b[..n], fate);
    }
  }

  lemma {:induction false} AbandonedFates<T>(q: seq<T>, fate: Fate)
    requires fate != StoppedFirst
    ensures FatesOf(Abandoned(q), fate) == 0
    decreases |q|
  {
    if q != [] {
      var n := |q| - 1;
      assert Abandoned(q)[..n] == Abandoned(q[..n]);
      AbandonedFates(q[..n], fate);
    }
  }

  lemma OneFate<T>(s: State<T>, a: Action<T>, fate: Fate)
    requires Enabled(s, a) && fate != StoppedFirst
    ensures FatesOf(Apply(s, a).settled, fate) == FatesOf(s.settled, fate) +
      if (a == Send(true) && fate == Delivered) || (a == Send(false) && fate == SendFailed) then 1 else 0
  {
    match a {
      case Cleanup =>
        FatesConcat(s.settled, Abandoned(s.queue), fate);
        AbandonedFates(s.queue, fate);
      case Send(ok) =>
        assert (s.settled + [Entry(s.worker.item, if ok then Delivered else SendFailed)])[..|s.settled|] == s.settled;
      case Requeue =>
        assert (s.settled + [Entry(s.worker.item, StoppedFirst)])[..|s.settled|] == s.settled;
      case _ =>
    }
  }

  /** Exactly the sends that went through count as deliveries, and the others as failures. */
  lemma {:induction false} SendsAreAccounted<T>(acts: seq<Action<T>>)
    requires Executable(Start<T>(), acts)
    ensures FatesOf(Exec(Start<T>(), acts).settled, Delivered) == SendsOf(acts, true)
    ensures FatesOf(Exec(Start<T>(), acts).settled, SendFailed) == SendsOf(acts, false)
    decreases |acts|
  {
    hide FatesOf, Apply, Enabled, Exec, Executable;
    if acts == [] {
      NothingSent<T>();
    } else {
      var front, last := acts[..|acts| - 1], acts[|acts| - 1];
      assert acts == front + [last];
      ExecutableFront(Start<T>(), front, last);
      SendsAreAccounted(front);
      OneFate(Exec(Start<T>(), front), last, Delivered);
      OneFate(Exec(Start<T>(), front), last, SendFailed);
    }
  }

  lemma NothingSent<T>()
    ensures forall fate :: FatesOf(Exec(Start<T>(), []).settled, fate) == 0
  {
  }

  lemma {:induction false} ExecutableFront<T>(s: State<T>, acts: seq<Action<T>>, a: Action<T>)
    requires Executable(s, acts + [a])
    ensures Executable(s, acts) && Enabled(Exec(s, acts), a)
    ensures Exec(s, acts + [a]) == Apply(Exec(s, acts), a)
    decreases |acts|
  {
    var all := acts + [a];
    if acts == [] {
      assert all[1..] == [];
    } else {
      assert all[0] == acts[0] && all[1..] == acts[1..] + [a];
      ExecutableFront(Apply(s, acts[0]), acts[1..], a);
    }
  }

  /** A stop does not throw queued events away: the worker leaves only with the queue empty,
      so the clean-up after it finds nothing to drop. */
  lemma ExitLeavesNothing<T>(acts: seq<Action<T>>)
    requires Executable(Start<T>(), acts)
    ensures var s := Exec(Start<T>(), acts);
      && (s.worker.Exited? ==> s.queue == [] && s.accepted == EventsOf(s.settled))
      && (Enabled(s, Cleanup) ==> Apply(s, Cleanup).settled == s.settled)
  {
    RunKeepsInv(Start<T>(), acts);
    var s := Exec(Start<T>(), acts);
    if s.worker.Exited? {
      assert EventsOf(s.settled) + [] + [] == EventsOf(s.settled);
      assert s.settled + Abandoned(s.queue) == s.settled;
    }
  }

  lemma {:induction false} ClosedAcceptsNothing<T>(s: State<T>, acts: seq<Action<T>>)
    requires !s.running && Executable(s, acts)
    ensures !Exec(s, acts).running && Exec(s, acts).accepted == s.accepted
    decreases |acts|
  {
    if acts != [] {
      ClosedAcceptsNothing(Apply(s, acts[0]), acts[1..]);
    }
  }

  /** Once stopped the shim accepts no event any more, and every event queued by then is still
      offered to the client: only one in hand without a client can be given up. */
  lemma StopIsFinal<T>(s: State<T>, acts: seq<Action<T>>, e: T)
    requires Executable(Apply(s, Stop), acts)
    ensures Apply(s, Stop).queue == s.queue && Exec(Apply(s, Stop), acts).accepted == s.accepted
    ensures var t := Exec(Apply(s, Stop), acts); Apply(t, Enqueue(e)) == t
  {
    ClosedAcceptsNothing(Apply(s, Stop), acts);
  }
}
