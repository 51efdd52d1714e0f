/** The double-buffered speech stream of internal/calls/body_speech.go: one goroutine
    synthesizes chunks into two files while the caller's goroutine plays them. */
module SpeechPipeline {
  import opened Wrappers

  const SLOTS: nat := 2

  type SlotId = s: nat | s < SLOTS

  /** What a slot's file holds: all of chunk k's audio, or anything else. */
  datatype Content = Audio(chunk: nat) | Unusable

  datatype Item = Item(slot: SlotId, ok: bool)

  datatype Producer =
    | Fetching(k: nat)                       // at `slot = <-free` for chunk k
    | Synthesizing(k: nat, slot: SlotId)
    | Offering(k: nat, slot: SlotId, ok: bool)
    | Quit(held: Option<SlotId>)             // goroutine over, ready closed

  datatype Consumer =
    | Checking(i: nat)
    | Receiving(i: nat)
    | Playing(i: nat, slot: SlotId)
    | Returning(i: nat, slot: SlotId, stop: bool)  // at `free <- slot`
    | Returned(next: nat)

  datatype State = State(
    n: nat,                 // number of chunks
    free: seq<SlotId>,
    ready: seq<Item>,
    producer: Producer,
    consumer: Consumer,
    cancelled: bool,
    files: seq<Content>,
    played: seq<Content>,   // what each playback read, in order
    smooth: bool,           // no cancellation, staleness or failure so far
    removed: bool)          // slot files deleted

  datatype Action =
    | TakeSlot
    | ChunksDone
    | StopFetching
    | Synthesized(ok: bool)
    | SendReady
    | StopOffering
    | Check(stale: bool)
    | Receive
    | SeeClosed
    | SeeCancelled
    | Played(failed: bool)
    | GiveBack
    | Cancel
    | RemoveFiles

  function Start(n: nat): State {
    State(n, [0, 1], [], Fetching(0), Checking(0), false, [Unusable, Unusable], [], true, false)
  }

  predicate Enabled(s: State, a: Action) {
    match a
    case TakeSlot => s.producer.Fetching? && s.producer.k < s.n && s.free != []
    case ChunksDone => s.producer.Fetching? && s.producer.k >= s.n
    case StopFetching => s.producer.Fetching? && s.producer.k < s.n && s.cancelled
    case Synthesized(_) => s.producer.Synthesizing?
    case SendReady => s.producer.Offering? && |s.ready| < SLOTS
    case StopOffering => s.producer.Offering? && s.cancelled
    case Check(_) => s.consumer.Checking?
    case Receive => s.consumer.Receiving? && s.ready != []
    case SeeClosed => s.consumer.Receiving? && s.ready == [] && s.producer.Quit?
    case SeeCancelled => s.consumer.Receiving? && s.cancelled
    case Played(_) => s.consumer.Playing?
    case GiveBack => s.consumer.Returning? && |s.free| < SLOTS
    case Cancel => true
    case RemoveFiles => s.consumer.Returned? && s.producer.Quit?
  }

  function Apply(s: State, a: Action): State
    requires Enabled(s, a) && |s.files| == SLOTS
  {
    match a
    case TakeSlot =>
      s.(free := s.free[1..], producer := Synthesizing(s.producer.k, s.free[0]),
         files := s.files[s.free[0] := Unusable])
    case ChunksDone => s.(producer := Quit(None))
    case StopFetching => s.(producer := Quit(None))
    case Synthesized(ok) =>
      s.(producer := Offering(s.producer.k, s.producer.slot, ok), smooth := s.smooth && ok,
         files := s.files[s.producer.slot := if ok then Audio(s.producer.k) else Unusable])
    case SendReady =>
      s.(ready := s.ready + [Item(s.producer.slot, s.producer.ok)], producer := Fetching(s.producer.k + 1))
    case StopOffering => s.(producer := Quit(Some(s.producer.slot)))
    case Check(stale) =>
      if s.consumer.i >= s.n then s.(consumer := Returned(s.consumer.i))
      else if stale then s.(consumer := Returned(s.consumer.i), smooth := false)
      else s.(consumer := Receiving(s.consumer.i))
    case Receive =>
      var item, i := s.ready[0], s.consumer.i;
      s.(ready := s.ready[1..],
         consumer := if item.ok then Playing(i, item.slot) else Returning(i, item.slot, true))
    case SeeClosed => s.(consumer := Returned(s.consumer.i))
    case SeeCancelled => s.(consumer := Returned(s.consumer.i))
    case Played(failed) =>
      s.(played := s.played + [s.files[s.consumer.slot]], smooth := s.smooth && !failed,
         consumer := Returning(s.consumer.i, s.consumer.slot, failed))
    case GiveBack =>
      s.(free := s.free + [s.consumer.slot],
         consumer := if s.consumer.stop then Returned(s.consumer.i + 1) else Checking(s.consumer.i + 1))
    case Cancel => s.(cancelled := true, smooth := s.smooth && s.consumer.Returned?)
    case RemoveFiles => s.(removed := true)
  }

  predicate Executable(s: State, acts: seq<Action>)
    decreases |acts|
  {
    acts == [] || (Enabled(s, acts[0]) && |s.files| == SLOTS && Executable(Apply(s, acts[0]), acts[1..]))
  }

  function Exec(s: State, acts: seq<Action>): State
    requires Executable(s, acts)
    decreases |acts|
  {
    if acts == [] then s else Exec(Apply(s, acts[0]), acts[1..])
  }

  // -------------------------------------------------------------- invariant

  function ProducerSlot(p: Producer): seq<SlotId> {
    match p
    case Fetching(_) => []
    case Synthesizing(_, slot) => [slot]
    case Offering(_, slot, _) => [slot]
    case Quit(held) => if held.Some? then [held.value] else []
  }

  function ConsumerSlot(c: Consumer): seq<SlotId> {
    match c
    case Playing(_, slot) => [slot]
    case Returning(_, slot, _) => [slot]
    case _ => []
  }

  /** How many times x occurs in xs. */
  function Occurs(xs: seq<SlotId>, x: SlotId): nat {
    if xs == [] then 0 else (if xs[0] == x then 1 else 0) + Occurs(xs[1..], x)
  }

  function ReadySlots(r: seq<Item>): seq<SlotId> {
    seq(|r|, j requires 0 <= j < |r| => r[j].slot)
  }

  /** In how many of the four places slot x is. */
  function Places(s: State, x: SlotId): nat {
    Occurs(s.free, x) + Occurs(ReadySlots(s.ready), x) +
      Occurs(ProducerSlot(s.producer), x) + Occurs(ConsumerSlot(s.consumer), x)
  }

  /** The chunk the next received item belongs to. */
  function NextItem(c: Consumer): nat {
    match c
    case Checking(i) => i
    case Receiving(i) => i
    case Playing(i, _) => i + 1
    case Returning(i, _, _) => i + 1
    case Returned(next) => next
  }

  ghost predicate Inv(s: State) {
    && |s.files| == SLOTS
    && Places(s, 0) == 1 && Places(s, 1) == 1
    && |s.free| + |s.ready| + |ProducerSlot(s.producer)| + |ConsumerSlot(s.consumer)| == SLOTS
    && ItemsInOrder(s)
    && PlayedInOrder(s)
    && (s.smooth ==> SmoothInv(s))
    && (s.removed ==> s.producer.Quit? && s.consumer.Returned?)
  }

  ghost predicate ItemsInOrder(s: State) {
    && (s.producer.Fetching? || s.producer.Synthesizing? || s.producer.Offering? ==>
          s.producer.k <= s.n && (!s.consumer.Returned? ==> s.producer.k == NextItem(s.consumer) + |s.ready|))
    && (s.producer.Synthesizing? || s.producer.Offering? ==> s.producer.k < s.n)
    && |s.files| == SLOTS
    && (!s.consumer.Returned? ==> forall j :: 0 <= j < |s.ready| && s.ready[j].ok ==>
          s.files[s.ready[j].slot] == Audio(NextItem(s.consumer) + j))
    && (s.producer.Offering? && s.producer.ok ==> s.files[s.producer.slot] == Audio(s.producer.k))
  }

  ghost predicate PlayedInOrder(s: State)
    requires |s.files| == SLOTS
  {
    && |s.played| <= s.n && (forall j :: 0 <= j < |s.played| ==> s.played[j] == Audio(j))
    && (s.consumer.Receiving? || s.consumer.Playing? || s.consumer.Returning? ==> s.consumer.i < s.n)
    && (s.consumer.Checking? ==> s.consumer.i <= s.n)
    && (s.consumer.Checking? || s.consumer.Receiving? || s.consumer.Playing? ==> |s.played| == s.consumer.i)
    && (s.consumer.Playing? ==> s.files[s.consumer.slot] == Audio(s.consumer.i))
    && (s.consumer.Returning? && !s.consumer.stop ==> |s.played| == s.consumer.i + 1)
  }

  ghost predicate SmoothInv(s: State) {
    && (s.consumer.Returned? ==> |s.played| >= s.n)
    && (s.consumer.Returning? ==> !s.consumer.stop)
    && (!s.consumer.Returned? ==> !s.cancelled)
    && (!s.consumer.Returned? && s.producer.Quit? ==> NextItem(s.consumer) + |s.ready| >= s.n)
    && (forall j :: 0 <= j < |s.ready| ==> s.ready[j].ok)
    && (s.producer.Offering? ==> s.producer.ok)
  }

  lemma {:induction false} OccursSnoc(xs: seq<SlotId>, y: SlotId, x: SlotId)
    ensures Occurs(xs + [y], x) == Occurs(xs, x) + (if y == x then 1 else 0)
  {
    if xs == [] {
      assert xs + [y] == [y];
    } else {
      assert (xs + [y])[1..] == xs[1..] + [y];
      OccursSnoc(xs[1..], y, x);
    }
  }

  lemma {:induction false} OccursAt(xs: seq<SlotId>, j: nat)
    requires j < |xs|
    ensures Occurs(xs, xs[j]) >= 1
  {
    if j > 0 {
      OccursAt(xs[1..], j - 1);
    }
  }

  lemma OccursOnce(y: SlotId, x: SlotId)
    ensures Occurs([y], x) == if y == x then 1 else 0
  {
    assert [y][1..] == [];
  }

  predicate ByProducer(a: Action) {
    a.TakeSlot? || a.ChunksDone? || a.StopFetching? || a.Synthesized? || a.SendReady? || a.StopOffering?
  }

  lemma SendKeepsPlaces(s: State, x: SlotId)
    requires |s.files| == SLOTS && Enabled(s, SendReady)
    ensures Places(Apply(s, SendReady), x) == Places(s, x)
  {
    var t := Apply(s, SendReady);
    OccursOnce(s.producer.slot, x);
    OccursSnoc(ReadySlots(s.ready), s.producer.slot, x);
    assert ReadySlots(t.ready) == ReadySlots(s.ready) + [s.producer.slot];
    hide Occurs, ReadySlots;
  }

  lemma ReceiveKeepsPlaces(s: State, x: SlotId)
    requires |s.files| == SLOTS && Enabled(s, Receive)
    ensures Places(Apply(s, Receive), x) == Places(s, x)
  {
    var t := Apply(s, Receive);
    OccursOnce(s.ready[0].slot, x);
    assert ReadySlots(t.ready) == ReadySlots(s.ready)[1..];
  }

  /** A step moves at most one slot from one place to another. */
  lemma StepKeepsPlaces(s: State, a: Action, x: SlotId)
    requires |s.files| == SLOTS && Enabled(s, a)
    ensures Places(Apply(s, a), x) == Places(s, x)
  {
    match a {
      case SendReady => SendKeepsPlaces(s, x);
      case Receive => ReceiveKeepsPlaces(s, x);
      case TakeSlot => OccursOnce(s.free[0], x);
      case GiveBack =>
        OccursOnce(s.consumer.slot, x);
        OccursSnoc(s.free, s.consumer.slot, x);
      case _ => StayingKeepsPlaces(s, a, x);
    }
  }

  lemma StayingKeepsPlaces(s: State, a: Action, x: SlotId)
    requires |s.files| == SLOTS && Enabled(s, a)
    requires !a.SendReady? && !a.Receive? && !a.TakeSlot? && !a.GiveBack?
    ensures Places(Apply(s, a), x) == Places(s, x)
  {
    hide Occurs, ReadySlots;
  }

  /** No queued item shares its slot with the producer, nor does the player. */
  lemma SlotsApart(s: State, x: SlotId)
    requires Places(s, 0) == 1 && Places(s, 1) == 1
    requires x in ProducerSlot(s.producer) || (s.free != [] && x == s.free[0])
    ensures forall j :: 0 <= j < |s.ready| ==> s.ready[j].slot != x
    ensures x !in ConsumerSlot(s.consumer)
  {
    assert Places(s, x) == 1;
    forall j | 0 <= j < |s.ready| ensures s.ready[j].slot != x {
      OccursAt(ReadySlots(s.ready), j);
    }
    if x in ConsumerSlot(s.consumer) {
      OccursAt(ConsumerSlot(s.consumer), 0);
    }
  }

  lemma StepKeepsItems(s: State, a: Action)
    requires Inv(s) && Enabled(s, a)
    ensures ItemsInOrder(Apply(s, a))
  {
    hide Inv, Apply, Enabled, ItemsInOrder;
    if ByProducer(a) {
      ProducerKeepsItems(s, a);
    } else if a == Receive {
      ReceiveKeepsItems(s);
    } else {
      ConsumerKeepsItems(s, a);
    }
  }

  lemma ProducerKeepsItems(s: State, a: Action)
    requires Inv(s) && Enabled(s, a) && ByProducer(a)
    ensures ItemsInOrder(Apply(s, a))
  {
    hide Places, PlayedInOrder, SmoothInv;
    match a {
      case TakeSlot => SlotsApart(s, s.free[0]);
      case Synthesized(_) => SlotsApart(s, s.producer.slot);
      case _ =>
    }
  }

  lemma ReceiveKeepsItems(s: State)
    requires Inv(s) && Enabled(s, Receive)
    ensures ItemsInOrder(Apply(s, Receive))
  {
    hide Places, PlayedInOrder, SmoothInv;
  }

  lemma ConsumerKeepsItems(s: State, a: Action)
    requires Inv(s) && Enabled(s, a) && !ByProducer(a) && a != Receive
    ensures ItemsInOrder(Apply(s, a))
  {
    ConsumerFrame(s, a);
    hide Places, PlayedInOrder, SmoothInv, Apply, Enabled, NextItem;
  }

  /** Only taking an item moves the items on. */
  lemma ConsumerFrame(s: State, a: Action)
    requires |s.files| == SLOTS && Enabled(s, a) && !ByProducer(a) && a != Receive
    ensures var t := Apply(s, a);
      && t.ready == s.ready && t.files == s.files && t.producer == s.producer && t.n == s.n
      && (!t.consumer.Returned? ==> !s.consumer.Returned? && NextItem(t.consumer) == NextItem(s.consumer))
  {
  }

  lemma StepKeepsPlayed(s: State, a: Action)
    requires Inv(s) && Enabled(s, a)
    ensures PlayedInOrder(Apply(s, a))
  {
    hide Places, SmoothInv;
    match a {
      case TakeSlot => SlotsApart(s, s.free[0]);
      case Synthesized(_) => SlotsApart(s, s.producer.slot);
      case _ =>
    }
  }

  lemma StepKeepsCounts(s: State, a: Action)
    requires Inv(s) && Enabled(s, a)
    ensures var t := Apply(s, a);
      && |t.files| == SLOTS
      && |t.free| + |t.ready| + |ProducerSlot(t.producer)| + |ConsumerSlot(t.consumer)| == SLOTS
      && (t.removed ==> t.producer.Quit? && t.consumer.Returned?) && t.n == s.n
  {
    hide Places, ItemsInOrder, PlayedInOrder, SmoothInv;
  }

  lemma StepKeepsSmooth(s: State, a: Action)
    requires Inv(s) && Enabled(s, a) && Apply(s, a).smooth
    ensures SmoothInv(Apply(s, a))
  {
    hide Places;
  }

  lemma StepKeepsInv(s: State, a: Action)
    requires Inv(s) && Enabled(s, a)
    ensures Inv(Apply(s, a)) && Apply(s, a).n == s.n
  {
    hide Places, ItemsInOrder, PlayedInOrder, SmoothInv, Apply, Enabled;
    StepKeepsPlaces(s, a, 0);
    StepKeepsPlaces(s, a, 1);
    StepKeepsItems(s, a);
    StepKeepsPlayed(s, a);
    StepKeepsCounts(s, a);
    if Apply(s, a).smooth { StepKeepsSmooth(s, a); }
  }

  lemma {:induction false} RunKeepsInv(s: State, acts: seq<Action>)
    requires Inv(s) && Executable(s, acts)
    ensures Inv(Exec(s, acts)) && Exec(s, acts).n == s.n
    decreases |acts|
  {
    hide Inv, Apply;
    if acts != [] {
      StepKeepsInv(s, acts[0]);
      RunKeepsInv(Apply(s, acts[0]), acts[1..]);
    }
  }

  lemma StartInv(n: nat)
    ensures Inv(Start(n))
  {
    assert [0, 1][1..] == [1];
  }

  /** In every interleaving of synthesis, playback, failure and cancellation: each
      slot is in exactly one place, neither channel send can block, the file being
      played is the whole of the chunk whose turn it is, what has been played is a
      prefix of the chunks, and no file is removed while either side may use it. */
  lemma PipelineIsSafe(n: nat, acts: seq<Action>)
    requires Executable(Start(n), acts)
    ensures var s := Exec(Start(n), acts);
      && (forall x: SlotId :: Places(s, x) == 1)
      && (s.producer.Offering? ==> Enabled(s, SendReady))
      && (s.consumer.Returning? ==> Enabled(s, GiveBack))
      && |s.files| == SLOTS && (s.consumer.Playing? ==>
        s.files[s.consumer.slot] == Audio(s.consumer.i) && |s.played| == s.consumer.i)
      && |s.played| <= n && (forall j :: 0 <= j < |s.played| ==> s.played[j] == Audio(j))
      && (s.removed ==> s.producer.Quit? && s.consumer.Returned?)
  {
    StartInv(n);
    RunKeepsInv(Start(n), acts);
    var s := Exec(Start(n), acts);
    forall x: SlotId ensures Places(s, x) == 1 {
      assert x == 0 || x == 1;
    }
  }

  /** A stream that nothing cancels, no key makes stale and no chunk fails is played to its end. */
  lemma UndisturbedStreamPlaysAll(n: nat, acts: seq<Action>)
    requires Executable(Start(n), acts)
    requires Exec(Start(n), acts).smooth && Exec(Start(n), acts).consumer.Returned?
    ensures |Exec(Start(n), acts).played| == n
    ensures forall j :: 0 <= j < n ==> Exec(Start(n), acts).played[j] == Audio(j)
  {
    StartInv(n);
    RunKeepsInv(Start(n), acts);
  }

  /** A step with which something goes wrong or somebody interferes. */
  predicate Disturbs(a: Action) { a == Check(true) || a == Synthesized(false) || a == Played(true) || a == Cancel }

  lemma {:induction false} QuietRunIsSmooth(s: State, acts: seq<Action>)
    requires Executable(s, acts) && s.smooth && forall k :: 0 <= k < |acts| ==> !Disturbs(acts[k])
    ensures Exec(s, acts).smooth
    decreases |acts|
  {
    if acts != [] {
      assert !Disturbs(acts[0]);
      QuietRunIsSmooth(Apply(s, acts[0]), acts[1..]);
    }
  }

  /** The same in terms of what happened: without a cancellation, a stale check and a failed
      synthesis or playback, every chunk is played before the stream returns. */
  lemma QuietRunPlaysAll(n: nat, acts: seq<Action>)
    requires Executable(Start(n), acts) && forall k :: 0 <= k < |acts| ==> !Disturbs(acts[k])
    requires Exec(Start(n), acts).consumer.Returned?
    ensures |Exec(Start(n), acts).played| == n
    ensures forall j :: 0 <= j < n ==> Exec(Start(n), acts).played[j] == Audio(j)
  {
    QuietRunIsSmooth(Start(n), acts);
    UndisturbedStreamPlaysAll(n, acts);
  }

  // ------------------------------------------------------ interruption is final

  /** The step ends the stream early: a key or a hang-up made it stale, playback failed, the
      next chunk was not synthesized, or the context is done. */
  predicate Interrupts(s: State, a: Action)
    requires Enabled(s, a)
  {
    || (a == Check(true) && s.consumer.i < s.n)
    || a == Played(true)
    || (a == Receive && !s.ready[0].ok)
    || a == SeeCancelled
  }

  /** The playing side has returned, or only gives its slot back before it does. */
  predicate Stopping(s: State) { s.consumer.Returned? || (s.consumer.Returning? && s.consumer.stop) }

  lemma {:induction false} StoppingIsFinal(s: State, acts: seq<Action>)
    requires Stopping(s) && Executable(s, acts)
    ensures Stopping(Exec(s, acts)) && Exec(s, acts).played == s.played
    ensures s.consumer.Returned? ==> Exec(s, acts).consumer.Returned?
    ensures GiveBack in acts && !s.consumer.Returned? ==> Exec(s, acts).consumer.Returned?
    decreases |acts|
  {
    if acts != [] {
      StoppingIsFinal(Apply(s, acts[0]), acts[1..]);
    }
  }

  /** After an interruption nothing more is played, whatever follows: a stale check and a
      done context return at once, a failed synthesis or playback as soon as the slot is
      given back. */
  lemma InterruptionIsFinal(n: nat, acts: seq<Action>, a: Action, more: seq<Action>)
    requires Executable(Start(n), acts)
    requires Enabled(Exec(Start(n), acts), a) && |Exec(Start(n), acts).files| == SLOTS
    requires Interrupts(Exec(Start(n), acts), a) && Executable(Apply(Exec(Start(n), acts), a), more)
    ensures var s, t := Exec(Start(n), acts), Exec(Apply(Exec(Start(n), acts), a), more);
      && t.played == s.played + (if a == Played(true) then [Audio(s.consumer.i)] else [])
      && (t.consumer.Returned? || (t.consumer.Returning? && t.consumer.stop))
      && (a.Check? || a == SeeCancelled || GiveBack in more ==> t.consumer.Returned?)
  {
    var s := Exec(Start(n), acts);
    PipelineIsSafe(n, acts);
    hide Places;
    StoppingIsFinal(Apply(s, a), more);
  }

  // ------------------------------------------------------ it always finishes

  /** The pipeline's own steps: everything but the environment's cancellation. */
  predicate Own(a: Action) { !a.Cancel? && !a.RemoveFiles? }

  function ProducerLeft(s: State): nat {
    match s.producer
    case Fetching(k) => 1 + (if k < s.n then 3 * (s.n - k) else 0)
    case Synthesizing(k, _) => if k < s.n then 3 * (s.n - k) else 0
    case Offering(k, _, _) => if k < s.n then 3 * (s.n - k) - 1 else 0
    case Quit(_) => 0
  }

  function ConsumerLeft(s: State): nat {
    match s.consumer
    case Checking(i) => 1 + (if i < s.n then 4 * (s.n - i) else 0)
    case Receiving(i) => if i < s.n then 4 * (s.n - i) else 0
    case Playing(i, _) => if i < s.n then 4 * (s.n - i) - 1 else 0
    case Returning(i, _, _) => if i < s.n then 4 * (s.n - i) - 2 else 0
    case Returned(_) => 0
  }

  lemma ProducerStepsRunOut(s: State, a: Action)
    requires Inv(s) && Enabled(s, a) && ByProducer(a)
    ensures ProducerLeft(Apply(s, a)) < ProducerLeft(s) && Apply(s, a).consumer == s.consumer
  {
    hide Places, PlayedInOrder, SmoothInv;
  }

  lemma ConsumerStepsRunOut(s: State, a: Action)
    requires Inv(s) && Enabled(s, a) && Own(a) && !ByProducer(a)
    ensures ConsumerLeft(Apply(s, a)) < ConsumerLeft(s) && Apply(s, a).producer == s.producer
  {
    hide Places, ItemsInOrder, SmoothInv;
  }

  /** Every own step uses up some of the work left, so both goroutines stop. */
  lemma OwnStepsRunOut(s: State, a: Action)
    requires Inv(s) && Enabled(s, a) && Own(a)
    ensures ProducerLeft(Apply(s, a)) + ConsumerLeft(Apply(s, a)) < ProducerLeft(s) + ConsumerLeft(s)
  {
    StepKeepsInv(s, a);
    hide Inv, Apply, Enabled;
    if ByProducer(a) { ProducerStepsRunOut(s, a); } else { ConsumerStepsRunOut(s, a); }
  }

  /** And until the playing side has returned, some own step is always possible:
      the two goroutines cannot wait for each other. */
  lemma NoDeadlock(s: State) returns (a: Action)
    requires Inv(s) && !s.consumer.Returned?
    ensures Enabled(s, a) && Own(a)
  {
    match s.consumer {
      case Checking(_) => a := Check(false);
      case Playing(_, _) => a := Played(false);
      case Returning(_, _, _) => a := GiveBack;
      case Receiving(_) =>
        if s.ready != [] {
          a := Receive;
        } else {
          match s.producer {
            case Fetching(k) => a := if k >= s.n then ChunksDone else TakeSlot;
            case Synthesizing(_, _) => a := Synthesized(true);
            case Offering(_, _, _) => a := SendReady;
            case Quit(_) => a := SeeClosed;
          }
        }
    }
  }

  /** Once cancelled, the synthesizing side always has a step until it has quit, so
      the deferred wait for it ends. */
  lemma ProducerStops(s: State) returns (a: Action)
    requires Inv(s) && s.cancelled && !s.producer.Quit?
    ensures Enabled(s, a) && Own(a)
  {
    match s.producer {
      case Fetching(k) => a := if k >= s.n then ChunksDone else StopFetching;
      case Synthesizing(_, _) => a := Synthesized(false);
      case Offering(_, _, _) => a := StopOffering;
    }
  }

  /** A run is its steps: one more action is applied to where the run has come. */
  lemma {:induction false} RunGoesOn(s: State, acts: seq<Action>, a: Action)
    requires Executable(s, acts) && Enabled(Exec(s, acts), a) && |Exec(s, acts).files| == SLOTS
    ensures Executable(s, acts + [a]) && Exec(s, acts + [a]) == Apply(Exec(s, acts), a)
    decreases |acts|
  {
    hide Enabled, Apply;
    var all := acts + [a];
    if acts == [] {
      assert all[1..] == [];
    } else {
      assert all[0] == acts[0] && all[1..] == acts[1..] + [a];
      RunGoesOn(Apply(s, acts[0]), acts[1..], a);
    }
  }

  lemma {:induction false} CancelledForGood(s: State, acts: seq<Action>)
    requires s.cancelled && Executable(s, acts)
    ensures Exec(s, acts).cancelled
    decreases |acts|
  {
    if acts != [] {
      CancelledForGood(Apply(s, acts[0]), acts[1..]);
    }
  }

  /** A cancellation is never forgotten, and frees both sides wherever they wait on a channel:
      the player at the ready channel, the synthesizer at either. */
  lemma CancelFreesBoth(s: State, acts: seq<Action>)
    requires |s.files| == SLOTS && Executable(Apply(s, Cancel), acts)
    ensures var t := Exec(Apply(s, Cancel), acts);
      && (t.consumer.Receiving? ==>
            Enabled(t, SeeCancelled) && (|t.files| == SLOTS ==> Apply(t, SeeCancelled).consumer.Returned?))
      && (t.producer.Fetching? && t.producer.k < t.n ==> Enabled(t, StopFetching))
      && (t.producer.Offering? ==> Enabled(t, StopOffering))
  {
    CancelledForGood(Apply(s, Cancel), acts);
  }
}
