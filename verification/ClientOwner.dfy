/** The published control connection of baresip/shim/client_owner.c and the two
    threads of baresip/shim/voxmail.c that share it. */
module ClientOwner {
  const WRAP: nat := 0x1_0000_0000_0000_0000
  /** Generations in one cycle: zero is skipped. */
  const CYCLE: nat := WRAP - 1

  type Generation = g: nat | g < WRAP

  function Advance(g: Generation): Generation {
    var next := (g + 1) % WRAP;
    if next == 0 then 1 else next
  }

  datatype Slot = Slot(fd: int, generation: Generation)

  function Published(o: Slot, fd: int): Slot {
    if fd < 0 then o else Slot(fd, Advance(o.generation))
  }

  function ShutDown(o: Slot): Slot {
    if o.fd >= 0 then Slot(-1, Advance(o.generation)) else o
  }

  predicate IsCurrent(o: Slot, fd: int, g: Generation) {
    o.fd == fd && o.generation == g
  }

  function Invalidated(o: Slot, fd: int, g: Generation): Slot {
    if IsCurrent(o, fd, g) then Slot(-1, Advance(o.generation)) else o
  }

  /** struct voxmail_client_owner; each method is one lock-held section. */
  class Owner {
    var fd: int
    var generation: Generation

    ghost function View(): Slot
      reads this
    {
      Slot(fd, generation)
    }

    constructor ()
      ensures View() == Slot(-1, 0)
    {
      fd, generation := -1, 0;
    }

    method AdvanceGeneration()
      modifies this`generation
      ensures generation == Advance(old(generation))
      ensures generation == if old(generation) == WRAP - 1 then 1 else old(generation) + 1
    {
      generation := (generation + 1) % WRAP;
      if generation == 0 {
        generation := generation + 1;
      }
    }

    method Publish(newFd: int) returns (oldFd: int, g: Generation)
      modifies this
      ensures View() == Published(old(View()), newFd)
      ensures oldFd == if newFd < 0 then -1 else old(fd)
      ensures g == generation
      ensures newFd >= 0 ==> fd == newFd && generation == Advance(old(generation))
      ensures newFd < 0 ==> fd == old(fd) && generation == old(generation)
    {
      if newFd < 0 {
        return -1, generation;
      }
      oldFd := fd;
      fd := newFd;
      AdvanceGeneration();
      g := generation;
    }

    method RequestShutdown()
      modifies this
      ensures View() == ShutDown(old(View()))
      ensures old(fd) >= 0 ==> fd == -1 && generation == Advance(old(generation))
      ensures old(fd) < 0 ==> fd == old(fd) && generation == old(generation)
    {
      if fd >= 0 {
        fd := -1;
        AdvanceGeneration();
      }
    }

    /** duplicate is what dup(fd) would return: a new descriptor, or negative. */
    method SnapshotDup(duplicate: int) returns (connected: bool, source: int, g: Generation, dupFd: int)
      ensures connected == (View().fd >= 0)
      ensures connected && duplicate >= 0 ==> source == View().fd && g == View().generation && dupFd == duplicate
      ensures !connected || duplicate < 0 ==> source == -1 && dupFd == -1
    {
      connected, source, g, dupFd := fd >= 0, -1, 0, -1;
      if fd >= 0 && duplicate >= 0 {
        source, g, dupFd := fd, generation, duplicate;
      }
    }

    method InvalidateIfCurrent(source: int, g: Generation) returns (invalidated: bool)
      modifies this
      ensures View() == Invalidated(old(View()), source, g)
      ensures invalidated == IsCurrent(old(View()), source, g)
      ensures invalidated <==> old(fd) == source && old(generation) == g
      ensures invalidated ==> fd == -1 && generation == Advance(old(generation))
      ensures !invalidated ==> fd == old(fd) && generation == old(generation)
    {
      invalidated := false;
      if fd == source && generation == g {
        fd := -1;
        AdvanceGeneration();
        invalidated := true;
      }
    }
  }

  // ------------------------------------------------------- the two threads

  /** The socket worker: listening, holding an accepted descriptor it has yet to
      publish, serving it, or about to close it. */
  datatype Worker = Listening | Accepted(fd: int) | Serving(fd: int, generation: Generation) | Leaving(fd: int)

  /** The event worker: with no snapshot, or with one, its duplicate open or closed.
      `at` counts the generation changes before it, `publication` the publications. */
  datatype Sender =
    | NoSnapshot
    | Snapshot(source: int, generation: Generation, dupFd: int, dupOpen: bool, at: nat, publication: nat)

  datatype State = State(
    owner: Slot,
    worker: Worker,
    sender: Sender,
    open: set<int>,            // descriptors the kernel has handed out
    changes: nat,              // generation changes so far
    publications: nat)         // publications so far

  datatype Action =
    | Accept(fd: int)
    | Publish
    | Finish
    | Close
    | RequestShutdown
    | TakeSnapshot(dupFd: int)
    | CloseDuplicate
    | InvalidateSnapshot
    | DropSnapshot

  ghost function Start(): State {
    State(Slot(-1, 0), Listening, NoSnapshot, {}, 0, 0)
  }

  ghost predicate Enabled(s: State, a: Action) {
    match a
    case Accept(fd) => s.worker.Listening? && fd >= 0 && fd !in s.open
    case Publish => s.worker.Accepted?
    case Finish => s.worker.Serving?
    case Close => s.worker.Leaving?
    case RequestShutdown => true
    case TakeSnapshot(d) => s.sender.NoSnapshot? && s.owner.fd >= 0 && d >= 0 && d !in s.open
    case CloseDuplicate => s.sender.Snapshot? && s.sender.dupOpen
    case InvalidateSnapshot => s.sender.Snapshot? && !s.sender.dupOpen
    case DropSnapshot => s.sender.Snapshot? && !s.sender.dupOpen
  }

  /** The state after the published slot becomes `o`. */
  ghost function WithOwner(s: State, o: Slot): State {
    s.(owner := o, changes := if o == s.owner then s.changes else s.changes + 1)
  }

  ghost function Apply(s: State, a: Action): State
    requires Enabled(s, a)
  {
    match a
    case Accept(fd) => s.(worker := Accepted(fd), open := s.open + {fd})
    case Publish =>
      var o := Published(s.owner, s.worker.fd);
      WithOwner(s, o).(worker := Serving(s.worker.fd, o.generation), publications := s.publications + 1)
    case Finish =>
      WithOwner(s, Invalidated(s.owner, s.worker.fd, s.worker.generation)).(worker := Leaving(s.worker.fd))
    case Close => s.(worker := Listening, open := s.open - {s.worker.fd})
    case RequestShutdown => WithOwner(s, ShutDown(s.owner))
    case TakeSnapshot(d) =>
      s.(sender := Snapshot(s.owner.fd, s.owner.generation, d, true, s.changes, s.publications), open := s.open + {d})
    case CloseDuplicate => s.(sender := s.sender.(dupOpen := false), open := s.open - {s.sender.dupFd})
    case InvalidateSnapshot =>
      WithOwner(s, Invalidated(s.owner, s.sender.source, s.sender.generation)).(sender := NoSnapshot)
    case DropSnapshot => s.(sender := NoSnapshot)
  }

  ghost predicate Executable(s: State, acts: seq<Action>)
    decreases |acts|
  {
    acts == [] || (Enabled(s, acts[0]) && Executable(Apply(s, acts[0]), acts[1..]))
  }

  ghost function Exec(s: State, acts: seq<Action>): State
    requires Executable(s, acts)
    decreases |acts|
  {
    if acts == [] then s else Exec(Apply(s, acts[0]), acts[1..])
  }

  /** The generation after n changes: it runs 1, 2, ..., CYCLE and starts over. */
  function GenerationAfter(n: nat): Generation {
    if n == 0 then 0 else 1 + (n - 1) % CYCLE
  }

  lemma GenerationStep(n: nat)
    ensures GenerationAfter(n + 1) == Advance(GenerationAfter(n))
  {
    if n > 0 {
      var q, r := (n - 1) / CYCLE, (n - 1) % CYCLE;
      if r + 1 == CYCLE {
        RemainderIs(n, q + 1, 0);
      } else {
        RemainderIs(n, q, r + 1);
      }
    }
  }

  lemma RemainderIs(n: nat, q: nat, r: nat)
    requires n == CYCLE * q + r && r < CYCLE
    ensures n % CYCLE == r
  {
  }

  /** Two moments share a generation exactly when whole cycles lie between them. */
  lemma GenerationsCoincide(a: nat, b: nat)
    requires 1 <= a <= b
    ensures GenerationAfter(a) == GenerationAfter(b) <==> (b - a) % CYCLE == 0
  {
    var d, p, r := b - a, (a - 1) / CYCLE, (a - 1) % CYCLE;
    if GenerationAfter(a) == GenerationAfter(b) {
      RemainderIs(d, (b - 1) / CYCLE - p, 0);
    } else if d % CYCLE == 0 {
      RemainderIs(b - 1, p + d / CYCLE, r);
    }
  }

  ghost predicate Inv(s: State) {
    && s.owner.generation == GenerationAfter(s.changes)
    && s.owner.fd >= -1
    // what is published is what the socket worker is serving and still holds open
    && (s.owner.fd >= 0 ==> s.changes >= 1 && s.worker == Serving(s.owner.fd, s.owner.generation))
    && (!s.worker.Listening? ==> s.worker.fd >= 0 && s.worker.fd in s.open)
    && (s.sender.Snapshot? ==> SnapshotInv(s))
  }

  ghost predicate SnapshotInv(s: State)
    requires s.sender.Snapshot?
  {
    && s.sender.source >= 0
    && 1 <= s.sender.at <= s.changes && s.sender.publication <= s.publications
    && s.sender.generation == GenerationAfter(s.sender.at)
    // no change since the snapshot means no publication since
    && (s.sender.at == s.changes ==> s.sender.publication == s.publications)
    && (s.sender.dupOpen ==> s.sender.dupFd in s.open && (!s.worker.Listening? ==> s.sender.dupFd != s.worker.fd))
  }

  lemma AdvanceMoves(g: Generation)
    ensures Advance(g) != g
  {
  }

  lemma StepKeepsInv(s: State, a: Action)
    requires Inv(s) && Enabled(s, a)
    ensures Inv(Apply(s, a))
  {
    GenerationStep(s.changes);
    AdvanceMoves(s.owner.generation);
    hide GenerationAfter, Advance;
  }

  lemma {:induction false} RunKeepsInv(s: State, acts: seq<Action>)
    requires Inv(s) && Executable(s, acts)
    ensures Inv(Exec(s, acts))
    decreases |acts|
  {
    hide Inv;
    if acts != [] {
      StepKeepsInv(s, acts[0]);
      RunKeepsInv(Apply(s, acts[0]), acts[1..]);
    }
  }

  /** In every interleaving a published descriptor is one the socket worker serves
      and has not closed, and a publication never displaces a live descriptor. */
  lemma PublishedIsOpen(acts: seq<Action>)
    requires Executable(Start(), acts)
    ensures var s := Exec(Start(), acts);
      && (s.owner.fd >= 0 ==> s.worker == Serving(s.owner.fd, s.owner.generation) && s.owner.fd in s.open)
      && (Enabled(s, Publish) ==> s.owner.fd == -1)
  {
    RunKeepsInv(Start(), acts);
  }

  /** A snapshot clears the slot only if the slot still holds the publication the
      snapshot was taken of, or the generation has run through whole cycles since;
      reuse of the descriptor number by the kernel makes no difference. */
  lemma StaleSnapshotClearsNothing(acts: seq<Action>)
    requires Executable(Start(), acts) && Exec(Start(), acts).sender.Snapshot?
    ensures var s := Exec(Start(), acts);
      var since := s.changes - s.sender.at;
      && since >= 0
      && (s.owner.generation == s.sender.generation <==> since % CYCLE == 0)
      && (IsCurrent(s.owner, s.sender.source, s.sender.generation) && since < CYCLE ==>
            s.sender.publication == s.publications)
  {
    RunKeepsInv(Start(), acts);
    var s := Exec(Start(), acts);
    GenerationsCoincide(s.sender.at, s.changes);
  }

  /** The same as an effect: within a cycle, giving up a snapshot of an earlier publication
      leaves the slot as it is, and giving up one of a slot nothing has changed clears it. */
  lemma SnapshotClearsItsOwn(acts: seq<Action>)
    requires Executable(Start(), acts) && Enabled(Exec(Start(), acts), InvalidateSnapshot)
    ensures var s := Exec(Start(), acts);
      var t := Apply(s, InvalidateSnapshot);
      && (s.sender.publication != s.publications && s.changes - s.sender.at < CYCLE ==> t.owner == s.owner)
      && (s.sender.at == s.changes && s.owner.fd == s.sender.source ==> t.owner.fd == -1 && t.changes == s.changes + 1)
      && t.sender == NoSnapshot && t.worker == s.worker && t.open == s.open && t.publications == s.publications
      && Enabled(s, DropSnapshot) && Apply(s, DropSnapshot) == s.(sender := NoSnapshot)
  {
    StaleSnapshotClearsNothing(acts);
    RunKeepsInv(Start(), acts);
    AdvanceMoves(Exec(Start(), acts).owner.generation);
    hide GenerationAfter, Advance;
  }

  /** From every reachable state with the worker listening: an accepted descriptor is
      published, a snapshot is of it, a failed send through the snapshot clears the slot, and
      whichever way the connection ends its descriptor is closed and nothing is published. */
  lemma ConnectionIsServed(acts: seq<Action>, fd: int, d: int)
    requires Executable(Start(), acts)
    requires Exec(Start(), acts).worker.Listening? && Exec(Start(), acts).sender.NoSnapshot?
    requires fd >= 0 && d >= 0 && fd != d && fd !in Exec(Start(), acts).open && d !in Exec(Start(), acts).open
    ensures var s := Exec(Start(), acts);
      var served := Apply(Apply(s, Accept(fd)), Publish);
      var watched := Apply(served, TakeSnapshot(d));
      var dropped := Apply(Apply(watched, CloseDuplicate), InvalidateSnapshot);
      && served.owner.fd == fd && served.worker == Serving(fd, served.owner.generation)
      && served.open == s.open + {fd} && served.publications == s.publications + 1 && served.changes == s.changes + 1
      && watched.sender == Snapshot(fd, served.owner.generation, d, true, served.changes, served.publications)
      && watched.open == served.open + {d} && watched.owner == served.owner
      && dropped.owner.fd == -1 && dropped.open == served.open && dropped.sender == NoSnapshot
      && Gone(s, Apply(Apply(served, Finish), Close)) && Gone(s, Apply(Apply(dropped, Finish), Close))
      && Gone(s, Apply(Apply(Apply(served, RequestShutdown), Finish), Close))
  {
    RunKeepsInv(Start(), acts);
    var s := Exec(Start(), acts);
    AdvanceMoves(s.owner.generation);
    AdvanceMoves(Advance(s.owner.generation));
    hide GenerationAfter, Advance;
  }

  /** The connection has left nothing behind. */
  ghost predicate Gone(before: State, after: State) {
    after.worker == Listening && after.open == before.open && after.owner.fd == -1
  }

  /** A run is its steps: one more action is applied to where the run has come. */
  lemma {:induction false} RunGoesOn(s: State, acts: seq<Action>, a: Action)
    requires Executable(s, acts) && Enabled(Exec(s, acts), a)
    ensures Executable(s, acts + [a]) && Exec(s, acts + [a]) == Apply(Exec(s, acts), a)
    decreases |acts|
  {
    hide Enabled, Apply;
    var all := acts + [a];
    if acts == [] {
      assert all[1..] == [];
    } else {
      assert all[0] == acts[0] && all[1..] == acts[1..] + [a];
      RunGoesOn(Apply(s, acts[0]), acts[1..], a);
    }
  }
}
