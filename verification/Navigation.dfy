/** Going back in the phone menus: the bounded history of internal/ivr/flow.go, and the
    navigation primitives and key stamps of internal/calls/navigation_state.go. */
module Navigation {
  import opened Wrappers

  const DEFAULT_LIMIT: int := 64
  const UINT64: nat := 0x1_0000_0000_0000_0000

  type Name = string

  // ------------------------------------------------------------ the bounded history

  datatype Flow = Flow(state: Name, previous: seq<Name>, limit: int)

  function LimitOf(f: Flow): int { if f.limit <= 0 then DEFAULT_LIMIT else f.limit }

  function Last(s: seq<Name>, n: int): seq<Name>
    requires n >= 0
  {
    if |s| > n then s[|s| - n..] else s
  }

  function Entered(f: Flow, next: Name): Flow {
    if f.state == next then f else Flow(next, Last(f.previous + [f.state], LimitOf(f)), LimitOf(f))
  }

  function WentBack(f: Flow): Option<Flow> {
    if f.previous == [] then None else Some(Flow(f.previous[|f.previous| - 1], f.previous[..|f.previous| - 1], f.limit))
  }

  /** The formal session; only the fields navigation uses. */
  class Session {
    var state: Name
    var previous: seq<Name>
    var historyLimit: int

    constructor (state: Name)
      ensures Contents() == Flow(state, [], DEFAULT_LIMIT)
    {
      this.state, previous, historyLimit := state, [], DEFAULT_LIMIT;
    }

    function Contents(): Flow
      reads this
    {
      Flow(state, previous, historyLimit)
    }

    method Enter(next: Name)
      modifies this
      ensures Contents() == Entered(old(Contents()), next)
      ensures next == old(state) ==>
        state == old(state) && previous == old(previous) && historyLimit == old(historyLimit)
      ensures next != old(state) ==>
        state == next && historyLimit == if old(historyLimit) <= 0 then 64 else old(historyLimit)
      ensures next != old(state) && |old(previous)| < historyLimit ==> previous == old(previous) + [old(state)]
      ensures next != old(state) && |old(previous)| >= historyLimit ==>
        previous == (old(previous) + [old(state)])[|old(previous)| + 1 - historyLimit..]
    {
      if state != next {
        previous := previous + [state];
        var limit := historyLimit;
        if limit <= 0 {
          limit := DEFAULT_LIMIT;
          historyLimit := limit;
        }
        if |previous| > limit {
          var offset := |previous| - limit;
          previous := previous[offset..];
        }
        state := next;
      }
    }

    /** False stands for the error "already at root state". */
    method Back() returns (ok: bool)
      modifies this
      ensures ok <==> WentBack(old(Contents())).Some?
      ensures Contents() == if ok then WentBack(old(Contents())).value else old(Contents())
      ensures ok ==> old(previous) == previous + [state]
      ensures !ok ==> old(previous) == [] && state == old(state) && previous == []
    {
      if |previous| == 0 { return false; }
      var last := |previous| - 1;
      state, previous := previous[last], previous[..last];
      return true;
    }

    method Close()
      modifies this
      ensures Contents() == Shut(old(Contents()))
      ensures state == "closed" && previous == [] && historyLimit == old(historyLimit)
    {
      state := "closed";
      previous := [];
    }
  }

  /** What Close leaves of a formal session: terminal, with nothing behind it. */
  function Shut(f: Flow): Flow { f.(state := "closed", previous := []) }

  datatype Move = Enter(next: Name) | Back

  /** The bounded session; a Back it refuses leaves it as it is. */
  function Moved(f: Flow, m: Move): Flow {
    match m
    case Enter(next) => Entered(f, next)
    case Back => if WentBack(f).Some? then WentBack(f).value else f
  }

  function MovedAll(f: Flow, moves: seq<Move>): Flow
    decreases |moves|
  {
    if moves == [] then f else MovedAll(Moved(f, moves[0]), moves[1..])
  }

  /** What a session that forgets nothing has behind it after the moves the bounded one took. */
  function FullHistory(f: Flow, history: seq<Name>, moves: seq<Move>): seq<Name>
    decreases |moves|
  {
    if moves == [] then history
    else
      var now := match moves[0]
        case Enter(next) => if f.state == next then history else history + [f.state]
        case Back => if f.previous == [] || history == [] then history else history[..|history| - 1];
      FullHistory(Moved(f, moves[0]), now, moves[1..])
  }

  predicate IsSuffix(a: seq<Name>, b: seq<Name>) { |a| <= |b| && b[|b| - |a|..] == a }

  lemma EnterKeepsSuffix(f: Flow, history: seq<Name>, next: Name)
    requires IsSuffix(f.previous, history) && |f.previous| <= LimitOf(f) && f.state != next
    ensures IsSuffix(Entered(f, next).previous, history + [f.state])
  {
    hide LimitOf;
    var whole, grown, kept := history + [f.state], f.previous + [f.state], Entered(f, next).previous;
    assert whole[|whole| - |grown|..] == grown;
    assert kept == grown[|grown| - |kept|..];
    assert whole[|whole| - |kept|..] == whole[|whole| - |grown|..][|grown| - |kept|..];
  }

  lemma BackKeepsSuffix(f: Flow, history: seq<Name>)
    requires IsSuffix(f.previous, history) && f.previous != []
    ensures history != [] && IsSuffix(f.previous[..|f.previous| - 1], history[..|history| - 1])
    ensures f.previous[|f.previous| - 1] == history[|history| - 1]
  {
    var k := |f.previous|;
    assert history[|history| - k..][k - 1] == history[|history| - 1];
    assert history[..|history| - 1][|history| - k..] == history[|history| - k..][..k - 1];
  }

  lemma StepKeepsSuffix(f: Flow, history: seq<Name>, m: Move)
    requires IsSuffix(f.previous, history) && |f.previous| <= LimitOf(f)
    ensures |Moved(f, m).previous| <= LimitOf(f) == LimitOf(Moved(f, m))
    ensures m.Enter? && f.state != m.next ==> IsSuffix(Moved(f, m).previous, history + [f.state])
    ensures m.Back? && f.previous != [] ==> history != [] && Moved(f, m).state == history[|history| - 1]
    ensures m.Back? && f.previous != [] ==> IsSuffix(Moved(f, m).previous, history[..|history| - 1])
  {
    hide IsSuffix;
    if m.Enter? && f.state != m.next {
      EnterKeepsSuffix(f, history, m.next);
    } else if m.Back? && f.previous != [] {
      BackKeepsSuffix(f, history);
    }
  }

  /** However a session is moved about, its history is the end of the complete one and never
      longer than the limit, so going back leads to the state the complete history has last. */
  lemma {:induction false} HistoryIsSuffix(f: Flow, history: seq<Name>, moves: seq<Move>)
    requires IsSuffix(f.previous, history) && |f.previous| <= LimitOf(f)
    ensures IsSuffix(MovedAll(f, moves).previous, FullHistory(f, history, moves))
    ensures |MovedAll(f, moves).previous| <= LimitOf(f)
    decreases |moves|
  {
    hide IsSuffix, LimitOf;
    if moves != [] {
      StepKeepsSuffix(f, history, moves[0]);
      var now := match moves[0]
        case Enter(next) => if f.state == next then history else history + [f.state]
        case Back => if f.previous == [] || history == [] then history else history[..|history| - 1];
      HistoryIsSuffix(Moved(f, moves[0]), now, moves[1..]);
    }
  }

  // ------------------------------------------------------- enters undone by backs

  function EnteredAll(f: Flow, names: seq<Name>): Flow {
    if names == [] then f else Entered(EnteredAll(f, names[..|names| - 1]), names[|names| - 1])
  }

  /** Every one of these enters changes the state. */
  predicate AllReal(f: Flow, names: seq<Name>) {
    names != [] ==> AllReal(f, names[..|names| - 1]) && EnteredAll(f, names[..|names| - 1]).state != names[|names| - 1]
  }

  function BackTimes(f: Flow, k: nat): Flow {
    if k == 0 then f else Moved(BackTimes(f, k - 1), Back)
  }

  /** The states left behind by these enters, over the old history. */
  function Trail(f: Flow, names: seq<Name>): seq<Name> {
    if names == [] then f.previous else f.previous + [f.state] + names[..|names| - 1]
  }

  lemma LastOfLast(a: seq<Name>, s: Name, n: int)
    requires n >= 1
    ensures Last(Last(a, n) + [s], n) == Last(a + [s], n)
  {
  }

  lemma {:induction false} EntersLeaveTrail(f: Flow, names: seq<Name>)
    requires AllReal(f, names) && |f.previous| <= LimitOf(f)
    ensures var g := EnteredAll(f, names);
      && LimitOf(g) == LimitOf(f) && g.previous == Last(Trail(f, names), LimitOf(f))
      && g.state == (if names == [] then f.state else names[|names| - 1])
  {
    if names != [] {
      var front := names[..|names| - 1];
      EntersLeaveTrail(f, front);
      var g := EnteredAll(f, front);
      LastOfLast(Trail(f, front), g.state, LimitOf(f));
      hide Last, LimitOf;
      if front == [] {
        assert Trail(f, names) == f.previous + [f.state] + [];
      } else {
        assert Trail(f, names) == f.previous + [f.state] + (front[..|front| - 1] + [front[|front| - 1]]);
      }
      assert Trail(f, front) + [g.state] == Trail(f, names);
    }
  }

  lemma {:induction false} BacksWalkHistory(f: Flow, k: nat)
    requires k <= |f.previous|
    ensures var g := BackTimes(f, k);
      && g.previous == f.previous[..|f.previous| - k] && g.limit == f.limit
      && g.state == (if k == 0 then f.state else f.previous[|f.previous| - k])
  {
    if k > 0 {
      BacksWalkHistory(f, k - 1);
    } else {
      assert f.previous[..|f.previous|] == f.previous;
    }
  }

  /** As many real enters as the history can hold are undone by as many backs: the state is
      the old one, over as much of the old history as was not pushed out. */
  lemma BacksUndoEnters(f: Flow, names: seq<Name>)
    requires AllReal(f, names) && |f.previous| <= LimitOf(f) && |names| <= LimitOf(f)
    ensures BackTimes(EnteredAll(f, names), |names|).state == f.state
    ensures BackTimes(EnteredAll(f, names), |names|).previous == Last(f.previous, LimitOf(f) - |names|)
  {
    hide AllReal, EnteredAll, BackTimes, LimitOf, Last;
    EntersLeaveTrail(f, names);
    var g := EnteredAll(f, names);
    if names == [] {
      LastWhole(f.previous, LimitOf(f));
    } else {
      TrailCut(f.previous, f.state, names[..|names| - 1], LimitOf(f));
    }
    BacksWalkHistory(g, |names|);
  }

  lemma LastWhole(s: seq<Name>, n: int)
    requires |s| <= n
    ensures Last(s, n) == s
  {
  }

  lemma TrailCut(previous: seq<Name>, state: Name, later: seq<Name>, limit: int)
    requires |later| < limit
    ensures var kept := Last(previous + [state] + later, limit);
      var back := |kept| - |later| - 1;
      back >= 0 && kept[back] == state && kept[..back] == Last(previous, limit - |later| - 1)
  {
    var trail := previous + [state] + later;
    var kept := Last(trail, limit);
    var from := |trail| - |kept|;
    assert trail[..|previous|] == previous;
    assert kept == trail[from..];
    assert kept[..|previous| - from] == trail[..|previous|][from..];
  }

  // -------------------------------------------------------- the navigation primitives

  /** The fields of a call session that navigation reads and writes. */
  datatype Call = Call(state: Name, flow: Option<Flow>, generation: nat, closed: bool)

  /** stateLocked: makes the formal flow if there is none, and mirrors its state. */
  function Ensured(c: Call): Call {
    var first := if c.state != "" then c.state else "welcome";
    var flow := if c.flow.Some? then c.flow.value else Flow(first, [], DEFAULT_LIMIT);
    c.(flow := Some(flow), state := flow.state)
  }

  /** A value of the 64-bit counter. */
  function Wrapped(n: nat): nat { n % UINT64 }

  function Stamped(c: Call): Call { c.(generation := Wrapped(c.generation + 1)) }

  function Transitioned(c: Call, next: Name): Call {
    var e := Ensured(c);
    if e.state == next then e else Stamped(e.(flow := Some(Entered(e.flow.value, next)), state := next))
  }

  /** The check a stamped key has to pass. */
  predicate IsCurrent(c: Call, version: nat) { !c.closed && c.generation == version }

  /** The state the menu's contract goes back to, if it names one. */
  type Contract = Name -> Option<Name>

  function BackedByContract(c: Call, contract: Contract, fallback: Name): Call {
    var e := Ensured(c);
    var target := if contract(e.state).Some? then contract(e.state).value else fallback;
    Stamped(e.(flow := Some(e.flow.value.(state := target)), state := target))
  }

  function BackedUsingFlow(c: Call, contract: Contract, fallback: Name): Call {
    var e := Ensured(c);
    if WentBack(e.flow.value).Some? then
      var f := WentBack(e.flow.value).value;
      Stamped(e.(flow := Some(f), state := f.state))
    else BackedByContract(e, contract, fallback)
  }

  class CallSession {
    var state: Name
    var flow: Session?
    var navigationGeneration: nat
    var closed: bool

    constructor (state: Name)
      ensures Contents() == Call(state, None, 0, false) && flow == null
    {
      this.state, flow, navigationGeneration, closed := state, null, 0, false;
    }

    function Contents(): Call
      reads this, flow
    {
      Call(state, if flow == null then None else Some(flow.Contents()), navigationGeneration, closed)
    }

    /** stateLocked, as a value: the formal state, or what a formal session would start from. */
    ghost function StateNow(): Name
      reads this, flow
    {
      if flow != null then flow.state else if state != "" then state else "welcome"
    }

    method EnsureFlow()
      modifies this`flow, this`state
      ensures Contents() == Ensured(old(Contents()))
      ensures flow != null && (flow == old(flow) || fresh(flow)) && state == flow.state
      ensures old(flow) != null ==> flow == old(flow) && flow.Contents() == old(flow.Contents())
      ensures old(flow) == null ==>
        flow.state == (if old(state) != "" then old(state) else "welcome") && flow.previous == []
    {
      if flow == null {
        flow := new Session("welcome");
        if state != "" {
          flow.state := state;
        }
      }
      state := flow.state;
    }

    method Transition(next: Name)
      modifies this, flow
      ensures Contents() == Transitioned(old(Contents()), next)
      ensures flow != null && state == flow.state == next && closed == old(closed)
      ensures navigationGeneration ==
        if old(StateNow()) == next then old(navigationGeneration) else (old(navigationGeneration) + 1) % UINT64
    {
      EnsureFlow();
      if flow.state == next { return; }
      flow.Enter(next);
      state := next;
      navigationGeneration := (navigationGeneration + 1) % UINT64;
    }

    method BackByContract(contract: Contract, fallback: Name)
      modifies this, flow
      ensures Contents() == BackedByContract(old(Contents()), contract, fallback)
      ensures flow != null && state == flow.state && closed == old(closed)
      ensures state == if contract(old(StateNow())).Some? then contract(old(StateNow())).value else fallback
      ensures flow.previous == if old(flow) == null then [] else old(flow.previous)
      ensures navigationGeneration == (old(navigationGeneration) + 1) % UINT64
    {
      EnsureFlow();
      var back := contract(flow.state);
      if back.Some? {
        flow.state := back.value;
        state := back.value;
        navigationGeneration := (navigationGeneration + 1) % UINT64;
        return;
      }
      flow.state := fallback;
      state := fallback;
      navigationGeneration := (navigationGeneration + 1) % UINT64;
    }

    method BackUsingFlow(contract: Contract, fallback: Name)
      modifies this, flow
      ensures Contents() == BackedUsingFlow(old(Contents()), contract, fallback)
      ensures flow != null && state == flow.state && closed == old(closed)
      ensures old(flow) != null && old(flow.previous) != [] ==> old(flow.previous) == flow.previous + [state]
      ensures old(flow) == null || old(flow.previous) == [] ==>
        flow.previous == [] &&
        state == if contract(old(StateNow())).Some? then contract(old(StateNow())).value else fallback
      ensures navigationGeneration == (old(navigationGeneration) + 1) % UINT64
    {
      EnsureFlow();
      var ok := flow.Back();
      if ok {
        state := flow.state;
        navigationGeneration := (navigationGeneration + 1) % UINT64;
        return;
      }
      BackByContract(contract, fallback);
    }

    /** navigationVersionIsCurrent for a call that is still in the table. */
    method NavigationVersionIsCurrent(version: nat) returns (current: bool)
      ensures current <==> IsCurrent(Contents(), version)
    {
      current := !closed && navigationGeneration == version;
    }
  }

  /** Going back undoes a transition, whatever the menu's contract says: the caller is where
      she was, over as much of the history as was not pushed out. */
  lemma BackUndoesTransition(c: Call, next: Name, contract: Contract, fallback: Name)
    requires FlowOf(c).state != next && |FlowOf(c).previous| <= LimitOf(FlowOf(c))
    ensures var d := BackedUsingFlow(Transitioned(c, next), contract, fallback);
      && d.state == FlowOf(c).state == FlowOf(d).state
      && FlowOf(d).previous == Last(FlowOf(c).previous, LimitOf(FlowOf(c)) - 1)
      && d.generation == Wrapped(Wrapped(c.generation + 1) + 1) && d.closed == c.closed
  {
    hide Wrapped;
    var f := FlowOf(c);
    assert Last(f.previous + [f.state], LimitOf(f)) == Last(f.previous, LimitOf(f) - 1) + [f.state];
  }

  /** At the root it leads where the contract says, or to the fallback, and stays at the root. */
  lemma BackAtRoot(c: Call, contract: Contract, fallback: Name)
    requires FlowOf(c).previous == []
    ensures var d := BackedUsingFlow(c, contract, fallback);
      && d.state == FlowOf(d).state && FlowOf(d).previous == []
      && (forall target :: contract(FlowOf(c).state) == Some(target) ==> d.state == target)
      && (contract(FlowOf(c).state) == None ==> d.state == fallback)
  {
  }

  // ------------------------------------------------------------------- key stamps

  /** What may happen to a call between the moment a key is stamped and the moment it is
      taken from the queue. */
  datatype Event =
    | Transition(next: Name)
    | BackByContract(contract: Contract, fallback: Name)
    | BackUsingFlow(contract: Contract, fallback: Name)
    | Look
    | Close        // the call ends
    | FormalClose  // Drain closes the formal session of a call that is still open

  function Happened(c: Call, e: Event): Call {
    match e
    case Transition(next) => Transitioned(c, next)
    case BackByContract(contract, fallback) => BackedByContract(c, contract, fallback)
    case BackUsingFlow(contract, fallback) => BackedUsingFlow(c, contract, fallback)
    case Look => Ensured(c)
    case Close => c.(closed := true)
    case FormalClose => if c.flow.Some? then c.(flow := Some(Shut(c.flow.value))) else c
  }

  function AllHappened(c: Call, events: seq<Event>): Call {
    if events == [] then c else Happened(AllHappened(c, events[..|events| - 1]), events[|events| - 1])
  }

  /** The event counts as a move: every event but a look, a close, and a transition to where the call is. */
  predicate Moves(c: Call, e: Event) {
    match e
    case Transition(next) => Ensured(c).state != next
    case Look => false
    case Close => false
    case FormalClose => false
    case _ => true
  }

  /** How many of the events move the call. */
  function MoveCount(c: Call, events: seq<Event>): nat {
    if events == [] then 0
    else
      var front, last := events[..|events| - 1], events[|events| - 1];
      MoveCount(c, front) + (if Moves(AllHappened(c, front), last) then 1 else 0)
  }

  lemma WrapsOnlyFully(g: nat, k: nat)
    requires g < UINT64 && k < UINT64
    ensures Wrapped(g + k) == g <==> k == 0
  {
    assert Wrapped(g + k) == if g + k < UINT64 then g + k else g + k - UINT64;
  }

  lemma ModStep(g: nat, k: nat)
    ensures Wrapped(Wrapped(g + k) + 1) == Wrapped(g + k + 1)
  {
  }

  lemma {:induction false} GenerationCounts(c: Call, events: seq<Event>)
    requires c.generation < UINT64
    ensures AllHappened(c, events).generation == Wrapped(c.generation + MoveCount(c, events))
  {
    hide Happened, Moves, Wrapped;
    if events != [] {
      var front, last := events[..|events| - 1], events[|events| - 1];
      GenerationCounts(c, front);
      ModStep(c.generation, MoveCount(c, front));
      OneMove(AllHappened(c, front), last);
    } else {
      WrapsOnlyFully(c.generation, 0);
    }
  }

  lemma OneMove(c: Call, e: Event)
    ensures Happened(c, e).generation == if Moves(c, e) then Wrapped(c.generation + 1) else c.generation
  {
    hide Entered, WentBack, Wrapped;
  }

  /** Some FormalClose found a formal session to close. */
  predicate FlowClosed(c: Call, events: seq<Event>) {
    events != [] &&
    (FlowClosed(c, events[..|events| - 1]) ||
     (events[|events| - 1].FormalClose? && AllHappened(c, events[..|events| - 1]).flow.Some?))
  }

  predicate Ended(events: seq<Event>) {
    events != [] && (Ended(events[..|events| - 1]) || events[|events| - 1].Close?)
  }

  lemma {:induction false} EndsExactly(c: Call, events: seq<Event>)
    ensures AllHappened(c, events).closed <==> c.closed || Ended(events)
  {
    hide Entered, WentBack;
    if events != [] {
      EndsExactly(c, events[..|events| - 1]);
    }
  }

  function FlowOf(c: Call): Flow { Ensured(c).flow.value }

  lemma StayedOnce(c: Call, e: Event)
    requires !Moves(c, e)
    ensures FlowOf(Happened(c, e)) == if e.FormalClose? && c.flow.Some? then Shut(FlowOf(c)) else FlowOf(c)
  {
    hide Entered, WentBack;
  }

  /** Without a move the call is where it was, unless its formal session was closed. */
  lemma {:induction false} StillThere(c: Call, events: seq<Event>)
    requires MoveCount(c, events) == 0
    ensures FlowOf(AllHappened(c, events)) == if FlowClosed(c, events) then Shut(FlowOf(c)) else FlowOf(c)
  {
    hide Ensured, Happened;
    if events != [] {
      StillThere(c, events[..|events| - 1]);
      StayedOnce(AllHappened(c, events[..|events| - 1]), events[|events| - 1]);
    }
  }

  /** A stamped key passes the check exactly when the call has not ended and no primitive
      has moved it since, given fewer moves than the counter has values. The caller is then
      where the key was pressed, with the same history, exactly when no FormalClose came in
      between or the formal session was closed at the press already. */
  lemma FreshKeyIffUnmoved(c: Call, events: seq<Event>)
    requires c.generation < UINT64 && MoveCount(c, events) < UINT64
    ensures var now := AllHappened(c, events);
      && (IsCurrent(now, c.generation) <==> !c.closed && !Ended(events) && MoveCount(c, events) == 0)
      && (now.generation == c.generation <==> MoveCount(c, events) == 0)
      && (now.generation == c.generation ==>
            (FlowOf(now) == FlowOf(c) <==> !FlowClosed(c, events) || FlowOf(c) == Shut(FlowOf(c))))
  {
    hide AllHappened, MoveCount, Ensured, Wrapped, Ended, FlowClosed, FlowOf;
    GenerationCounts(c, events);
    EndsExactly(c, events);
    WrapsOnlyFully(c.generation, MoveCount(c, events));
    if MoveCount(c, events) == 0 {
      StillThere(c, events);
    }
  }

  /** The generation does not see a FormalClose: a key pressed in the inbox still passes,
      and finds its call in the closed state. */
  lemma ClosedFlowPassesCheck()
    ensures var c := Call("inbox", Some(Flow("inbox", ["welcome"], DEFAULT_LIMIT)), 7, false);
      && IsCurrent(AllHappened(c, [FormalClose]), c.generation)
      && Ensured(AllHappened(c, [FormalClose])).state == "closed"
  {
    assert [FormalClose][..0] == [];
  }
}
