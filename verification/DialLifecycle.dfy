/** Outgoing dial requests in internal/calls (service.go, admission.go, lifecycle.go):
    who is responsible for telling a caller of Dial how its call ended. */
module DialLifecycle {
  import opened Sets
  import opened Wrappers

  // Identifiers are numbers here; 0 is the empty string.
  type Rid = nat
  type User = nat
  type CallId = nat
  type Obj = nat

  /** A session object: its user and, for an outgoing call, the request still to be told. */
  datatype Session = Session(user: User, alertDone: Option<Rid>)

  /** What Service.mu guards: requests awaiting their call, the session map, and the
      session objects, which goroutines keep using after they leave the map. */
  datatype Tables = Tables(pending: map<Rid, User>, sessions: map<CallId, Obj>, objects: map<Obj, Session>)

  // ------------------------------------------------ the lock-held sections

  function Register(t: Tables, r: Rid, u: User): Tables { t.(pending := t.pending[r := u]) }

  /** Dial's own clean-up and failPending: the request is no longer pending. */
  function DropPending(t: Tables, rs: set<Rid>): Tables { t.(pending := t.pending - rs) }

  function PendingOf(t: Tables, u: User): set<Rid> { set r | r in t.pending && t.pending[r] == u }

  /** The request a call_outgoing event claims: the one it names, or, for an event
      naming none, the only one there is. */
  ghost function Claimed(t: Tables, rid: Rid): Option<Rid> {
    if rid != 0 then (if rid in t.pending then Some(rid) else None)
    else if |t.pending| == 1 then Some(Only(t.pending)) else None
  }

  ghost function Only(m: map<Rid, User>): (r: Rid)
    requires |m| == 1
    ensures r in m && m.Keys == {r}
  {
    assert |m.Keys| == 1;
    var r :| r in m.Keys;
    assert m.Keys == {r} by {
      forall x | x in m.Keys ensures x == r {
        if x != r { assert {x, r} <= m.Keys; SubsetSize({x, r}, m.Keys); }
      }
    }
    r
  }

  /** startOutgoing under the lock, for a fresh session object o. */
  ghost function StartOutgoing(t: Tables, call: CallId, rid: Rid, o: Obj): Tables {
    var c := Claimed(t, rid);
    if call == 0 || call in t.sessions || c.None? then t
    else
      var u := t.pending[c.value];
      var rest := DropPending(t, {c.value});
      if u == 0 then rest
      else rest.(sessions := t.sessions[call := o], objects := t.objects[o := Session(u, Some(c.value))])
  }

  /** admit under the lock: an incoming call never displaces a live session. */
  function Admit(t: Tables, call: CallId, u: User, o: Obj): Tables {
    if call in t.sessions then t
    else t.(sessions := t.sessions[call := o], objects := t.objects[o := Session(u, None)])
  }

  /** notifyAlert and closeCall clear AlertDone before anyone is told. */
  function TakeAlert(t: Tables, o: Obj): Tables {
    if o in t.objects then t.(objects := t.objects[o := t.objects[o].(alertDone := None)]) else t
  }

  function AlertOf(t: Tables, o: Obj): set<Rid> {
    if o in t.objects && t.objects[o].alertDone.Some? then {t.objects[o].alertDone.value} else {}
  }

  function Close(t: Tables, call: CallId): Tables {
    if call in t.sessions then TakeAlert(t, t.sessions[call]).(sessions := t.sessions - {call}) else t
  }

  function CallsOf(t: Tables, u: User): set<CallId> {
    set c | c in t.sessions && t.sessions[c] in t.objects && t.objects[t.sessions[c]].user == u
  }

  function ObjectsAt(t: Tables, calls: set<CallId>): set<Obj> {
    set c | c in calls && c in t.sessions :: t.sessions[c]
  }

  /** invalidateUserSessions: the user's requests and calls leave the tables at once. */
  function Revoke(t: Tables, u: User): Tables {
    if u == 0 then t
    else t.(pending := t.pending - PendingOf(t, u), sessions := t.sessions - CallsOf(t, u))
  }

  function Sweep(t: Tables): Tables { t.(pending := map[]) }

  function Disconnect(t: Tables): Tables { t.(pending := map[], sessions := map[]) }

  // ---------------------------------------------- every interleaving of them

  /** Where the duty to report a request's outcome lies. */
  datatype Place =
    | Pending
    | Held(holder: Obj)   // a session's AlertDone
    | Taken               // taken out under the lock, about to be signalled
    | Signalled
    | DialFailed          // Dial removed it and returned the error itself
    | Discarded           // startOutgoing dropped a request without a user

  datatype State = State(
    tables: Tables,
    leaving: set<Obj>,        // out of the map, its remover still to notify it
    taken: set<Rid>,
    signals: map<Rid, nat>,   // sends on each request's Done channel
    dialing: set<Rid>,        // Dial has registered and not yet returned
    dialed: set<Rid>,         // Dial has returned nil
    users: map<Rid, User>,    // every request ever registered
    place: map<Rid, Place>)

  datatype Action =
    | DialRegisters(r: Rid, u: User)
    | DialFails(r: Rid)
    | DialReturns(r: Rid)
    | FailPending(r: Rid)                       // expiry or command_error
    | CallOutgoing(call: CallId, rid: Rid, o: Obj)
    | CallIncoming(call: CallId, u: User, o: Obj)
    | Notify(o: Obj)
    | CallClosed(call: CallId)
    | RevokeUser(u: User)
    | Drain
    | Disconnected
    | Signal(r: Rid)

  function Start(): State {
    State(Tables(map[], map[], map[]), {}, {}, map[], {}, {}, map[], map[])
  }

  predicate Enabled(s: State, a: Action) {
    match a
    case DialRegisters(r, _) => r != 0 && r !in s.users
    case DialFails(r) => r in s.dialing
    case DialReturns(r) => r in s.dialing
    case CallOutgoing(_, _, o) => o !in s.tables.objects
    case CallIncoming(_, _, o) => o !in s.tables.objects
    case Notify(o) => o in s.tables.objects
    case Signal(r) => r in s.taken
    case _ => true
  }

  /** The requests rs are now in the hands of a goroutine that will signal them. */
  ghost function Take(s: State, t: Tables, rs: set<Rid>, out: set<Obj>): State {
    s.(tables := t, taken := s.taken + rs, leaving := s.leaving + out,
       place := map r | r in s.place :: if r in rs then Taken else s.place[r])
  }

  ghost function Apply(s: State, a: Action): State
    requires Enabled(s, a)
  {
    var t := s.tables;
    match a
    case DialRegisters(r, u) =>
      s.(tables := Register(t, r, u), dialing := s.dialing + {r}, users := s.users[r := u],
         place := s.place[r := Pending])
    case DialFails(r) =>
      s.(tables := DropPending(t, {r}), dialing := s.dialing - {r},
         place := if r in t.pending then s.place[r := DialFailed] else s.place)
    case DialReturns(r) => s.(dialing := s.dialing - {r}, dialed := s.dialed + {r})
    case FailPending(r) => if r in t.pending then Take(s, DropPending(t, {r}), {r}, {}) else s
    case CallOutgoing(call, rid, o) =>
      var t' := StartOutgoing(t, call, rid, o);
      var c := Claimed(t, rid);
      s.(tables := t',
         place := if t' == t || c.None? then s.place
                  else s.place[c.value := if o in t'.objects then Held(o) else Discarded])
    case CallIncoming(call, u, o) => s.(tables := Admit(t, call, u, o))
    case Notify(o) => Take(s, TakeAlert(t, o), AlertOf(t, o), {})
    case CallClosed(call) =>
      if call in t.sessions then Take(s, Close(t, call), AlertOf(t, t.sessions[call]), {}) else s
    case RevokeUser(u) =>
      if u == 0 then s else Take(s, Revoke(t, u), PendingOf(t, u), ObjectsAt(t, CallsOf(t, u)))
    case Drain => Take(s, Sweep(t), t.pending.Keys, {})
    case Disconnected => Take(s, Disconnect(t), t.pending.Keys, t.sessions.Values)
    case Signal(r) =>
      s.(taken := s.taken - {r}, place := s.place[r := Signalled],
         signals := s.signals[r := if r in s.signals then s.signals[r] + 1 else 1])
  }

  ghost predicate Executable(s: State, acts: seq<Action>)
    decreases |acts|
  {
    acts == [] || (Enabled(s, acts[0]) && Executable(Apply(s, acts[0]), acts[1..]))
  }

  ghost function Exec(s: State, acts: seq<Action>): State
    requires Executable(s, acts)
    decreases |acts|
  {
    if acts == [] then s else Exec(Apply(s, acts[0]), acts[1..])
  }

  /** Somebody will still notify this object: it is in the map, where closing,
      revocation or disconnection will find it, or its remover holds it. */
  ghost predicate Live(s: State, o: Obj) {
    o in s.tables.sessions.Values || o in s.leaving
  }

  ghost predicate Inv(s: State) {
    && Base(s)
    && forall r :: r in s.users ==> PlaceInv(s, r)
  }

  ghost predicate Base(s: State) {
    var t := s.tables;
    && s.place.Keys == s.users.Keys && 0 !in s.users
    && s.dialing !! s.dialed && s.dialing + s.dialed <= s.users.Keys
    && s.taken <= s.users.Keys && s.signals.Keys <= s.users.Keys && t.pending.Keys <= s.users.Keys
    && t.sessions.Values <= t.objects.Keys
    && (forall o :: o in t.objects && t.objects[o].alertDone.Some? ==> HolderInv(s, o))
  }

  /** An object with an AlertDone is the recorded holder of that request. */
  ghost predicate HolderInv(s: State, o: Obj)
    requires o in s.tables.objects && s.tables.objects[o].alertDone.Some?
  {
    var r := s.tables.objects[o].alertDone.value;
    r in s.place && s.place[r] == Held(o)
  }

  /** The recorded place of a request is where the tables have it. */
  ghost predicate PlaceInv(s: State, r: Rid) {
    && r in s.place && r in s.users
    && var p, t := s.place[r], s.tables;
    && (p == Pending <==> r in t.pending) && (r in t.pending ==> t.pending[r] == s.users[r])
    && (p.Held? ==> p.holder in t.objects && t.objects[p.holder].alertDone == Some(r) && Live(s, p.holder))
    && (p == Taken <==> r in s.taken)
    && (p == Signalled <==> r in s.signals) && (r in s.signals ==> s.signals[r] == 1)
    && (p == DialFailed ==> r !in s.dialed && r !in s.dialing)
    && (p == Discarded ==> s.users[r] == 0)
  }

  lemma StartInv()
    ensures Inv(Start())
  {
  }

  /** Handing over: the requests rs leave the tables for the goroutine that took
      them, and every session that leaves the map is either kept by that goroutine
      or has nobody left to tell. */
  ghost predicate HandsOver(s: State, t: Tables, rs: set<Rid>, out: set<Obj>) {
    && (forall r :: r in t.pending <==> r in s.tables.pending && r !in rs)
    && (forall r :: r in t.pending ==> t.pending[r] == s.tables.pending[r])
    && t.objects.Keys == s.tables.objects.Keys
    && (forall o :: o in t.objects ==> t.objects[o].alertDone == AlertWithout(s.tables.objects[o].alertDone, rs))
    && (forall r :: r in rs ==> r in s.place && (s.place[r] == Pending || s.place[r].Held?))
    && t.sessions.Values <= t.objects.Keys
    && (forall o :: o in s.tables.sessions.Values ==>
          o in t.sessions.Values || o in out || (o in t.objects && t.objects[o].alertDone.None?))
  }

  function AlertWithout(done: Option<Rid>, rs: set<Rid>): Option<Rid> {
    if done.Some? && done.value in rs then None else done
  }

  lemma HandOverKeepsInv(s: State, t: Tables, rs: set<Rid>, out: set<Obj>)
    requires Inv(s) && HandsOver(s, t, rs, out)
    ensures Inv(Take(s, t, rs, out))
  {
    var s' := Take(s, t, rs, out);
    forall o | o in t.objects && t.objects[o].alertDone.Some? ensures HolderInv(s', o) {
      assert HolderInv(s, o);
    }
    forall r | r in s'.users ensures PlaceInv(s', r) {
      assert PlaceInv(s, r);
    }
  }

  lemma AlertHolder(s: State, o: Obj)
    requires Inv(s)
    ensures forall r :: r in AlertOf(s.tables, o) ==> r in s.place && s.place[r] == Held(o) && r !in s.tables.pending
    ensures forall x, r :: Holds(s, x, r) && r in AlertOf(s.tables, o) ==> x == o
  {
    if AlertOf(s.tables, o) != {} {
      assert HolderInv(s, o);
      assert PlaceInv(s, s.tables.objects[o].alertDone.value);
    }
    forall x, r | Holds(s, x, r) && r in AlertOf(s.tables, o) ensures x == o {
      assert HolderInv(s, x);
    }
  }

  ghost predicate Holds(s: State, o: Obj, r: Rid) {
    o in s.tables.objects && s.tables.objects[o].alertDone == Some(r)
  }

  lemma NotifyHandsOver(s: State, o: Obj)
    requires Inv(s) && o in s.tables.objects
    ensures HandsOver(s, TakeAlert(s.tables, o), AlertOf(s.tables, o), {})
  {
    AlertHolder(s, o);
    hide PlaceInv, HolderInv, Live;
    var rs := AlertOf(s.tables, o);
    forall x | x in s.tables.objects
      ensures TakeAlert(s.tables, o).objects[x].alertDone == AlertWithout(s.tables.objects[x].alertDone, rs)
    {
      if s.tables.objects[x].alertDone.Some? { assert Holds(s, x, s.tables.objects[x].alertDone.value); }
    }
  }

  lemma CloseHandsOver(s: State, call: CallId)
    requires Inv(s) && call in s.tables.sessions
    ensures HandsOver(s, Close(s.tables, call), AlertOf(s.tables, s.tables.sessions[call]), {})
  {
    var o := s.tables.sessions[call];
    NotifyHandsOver(s, o);
    hide PlaceInv, HolderInv, Live;
    var t := Close(s.tables, call);
    forall x | x in s.tables.sessions.Values && x != o ensures x in t.sessions.Values {
      var c :| c in s.tables.sessions && s.tables.sessions[c] == x;
      assert c in t.sessions;
    }
  }

  lemma PendingHandsOver(s: State, rs: set<Rid>)
    requires Inv(s) && rs <= s.tables.pending.Keys
    ensures HandsOver(s, DropPending(s.tables, rs), rs, {})
  {
    hide Live;
    forall r | r in rs ensures r in s.place && s.place[r] == Pending {
      assert PlaceInv(s, r);
    }
    forall o | o in s.tables.objects
      ensures s.tables.objects[o].alertDone == AlertWithout(s.tables.objects[o].alertDone, rs)
    {
      if s.tables.objects[o].alertDone.Some? { assert HolderInv(s, o); }
    }
  }

  lemma RevokeHandsOver(s: State, u: User)
    requires Inv(s) && u != 0
    ensures HandsOver(s, Revoke(s.tables, u), PendingOf(s.tables, u), ObjectsAt(s.tables, CallsOf(s.tables, u)))
  {
    PendingHandsOver(s, PendingOf(s.tables, u));
    hide PlaceInv, HolderInv, Live;
    var t := Revoke(s.tables, u);
    forall o | o in s.tables.sessions.Values
      ensures o in t.sessions.Values || o in ObjectsAt(s.tables, CallsOf(s.tables, u))
    {
      var c :| c in s.tables.sessions && s.tables.sessions[c] == o;
      if c !in CallsOf(s.tables, u) { assert c in t.sessions; }
    }
  }

  lemma SweepHandsOver(s: State)
    requires Inv(s)
    ensures HandsOver(s, Sweep(s.tables), s.tables.pending.Keys, {})
    ensures HandsOver(s, Disconnect(s.tables), s.tables.pending.Keys, s.tables.sessions.Values)
  {
    PendingHandsOver(s, s.tables.pending.Keys);
    hide PlaceInv, HolderInv, Live;
  }

  predicate LeavesSessions(a: Action) { a.DialRegisters? || a.DialFails? || a.DialReturns? || a.Signal? }

  lemma DialingKeepsInv(s: State, a: Action)
    requires Inv(s) && Enabled(s, a) && LeavesSessions(a)
    ensures Inv(Apply(s, a))
  {
    var t := Apply(s, a);
    assert Base(t) by {
      forall o | o in t.tables.objects && t.tables.objects[o].alertDone.Some? ensures HolderInv(t, o) {
        DialingKeepsHolder(s, a, o);
      }
      hide PlaceInv, HolderInv, Live;
    }
    hide Apply, Base, PlaceInv;
    forall x | x in t.users ensures PlaceInv(t, x) {
      DialingKeepsPlace(s, a, x);
    }
  }

  lemma DialingKeepsHolder(s: State, a: Action, o: Obj)
    requires Inv(s) && Enabled(s, a) && LeavesSessions(a)
    requires o in s.tables.objects && s.tables.objects[o].alertDone.Some?
    ensures Apply(s, a).tables.objects == s.tables.objects && HolderInv(Apply(s, a), o)
  {
    hide Live;
    assert HolderInv(s, o);
    assert PlaceInv(s, s.tables.objects[o].alertDone.value);
  }

  lemma DialingKeepsPlace(s: State, a: Action, x: Rid)
    requires Inv(s) && Enabled(s, a) && LeavesSessions(a) && x in Apply(s, a).users
    ensures PlaceInv(Apply(s, a), x)
  {
    DialingKeepsLive(s, a);
    hide Base, Live, HolderInv;
    if x in s.users { assert PlaceInv(s, x); }
  }

  lemma DialingKeepsLive(s: State, a: Action)
    requires Enabled(s, a) && LeavesSessions(a)
    ensures forall o :: Live(s, o) ==> Live(Apply(s, a), o)
  {
  }

  lemma NewSessionIsLive(s: State, t: State, call: CallId, o: Obj)
    requires call !in s.tables.sessions && t.tables.sessions == s.tables.sessions[call := o] && t.leaving == s.leaving
    ensures Live(t, o) && forall x :: Live(s, x) ==> Live(t, x)
  {
    assert t.tables.sessions[call] == o;
    forall x | x in s.tables.sessions.Values ensures x in t.tables.sessions.Values {
      var c :| c in s.tables.sessions && s.tables.sessions[c] == x;
      assert c in t.tables.sessions && t.tables.sessions[c] == x;
    }
  }

  lemma IncomingKeepsInv(s: State, a: Action)
    requires Inv(s) && Enabled(s, a) && a.CallIncoming?
    ensures Inv(Apply(s, a))
  {
    var t := Apply(s, a);
    if t != s {
      NewSessionIsLive(s, t, a.call, a.o);
      hide Live;
      forall o | o in t.tables.objects && t.tables.objects[o].alertDone.Some? ensures HolderInv(t, o) {
        assert HolderInv(s, o);
      }
      forall r | r in t.users ensures PlaceInv(t, r) {
        assert PlaceInv(s, r);
      }
    }
  }

  lemma OutgoingKeepsInv(s: State, a: Action)
    requires Inv(s) && Enabled(s, a) && a.CallOutgoing?
    ensures Inv(Apply(s, a))
  {
    var t, c := Apply(s, a), Claimed(s.tables, a.rid);
    if a.call == 0 || a.call in s.tables.sessions || c.None? {
      assert t == s;
    } else {
      hide Claimed;
      var r := c.value;
      var u := s.tables.pending[r];
      assert t.tables != s.tables by { assert r in s.tables.pending && r !in t.tables.pending; }
      if u == 0 {
        assert t == s.(tables := DropPending(s.tables, {r}), place := s.place[r := Discarded]);
        DiscardKeepsInv(s, t, r);
      } else {
        assert t.tables.objects == s.tables.objects[a.o := Session(u, Some(r))];
        SessionKeepsInv(s, t, r, a.call, a.o);
      }
    }
  }

  lemma DiscardKeepsInv(s: State, t: State, r: Rid)
    requires Inv(s) && (r, 0) in s.tables.pending.Items
    requires t == s.(tables := DropPending(s.tables, {r}), place := s.place[r := Discarded])
    ensures Inv(t)
  {
    assert forall o :: Live(s, o) == Live(t, o);
    hide Live;
    assert PlaceInv(s, r);
    forall o | o in t.tables.objects && t.tables.objects[o].alertDone.Some? ensures HolderInv(t, o) {
      assert HolderInv(s, o);
    }
    forall x | x in t.users ensures PlaceInv(t, x) {
      assert PlaceInv(s, x);
    }
  }

  /** The request r has become the new session o. */
  ghost predicate Claims(s: State, t: State, r: Rid, call: CallId, o: Obj) {
    && r in s.tables.pending && call !in s.tables.sessions && o !in s.tables.objects
    && t.tables == Tables(s.tables.pending - {r}, s.tables.sessions[call := o],
                          s.tables.objects[o := Session(s.tables.pending[r], Some(r))])
    && t == s.(tables := t.tables, place := s.place[r := Held(o)])
  }

  lemma SessionKeepsPlace(s: State, t: State, r: Rid, call: CallId, o: Obj, x: Rid)
    requires Claims(s, t, r, call, o) && PlaceInv(s, r) && PlaceInv(s, x)
    requires Live(t, o) && forall y :: Live(s, y) ==> Live(t, y)
    ensures PlaceInv(t, x)
  {
    hide Live;
  }

  lemma SessionKeepsInv(s: State, t: State, r: Rid, call: CallId, o: Obj)
    requires Inv(s) && Claims(s, t, r, call, o)
    ensures Inv(t)
  {
    NewSessionIsLive(s, t, call, o);
    hide Live;
    assert PlaceInv(s, r);
    forall x | x in t.users ensures PlaceInv(t, x) {
      assert PlaceInv(s, x);
      SessionKeepsPlace(s, t, r, call, o, x);
    }
    hide PlaceInv;
    forall x | x in t.tables.objects && t.tables.objects[x].alertDone.Some? ensures HolderInv(t, x) {
      if x in s.tables.objects { assert HolderInv(s, x); }
    }
  }

  lemma StepKeepsInv(s: State, a: Action)
    requires Inv(s) && Enabled(s, a)
    ensures Inv(Apply(s, a))
  {
    hide Inv, HandsOver, StartOutgoing, Claimed;
    var t := s.tables;
    match a {
      case CallOutgoing(_, _, _) => OutgoingKeepsInv(s, a);
      case CallIncoming(_, _, _) => IncomingKeepsInv(s, a);
      case FailPending(r) =>
        if r in t.pending {
          PendingHandsOver(s, {r});
          HandOverKeepsInv(s, DropPending(t, {r}), {r}, {});
        }
      case Notify(o) =>
        NotifyHandsOver(s, o);
        HandOverKeepsInv(s, TakeAlert(t, o), AlertOf(t, o), {});
      case CallClosed(call) =>
        if call in t.sessions {
          CloseHandsOver(s, call);
          HandOverKeepsInv(s, Close(t, call), AlertOf(t, t.sessions[call]), {});
        }
      case RevokeUser(u) =>
        if u != 0 {
          RevokeHandsOver(s, u);
          HandOverKeepsInv(s, Revoke(t, u), PendingOf(t, u), ObjectsAt(t, CallsOf(t, u)));
        }
      case Drain =>
        SweepHandsOver(s);
        HandOverKeepsInv(s, Sweep(t), t.pending.Keys, {});
      case Disconnected =>
        SweepHandsOver(s);
        HandOverKeepsInv(s, Disconnect(t), t.pending.Keys, t.sessions.Values);
      case _ => DialingKeepsInv(s, a);
    }
  }

  lemma {:induction false} RunKeepsInv(s: State, acts: seq<Action>)
    requires Inv(s) && Executable(s, acts)
    ensures Inv(Exec(s, acts))
    decreases |acts|
  {
    hide Inv, Apply;
    if acts != [] {
      StepKeepsInv(s, acts[0]);
      RunKeepsInv(Apply(s, acts[0]), acts[1..]);
    }
  }

  ghost predicate InPending(s: State, r: Rid) { r in s.tables.pending }

  ghost predicate InSession(s: State, r: Rid) {
    exists o :: Holds(s, o, r) && Live(s, o)
  }

  /** Once its Dial has returned nil, a request with a user is in exactly one place:
      pending, the AlertDone of one live session, taken out to be signalled, or
      signalled once. It is never lost and never signalled twice. */
  lemma RequestIsReportedOnce(acts: seq<Action>, r: Rid)
    requires Executable(Start(), acts)
    requires r in Exec(Start(), acts).dialed && (r, 0) !in Exec(Start(), acts).users.Items
    ensures var s := Exec(Start(), acts);
      && (InPending(s, r) || InSession(s, r) || r in s.taken || r in s.signals)
      && !(InPending(s, r) && (InSession(s, r) || r in s.taken || r in s.signals))
      && !(InSession(s, r) && (r in s.taken || r in s.signals))
      && !(r in s.taken && r in s.signals)
      && (r in s.signals ==> s.signals[r] == 1)
      && (forall o1, o2 :: Holds(s, o1, r) && Holds(s, o2, r) ==> o1 == o2)
  {
    StartInv();
    RunKeepsInv(Start(), acts);
    ExactlyOnePlace(Exec(Start(), acts), r);
  }

  lemma ExactlyOnePlace(s: State, r: Rid)
    requires Inv(s) && r in s.dialed && (r, 0) !in s.users.Items
    ensures InPending(s, r) || InSession(s, r) || r in s.taken || r in s.signals
    ensures !(InPending(s, r) && (InSession(s, r) || r in s.taken || r in s.signals))
    ensures !(InSession(s, r) && (r in s.taken || r in s.signals))
    ensures !(r in s.taken && r in s.signals)
    ensures r in s.signals ==> s.signals[r] == 1
    ensures forall o1, o2 :: Holds(s, o1, r) && Holds(s, o2, r) ==> o1 == o2
  {
    hide Live;
    assert PlaceInv(s, r);
    forall o | Holds(s, o, r) ensures s.place[r] == Held(o) {
      assert HolderInv(s, o);
    }
    if s.place[r].Held? {
      assert Holds(s, s.place[r].holder, r);
    }
    assert s.users[r] == 0 ==> (r, 0) in s.users.Items;
  }

  /** Whatever became of its Dial, no request is ever signalled twice. */
  lemma NeverSignalledTwice(acts: seq<Action>, r: Rid)
    requires Executable(Start(), acts) && r in Exec(Start(), acts).signals
    ensures Exec(Start(), acts).signals[r] == 1
  {
    hide Live;
    StartInv();
    RunKeepsInv(Start(), acts);
    assert PlaceInv(Exec(Start(), acts), r);
  }

  /** Nobody has it, nobody will signal it and nobody has. */
  ghost predicate Lost(s: State, r: Rid) {
    !InPending(s, r) && !InSession(s, r) && r !in s.taken && r !in s.signals
  }

  /** Dial has returned nil for a request of user u, and whatever happens from then on
      its caller is never told. */
  ghost predicate LosesForGood(acts: seq<Action>, r: Rid, u: User) {
    && Executable(Start(), acts)
    && var s := Exec(Start(), acts);
       && r in s.dialed && (r, u) in s.users.Items
       && forall more :: Executable(s, more) ==> Lost(Exec(s, more), r)
  }

  lemma DiscardedIsLost(s: State, r: Rid)
    requires Inv(s) && (r, Discarded) in s.place.Items
    ensures Lost(s, r)
  {
    hide Live;
    assert PlaceInv(s, r);
    assert forall o :: Holds(s, o, r) ==> HolderInv(s, o);
  }

  lemma OutgoingKeepsDiscarded(s: State, a: Action, r: Rid)
    requires Inv(s) && Enabled(s, a) && a.CallOutgoing? && (r, Discarded) in s.place.Items
    ensures (r, Discarded) in Apply(s, a).place.Items
  {
    hide Live, StartOutgoing;
    assert PlaceInv(s, r);
    assert Claimed(s.tables, a.rid).Some? ==> Claimed(s.tables, a.rid).value in s.tables.pending;
  }

  /** A request that startOutgoing dropped stays dropped. */
  lemma DiscardedStays(s: State, a: Action, r: Rid)
    requires Inv(s) && Enabled(s, a) && (r, Discarded) in s.place.Items
    ensures (r, Discarded) in Apply(s, a).place.Items
  {
    if a.CallOutgoing? {
      OutgoingKeepsDiscarded(s, a, r);
    } else {
      hide Live, HolderInv, Claimed, StartOutgoing;
      assert PlaceInv(s, r);
      if a.Notify? { AlertHolder(s, a.o); }
      if a.CallClosed? && a.call in s.tables.sessions { AlertHolder(s, s.tables.sessions[a.call]); }
    }
  }

  lemma {:induction false} DiscardedForGood(s: State, acts: seq<Action>, r: Rid)
    requires Inv(s) && Executable(s, acts) && (r, Discarded) in s.place.Items
    ensures Lost(Exec(s, acts), r)
    decreases |acts|
  {
    hide Inv, Apply, Lost;
    if acts == [] {
      DiscardedIsLost(s, r);
    } else {
      StepKeepsInv(s, acts[0]);
      DiscardedStays(s, acts[0], r);
      DiscardedForGood(Apply(s, acts[0]), acts[1..], r);
    }
  }

  lemma FirstStep(s: State, a: Action, rest: seq<Action>)
    requires Enabled(s, a) && Executable(Apply(s, a), rest)
    ensures Executable(s, [a] + rest) && Exec(s, [a] + rest) == Exec(Apply(s, a), rest)
  {
    hide Apply, Enabled;
    assert ([a] + rest)[1..] == rest;
  }

  lemma ThreeSteps(s: State, a: Action, b: Action, c: Action)
    requires Enabled(s, a) && Enabled(Apply(s, a), b) && Enabled(Apply(Apply(s, a), b), c)
    ensures Executable(s, [a, b, c]) && Exec(s, [a, b, c]) == Apply(Apply(Apply(s, a), b), c)
  {
    var t, u := Apply(s, a), Apply(Apply(s, a), b);
    NothingMore(Apply(u, c));
    hide Apply, Enabled, Executable, Exec;
    FirstStep(u, c, []);
    assert [c] + [] == [c] && [b] + [c] == [b, c] && [a] + [b, c] == [a, b, c];
    FirstStep(t, b, [c]);
    FirstStep(s, a, [b, c]);
  }

  /** A request without a user is the one exception: the call meant for it is
      refused and nobody will ever tell its caller. */
  lemma UserlessRequestIsLost(r: Rid, call: CallId, o: Obj)
    requires r != 0 && call != 0
    ensures var acts := [DialRegisters(r, 0), DialReturns(r), CallOutgoing(call, r, o)];
      && LosesForGood(acts, r, 0)
      && (r, Discarded) in Exec(Start(), acts).place.Items
  {
    var a0, a1, a2 := DialRegisters(r, 0), DialReturns(r), CallOutgoing(call, r, o);
    var s2 := Apply(Apply(Start(), a0), a1);
    assert s2.tables.pending == map[r := 0];
    assert r !in StartOutgoing(s2.tables, call, r, o).pending;
    ThreeSteps(Start(), a0, a1, a2);
    var s := Exec(Start(), [a0, a1, a2]);
    assert (r, Discarded) in s.place.Items && r in s.dialed && (r, 0) in s.users.Items;
    hide Executable, Exec, Apply, Inv, Lost;
    StartInv();
    RunKeepsInv(Start(), [a0, a1, a2]);
    forall more | Executable(s, more) ensures Lost(Exec(s, more), r) {
      DiscardedForGood(s, more, r);
    }
  }

  /** Exactly the requests without a user can be lost: with a user every run reports the
      request, without one some run never will. */
  lemma LostIffUserless(r: Rid, u: User)
    requires r != 0
    ensures (exists acts :: LosesForGood(acts, r, u)) <==> u == 0
  {
    hide LosesForGood;
    if u == 0 {
      UserlessRequestIsLost(r, 1, 0);
      assert LosesForGood([DialRegisters(r, 0), DialReturns(r), CallOutgoing(1, r, 0)], r, u);
    } else {
      forall acts ensures !LosesForGood(acts, r, u) {
        OthersAreNotLost(acts, r, u);
      }
    }
  }

  lemma OthersAreNotLost(acts: seq<Action>, r: Rid, u: User)
    requires u != 0
    ensures !LosesForGood(acts, r, u)
  {
    hide Executable, Exec, InPending, InSession;
    if Executable(Start(), acts) {
      var s := Exec(Start(), acts);
      NothingMore(s);
      if r in s.dialed && (r, u) in s.users.Items {
        RequestIsReportedOnce(acts, r);
        assert !Lost(Exec(s, []), r);
      }
    }
  }

  lemma NothingMore(s: State)
    ensures Executable(s, []) && Exec(s, []) == s
  {
  }

  /** And only such a request can be lost that way. */
  lemma OnlyUserlessRequestsAreLost(acts: seq<Action>, r: Rid)
    requires Executable(Start(), acts)
    ensures (r, Discarded) in Exec(Start(), acts).place.Items ==> (r, 0) in Exec(Start(), acts).users.Items
    ensures (r, DialFailed) in Exec(Start(), acts).place.Items ==> r !in Exec(Start(), acts).dialed
  {
    hide Live;
    StartInv();
    RunKeepsInv(Start(), acts);
    var s := Exec(Start(), acts);
    assert r in s.users ==> PlaceInv(s, r);
  }

  /** The request a call_outgoing event naming `rid` is meant for. */
  ghost predicate Meant(pending: map<Rid, User>, rid: Rid, r: Rid) {
    r in pending && if rid != 0 then r == rid else forall x :: x in pending ==> x == r
  }

  lemma MeantIsClaimed(t: Tables, rid: Rid)
    ensures forall r: Rid :: Meant(t.pending, rid, r) <==> Claimed(t, rid) == Some(r)
  {
    forall r: Rid ensures Meant(t.pending, rid, r) <==> Claimed(t, rid) == Some(r) {
      if rid == 0 && Meant(t.pending, rid, r) {
        assert t.pending.Keys == {r};
        assert |{r}| == |t.pending.Keys|;
      }
      if rid == 0 && |t.pending| == 1 {
        assert t.pending.Keys == {Only(t.pending)};
      }
    }
  }

  function SignalsIn(acts: seq<Action>, r: Rid): nat {
    if acts == [] then 0 else (if acts[0] == Signal(r) then 1 else 0) + SignalsIn(acts[1..], r)
  }

  function SignalsOf(s: State, r: Rid): nat { if r in s.signals then s.signals[r] else 0 }

  lemma {:induction false} SignalsAreCounted(s: State, acts: seq<Action>, r: Rid)
    requires Executable(s, acts)
    ensures SignalsOf(Exec(s, acts), r) == SignalsOf(s, r) + SignalsIn(acts, r)
    decreases |acts|
  {
    hide StartOutgoing, Claimed;
    if acts != [] {
      SignalsAreCounted(Apply(s, acts[0]), acts[1..], r);
    }
  }

  /** The same counted over the run: no request is ever sent on its channel twice. */
  lemma OneSendPerRequest(acts: seq<Action>, r: Rid)
    requires Executable(Start(), acts)
    ensures SignalsIn(acts, r) <= 1
  {
    SignalsAreCounted(Start(), acts, r);
    if r in Exec(Start(), acts).signals {
      NeverSignalledTwice(acts, r);
    }
  }

  // ----------------------------------------------------------- nothing is stuck

  /** In every run a request registered for a user can still be reported, whoever has it now:
      two steps at most bring it to its one signal, unless Dial returns the error itself. */
  lemma RequestCanBeReported(acts: seq<Action>, r: Rid) returns (more: seq<Action>)
    requires Executable(Start(), acts)
    requires r in Exec(Start(), acts).dialed && (r, 0) !in Exec(Start(), acts).users.Items
    ensures |more| <= 2 && Executable(Exec(Start(), acts), more)
    ensures var s := Exec(Exec(Start(), acts), more); r in s.signals && s.signals[r] == 1
  {
    StartInv();
    RunKeepsInv(Start(), acts);
    var s := Exec(Start(), acts);
    hide Live;
    assert PlaceInv(s, r);
    assert s.users[r] == 0 ==> (r, 0) in s.users.Items;
    if r in s.signals {
      more := [];
      NothingMore(s);
    } else if r in s.taken {
      more := [Signal(r)];
      SignalTells(s, r);
    } else {
      var take := if s.place[r] == Pending then FailPending(r) else Notify(s.place[r].holder);
      var t := Apply(s, take);
      assert r in t.taken;
      more := [take] + [Signal(r)];
      StepKeepsInv(s, take);
      NotYetSignalled(t, r);
      hide Apply;
      SignalTells(t, r);
      FirstStep(s, take, [Signal(r)]);
    }
  }

  lemma NotYetSignalled(s: State, r: Rid)
    requires Inv(s) && r in s.taken
    ensures r !in s.signals
  {
    assert PlaceInv(s, r);
  }

  lemma SignalTells(s: State, r: Rid)
    requires r in s.taken && r !in s.signals
    ensures Executable(s, [Signal(r)]) && (r, 1) in Exec(s, [Signal(r)]).signals.Items
  {
    NothingMore(Apply(s, Signal(r)));
    FirstStep(s, Signal(r), []);
    assert [Signal(r)] + [] == [Signal(r)];
  }

  /** What each section under the lock is for, from any reachable state: the pending requests
      it ends are taken, or become a session, and the sessions it ends leave the map with
      their remover, or their alert is taken. */
  lemma SectionsTakeAll(acts: seq<Action>, a: Action)
    requires Executable(Start(), acts) && Enabled(Exec(Start(), acts), a)
    ensures var s, t := Exec(Start(), acts), Apply(Exec(Start(), acts), a);
      && s.taken - t.taken <= (if a.Signal? then {a.r} else {})
      && (a.FailPending? ==> a.r !in t.tables.pending && (a.r in s.tables.pending ==> a.r in t.taken))
      && (a.Drain? || a.Disconnected? ==> t.tables.pending == map[] && s.tables.pending.Keys <= t.taken)
      && (a.Disconnected? ==> t.tables.sessions == map[] && s.tables.sessions.Values <= t.leaving)
      && (a.CallClosed? ==> a.call !in t.tables.sessions)
      && (a.CallClosed? && a.call in s.tables.sessions ==>
            forall r :: Holds(s, s.tables.sessions[a.call], r) ==> r in t.taken)
      && (a.Notify? ==> forall r :: Holds(s, a.o, r) ==> r in t.taken)
      && (a.Notify? ==> forall r :: !Holds(t, a.o, r))
      && (a.RevokeUser? && a.u != 0 ==> UserRevoked(s, t, a.u))
  {
    StartInv();
    RunKeepsInv(Start(), acts);
    hide Executable, Exec, Inv, StartOutgoing, Claimed;
    var s := Exec(Start(), acts);
    if a.RevokeUser? && a.u != 0 {
      RevokedUser(s, a.u);
    }
  }

  /** Nothing of the user's is pending or in a call any more; all of it is accounted for, and
      nobody else's is touched. */
  ghost predicate UserRevoked(s: State, t: State, u: User) {
    && (forall r :: r in t.tables.pending <==> r in s.tables.pending && s.tables.pending[r] != u)
    && (forall r :: r in t.tables.pending ==> t.tables.pending[r] == s.tables.pending[r])
    && (forall r :: r in s.tables.pending && s.tables.pending[r] == u ==> r in t.taken)
    && (forall c :: c in t.tables.sessions <==> c in s.tables.sessions && !CallOf(s, c, u))
    && (forall c :: c in t.tables.sessions ==> t.tables.sessions[c] == s.tables.sessions[c])
    && (forall c :: c in s.tables.sessions && CallOf(s, c, u) ==> s.tables.sessions[c] in t.leaving)
  }

  ghost predicate CallOf(s: State, c: CallId, u: User)
    requires c in s.tables.sessions
  {
    s.tables.sessions[c] in s.tables.objects && s.tables.objects[s.tables.sessions[c]].user == u
  }

  lemma RevokedUser(s: State, u: User)
    requires u != 0
    ensures UserRevoked(s, Apply(s, RevokeUser(u)), u)
  {
  }

  /** And what brings requests and sessions in: Dial registers before it sends, a
      call_outgoing turns the request it is meant for into that user's session, an incoming
      call gets a session of its own, and no call displaces a live one. */
  lemma SectionsAdmit(s: State, a: Action)
    requires Enabled(s, a)
    ensures var t := Apply(s, a);
      && (a.DialRegisters? ==> (a.r, a.u) in t.tables.pending.Items && (a.r, a.u) in t.users.Items && a.r in t.dialing)
      && (a.DialFails? ==> a.r !in t.tables.pending && a.r !in t.dialing && t.dialed == s.dialed)
      && (a.DialReturns? ==> a.r in t.dialed && t.tables == s.tables)
      && (a.CallIncoming? && a.call !in s.tables.sessions ==>
            (a.call, a.o) in t.tables.sessions.Items && (a.o, Session(a.u, None)) in t.tables.objects.Items)
      && (a.CallIncoming? && a.call in s.tables.sessions ==> t == s)
      && (a.CallOutgoing? && (a.call == 0 || a.call in s.tables.sessions) ==> t == s)
      && (a.CallOutgoing? && a.call != 0 && a.call !in s.tables.sessions ==>
            forall r :: Meant(s.tables.pending, a.rid, r) ==> Answered(s, t, r, a.call, a.o))
  {
    var t := Apply(s, a);
    if a.CallOutgoing? {
      MeantIsClaimed(s.tables, a.rid);
      hide Claimed;
      if a.call != 0 && a.call !in s.tables.sessions {
        forall r | Meant(s.tables.pending, a.rid, r) ensures Answered(s, t, r, a.call, a.o) {
          assert r in s.tables.pending && r !in t.tables.pending;
        }
      }
    }
  }

  /** The call is the session of the request's user, with its alert; a request without a
      user is dropped instead. */
  ghost predicate Answered(s: State, t: State, r: Rid, call: CallId, o: Obj)
    requires r in s.tables.pending
  {
    && r !in t.tables.pending
    && (s.tables.pending[r] != 0 ==>
          (call, o) in t.tables.sessions.Items && (o, Session(s.tables.pending[r], Some(r))) in t.tables.objects.Items)
    && (s.tables.pending[r] == 0 ==> t.tables.sessions == s.tables.sessions && t.tables.objects == s.tables.objects)
  }

  // --------------------------------------------------------- the Go service

  lemma ObjectsAtNone(t: Tables)
    ensures ObjectsAt(t, {}) == {}
  {
  }

  lemma ObjectsAtOneMore(t: Tables, calls: set<CallId>, c: CallId)
    requires c in t.sessions
    ensures ObjectsAt(t, calls + {c}) == ObjectsAt(t, calls) + {t.sessions[c]}
  {
  }

  lemma IsCallOf(t: Tables, u: User, c: CallId)
    requires c in t.sessions && t.sessions[c] in t.objects
    ensures c in CallsOf(t, u) <==> t.objects[t.sessions[c]].user == u
  {
  }

  lemma AreCalls(t: Tables, u: User)
    ensures CallsOf(t, u) <= t.sessions.Keys
  {
  }

  /** Service.pending and Service.sessions with the session objects behind them. */
  class CallService {
    var pending: map<Rid, User>
    var sessions: map<CallId, Obj>
    var objects: map<Obj, Session>

    ghost function View(): Tables
      reads this
    {
      Tables(pending, sessions, objects)
    }

    method RegisterPending(r: Rid, u: User)
      modifies this
      ensures View() == Register(old(View()), r, u)
      ensures r in pending && pending[r] == u && pending - {r} == old(pending) - {r}
      ensures sessions == old(sessions) && objects == old(objects)
    {
      pending := pending[r := u];
    }

    /** failPending's section; found tells whether there is anyone to signal. */
    method FailPending(r: Rid) returns (found: bool)
      modifies this
      ensures View() == DropPending(old(View()), {r}) && found == (r in old(pending))
      ensures pending == old(pending) - {r} && sessions == old(sessions) && objects == old(objects)
    {
      found := r in pending;
      if found {
        pending := pending - {r};
      } else {
        assert pending - {r} == pending;
      }
    }

    /** startOutgoing's section, for a message with call and request identifiers. */
    method ClaimOutgoing(call: CallId, rid: Rid, o: Obj) returns (admitted: bool)
      modifies this
      ensures View() == StartOutgoing(old(View()), call, rid, o)
      ensures admitted <==> View() != old(View()) && call in sessions && sessions[call] == o && o in objects
      // the request it is for: the one named, or without a name the only one there is
      ensures call == 0 || call in old(sessions) ==> !admitted && pending == old(pending)
      ensures forall r :: call != 0 && call !in old(sessions) && Meant(old(pending), rid, r) ==>
        && pending == old(pending) - {r}
        && (admitted <==> old(pending)[r] != 0)
        && (admitted ==> sessions == old(sessions)[call := o])
        && (admitted ==> objects == old(objects)[o := Session(old(pending)[r], Some(r))])
      ensures (forall r :: !Meant(old(pending), rid, r)) ==> !admitted && pending == old(pending)
      ensures !admitted ==> sessions == old(sessions) && objects == old(objects)
    {
      admitted := false;
      MeantIsClaimed(View(), rid);
      if call == 0 || call in sessions {
        return;
      }
      var req: Option<Rid>, user := None, 0;
      if rid != 0 && rid in pending {
        req, user := Some(rid), pending[rid];
        pending := pending - {rid};
      }
      if user == 0 && rid == 0 && |pending| == 1 {
        assert pending.Keys == {Only(pending)};
        var requestID :| requestID in pending;
        req, user := Some(requestID), pending[requestID];
        pending := pending - {requestID};
      }
      if user == 0 {
        return;
      }
      sessions := sessions[call := o];
      objects := objects[o := Session(user, req)];
      admitted := true;
    }

    /** admit's section, for a caller it does not turn away. */
    method AdmitIncoming(call: CallId, u: User, o: Obj) returns (admitted: bool)
      modifies this
      ensures View() == Admit(old(View()), call, u, o) && pending == old(pending)
      ensures admitted <==> call !in old(sessions)
      ensures admitted ==> sessions == old(sessions)[call := o] && objects == old(objects)[o := Session(u, None)]
      ensures !admitted ==> sessions == old(sessions) && objects == old(objects)
    {
      admitted := call !in sessions;
      if admitted {
        sessions := sessions[call := o];
        objects := objects[o := Session(u, None)];
      }
    }

    /** closeCall's section. */
    method CloseSession(call: CallId) returns (done: Option<Rid>)
      requires sessions.Values <= objects.Keys
      modifies this
      ensures View() == Close(old(View()), call)
      ensures done == if call in old(sessions) then old(objects)[old(sessions)[call]].alertDone else None
      ensures sessions == old(sessions) - {call} && pending == old(pending)
      ensures forall o :: o in objects <==> o in old(objects)
      ensures forall o :: o in objects ==> objects[o].user == old(objects)[o].user
      ensures forall o :: o in objects && (call !in old(sessions) || o != old(sessions)[call]) ==>
        objects[o] == old(objects)[o]
      ensures call in old(sessions) ==> objects[old(sessions)[call]].alertDone == None
    {
      done := None;
      if call in sessions {
        var o := sessions[call];
        done := objects[o].alertDone;
        objects := objects[o := objects[o].(alertDone := None)];
        sessions := sessions - {call};
      } else {
        assert sessions - {call} == sessions;
      }
    }

    /** notifyAlert's section. */
    method TakeAlertDone(o: Obj) returns (done: Option<Rid>)
      requires o in objects
      modifies this
      ensures View() == TakeAlert(old(View()), o) && done == old(objects)[o].alertDone
      ensures pending == old(pending) && sessions == old(sessions)
      ensures objects == old(objects)[o := Session(old(objects)[o].user, None)]
    {
      done := objects[o].alertDone;
      objects := objects[o := objects[o].(alertDone := None)];
    }

    /** invalidateUserSessions under the lock. */
    method RevokeUser(u: User) returns (taken: set<Rid>, out: set<Obj>)
      requires sessions.Values <= objects.Keys
      modifies this
      ensures View() == Revoke(old(View()), u)
      ensures u != 0 ==> taken == PendingOf(old(View()), u) && out == ObjectsAt(old(View()), CallsOf(old(View()), u))
      ensures u == 0 ==> taken == {} && out == {} && pending == old(pending) && sessions == old(sessions)
      // in the fields: the user's requests and calls are taken, everybody else's stay as they are
      ensures u != 0 ==> forall r :: r in taken <==> r in old(pending) && old(pending)[r] == u
      ensures u != 0 ==> forall r :: r in pending <==> r in old(pending) && old(pending)[r] != u
      ensures forall r :: r in pending ==> pending[r] == old(pending)[r]
      ensures u != 0 ==> forall c :: c in sessions <==> c in old(sessions) && objects[old(sessions)[c]].user != u
      ensures forall c :: c in sessions ==> sessions[c] == old(sessions)[c]
      ensures u != 0 ==> forall o :: o in out <==>
        o in objects && objects[o].user == u && exists c :: c in old(sessions) && old(sessions)[c] == o
      ensures objects == old(objects)
    {
      taken, out := {}, {};
      if u != 0 {
        taken := RevokePending(u);
        out := RevokeSessions(u);
      }
    }

    /** Its loop over the pending requests. */
    method RevokePending(u: User) returns (taken: set<Rid>)
      modifies this`pending
      ensures taken == PendingOf(old(View()), u) && pending == old(pending) - taken
    {
      taken := {};
      ghost var all := PendingOf(View(), u);
      var todo := pending.Keys;
      while todo != {}
        invariant todo <= pending.Keys && pending.Keys <= old(pending).Keys
        invariant taken == all - todo && pending == old(pending) - taken
        decreases |todo|
      {
        var r :| r in todo;
        todo := todo - {r};
        if pending[r] == u {
          pending := pending - {r};
          taken := taken + {r};
        }
      }
    }

    /** Its loop over the sessions. */
    method RevokeSessions(u: User) returns (out: set<Obj>)
      requires sessions.Values <= objects.Keys
      modifies this`sessions
      ensures sessions == old(sessions) - CallsOf(old(View()), u)
      ensures out == ObjectsAt(old(View()), CallsOf(old(View()), u))
    {
      out := {};
      ghost var t, gone: set<CallId> := View(), {};
      var calls := sessions.Keys;
      hide ObjectsAt, CallsOf;
      ObjectsAtNone(t);
      AreCalls(t, u);
      while calls != {}
        invariant calls <= sessions.Keys && sessions.Keys <= t.sessions.Keys
        invariant gone == CallsOf(t, u) - calls && sessions == t.sessions - gone
        invariant out == ObjectsAt(t, gone)
        decreases |calls|
      {
        var c :| c in calls;
        calls := calls - {c};
        IsCallOf(t, u, c);
        if objects[sessions[c]].user == u {
          ObjectsAtOneMore(t, gone, c);
          out := out + {sessions[c]};
          sessions := sessions - {c};
          gone := gone + {c};
        }
      }
    }

    /** The loop of Drain, and of a disconnection, over the pending requests. */
    method SweepPending() returns (taken: set<Rid>)
      modifies this`pending
      ensures View() == Sweep(old(View())) && taken == old(pending).Keys
    {
      taken := {};
      ghost var t := View();
      while pending != map[]
        invariant sessions == t.sessions && objects == t.objects
        invariant pending.Keys + taken == t.pending.Keys && pending.Keys !! taken
        decreases |pending|
      {
        assert pending.Keys != {};
        var r :| r in pending;
        taken := taken + {r};
        pending := pending - {r};
      }
    }

    /** The teardown of runConnection: the request and session maps start afresh. */
    method DropConnection() returns (taken: set<Rid>, out: set<Obj>)
      modifies this
      ensures View() == Disconnect(old(View()))
      ensures taken == old(pending).Keys && out == old(sessions).Values
    {
      taken := SweepPending();
      out := sessions.Values;
      sessions := map[];
    }
  }
}
