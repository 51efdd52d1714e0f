/** Who may synchronize an account in internal/mailsync/service.go: the maps behind
    syncAccountStarted, StopAccount and CancelManualSync. */
module SyncOwnership {
  import opened Wrappers

  type Account(==) = nat
  type RunId = nat    // one run of syncAccountStarted: its context and its done channel
  type StopId = nat   // one call of StopAccount

  datatype Kind = Initial | Incremental | Reconciliation | Manual

  /** The maps guarded by Service.mu. */
  datatype Maps = Maps(
    busy: set<Account>,
    deleting: set<Account>,
    activeCancel: map<Account, RunId>,
    activeKind: map<Account, Kind>,
    activeDone: map<Account, RunId>)

  datatype Verdict = Started | Deleting | Busy

  function Judge(m: Maps, a: Account): Verdict {
    if a in m.deleting then Deleting else if a in m.busy then Busy else Started
  }

  function Begin(m: Maps, a: Account, r: RunId, k: Kind): Maps {
    if Judge(m, a) != Started then m
    else m.(busy := m.busy + {a}, activeCancel := m.activeCancel[a := r],
            activeKind := m.activeKind[a := k], activeDone := m.activeDone[a := r])
  }

  function End(m: Maps, a: Account): Maps {
    m.(busy := m.busy - {a}, activeCancel := m.activeCancel - {a},
       activeKind := m.activeKind - {a}, activeDone := m.activeDone - {a})
  }

  function Delete(m: Maps, a: Account): Maps { m.(deleting := m.deleting + {a}) }

  function DoneOf(m: Maps, a: Account): Option<RunId> {
    if a in m.activeDone then Some(m.activeDone[a]) else None
  }

  function ManualRun(m: Maps, a: Account): Option<RunId> {
    if a in m.activeKind && m.activeKind[a] == Manual && a in m.activeCancel then Some(m.activeCancel[a]) else None
  }

  /** The service's maps; each method is one section under Service.mu. */
  class SyncService {
    var busy: set<Account>
    var deleting: set<Account>
    var activeCancel: map<Account, RunId>
    var activeKind: map<Account, Kind>
    var activeDone: map<Account, RunId>

    ghost function View(): Maps
      reads this
    {
      Maps(busy, deleting, activeCancel, activeKind, activeDone)
    }

    method BeginRun(a: Account, r: RunId, k: Kind) returns (v: Verdict)
      modifies this
      ensures v == Judge(old(View()), a) && View() == Begin(old(View()), a, r, k)
      // a deleted account refuses even while it is busy
      ensures v == if a in deleting then Deleting else if a in old(busy) then Busy else Started
      ensures deleting == old(deleting)
      ensures v == Started ==> busy == old(busy) + {a} && activeCancel == old(activeCancel)[a := r]
      ensures v == Started ==> activeKind == old(activeKind)[a := k] && activeDone == old(activeDone)[a := r]
      ensures v != Started ==> busy == old(busy) && activeCancel == old(activeCancel)
      ensures v != Started ==> activeKind == old(activeKind) && activeDone == old(activeDone)
    {
      if a in deleting {
        return Deleting;
      }
      if a in busy {
        return Busy;
      }
      busy := busy + {a};
      activeCancel := activeCancel[a := r];
      activeKind := activeKind[a := k];
      activeDone := activeDone[a := r];
      v := Started;
    }

    method EndRun(a: Account)
      modifies this
      ensures View() == End(old(View()), a)
      ensures busy == old(busy) - {a} && deleting == old(deleting) && activeCancel == old(activeCancel) - {a}
      ensures activeKind == old(activeKind) - {a} && activeDone == old(activeDone) - {a}
    {
      busy := busy - {a};
      activeCancel := activeCancel - {a};
      activeKind := activeKind - {a};
      activeDone := activeDone - {a};
    }

    method BeginStop(a: Account) returns (cancel: Option<RunId>, done: Option<RunId>)
      modifies this
      ensures View() == Delete(old(View()), a) && done == DoneOf(old(View()), a)
      ensures cancel == if a in activeCancel then Some(activeCancel[a]) else None
      ensures done == if a in activeDone then Some(activeDone[a]) else None
      ensures deleting == old(deleting) + {a} && busy == old(busy)
      ensures activeCancel == old(activeCancel) && activeKind == old(activeKind) && activeDone == old(activeDone)
    {
      deleting := deleting + {a};
      cancel := if a in activeCancel then Some(activeCancel[a]) else None;
      done := if a in activeDone then Some(activeDone[a]) else None;
    }

    method FindManual(a: Account) returns (cancel: Option<RunId>)
      ensures cancel == ManualRun(View(), a)
      ensures cancel.Some? <==> a in activeKind && activeKind[a] == Manual && a in activeCancel
      ensures cancel.Some? ==> cancel == Some(activeCancel[a])
    {
      cancel := if a in activeCancel then Some(activeCancel[a]) else None;
      var manual := a in activeKind && activeKind[a] == Manual;
      if !manual || cancel.None? {
        cancel := None;
      }
    }
  }

  // ---------------------------------------------- every interleaving of them

  /** A run that owns or owned its account. */
  datatype Run = Run(account: Account, kind: Kind, over: bool)

  /** A StopAccount: the done channel it waits for, and whether it has returned nil. */
  datatype Stop = Stop(account: Account, waitsFor: Option<RunId>, returned: bool)

  datatype State = State(
    maps: Maps,
    runs: map<RunId, Run>,
    stops: map<StopId, Stop>,
    userCancelled: set<RunId>)   // runs whose context CancelManualSync was given to cancel

  datatype Action =
    | BeginRun(r: RunId, a: Account, k: Kind)
    | EndRun(r: RunId)           // closes the run's done channel
    | BeginStop(p: StopId, a: Account)
    | StopReturns(p: StopId)
    | CancelManual(a: Account)

  function Start(): State {
    State(Maps({}, {}, map[], map[], map[]), map[], map[], {})
  }

  predicate Enabled(s: State, a: Action) {
    match a
    case BeginRun(r, _, _) => r !in s.runs
    case EndRun(r) => r in s.runs && !s.runs[r].over
    case BeginStop(p, _) => p !in s.stops
    case StopReturns(p) =>
      p in s.stops && (s.stops[p].waitsFor.None? ||
        (s.stops[p].waitsFor.value in s.runs && s.runs[s.stops[p].waitsFor.value].over))
    case CancelManual(_) => true
  }

  function Apply(s: State, a: Action): State
    requires Enabled(s, a)
  {
    match a
    case BeginRun(r, acc, k) =>
      s.(maps := Begin(s.maps, acc, r, k),
         runs := if Judge(s.maps, acc) == Started then s.runs[r := Run(acc, k, false)] else s.runs)
    case EndRun(r) => s.(maps := End(s.maps, s.runs[r].account), runs := s.runs[r := s.runs[r].(over := true)])
    case BeginStop(p, acc) =>
      s.(maps := Delete(s.maps, acc), stops := s.stops[p := Stop(acc, DoneOf(s.maps, acc), false)])
    case StopReturns(p) => s.(stops := s.stops[p := s.stops[p].(returned := true)])
    case CancelManual(acc) =>
      if ManualRun(s.maps, acc).Some? then s.(userCancelled := s.userCancelled + {ManualRun(s.maps, acc).value}) else s
  }

  predicate Executable(s: State, acts: seq<Action>)
    decreases |acts|
  {
    acts == [] || (Enabled(s, acts[0]) && Executable(Apply(s, acts[0]), acts[1..]))
  }

  function Exec(s: State, acts: seq<Action>): State
    requires Executable(s, acts)
    decreases |acts|
  {
    if acts == [] then s else Exec(Apply(s, acts[0]), acts[1..])
  }

  /** Run r is at work on its account. */
  predicate Active(s: State, r: RunId) { r in s.runs && !s.runs[r].over }

  /** No run is at work on account a. */
  ghost predicate Quiet(s: State, a: Account) {
    forall r :: Active(s, r) ==> s.runs[r].account != a
  }

  ghost predicate Inv(s: State) {
    && MapsInv(s)
    && (forall p :: p in s.stops ==> StopInv(s, s.stops[p]))
    && (forall r :: r in s.userCancelled ==> r in s.runs && s.runs[r].kind == Manual)
  }

  /** The four maps speak of the same accounts and name the one active run of each. */
  ghost predicate MapsInv(s: State) {
    var m := s.maps;
    && m.activeCancel.Keys == m.busy && m.activeKind.Keys == m.busy && m.activeDone.Keys == m.busy
    && (forall a :: a in m.busy ==> m.activeCancel[a] == m.activeDone[a] && Owns(s, m.activeDone[a], a))
    && (forall a :: a in m.busy ==> s.runs[m.activeDone[a]].kind == m.activeKind[a])
    && (forall r :: Active(s, r) ==> s.runs[r].account in m.busy && m.activeDone[s.runs[r].account] == r)
  }

  predicate Owns(s: State, r: RunId, a: Account) {
    Active(s, r) && s.runs[r].account == a
  }

  /** A stop keeps its account closed; only the run it waits for can still be active. */
  ghost predicate StopInv(s: State, p: Stop) {
    && p.account in s.maps.deleting
    && (forall r :: Active(s, r) && s.runs[r].account == p.account ==> p.waitsFor == Some(r))
    && (p.waitsFor.Some? ==> p.waitsFor.value in s.runs && s.runs[p.waitsFor.value].account == p.account)
    && (p.returned ==> Quiet(s, p.account))
  }

  lemma BeginKeepsMaps(s: State, r: RunId, acc: Account, k: Kind)
    requires MapsInv(s) && r !in s.runs
    ensures MapsInv(Apply(s, BeginRun(r, acc, k)))
  {
    var t := Apply(s, BeginRun(r, acc, k));
    if Judge(s.maps, acc) == Started {
      assert t.runs == s.runs[r := Run(acc, k, false)] && acc !in s.maps.busy;
      forall x | x in t.maps.busy
        ensures t.maps.activeCancel[x] == t.maps.activeDone[x] && Owns(t, t.maps.activeDone[x], x)
        ensures t.runs[t.maps.activeDone[x]].kind == t.maps.activeKind[x]
      {
        if x != acc { assert Owns(s, s.maps.activeDone[x], x); }
      }
      forall q | Active(t, q) ensures t.runs[q].account in t.maps.busy && t.maps.activeDone[t.runs[q].account] == q {
        if q != r { assert Active(s, q); }
      }
    } else {
      assert t == s;
    }
  }

  lemma EndKeepsMaps(s: State, r: RunId)
    requires MapsInv(s) && Active(s, r)
    ensures MapsInv(Apply(s, EndRun(r)))
  {
    var t := Apply(s, EndRun(r));
    forall x | x in t.maps.busy ensures Owns(t, t.maps.activeDone[x], x) {
      assert Owns(s, s.maps.activeDone[x], x);
    }
    forall q | Active(t, q) ensures t.runs[q].account in t.maps.busy && t.maps.activeDone[t.runs[q].account] == q {
      assert Active(s, q);
    }
  }

  lemma StepKeepsMaps(s: State, a: Action)
    requires MapsInv(s) && Enabled(s, a)
    ensures MapsInv(Apply(s, a))
  {
    match a {
      case BeginRun(r, acc, k) => BeginKeepsMaps(s, r, acc, k);
      case EndRun(r) => EndKeepsMaps(s, r);
      case _ =>
    }
  }

  lemma StepKeepsStops(s: State, a: Action, p: StopId)
    requires Inv(s) && Enabled(s, a) && p in Apply(s, a).stops
    ensures StopInv(Apply(s, a), Apply(s, a).stops[p])
  {
    if p in s.stops { assert StopInv(s, s.stops[p]); }
  }

  lemma StepKeepsInv(s: State, a: Action)
    requires Inv(s) && Enabled(s, a)
    ensures Inv(Apply(s, a))
  {
    var t := Apply(s, a);
    StepKeepsMaps(s, a);
    forall p | p in t.stops ensures StopInv(t, t.stops[p]) {
      StepKeepsStops(s, a, p);
    }
    hide StopInv;
  }

  lemma {:induction false} RunKeepsInv(s: State, acts: seq<Action>)
    requires Inv(s) && Executable(s, acts)
    ensures Inv(Exec(s, acts))
    decreases |acts|
  {
    hide Inv, Apply;
    if acts != [] {
      StepKeepsInv(s, acts[0]);
      RunKeepsInv(Apply(s, acts[0]), acts[1..]);
    }
  }

  /** In every interleaving at most one run is active for an account, and the four
      maps agree on which accounts are busy and with which run. */
  lemma OneRunPerAccount(acts: seq<Action>, r1: RunId, r2: RunId)
    requires Executable(Start(), acts)
    ensures var s := Exec(Start(), acts);
      && (Active(s, r1) && Active(s, r2) && s.runs[r1].account == s.runs[r2].account ==> r1 == r2)
      && s.maps.activeCancel.Keys == s.maps.busy
      && s.maps.activeKind.Keys == s.maps.busy && s.maps.activeDone.Keys == s.maps.busy
      && (Active(s, r1) ==>
            var a := s.runs[r1].account;
            && a in s.maps.busy && s.maps.activeCancel[a] == r1
            && s.maps.activeDone[a] == r1 && s.maps.activeKind[a] == s.runs[r1].kind)
      && (r1 in s.userCancelled ==> r1 in s.runs && s.runs[r1].kind == Manual)
  {
    RunKeepsInv(Start(), acts);
  }

  lemma {:induction false} StopsStay(s: State, acts: seq<Action>, p: StopId)
    requires Executable(s, acts) && p in s.stops && s.stops[p].returned
    ensures p in Exec(s, acts).stops && Exec(s, acts).stops[p] == s.stops[p]
    decreases |acts|
  {
    if acts != [] {
      StopsStay(Apply(s, acts[0]), acts[1..], p);
    }
  }

  /** Once StopAccount has returned nil, no run for that account is active in that
      state or in any state after it. */
  lemma StoppedForGood(acts: seq<Action>, later: seq<Action>, p: StopId)
    requires Executable(Start(), acts) && Executable(Exec(Start(), acts), later)
    requires p in Exec(Start(), acts).stops && Exec(Start(), acts).stops[p].returned
    ensures Quiet(Exec(Exec(Start(), acts), later), Exec(Start(), acts).stops[p].account)
  {
    var s := Exec(Start(), acts);
    RunKeepsInv(Start(), acts);
    RunKeepsInv(s, later);
    StopsStay(s, later, p);
    assert StopInv(Exec(s, later), s.stops[p]);
  }

  /** A run is admitted exactly when its account is not being deleted and no run is active on
      it; whatever the verdict, every other run goes on as before. */
  lemma AdmittedIffQuiet(acts: seq<Action>, r: RunId, a: Account, k: Kind)
    requires Executable(Start(), acts) && r !in Exec(Start(), acts).runs
    ensures var s := Exec(Start(), acts);
      var t := Apply(s, BeginRun(r, a, k));
      && (Active(t, r) <==> a !in s.maps.deleting && Quiet(s, a))
      && (Active(t, r) ==> t.runs[r] == Run(a, k, false))
      && t.runs - {r} == s.runs && t.stops == s.stops && t.maps.deleting == s.maps.deleting
  {
    RunKeepsInv(Start(), acts);
    assert MapsInv(Exec(Start(), acts));
    hide Executable, Exec, Inv, MapsInv, Quiet, Active, Apply;
    AdmittedFrom(Exec(Start(), acts), r, a, k);
  }

  lemma AdmittedFrom(s: State, r: RunId, a: Account, k: Kind)
    requires MapsInv(s) && r !in s.runs
    ensures var t := Apply(s, BeginRun(r, a, k));
      && (Active(t, r) <==> a !in s.maps.deleting && Quiet(s, a))
      && (Active(t, r) ==> t.runs[r] == Run(a, k, false))
      && t.runs - {r} == s.runs && t.stops == s.stops && t.maps.deleting == s.maps.deleting
  {
    if a in s.maps.busy {
      assert Owns(s, s.maps.activeDone[a], a);
    }
    assert Apply(s, BeginRun(r, a, k)).runs - {r} == s.runs;
  }

  /** The end of a run frees its account and touches no other run. */
  lemma EndedRunFreesAccount(acts: seq<Action>, r: RunId)
    requires Executable(Start(), acts) && Active(Exec(Start(), acts), r)
    ensures var s := Exec(Start(), acts);
      var t := Apply(s, EndRun(r));
      && Quiet(t, s.runs[r].account)
      && (forall q :: q != r ==> (Active(t, q) <==> Active(s, q))) && t.stops == s.stops
  {
    RunKeepsInv(Start(), acts);
  }

  /** CancelManualSync cancels exactly the active manual run of the account, if there is one. */
  lemma CancelsManualRunsOnly(acts: seq<Action>, a: Account, r: RunId)
    requires Executable(Start(), acts)
    ensures var s := Exec(Start(), acts);
      var t := Apply(s, CancelManual(a));
      && (r in t.userCancelled <==>
            r in s.userCancelled || (Active(s, r) && s.runs[r].account == a && s.runs[r].kind == Manual))
      && t.maps == s.maps && t.runs == s.runs && t.stops == s.stops
  {
    RunKeepsInv(Start(), acts);
    var s := Exec(Start(), acts);
    if a in s.maps.busy {
      assert Owns(s, s.maps.activeDone[a], a);
    }
  }

  /** StopAccount closes the account at once, and can return exactly when no run is active on
      it any more: it neither returns early nor waits for a run that is over. */
  lemma StopReturnsIffQuiet(acts: seq<Action>, p: StopId)
    requires Executable(Start(), acts) && p in Exec(Start(), acts).stops
    ensures var s := Exec(Start(), acts);
      && s.stops[p].account in s.maps.deleting
      && (Enabled(s, StopReturns(p)) <==> Quiet(s, s.stops[p].account))
      && (Enabled(s, StopReturns(p)) ==> Apply(s, StopReturns(p)).stops[p].returned)
  {
    RunKeepsInv(Start(), acts);
    var s := Exec(Start(), acts);
    assert StopInv(s, s.stops[p]);
    var w := s.stops[p].waitsFor;
    if Quiet(s, s.stops[p].account) && w.Some? {
      assert !Active(s, w.value);
    }
  }

  /** And a StopAccount that begins now is such a stop of that account. */
  lemma StopBegins(acts: seq<Action>, p: StopId, a: Account)
    requires Executable(Start(), acts) && p !in Exec(Start(), acts).stops
    ensures var s := Exec(Start(), acts);
      var t := Apply(s, BeginStop(p, a));
      && p in t.stops && t.stops[p].account == a && !t.stops[p].returned && a in t.maps.deleting
      && (t.stops[p].waitsFor.None? <==> Quiet(s, a))
      && (forall r :: Active(s, r) && s.runs[r].account == a ==> t.stops[p].waitsFor == Some(r))
      && t.runs == s.runs && t.stops - {p} == s.stops
  {
    RunKeepsInv(Start(), acts);
    var s := Exec(Start(), acts);
    if a in s.maps.busy {
      assert Owns(s, s.maps.activeDone[a], a);
    }
    assert Apply(s, BeginStop(p, a)).stops - {p} == s.stops;
  }

  /** A run is its steps: one more action is applied to where the run has come. */
  lemma {:induction false} RunGoesOn(s: State, acts: seq<Action>, a: Action)
    requires Executable(s, acts) && Enabled(Exec(s, acts), a)
    ensures Executable(s, acts + [a]) && Exec(s, acts + [a]) == Apply(Exec(s, acts), a)
    decreases |acts|
  {
    var all := acts + [a];
    if acts == [] {
      assert all[1..] == [];
    } else {
      assert all[0] == acts[0] && all[1..] == acts[1..] + [a];
      RunGoesOn(Apply(s, acts[0]), acts[1..], a);
    }
  }
}
