/** Artifact leases, internal/maintenance/leases.go: which paths maintenance may not
    touch, and the lock-held steps that take, release and respect leases. */
module Leases {
  import opened Wrappers

  /** An absolute, cleaned and symlink-free path: its components from the root. */
  type Path = seq<string>

  predicate IsComponent(c: string) { c != "" && '/' !in c }

  predicate IsPath(p: Path) { forall i :: 0 <= i < |p| ==> IsComponent(p[i]) }

  // ------------------------------------------------- paths as the source sees them

  function Below(p: Path): string {
    if p == [] then "" else "/" + p[0] + Below(p[1..])
  }

  /** The path as a string. */
  function PathString(p: Path): string { if p == [] then "/" else Below(p) }

  predicate HasPrefix(s: string, prefix: string) { |prefix| <= |s| && s[..|prefix|] == prefix }

  /** The source's test of one active path against another path, on strings. */
  predicate Clashes(path: string, active: string) {
    path == active || HasPrefix(path, active + "/") || HasPrefix(active, path + "/")
  }

  /** One path is the other or lies inside it. */
  predicate Overlaps(p: Path, q: Path) { p <= q || q <= p }

  function FirstSlash(s: string): nat {
    if s == "" || s[0] == '/' then 0 else 1 + FirstSlash(s[1..])
  }

  lemma {:induction false} FirstSlashIs(c: string, rest: string)
    requires '/' !in c && (rest == "" || rest[0] == '/')
    ensures FirstSlash(c + rest) == |c|
  {
    if c == "" {
      assert c + rest == rest;
    } else {
      assert (c + rest)[1..] == c[1..] + rest;
      FirstSlashIs(c[1..], rest);
    }
  }

  /** A component is cut from what follows in one way only. */
  lemma CutAtSlash(a: string, x: string, b: string, y: string)
    requires '/' !in a && '/' !in b && (x == "" || x[0] == '/') && (y == "" || y[0] == '/')
    requires a + x == b + y
    ensures a == b && x == y
  {
    FirstSlashIs(a, x);
    FirstSlashIs(b, y);
    assert a == (a + x)[..|a|] && b == (b + y)[..|b|];
    assert x == (a + x)[|a|..] && y == (b + y)[|b|..];
  }

  predicate Contains(a: Path, b: Path) { Below(a) == Below(b) || HasPrefix(Below(b), Below(a) + "/") }

  lemma Unroll(p: Path)
    requires p != []
    ensures Below(p) == "/" + (p[0] + Below(p[1..]))
    ensures Below(p) != ""
    ensures p[1..] != [] ==> Below(p[1..])[0] == '/'
  {
  }

  /** On strings "the same or followed by a slash" is "starts with these components". */
  lemma {:induction false} ContainsIffPrefix(a: Path, b: Path)
    requires IsPath(a) && IsPath(b)
    ensures Contains(a, b) <==> a <= b
    decreases |a|
  {
    if a == [] {
      if b != [] {
        Unroll(b);
      }
    } else if b == [] {
      Unroll(a);
    } else {
      Unroll(a);
      Unroll(b);
      ContainsIffPrefix(a[1..], b[1..]);
      if a <= b {
        assert a[1..] <= b[1..];
        TailsGive(a, b);
      }
      if Contains(a, b) {
        ContainsGives(a, b);
        assert a == [a[0]] + a[1..] && b == [b[0]] + b[1..];
      }
    }
  }

  lemma TailsGive(a: Path, b: Path)
    requires a != [] && b != [] && a[0] == b[0] && Contains(a[1..], b[1..])
    ensures Contains(a, b)
  {
    Unroll(a);
    Unroll(b);
    hide Below;
    var x, y := Below(a[1..]), Below(b[1..]);
    if x != y {
      BehindSame("/" + a[0], x, y);
      assert "/" + a[0] + x == "/" + (a[0] + x) && "/" + a[0] + y == "/" + (a[0] + y);
    }
  }

  lemma BehindSame(head: string, x: string, y: string)
    requires HasPrefix(y, x + "/")
    ensures HasPrefix(head + y, head + x + "/")
  {
    assert y == (x + "/") + y[|x| + 1..];
    assert head + y == (head + x + "/") + y[|x| + 1..];
  }

  lemma ContainsGives(a: Path, b: Path)
    requires a != [] && b != [] && IsPath(a) && IsPath(b) && Contains(a, b)
    ensures a[0] == b[0] && Contains(a[1..], b[1..])
  {
    Unroll(a);
    Unroll(b);
    hide Below;
    var x, y := Below(a[1..]), Below(b[1..]);
    assert IsComponent(a[0]) && IsComponent(b[0]);
    assert Below(a)[1..] == a[0] + x && Below(b)[1..] == b[0] + y;
    if Below(a) == Below(b) {
      CutAtSlash(a[0], x, b[0], y);
    } else {
      var t := Below(b)[|Below(a)| + 1..];
      assert Below(b) == Below(a) + "/" + t;
      assert Below(b)[1..] == a[0] + (x + "/" + t);
      CutAtSlash(a[0], x + "/" + t, b[0], y);
      assert y[..|x| + 1] == x + "/";
    }
  }

  /** Away from the root the string test is overlap of the paths; a lease on the root
      itself clashes with nothing but the root. */
  lemma ClashesIffOverlaps(p: Path, active: Path)
    requires IsPath(p) && IsPath(active)
    ensures p != [] && active != [] ==> (Clashes(PathString(p), PathString(active)) <==> Overlaps(p, active))
    ensures p == [] || active == [] ==> (Clashes(PathString(p), PathString(active)) <==> p == active)
  {
    ContainsIffPrefix(p, active);
    ContainsIffPrefix(active, p);
    if p == [] && active != [] {
      RootAlone(active);
    } else if active == [] && p != [] {
      RootAlone(p);
    }
  }

  lemma RootAlone(p: Path)
    requires p != [] && IsPath(p)
    ensures !Clashes("/", PathString(p)) && !Clashes(PathString(p), "/")
  {
    assert IsComponent(p[0]);
    var s := Below(p);
    assert s[0] == '/' && s[1] == p[0][0];
    assert p[0][0] in p[0];
    assert |s| >= 2;
    assert ("/" + "/")[1] == '/';
    assert s[..2] == [s[0], s[1]];
  }

  // -------------------------------------------------------------- the lock-held steps

  /** What Protect hands out: the path and whether its release has run. */
  datatype Lease = Lease(path: Path, released: bool)

  /** A removal, with the paths under lease when it happened. */
  datatype Removal = Removal(path: Path, held: set<Path>)

  datatype State = State(active: map<Path, nat>, leases: seq<Lease>, removals: seq<Removal>)

  /** Protect of a path, or of a blank one; a release, which may be called again; a removal
      by RemoveIfUnowned or by a cleaning pass. Each holds the lock throughout. */
  datatype Action = Protect(target: Option<Path>) | Release(lease: nat) | Remove(path: Path)

  predicate Protected(active: map<Path, nat>, path: Path) {
    exists a :: a in active && Clashes(PathString(path), PathString(a))
  }

  lemma ProtectedIff(active: map<Path, nat>, path: Path)
    ensures !Protected(active, path) <==> forall a :: a in active ==> !Clashes(PathString(path), PathString(a))
  {
  }

  function Held(leases: seq<Lease>): set<Path> {
    set i | 0 <= i < |leases| && !leases[i].released :: leases[i].path
  }

  function Counted(active: map<Path, nat>, path: Path): map<Path, nat> {
    active[path := (if path in active then active[path] else 0) + 1]
  }

  function Uncounted(active: map<Path, nat>, path: Path): map<Path, nat>
    requires path in active
  {
    if active[path] <= 1 then active - {path} else active[path := active[path] - 1]
  }

  function Apply(s: State, a: Action): State {
    match a
    case Protect(None) => s
    case Protect(Some(path)) => s.(active := Counted(s.active, path), leases := s.leases + [Lease(path, false)])
    case Release(i) =>
      if i >= |s.leases| || s.leases[i].released || s.leases[i].path !in s.active then s
      else s.(active := Uncounted(s.active, s.leases[i].path), leases := s.leases[i := Lease(s.leases[i].path, true)])
    case Remove(path) =>
      if Protected(s.active, path) then s else s.(removals := s.removals + [Removal(path, Held(s.leases))])
  }

  function Exec(s: State, actions: seq<Action>): State
    decreases |actions|
  {
    if actions == [] then s else Exec(Apply(s, actions[0]), actions[1..])
  }

  /** A run is its steps: one more action is applied to where the run has come. */
  lemma {:induction false} RunGoesOn(s: State, actions: seq<Action>, a: Action)
    ensures Exec(s, actions + [a]) == Apply(Exec(s, actions), a)
    decreases |actions|
  {
    var all := actions + [a];
    if actions == [] {
      assert all[1..] == [];
    } else {
      assert all[0] == actions[0] && all[1..] == actions[1..] + [a];
      RunGoesOn(Apply(s, actions[0]), actions[1..], a);
    }
  }

  const INITIAL: State := State(map[], [], [])

  // ------------------------------------------------------------------- the invariant

  function Outstanding(leases: seq<Lease>, path: Path): nat {
    if leases == [] then 0
    else Outstanding(leases[..|leases| - 1], path) + (if leases[|leases| - 1] == Lease(path, false) then 1 else 0)
  }

  /** The counts are exactly the leases not yet released. */
  ghost predicate Balanced(s: State) {
    forall p :: (if p in s.active then s.active[p] else 0) == Outstanding(s.leases, p)
  }

  ghost predicate NoZeroes(s: State) {
    forall p :: p in s.active ==> s.active[p] > 0
  }

  /** Every removal left every path then under lease alone. */
  ghost predicate Respected(s: State) {
    forall k :: 0 <= k < |s.removals| ==> RespectsHeld(s.removals[k])
  }

  ghost predicate RespectsHeld(r: Removal) {
    forall q :: q in r.held ==> !Clashes(PathString(r.path), PathString(q))
  }

  ghost predicate Inv(s: State) { Balanced(s) && NoZeroes(s) && Respected(s) }

  lemma {:induction false} OutstandingIffHeld(leases: seq<Lease>, path: Path)
    ensures Outstanding(leases, path) > 0 <==> path in Held(leases)
  {
    if leases != [] {
      var front := leases[..|leases| - 1];
      OutstandingIffHeld(front, path);
      if path in Held(front) {
        var i :| 0 <= i < |front| && !front[i].released && front[i].path == path;
        assert leases[i] == front[i];
      }
      if path in Held(leases) {
        var i :| 0 <= i < |leases| && !leases[i].released && leases[i].path == path;
        if i < |front| {
          assert leases[i] == front[i];
        }
      }
    }
  }

  lemma OutstandingMore(leases: seq<Lease>, l: Lease, path: Path)
    ensures Outstanding(leases + [l], path) == Outstanding(leases, path) + (if l == Lease(path, false) then 1 else 0)
  {
    assert (leases + [l])[..|leases|] == leases;
  }

  lemma {:induction false} OutstandingReleased(leases: seq<Lease>, i: nat, path: Path)
    requires i < |leases| && !leases[i].released
    ensures var after := leases[i := Lease(leases[i].path, true)];
      Outstanding(after, path) == Outstanding(leases, path) - (if path == leases[i].path then 1 else 0)
  {
    var last := |leases| - 1;
    var after := leases[i := Lease(leases[i].path, true)];
    if i < last {
      OutstandingReleased(leases[..last], i, path);
      assert after[..last] == leases[..last][i := Lease(leases[i].path, true)];
    } else {
      assert after[..last] == leases[..last];
    }
  }

  lemma StepKeepsInv(s: State, a: Action)
    requires Inv(s)
    ensures Inv(Apply(s, a))
  {
    hide Clashes, PathString, Outstanding;
    var t := Apply(s, a);
    match a {
      case Protect(path) =>
        if path.Some? {
          forall p ensures (if p in t.active then t.active[p] else 0) == Outstanding(t.leases, p) {
            OutstandingMore(s.leases, Lease(path.value, false), p);
          }
        }
      case Release(i) =>
        if t != s {
          forall p ensures (if p in t.active then t.active[p] else 0) == Outstanding(t.leases, p) {
            OutstandingReleased(s.leases, i, p);
          }
        }
      case Remove(path) =>
        if t != s {
          forall q | q in Held(s.leases) ensures !Clashes(PathString(path), PathString(q)) {
            OutstandingIffHeld(s.leases, q);
          }
          assert RespectsHeld(Removal(path, Held(s.leases)));
        }
    }
  }

  lemma {:induction false} RunKeepsInv(s: State, actions: seq<Action>)
    requires Inv(s)
    ensures Inv(Exec(s, actions))
    decreases |actions|
  {
    hide Apply, Inv;
    if actions != [] {
      StepKeepsInv(s, actions[0]);
      RunKeepsInv(Apply(s, actions[0]), actions[1..]);
    }
  }

  /** Over every interleaving of protecting, releasing (once or again) and removing, no
      removal ever touches a path that overlaps one then under lease, and a path is counted
      exactly as often as it is leased and not released. */
  lemma LeasesAreRespected(actions: seq<Action>, k: nat, held: Path)
    requires k < |Exec(INITIAL, actions).removals| && held in Exec(INITIAL, actions).removals[k].held
    requires IsPath(held) && held != []
    requires IsPath(Exec(INITIAL, actions).removals[k].path) && Exec(INITIAL, actions).removals[k].path != []
    ensures !Overlaps(Exec(INITIAL, actions).removals[k].path, held)
    ensures forall p :: p in Exec(INITIAL, actions).active <==> p in Held(Exec(INITIAL, actions).leases)
  {
    hide Exec, Clashes, PathString, Overlaps;
    RunKeepsInv(INITIAL, actions);
    var s := Exec(INITIAL, actions);
    assert RespectsHeld(s.removals[k]);
    ClashesIffOverlaps(s.removals[k].path, held);
    forall p ensures p in s.active <==> p in Held(s.leases) {
      OutstandingIffHeld(s.leases, p);
      assert (if p in s.active then s.active[p] else 0) == Outstanding(s.leases, p);
    }
  }

  /** Releasing a lease again changes nothing. */
  lemma ReleaseOnce(s: State, i: nat)
    requires Inv(s)
    ensures Apply(Apply(s, Release(i)), Release(i)) == Apply(s, Release(i))
  {
  }

  // ----------------------------------------------------------------- the artifacts

  /** In every run a path is removed exactly when no lease still held clashes with it. */
  lemma RemovedIffFree(actions: seq<Action>, path: Path)
    ensures var s := Exec(INITIAL, actions);
      var t := Apply(s, Remove(path));
      && (t.removals != s.removals <==>
            forall i :: 0 <= i < |s.leases| && !s.leases[i].released ==> !ClashesWith(path, s.leases[i]))
      && (t.removals != s.removals ==> t.removals == s.removals + [Removal(path, Held(s.leases))])
      && t.leases == s.leases && t.active == s.active
  {
    RunKeepsInv(INITIAL, actions);
    var s := Exec(INITIAL, actions);
    hide Exec;
    forall p ensures p in s.active <==> p in Held(s.leases) {
      OutstandingIffHeld(s.leases, p);
    }
    if i: nat :| i < |s.leases| && !s.leases[i].released && ClashesWith(path, s.leases[i]) {
      assert s.leases[i].path in Held(s.leases);
    }
  }

  predicate ClashesWith(path: Path, lease: Lease) { Clashes(PathString(path), PathString(lease.path)) }

  class Artifacts {
    var active: map<Path, nat>
    var leases: seq<Lease>
    ghost var removals: seq<Removal>

    constructor ()
      ensures Contents() == INITIAL
    {
      active, leases, removals := map[], [], [];
    }

    ghost function Contents(): State
      reads this
    {
      State(active, leases, removals)
    }

    /** Protect; the lease is the position in `leases`, or none for a blank path. */
    method Protect(path: Option<Path>) returns (lease: Option<nat>)
      modifies this
      ensures Contents() == Apply(old(Contents()), Action.Protect(path))
      ensures lease == if path.Some? then Some(|old(leases)|) else None
      ensures path.Some? ==> leases == old(leases) + [Lease(path.value, false)]
      ensures path.Some? ==> path.value in active && active - {path.value} == old(active) - {path.value}
      ensures path.Some? ==>
        active[path.value] == 1 + if path.value in old(active) then old(active)[path.value] else 0
      ensures path.None? ==> leases == old(leases) && active == old(active)
    {
      if path.None? { return None; }
      active := active[path.value := (if path.value in active then active[path.value] else 0) + 1];
      leases := leases + [Lease(path.value, false)];
      return Some(|leases| - 1);
    }

    method Release(lease: nat)
      requires Inv(Contents()) && lease < |leases|
      modifies this
      ensures Contents() == Apply(old(Contents()), Action.Release(lease))
      ensures old(leases)[lease].released ==> leases == old(leases) && active == old(active)
      ensures leases == old(leases)[lease := Lease(old(leases)[lease].path, true)]
      ensures !old(leases)[lease].released ==>
        var path := old(leases)[lease].path;
        && path in old(active) && active - {path} == old(active) - {path}
        && (path in active <==> old(active)[path] > 1) && (path in active ==> active[path] == old(active)[path] - 1)
    {
      if leases[lease].released { return; }
      var path := leases[lease].path;
      OutstandingIffHeld(leases, path);
      assert path in Held(leases);
      active := active[path := active[path] - 1];
      if active[path] == 0 {
        active := active - {path};
      }
      leases := leases[lease := Lease(path, true)];
    }

    /** protectedLocked: the walk over the unordered map of active paths. */
    method ProtectedLocked(path: Path) returns (found: bool)
      ensures found <==> Protected(active, path)
    {
      var rest := active.Keys;
      while rest != {}
        invariant rest <= active.Keys
        invariant forall a :: a in active.Keys - rest ==> !Clashes(PathString(path), PathString(a))
        decreases |rest|
      {
        var a :| a in rest;
        if Clashes(PathString(path), PathString(a)) { return true; }
        rest := rest - {a};
      }
      return false;
    }

    /** RemoveIfUnowned up to the removal itself, whose own failure is the caller's error. */
    method RemoveIfUnowned(path: Path) returns (removed: bool)
      modifies this`removals
      ensures Contents() == Apply(old(Contents()), Action.Remove(path))
      ensures removed <==> !Protected(active, path)
      ensures removed <==> forall a :: a in active ==> !Clashes(PathString(path), PathString(a))
      ensures removed ==> |removals| == |old(removals)| + 1 && removals[|old(removals)|].path == path
      ensures !removed ==> removals == old(removals)
    {
      var found := ProtectedLocked(path);
      if found { return false; }
      removals := removals + [Removal(path, Held(leases))];
      return true;
    }
  }
}
